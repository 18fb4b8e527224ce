/** `ArrayDict` (arraydict.py): a column store that maps each column name to
    a one-dimensional array, indexed by name, by a list of names, or by a
    row or a slice of rows taken across every column. */
module ArrayDicts {
  import opened PyErrors
  import opened Dicts

  /** The `_data` dict: column name to the column's elements. */
  type Store<T> = Dict<string, seq<T>>

  /** `len(set(len(arr) for arr in arrays)) < 2`: all the arrays have the
      same length, which holds in particular for none or one. */
  function CheckArrayLength<T>(arrays: seq<seq<T>>): bool
  {
    var lengths := set i | 0 <= i < |arrays| :: |arrays[i]|;
    |lengths| < 2
  }

  /** The check passes exactly when all the arrays have one length. */
  lemma CheckArrayLengthExact<T>(arrays: seq<seq<T>>)
    ensures CheckArrayLength(arrays) <==> forall i, j | 0 <= i < |arrays| && 0 <= j < |arrays| :: |arrays[i]| == |arrays[j]|
  {
    var lengths := set i | 0 <= i < |arrays| :: |arrays[i]|;
    if forall i, j | 0 <= i < |arrays| && 0 <= j < |arrays| :: |arrays[i]| == |arrays[j]| {
      if arrays != [] {
        assert lengths <= {|arrays[0]|};
        SubsetCard(lengths, {|arrays[0]|});
      }
    } else {
      var i, j :| 0 <= i < |arrays| && 0 <= j < |arrays| && |arrays[i]| != |arrays[j]|;
      assert {|arrays[i]|, |arrays[j]|} <= lengths;
      SubsetCard({|arrays[i]|, |arrays[j]|}, lengths);
    }
  }

  lemma {:induction false} SubsetCard<X>(a: set<X>, b: set<X>)
    requires a <= b
    ensures |a| <= |b|
    decreases |b|
  {
    if a != {} {
      var x :| x in a;
      SubsetCard(a - {x}, b - {x});
    }
  }

  /** A value given to the constructor: a scalar, or a one-dimensional
      array. */
  datatype Cell<T> = Scalar(x: T) | Array(xs: seq<T>)

  /** `np.atleast_1d(v)`: a scalar becomes the one-element array. */
  function AtLeast1d<T>(c: Cell<T>): seq<T>
  {
    match c
    case Scalar(x) => [x]
    case Array(xs) => xs
  }

  /** `{k: np.atleast_1d(v) for k, v in source.items()}` */
  function Columns<T>(source: Dict<string, Cell<T>>): (r: Store<T>)
    ensures r.keys == source.keys
    ensures forall k | k in source.vals :: k in r.vals && r.vals[k] == AtLeast1d(source.vals[k])
  {
    RawDict(source.keys, map k | k in source.vals :: AtLeast1d(source.vals[k]))
  }

  /** The constructor keeps every name in order, and every column it stores
      is an array: a scalar is wrapped, an array is kept. */
  lemma ColumnsWrap<T>(source: Dict<string, Cell<T>>, k: string)
    requires k in source.vals
    ensures k in Columns(source).vals
    ensures source.vals[k].Scalar? ==> Columns(source).vals[k] == [source.vals[k].x]
    ensures source.vals[k].Array? ==> Columns(source).vals[k] == source.vals[k].xs
  {
  }

  /** `[row[k] for row in rows]`, for rows that all hold `k`. */
  function ColumnOf<T>(rows: seq<Dict<string, T>>, k: string): (r: seq<T>)
    requires forall j | 0 <= j < |rows| :: k in rows[j].vals
    ensures |r| == |rows|
    ensures forall j | 0 <= j < |rows| :: r[j] == rows[j].vals[k]
  {
    if rows == [] then [] else [rows[0].vals[k]] + ColumnOf(rows[1..], k)
  }

  /** Every row holds every key of the first row. */
  ghost predicate HasSchema<T>(rows: seq<Dict<string, T>>)
    requires rows != []
  {
    forall j, k | 0 <= j < |rows| && k in rows[0].vals :: k in rows[j].vals
  }

  /** `from_dicts(rows)`: the columns named by the first row's keys, in its
      order, each made of that key's value in every row. No rows raise
      `IndexError` (`source[0]`), and a row without one of the keys raises
      `KeyError`. */
  function FromDicts<T>(rows: seq<Dict<string, T>>): (r: Result<Store<T>>)
    ensures r == Err(IndexError) <==> rows == []
    ensures r == Err(KeyError) <==> rows != [] && !HasSchema(rows)
    ensures r.Ok? ==> r.value.keys == rows[0].keys
  {
    if rows == [] then Err(IndexError)
    else if exists j, k | 0 <= j < |rows| && k in rows[0].vals :: k !in rows[j].vals then Err(KeyError)
    else Ok(RawDict(rows[0].keys, map k | k in rows[0].vals :: ColumnOf(rows, k)))
  }

  /** The store `from_dicts` builds is the transpose of the rows: column
      `k` holds, at position `j`, what row `j` holds under `k`. */
  lemma FromDictsTranspose<T>(rows: seq<Dict<string, T>>, k: string, j: nat)
    requires FromDicts(rows).Ok? && k in rows[0].vals && j < |rows|
    ensures k in FromDicts(rows).value.vals
    ensures |FromDicts(rows).value.vals[k]| == |rows|
    ensures FromDicts(rows).value.vals[k][j] == rows[j].vals[k]
  {
  }

  /** An integer index into an array of length `n`, as Python reads it: a
      negative index counts from the end, and one out of range is `None`,
      which numpy reports as `IndexError`. */
  function RowIndex(i: int, n: nat): (r: Option<nat>)
    ensures r.Some? <==> -(n as int) <= i < n
    ensures r.Some? ==> r.value < n && r.value as int == (if i < 0 then i + n else i)
  {
    if i < -(n as int) || n <= i then None else if i < 0 then Some((i + n) as nat) else Some(i as nat)
  }

  /** One bound of `slice(lo, hi).indices(n)`: a missing bound takes its
      default, a negative one counts from the end, and the result is
      clamped to `[0, n]`. */
  function Bound(b: Option<int>, default: nat, n: nat): (r: nat)
    requires default <= n
    ensures r <= n
  {
    match b
    case None => default
    case Some(x) => if x < 0 then (if x + n < 0 then 0 else (x + n) as nat) else if x > n then n else x as nat
  }

  /** The positions `[a, a + w)` the slice `lo:hi` selects in an array of
      length `n`; an empty slice has `w == 0`. */
  function SpanStart(lo: Option<int>, n: nat): nat { Bound(lo, 0, n) }

  function SpanWidth(lo: Option<int>, hi: Option<int>, n: nat): (w: nat)
    ensures SpanStart(lo, n) + w <= n
  {
    var a := Bound(lo, 0, n);
    var b := Bound(hi, n, n);
    if a < b then b - a else 0
  }

  /** `col[lo:hi]` */
  function Slice<T>(col: seq<T>, lo: Option<int>, hi: Option<int>): (r: seq<T>)
    ensures |r| == SpanWidth(lo, hi, |col|)
    ensures forall t | 0 <= t < |r| :: r[t] == col[SpanStart(lo, |col|) + t]
  {
    var a := SpanStart(lo, |col|);
    col[a..a + SpanWidth(lo, hi, |col|)]
  }

  /** The key of `ad[key]` and `ad[key] = value`. */
  datatype Index = Name(s: string) | Names(ks: seq<string>) | Row(i: int) | Span(lo: Option<int>, hi: Option<int>) | OtherIndex

  /** What `ad[key]` returns: one column, or a new `ArrayDict`. */
  datatype Got<T> = Column(col: seq<T>) | Table(d: Store<T>)

  /** The pairs `(k, data[k])` for the names of `ks`, all of them present. */
  function Picked<T>(data: Store<T>, ks: seq<string>): (r: seq<(string, seq<T>)>)
    requires forall t | 0 <= t < |ks| :: ks[t] in data.vals
    ensures |r| == |ks|
    ensures forall t | 0 <= t < |ks| :: r[t] == (ks[t], data.vals[ks[t]])
  {
    if ks == [] then [] else [(ks[0], data.vals[ks[0]])] + Picked(data, ks[1..])
  }

  /** `ArrayDict({k: data[k] for k in ks})`: a missing name raises
      `KeyError`. */
  function Pick<T>(data: Store<T>, ks: seq<string>): Result<Store<T>>
  {
    if exists t | 0 <= t < |ks| :: ks[t] !in data.vals then Err(KeyError)
    else Ok(FromPairs(Picked(data, ks)))
  }

  /** Picking names gives a store with exactly those columns, each as
      `self` holds it, and fails with `KeyError` exactly when a name is
      missing. */
  lemma PickExact<T>(data: Store<T>, ks: seq<string>)
    ensures Pick(data, ks).Ok? <==> forall t | 0 <= t < |ks| :: ks[t] in data.vals
    ensures Pick(data, ks).Err? ==> Pick(data, ks).error == KeyError
    ensures Pick(data, ks).Ok? ==>
              && (forall k :: k in Pick(data, ks).value.vals <==> k in ks)
              && (forall k | k in Pick(data, ks).value.vals :: k in data.vals && Pick(data, ks).value.vals[k] == data.vals[k])
  {
    if Pick(data, ks).Ok? {
      var items := Picked(data, ks);
      var r := FromPairs(items);
      FromPairsKeys(items);
      assert Functional(items);
      forall k ensures k in r.vals <==> k in ks {
        if k in ks {
          var t :| 0 <= t < |ks| && ks[t] == k;
          assert items[t].0 == k;
        }
      }
      forall k | k in r.vals ensures k in data.vals && r.vals[k] == data.vals[k] {
        var t :| 0 <= t < |items| && items[t].0 == k;
        FromPairsFunctional(items, t);
      }
    }
  }

  /** `ArrayDict({k: v[i] for k, v in data.items()})`: every column
      contributes the one-element array `[v[i]]` (through `np.atleast_1d`),
      and an index out of range of any column raises `IndexError`. */
  function RowOf<T>(data: Store<T>, i: int): (r: Result<Store<T>>)
    ensures r.Err? <==> exists k | k in data.vals :: RowIndex(i, |data.vals[k]|).None?
    ensures r.Err? ==> r.error == IndexError
    ensures r.Ok? ==> r.value.keys == data.keys
    ensures r.Ok? ==> forall k | k in data.vals ::
              && RowIndex(i, |data.vals[k]|).Some?
              && k in r.value.vals && r.value.vals[k] == [data.vals[k][RowIndex(i, |data.vals[k]|).value]]
  {
    if exists k | k in data.vals :: RowIndex(i, |data.vals[k]|).None? then Err(IndexError)
    else Ok(RawDict(data.keys, map k | k in data.vals :: [data.vals[k][RowIndex(i, |data.vals[k]|).value]]))
  }

  /** `ArrayDict({k: v[lo:hi] for k, v in data.items()})` */
  function SpanOf<T>(data: Store<T>, lo: Option<int>, hi: Option<int>): (r: Store<T>)
    ensures r.keys == data.keys
    ensures forall k | k in data.vals :: k in r.vals && r.vals[k] == Slice(data.vals[k], lo, hi)
  {
    RawDict(data.keys, map k | k in data.vals :: Slice(data.vals[k], lo, hi))
  }

  /** `ad[key]`: a name gives its column, a list of names a sub-store, an
      integer or a slice the same row or rows of every column, and any other
      key raises `KeyError`. */
  function GetItem<T>(data: Store<T>, key: Index): (r: Result<Got<T>>)
    ensures r.Err? ==> r.error == KeyError || (key.Row? && r.error == IndexError)
    ensures key.Name? ==> (r.Ok? <==> key.s in data.vals)
    ensures key.Span? ==> r.Ok?
    ensures key.OtherIndex? ==> r == Err(KeyError)
  {
    match key
    case Name(s) => if s in data.vals then Ok(Column(data.vals[s])) else Err(KeyError)
    case Names(ks) => (match Pick(data, ks) case Ok(d) => Ok(Table(d)) case Err(e) => Err(e))
    case Row(i) => (match RowOf(data, i) case Ok(d) => Ok(Table(d)) case Err(e) => Err(e))
    case Span(lo, hi) => Ok(Table(SpanOf(data, lo, hi)))
    case OtherIndex => Err(KeyError)
  }

  /** The value of `ad[key] = value`: an array or list, an `ArrayDict`
      (through its `_data`), or anything else. */
  datatype Value<T> = ArrayValue(xs: seq<T>) | TableValue(src: Store<T>) | OtherValue

  /** Whether position `t` of an array of length `n` is one that `key` (an
      integer or a slice) selects. */
  predicate Selects(key: Index, n: nat, t: nat)
    requires key.Row? || key.Span?
  {
    match key
    case Row(i) => RowIndex(i, n) == Some(t)
    case Span(lo, hi) => SpanStart(lo, n) <= t < SpanStart(lo, n) + SpanWidth(lo, hi, n)
  }

  /** numpy's `col[key] = src` for a one-dimensional `src`: an integer index
      out of range raises `IndexError`; `src` must have one element for an
      integer, and for a slice either as many as the slice selects or one
      (which is broadcast); any other shape raises `ValueError`. */
  function WriteAt<T>(col: seq<T>, key: Index, src: seq<T>): (r: Result<seq<T>>)
    requires key.Row? || key.Span?
    ensures r.Ok? <==> Fits(|col|, key, |src|)
    ensures r.Ok? ==> |r.value| == |col|
  {
    match key
    case Row(i) =>
      (match RowIndex(i, |col|)
       case None => Err(IndexError)
       case Some(p) => if |src| == 1 then Ok(col[p := src[0]]) else Err(ValueError))
    case Span(lo, hi) =>
      var a := SpanStart(lo, |col|);
      var w := SpanWidth(lo, hi, |col|);
      if |src| == w then Ok(col[..a] + src + col[a + w..])
      else if |src| == 1 then Ok(col[..a] + Repeat(src[0], w) + col[a + w..])
      else Err(ValueError)
  }

  /** `w` copies of `x`: a one-element array broadcast to width `w`. */
  function Repeat<T>(x: T, w: nat): (r: seq<T>)
    ensures |r| == w
    ensures forall t | 0 <= t < w :: r[t] == x
  {
    if w == 0 then [] else [x] + Repeat(x, w - 1)
  }

  /** How many positions `key` selects in an array of length `n`. */
  function Width(key: Index, n: nat): nat
    requires key.Row? || key.Span?
  {
    match key
    case Row(i) => 1
    case Span(lo, hi) => SpanWidth(lo, hi, n)
  }

  /** Whether `src` of length `m` can be written at `key` into an array of
      length `n`: the index is in range, and `src` has one element or as
      many as are selected. */
  predicate Fits(n: nat, key: Index, m: nat)
    requires key.Row? || key.Span?
  {
    !(key.Row? && RowIndex(key.i, n).None?) && (m == Width(key, n) || m == 1)
  }

  /** A write keeps the length of the column, overwrites exactly the
      selected positions (in order from `src`, or all with `src`'s one
      element) and leaves every other position as it was; it fails with
      `IndexError` exactly for an integer out of range, and otherwise with
      `ValueError` exactly when `src` fits neither way. */
  lemma WriteAtExact<T>(col: seq<T>, key: Index, src: seq<T>)
    requires key.Row? || key.Span?
    ensures WriteAt(col, key, src) == Err(IndexError) <==> key.Row? && RowIndex(key.i, |col|).None?
    ensures WriteAt(col, key, src) == Err(ValueError) <==>
              !(key.Row? && RowIndex(key.i, |col|).None?) && |src| != Width(key, |col|) && |src| != 1
    ensures WriteAt(col, key, src).Ok? ==>
              var r := WriteAt(col, key, src).value;
              && |r| == |col|
              && forall t | 0 <= t < |col| ::
                   r[t] == (if !Selects(key, |col|, t) then col[t]
                            else if |src| == 1 then src[0]
                            else src[t - SpanStart(key.lo, |col|)])
  {
    if key.Span? && WriteAt(col, key, src).Ok? {
      var a := SpanStart(key.lo, |col|);
      var w := SpanWidth(key.lo, key.hi, |col|);
      var r := WriteAt(col, key, src).value;
      forall t | 0 <= t < |col|
        ensures r[t] == (if !Selects(key, |col|, t) then col[t] else if |src| == 1 then src[0] else src[t - a])
      {
        if t < a {
          assert r[t] == col[..a][t];
        } else if t < a + w {
          assert r[t] == (if |src| == w then src else Repeat(src[0], w))[t - a];
        } else {
          assert r[t] == col[a + w..][t - a - w];
        }
      }
    }
  }

  /** The loop of `ad[ks] = value` for a list of names `ks`, from its
      `i`-th name: each `data[k] = value[k]` in turn; a name `value` lacks
      raises `KeyError` and leaves the names before it written. */
  function SetNamesFrom<T>(data: Store<T>, ks: seq<string>, src: Store<T>, i: nat): (o: Outcome<Store<T>>)
    requires i <= |ks|
    decreases |ks| - i
  {
    if i == |ks| then Outcome(data, None)
    else if ks[i] !in src.vals then Outcome(data, Some(KeyError))
    else SetNamesFrom(Put(data, ks[i], src.vals[ks[i]]), ks, src, i + 1)
  }

  /** Writing names succeeds exactly when `value` holds all of them, and
      fails with `KeyError` otherwise. */
  lemma {:induction false} SetNamesRaises<T>(data: Store<T>, ks: seq<string>, src: Store<T>, i: nat)
    requires i <= |ks|
    ensures SetNamesFrom(data, ks, src, i).raised.None? <==> forall t | i <= t < |ks| :: ks[t] in src.vals
    ensures SetNamesFrom(data, ks, src, i).raised.Some? ==> SetNamesFrom(data, ks, src, i).raised == Some(KeyError)
    decreases |ks| - i
  {
    if i < |ks| && ks[i] in src.vals {
      SetNamesRaises(Put(data, ks[i], src.vals[ks[i]]), ks, src, i + 1);
    }
  }

  /** One name written: the loop goes on from the next name. */
  lemma SetNamesStep<T>(data: Store<T>, ks: seq<string>, src: Store<T>, i: nat)
    requires i < |ks| && ks[i] in src.vals
    ensures SetNamesFrom(data, ks, src, i) == SetNamesFrom(Put(data, ks[i], src.vals[ks[i]]), ks, src, i + 1)
  {
  }

  /** The position of the first name from the `i`-th on that `value`
      lacks, or the number of names when it has them all. */
  function FirstMissing<T>(ks: seq<string>, src: Store<T>, i: nat): (j: nat)
    requires i <= |ks|
    ensures i <= j <= |ks|
    ensures forall t | i <= t < j :: ks[t] in src.vals
    ensures j < |ks| ==> ks[j] !in src.vals
    decreases |ks| - i
  {
    if i == |ks| || ks[i] !in src.vals then i else FirstMissing(ks, src, i + 1)
  }

  /** After a write of names, even one stopped by `KeyError`, a name is
      present exactly when it was before or is one of the names written
      before the first one `value` lacks. */
  lemma {:induction false} SetNamesHas<T>(data: Store<T>, ks: seq<string>, src: Store<T>, i: nat, k: string)
    requires i <= |ks|
    ensures k in SetNamesFrom(data, ks, src, i).state.vals <==> k in data.vals || k in ks[i..FirstMissing(ks, src, i)]
    decreases |ks| - i
  {
    var j := FirstMissing(ks, src, i);
    if i < |ks| && ks[i] in src.vals {
      SetNamesStep(data, ks, src, i);
      SetNamesHas(Put(data, ks[i], src.vals[ks[i]]), ks, src, i + 1, k);
      assert j == FirstMissing(ks, src, i + 1);
      assert ks[i..j] == [ks[i]] + ks[i + 1..j];
    } else {
      assert ks[i..j] == [];
    }
  }

  /** So the names after a successful write are those before plus the new
      ones. */
  lemma SetNamesNames<T>(data: Store<T>, ks: seq<string>, src: Store<T>)
    requires forall t | 0 <= t < |ks| :: ks[t] in src.vals
    ensures SetNamesFrom(data, ks, src, 0).state.vals.Keys == data.vals.Keys + set t | 0 <= t < |ks| :: ks[t]
  {
    var got := SetNamesFrom(data, ks, src, 0).state.vals.Keys;
    var want := data.vals.Keys + set t | 0 <= t < |ks| :: ks[t];
    forall k ensures k in got <==> k in want {
      SetNamesHas(data, ks, src, 0, k);
      assert ks[0..] == ks;
    }
  }

  /** Writing names leaves every column it did not reach as it was, even
      when it stops with `KeyError`: a name that is not among those written
      before the first one `value` lacks keeps its elements. */
  lemma {:induction false} SetNamesKeeps<T>(data: Store<T>, ks: seq<string>, src: Store<T>, i: nat, k: string)
    requires i <= |ks| && k in data.vals && k !in ks[i..FirstMissing(ks, src, i)]
    ensures k in SetNamesFrom(data, ks, src, i).state.vals
    ensures SetNamesFrom(data, ks, src, i).state.vals[k] == data.vals[k]
    decreases |ks| - i
  {
    var j := FirstMissing(ks, src, i);
    if i < |ks| && ks[i] in src.vals {
      SetNamesStep(data, ks, src, i);
      assert j == FirstMissing(ks, src, i + 1);
      assert ks[i..j] == [ks[i]] + ks[i + 1..j];
      SetNamesKeeps(Put(data, ks[i], src.vals[ks[i]]), ks, src, i + 1, k);
    }
  }

  /** Each column written before the first name `value` lacks holds what
      `value` holds under that name, also when the write then stops with
      `KeyError`; after a successful write that is every listed name. */
  lemma {:induction false} SetNamesValue<T>(data: Store<T>, ks: seq<string>, src: Store<T>, i: nat, k: string)
    requires i <= |ks| && k in ks[i..FirstMissing(ks, src, i)]
    ensures k in src.vals && k in SetNamesFrom(data, ks, src, i).state.vals
    ensures SetNamesFrom(data, ks, src, i).state.vals[k] == src.vals[k]
    decreases |ks| - i
  {
    var j := FirstMissing(ks, src, i);
    assert i < j && ks[i] in src.vals;
    assert j == FirstMissing(ks, src, i + 1);
    assert ks[i..j] == [ks[i]] + ks[i + 1..j];
    SetNamesStep(data, ks, src, i);
    var d1 := Put(data, ks[i], src.vals[ks[i]]);
    if k in ks[i + 1..j] {
      SetNamesValue(d1, ks, src, i + 1, k);
    } else {
      SetNamesKeeps(d1, ks, src, i + 1, k);
    }
  }

  /** What `data[k][key] = value[k]` gives for each column `k`: `KeyError`
      for a name `value` lacks, otherwise the write into the column. Each
      column is written once, and its write reads only that column, so
      these are exactly the writes the loop of `ad[key] = value` makes. */
  function Writes<T>(data: Store<T>, key: Index, src: Store<T>): (w: map<string, Result<seq<T>>>)
    requires key.Row? || key.Span?
    ensures w.Keys == data.vals.Keys
    ensures forall k | k in w :: w[k].Ok? <==> k in src.vals && Fits(|data.vals[k]|, key, |src.vals[k]|)
    ensures forall k | k in w && w[k].Err? && k !in src.vals :: w[k].error == KeyError
  {
    map k | k in data.vals :: if k in src.vals then WriteAt(data.vals[k], key, src.vals[k]) else Err(KeyError)
  }

  /** The loop of `ad[key] = value` for an integer or a slice, from the
      `i`-th column, with the write of each column given by `w`: each
      column in turn takes its write, a failing write raises its error, and
      the columns before stay written. */
  function WriteRowsFrom<T>(data: Store<T>, w: map<string, Result<seq<T>>>, i: nat): (o: Outcome<Store<T>>)
    requires i <= |data.keys| && data.vals.Keys <= w.Keys
    ensures o.state.keys == data.keys
    decreases |data.keys| - i
  {
    if i == |data.keys| then Outcome(data, None)
    else
      var k := data.keys[i];
      if w[k].Err? then Outcome(data, Some(w[k].error))
      else WriteRowsFrom(Put(data, k, w[k].value), w, i + 1)
  }

  /** Whether the write of every name from the `i`-th on succeeds. */
  ghost predicate Applicable<T>(keys: seq<string>, w: map<string, Result<seq<T>>>, i: nat)
  {
    forall t | i <= t < |keys| :: keys[t] in w && w[keys[t]].Ok?
  }

  lemma ApplicableStep<T>(keys: seq<string>, w: map<string, Result<seq<T>>>, i: nat)
    requires i < |keys|
    ensures Applicable(keys, w, i) <==> keys[i] in w && w[keys[i]].Ok? && Applicable(keys, w, i + 1)
  {
  }

  /** Whether every column can be written from `src`. */
  ghost predicate Writable<T>(data: Store<T>, key: Index, src: Store<T>)
    requires key.Row? || key.Span?
  {
    forall t | 0 <= t < |data.keys| ::
      data.keys[t] in data.vals && data.keys[t] in src.vals && Fits(|data.vals[data.keys[t]]|, key, |src.vals[data.keys[t]]|)
  }

  /** Every write succeeds exactly when every column can be written. */
  lemma WritesApplicable<T>(data: Store<T>, key: Index, src: Store<T>)
    requires key.Row? || key.Span?
    ensures Applicable(data.keys, Writes(data, key, src), 0) <==> Writable(data, key, src)
  {
  }

  /** One successful write: the loop goes on from the next column, and
      the names stay. */
  lemma WriteRowsNext<T>(data: Store<T>, w: map<string, Result<seq<T>>>, i: nat) returns (d1: Store<T>)
    requires i < |data.keys| && data.vals.Keys <= w.Keys && w[data.keys[i]].Ok?
    ensures d1.keys == data.keys && d1.vals == data.vals[data.keys[i] := w[data.keys[i]].value]
    ensures WriteRowsFrom(data, w, i) == WriteRowsFrom(d1, w, i + 1)
  {
    var k := data.keys[i];
    d1 := Put(data, k, w[k].value);
  }

  /** The state of the loop of `ad[key] = value` at the `i`-th column,
      started from `d0`: the names are as before, the columns from the
      `i`-th on are as before, and the rest of the loop from here gives what
      the whole loop gives. */
  ghost predicate RowsLoop<T>(d0: Store<T>, data: Store<T>, w: map<string, Result<seq<T>>>, i: nat)
  {
    && i <= |data.keys| && data.keys == d0.keys && data.vals.Keys == d0.vals.Keys && d0.vals.Keys <= w.Keys
    && (forall t | i <= t < |data.keys| :: data.vals[data.keys[t]] == d0.vals[data.keys[t]])
    && WriteRowsFrom(data, w, i) == WriteRowsFrom(d0, w, 0)
  }

  /** The write the loop finds for the `i`-th column is the one it would
      make from the column as it is now. */
  lemma RowsLoopColumn<T>(d0: Store<T>, data: Store<T>, key: Index, src: Store<T>, i: nat)
    requires key.Row? || key.Span?
    requires RowsLoop(d0, data, Writes(d0, key, src), i) && i < |data.keys|
    ensures data.keys[i] in data.vals
    ensures Writes(d0, key, src)[data.keys[i]] ==
              if data.keys[i] in src.vals then WriteAt(data.vals[data.keys[i]], key, src.vals[data.keys[i]]) else Err(KeyError)
  {
    assert data.keys[i] in d0.vals;
  }

  /** A successful write of the `i`-th column keeps the loop's state. */
  lemma RowsLoopStep<T>(d0: Store<T>, data: Store<T>, w: map<string, Result<seq<T>>>, i: nat, col: seq<T>)
    requires RowsLoop(d0, data, w, i) && i < |data.keys| && w[data.keys[i]] == Ok(col)
    ensures RowsLoop(d0, Put(data, data.keys[i], col), w, i + 1)
  {
    var d1 := WriteRowsNext(data, w, i);
    forall t | i < t < |data.keys| ensures data.keys[t] != data.keys[i] {
    }
  }

  /** A failing write of the `i`-th column ends the whole loop. */
  lemma RowsLoopStop<T>(d0: Store<T>, data: Store<T>, w: map<string, Result<seq<T>>>, i: nat, e: Error)
    requires RowsLoop(d0, data, w, i) && i < |data.keys| && w[data.keys[i]] == Err(e)
    ensures WriteRowsFrom(d0, w, 0) == Outcome(data, Some(e))
  {
  }

  /** A loop that ran over every column has done the whole write. */
  lemma RowsLoopDone<T>(d0: Store<T>, data: Store<T>, w: map<string, Result<seq<T>>>, i: nat)
    requires RowsLoop(d0, data, w, i) && i == |data.keys|
    ensures WriteRowsFrom(d0, w, 0) == Outcome(data, None)
  {
  }

  /** Writing rows succeeds exactly when every write succeeds. */
  lemma {:induction false} WriteRowsRaises<T>(data: Store<T>, w: map<string, Result<seq<T>>>, i: nat)
    requires i <= |data.keys| && data.vals.Keys <= w.Keys
    ensures WriteRowsFrom(data, w, i).raised.None? <==> Applicable(data.keys, w, i)
    decreases |data.keys| - i
  {
    if i < |data.keys| {
      var k := data.keys[i];
      assert k in data.vals;
      ApplicableStep(data.keys, w, i);
      if w[k].Ok? {
        var d1 := WriteRowsNext(data, w, i);
        WriteRowsRaises(d1, w, i + 1);
      } else {
        assert WriteRowsFrom(data, w, i).raised == Some(w[k].error);
      }
    }
  }

  /** Writing rows leaves the columns before the `i`-th as they were, even
      when a write fails. */
  lemma {:induction false} WriteRowsBefore<T>(data: Store<T>, w: map<string, Result<seq<T>>>, i: nat, t: nat)
    requires t < i <= |data.keys| && data.vals.Keys <= w.Keys
    ensures data.keys[t] in data.vals
    ensures WriteRowsFrom(data, w, i).state.vals[data.keys[t]] == data.vals[data.keys[t]]
    decreases |data.keys| - i
  {
    assert data.keys[t] in data.vals;
    if i < |data.keys| && w[data.keys[i]].Ok? {
      var d1 := WriteRowsNext(data, w, i);
      WriteRowsBefore(d1, w, i + 1, t);
      assert data.keys[t] != data.keys[i];
    }
  }

  /** A successful write of rows leaves each column from the `i`-th on
      holding its own write. */
  lemma {:induction false} WriteRowsAt<T>(data: Store<T>, w: map<string, Result<seq<T>>>, i: nat, t: nat)
    requires i <= t < |data.keys| && data.vals.Keys <= w.Keys
    requires WriteRowsFrom(data, w, i).raised.None?
    ensures data.keys[t] in data.vals && w[data.keys[t]].Ok?
    ensures WriteRowsFrom(data, w, i).state.vals[data.keys[t]] == w[data.keys[t]].value
    decreases |data.keys| - i
  {
    var k := data.keys[i];
    assert k in data.vals;
    assert w[k].Ok?;
    var d1 := WriteRowsNext(data, w, i);
    if t == i {
      WriteRowsBefore(d1, w, i + 1, i);
    } else {
      WriteRowsAt(d1, w, i + 1, t);
      assert data.keys[t] != k;
    }
  }

  /** Writing rows from `value` succeeds exactly when every column can be
      written; each column then holds its write into the old column, and
      the names do not change. */
  lemma WriteRowsWrites<T>(data: Store<T>, key: Index, src: Store<T>)
    requires key.Row? || key.Span?
    ensures WriteRowsFrom(data, Writes(data, key, src), 0).raised.None? <==> Writable(data, key, src)
    ensures WriteRowsFrom(data, Writes(data, key, src), 0).raised.None? ==>
            var d := WriteRowsFrom(data, Writes(data, key, src), 0).state;
            && d.keys == data.keys
            && forall t | 0 <= t < |data.keys| ::
                  && data.keys[t] in src.vals
                  && WriteAt(data.vals[data.keys[t]], key, src.vals[data.keys[t]]).Ok?
                  && d.vals[data.keys[t]] == WriteAt(data.vals[data.keys[t]], key, src.vals[data.keys[t]]).value
  {
    var w := Writes(data, key, src);
    WriteRowsRaises(data, w, 0);
    WritesApplicable(data, key, src);
    if WriteRowsFrom(data, w, 0).raised.None? {
      var d := WriteRowsFrom(data, w, 0).state;
      forall t | 0 <= t < |data.keys|
        ensures && data.keys[t] in src.vals
                && WriteAt(data.vals[data.keys[t]], key, src.vals[data.keys[t]]).Ok?
                && d.vals[data.keys[t]] == WriteAt(data.vals[data.keys[t]], key, src.vals[data.keys[t]]).value
      {
        WriteRowsAt(data, w, 0, t);
      }
    }
  }

  /** `ad[key] = value`: a name with an array or list stores it as it is,
      without wrapping it or checking its length; a list of names with an
      `ArrayDict` copies those columns; an integer or a slice with an
      `ArrayDict` writes into every column; anything else raises
      `KeyError`. */
  function Assign<T>(data: Store<T>, key: Index, value: Value<T>): (o: Outcome<Store<T>>)
  {
    match key
    case Name(s) => if value.ArrayValue? then Outcome(Put(data, s, value.xs), None) else Outcome(data, Some(KeyError))
    case Names(ks) => if value.TableValue? then SetNamesFrom(data, ks, value.src, 0) else Outcome(data, Some(KeyError))
    case Row(_) => if value.TableValue? then WriteRowsFrom(data, Writes(data, key, value.src), 0) else Outcome(data, Some(KeyError))
    case Span(_, _) => if value.TableValue? then WriteRowsFrom(data, Writes(data, key, value.src), 0) else Outcome(data, Some(KeyError))
    case OtherIndex => Outcome(data, Some(KeyError))
  }

  /** An assignment that does not fit one of the three forms changes nothing
      and raises `KeyError`; a name with an array reads back as that
      array. */
  lemma AssignForms<T>(data: Store<T>, key: Index, value: Value<T>)
    ensures (key.OtherIndex? || value.OtherValue? || (key.Name? && !value.ArrayValue?) || (!key.Name? && !value.TableValue?))
              ==> Assign(data, key, value) == Outcome(data, Some(KeyError))
    ensures key.Name? && value.ArrayValue? ==>
              && Assign(data, key, value).raised.None?
              && GetItem(Assign(data, key, value).state, key) == Ok(Column(value.xs))
  {
  }

  /** `del ad[name]`: a missing name raises `KeyError`. */
  function DelName<T>(data: Store<T>, name: string): (o: Outcome<Store<T>>)
    ensures o.raised.Some? <==> name !in data.vals
    ensures o.raised.Some? ==> o == Outcome(data, Some(KeyError))
    ensures o.raised.None? ==> o.state.vals == data.vals - {name} && o.state.keys == Without(data.keys, name)
  {
    if name in data.vals then Outcome(Remove(data, name), None) else Outcome(data, Some(KeyError))
  }

  /** After a deletion the name reads as missing, and every other column
      reads as before. */
  lemma DelNameGone<T>(data: Store<T>, name: string, other: string)
    requires name in data.vals
    ensures GetItem(DelName(data, name).state, Name(name)) == Err(KeyError)
    ensures other != name ==> GetItem(DelName(data, name).state, Name(other)) == GetItem(data, Name(other))
  {
  }

  /** `array_length`: 0 for no columns, else the length of the first
      column, whatever the others hold. */
  function ArrayLength<T>(data: Store<T>): nat
  {
    if data.keys == [] then 0 else
      assert data.keys[0] in data.vals;
      |data.vals[data.keys[0]]|
  }

  /** Every column has length `n`. */
  ghost predicate Uniform<T>(data: Store<T>, n: nat)
  {
    forall k | k in data.vals :: |data.vals[k]| == n
  }

  /** When every column has one length, `array_length` is it. */
  lemma ArrayLengthUniform<T>(data: Store<T>, n: nat)
    requires data.keys != [] && Uniform(data, n)
    ensures ArrayLength(data) == n
  {
    assert data.keys[0] in data.vals;
  }

  /** The columns of `data` in name order. */
  function ColumnList<T>(data: Store<T>): (r: seq<seq<T>>)
    ensures |r| == |data.keys|
    ensures forall t | 0 <= t < |r| :: data.keys[t] in data.vals && r[t] == data.vals[data.keys[t]]
  {
    seq(|data.keys|, t requires 0 <= t < |data.keys| => assert data.keys[t] in data.vals; data.vals[data.keys[t]])
  }

  /** `_check_array_length` over the columns, in name order, passes exactly
      when every column has the length `array_length` reports. */
  lemma UniformChecked<T>(data: Store<T>)
    ensures CheckArrayLength(ColumnList(data)) <==> Uniform(data, ArrayLength(data))
  {
    var cols := ColumnList(data);
    CheckArrayLengthExact(cols);
    if data.keys != [] {
      forall k | k in data.vals ensures exists t :: 0 <= t < |data.keys| && data.keys[t] == k {
        assert k in data.keys;
      }
    }
  }

  /** `iterrows()` run to its end from row `i`: the rows
      `ad[i], ad[i + 1], ..., ad[n - 1]`, or the rows before the first that
      raises and its error. */
  function RowsFrom<T>(data: Store<T>, n: nat, i: nat): (r: (seq<Store<T>>, Option<Error>))
    requires i <= n
    decreases n - i
  {
    if i == n then ([], None)
    else match RowOf(data, i)
      case Err(e) => ([], Some(e))
      case Ok(row) => var rest := RowsFrom(data, n, i + 1); ([row] + rest.0, rest.1)
  }

  /** With uniform columns the rows come out without error, one per
      position. */
  lemma {:induction false} RowsUniform<T>(data: Store<T>, n: nat, i: nat)
    requires i <= n && Uniform(data, n)
    ensures RowsFrom(data, n, i).1.None?
    ensures |RowsFrom(data, n, i).0| == n - i
    decreases n - i
  {
    if i < n {
      RowsUniform(data, n, i + 1);
    }
  }

  /** Row `j` of a run without error is `ad[j]`, which holds `[data[k][j]]`
      under every name `k`. */
  lemma {:induction false} RowsAt<T>(data: Store<T>, n: nat, i: nat, j: nat)
    requires i <= j < n && Uniform(data, n)
    ensures |RowsFrom(data, n, i).0| == n - i
    ensures RowOf(data, j).Ok? && RowsFrom(data, n, i).0[j - i] == RowOf(data, j).value
    ensures forall k | k in data.vals :: RowOf(data, j).value.vals[k] == [data.vals[k][j]]
    decreases n - i
  {
    RowsUniform(data, n, i);
    if i < j {
      RowsAt(data, n, i + 1, j);
    }
  }

  /** Running the rows to the length of the first column raises
      `IndexError` exactly when some column is shorter than it. */
  lemma {:induction false} RowsRaise<T>(data: Store<T>, n: nat, i: nat)
    requires i <= n
    requires forall k | k in data.vals :: |data.vals[k]| >= i
    ensures RowsFrom(data, n, i).1.Some? <==> exists k | k in data.vals :: |data.vals[k]| < n
    ensures RowsFrom(data, n, i).1.Some? ==> RowsFrom(data, n, i).1 == Some(IndexError)
    decreases n - i
  {
    if i < n {
      if exists k | k in data.vals :: |data.vals[k]| == i {
        var k :| k in data.vals && |data.vals[k]| == i;
        assert RowIndex(i, |data.vals[k]|).None?;
      } else {
        RowsRaise(data, n, i + 1);
      }
    }
  }

  /** The loop of `concat(other)` from the `i`-th column: each
      `data[k] = concatenate(data[k], other[k])` in turn; a name `other`
      lacks raises `KeyError`, leaving the columns before concatenated. */
  function ConcatFrom<T>(data: Store<T>, other: Store<T>, i: nat): (o: Outcome<Store<T>>)
    requires i <= |data.keys|
    ensures o.state.keys == data.keys
    decreases |data.keys| - i
  {
    if i == |data.keys| then Outcome(data, None)
    else
      var k := data.keys[i];
      if k !in other.vals then Outcome(data, Some(KeyError))
      else
        assert k in data.vals;
        ConcatFrom(Put(data, k, data.vals[k] + other.vals[k]), other, i + 1)
  }

  /** One step of the concatenation loop over a name `other` holds. */
  lemma ConcatStep<T>(data: Store<T>, other: Store<T>, i: nat)
    requires i < |data.keys| && data.keys[i] in other.vals
    ensures data.keys[i] in data.vals
    ensures var k := data.keys[i];
            var d1 := Put(data, k, data.vals[k] + other.vals[k]);
            d1.keys == data.keys && ConcatFrom(data, other, i) == ConcatFrom(d1, other, i + 1)
  {
    assert data.keys[i] in data.vals;
  }

  /** Concatenation succeeds exactly when `other` holds every name of
      `data` from the `i`-th on, and fails with `KeyError` otherwise. */
  lemma {:induction false} ConcatRaises<T>(data: Store<T>, other: Store<T>, i: nat)
    requires i <= |data.keys|
    ensures ConcatFrom(data, other, i).raised.None? <==> forall t | i <= t < |data.keys| :: data.keys[t] in other.vals
    ensures ConcatFrom(data, other, i).raised.Some? ==> ConcatFrom(data, other, i).raised == Some(KeyError)
    decreases |data.keys| - i
  {
    if i < |data.keys| {
      var k := data.keys[i];
      if k in other.vals {
        ConcatStep(data, other, i);
        var d1 := Put(data, k, data.vals[k] + other.vals[k]);
        ConcatRaises(d1, other, i + 1);
      } else {
        assert ConcatFrom(data, other, i) == Outcome(data, Some(KeyError));
      }
    }
  }

  /** After a successful concatenation from the `i`-th name on, the
      columns before it are as they were. */
  lemma {:induction false} ConcatBefore<T>(data: Store<T>, other: Store<T>, i: nat, t: nat)
    requires t < i <= |data.keys|
    requires ConcatFrom(data, other, i).raised.None?
    ensures data.keys[t] in data.vals
    ensures ConcatFrom(data, other, i).state.vals[data.keys[t]] == data.vals[data.keys[t]]
    decreases |data.keys| - i
  {
    assert data.keys[t] in data.vals;
    if i < |data.keys| {
      var k := data.keys[i];
      ConcatStep(data, other, i);
      var d1 := Put(data, k, data.vals[k] + other.vals[k]);
      ConcatBefore(d1, other, i + 1, t);
      assert ConcatFrom(d1, other, i + 1).state.vals[d1.keys[t]] == d1.vals[d1.keys[t]];
      assert data.keys[t] != k;
      var name := data.keys[t];
      assert d1.keys[t] == name && d1.vals[name] == data.vals[name];
      assert ConcatFrom(data, other, i).state.vals[name] == ConcatFrom(d1, other, i + 1).state.vals[name];
    } else {
      assert ConcatFrom(data, other, i).state == data;
    }
  }

  /** After a successful concatenation from the `i`-th name on, every
      column from there on is its old elements followed by `other`'s. */
  lemma {:induction false} ConcatColumn<T>(data: Store<T>, other: Store<T>, i: nat, t: nat)
    requires i <= t < |data.keys|
    requires ConcatFrom(data, other, i).raised.None?
    ensures data.keys[t] in data.vals && data.keys[t] in other.vals
    ensures ConcatFrom(data, other, i).state.vals[data.keys[t]] == data.vals[data.keys[t]] + other.vals[data.keys[t]]
    decreases |data.keys| - i
  {
    var k := data.keys[i];
    assert k in data.vals;
    assert k in other.vals;
    ConcatStep(data, other, i);
    var d1 := Put(data, k, data.vals[k] + other.vals[k]);
    if t == i {
      ConcatBefore(d1, other, i + 1, t);
    } else {
      ConcatColumn(d1, other, i + 1, t);
      assert data.keys[t] != k;
    }
  }

  /** Concatenation succeeds exactly when `other` holds every name of
      `data`; every column is then its old elements followed by `other`'s,
      and the names do not change. */
  lemma ConcatExact<T>(data: Store<T>, other: Store<T>)
    ensures var o := ConcatFrom(data, other, 0);
            && (o.raised.None? <==> forall k | k in data.vals :: k in other.vals)
            && (o.raised.Some? ==> o.raised == Some(KeyError))
            && o.state.keys == data.keys
            && (o.raised.None? ==>
                  forall k | k in data.vals :: k in o.state.vals && o.state.vals[k] == data.vals[k] + other.vals[k])
  {
    ConcatRaises(data, other, 0);
    var o := ConcatFrom(data, other, 0);
    if forall t | 0 <= t < |data.keys| :: data.keys[t] in other.vals {
      forall k | k in data.vals ensures k in other.vals {
        assert k in data.keys;
      }
    }
    if o.raised.None? {
      forall k | k in data.vals ensures k in o.state.vals && o.state.vals[k] == data.vals[k] + other.vals[k] {
        assert k in data.keys;
        var t :| 0 <= t < |data.keys| && data.keys[t] == k;
        ConcatColumn(data, other, 0, t);
      }
    }
  }

  /** Concatenating uniform columns of length `n` with columns of length
      `m` gives uniform columns of length `n + m`. */
  lemma ConcatLength<T>(data: Store<T>, other: Store<T>, n: nat, m: nat)
    requires Uniform(data, n) && Uniform(other, m)
    requires forall k | k in data.vals :: k in other.vals
    ensures ConcatFrom(data, other, 0).raised.None?
    ensures Uniform(ConcatFrom(data, other, 0).state, n + m)
  {
    ConcatExact(data, other);
  }

  /** The right-hand side of `ad == other`: an `ArrayDict`, a `dict`, or
      any other object (a `NestDict` or another mapping included). */
  datatype Other<T> = ArrayDictOther(d: Store<T>) | DictOther(d: Store<T>) | NotDict

  /** Two arrays numpy can broadcast together: equal lengths, or one of
      them of length 1. */
  predicate Broadcastable(n: nat, m: nat)
  {
    n == m || n == 1 || m == 1
  }

  /** `np.allclose(a, b)` with zero tolerance: after broadcasting, the
      arrays agree at every position. */
  predicate Close<T(==)>(a: seq<T>, b: seq<T>)
    requires Broadcastable(|a|, |b|)
  {
    if |a| == |b| then a == b
    else if |a| == 1 then forall t | 0 <= t < |b| :: b[t] == a[0]
    else forall t | 0 <= t < |a| :: a[t] == b[0]
  }

  /** `ad == other`: `False` against anything but an `ArrayDict` or a
      `dict` (a `NestDict` included), or when the
      names differ as sets; otherwise every column is compared, and a pair
      numpy cannot broadcast raises `ValueError`. */
  function Equals<T(==)>(data: Store<T>, other: Other<T>): (r: Result<bool>)
    ensures r.Err? ==> r.error == ValueError
    ensures other.NotDict? ==> r == Ok(false)
  {
    if other.NotDict? || data.vals.Keys != other.d.vals.Keys then Ok(false)
    else if exists k | k in data.vals :: !Broadcastable(|data.vals[k]|, |other.d.vals[k]|) then Err(ValueError)
    else Ok(forall k | k in data.vals :: Close(data.vals[k], other.d.vals[k]))
  }

  /** Equality holds of a store and itself, whatever its name order; and
      between stores whose columns have matching lengths it holds exactly
      when they hold the same columns. */
  lemma EqualsExact<T>(data: Store<T>, other: Store<T>)
    requires forall k | k in data.vals && k in other.vals :: |data.vals[k]| == |other.vals[k]|
    ensures Equals(data, ArrayDictOther(other)) == Ok(data.vals == other.vals)
    ensures Equals(data, DictOther(other)) == Equals(data, ArrayDictOther(other))
  {
    if data.vals.Keys == other.vals.Keys && (forall k | k in data.vals :: data.vals[k] == other.vals[k]) {
      assert data.vals == other.vals;
    }
  }

  /** Equality is symmetric, error included. */
  lemma EqualsSymmetric<T>(a: Store<T>, b: Store<T>)
    ensures Equals(a, ArrayDictOther(b)) == Equals(b, ArrayDictOther(a))
  {
    if a.vals.Keys == b.vals.Keys && !(exists k | k in a.vals :: !Broadcastable(|a.vals[k]|, |b.vals[k]|)) {
      forall k | k in a.vals ensures Close(a.vals[k], b.vals[k]) == Close(b.vals[k], a.vals[k]) {
      }
    }
  }

  /** An `ArrayDict`, holding its `_data`. */
  class ArrayDict<T> {
    var data: Store<T>

    /** `ArrayDict(source)`: every value through `np.atleast_1d`. */
    constructor(source: Dict<string, Cell<T>>)
      ensures data == Columns(source)
    {
      data := Columns(source);
    }

    method SetItem(key: Index, value: Value<T>) returns (raised: Option<Error>)
      modifies this
      ensures data == Assign(old(data), key, value).state
      ensures raised == Assign(old(data), key, value).raised
    {
      match key {
        case Name(s) =>
          if value.ArrayValue? {
            data := Put(data, s, value.xs);
            raised := None;
          } else {
            raised := Some(KeyError);
          }
        case Names(ks) =>
          if value.TableValue? {
            raised := SetNames(ks, value.src);
          } else {
            raised := Some(KeyError);
          }
        case Row(_) =>
          if value.TableValue? {
            raised := WriteRows(key, value.src);
          } else {
            raised := Some(KeyError);
          }
        case Span(_, _) =>
          if value.TableValue? {
            raised := WriteRows(key, value.src);
          } else {
            raised := Some(KeyError);
          }
        case OtherIndex =>
          raised := Some(KeyError);
      }
    }

    /** `for k in key: self._data[k] = value[k]` */
    method SetNames(ks: seq<string>, src: Store<T>) returns (raised: Option<Error>)
      modifies this
      ensures data == SetNamesFrom(old(data), ks, src, 0).state
      ensures raised == SetNamesFrom(old(data), ks, src, 0).raised
    {
      var i := 0;
      while i < |ks|
        invariant i <= |ks|
        invariant SetNamesFrom(data, ks, src, i) == SetNamesFrom(old(data), ks, src, 0)
      {
        var k := ks[i];
        if k !in src.vals {
          return Some(KeyError);
        }
        data := Put(data, k, src.vals[k]);
        i := i + 1;
      }
      raised := None;
    }

    /** `for k in self._data.keys(): self._data[k][key] = value[k]` */
    method WriteRows(key: Index, src: Store<T>) returns (raised: Option<Error>)
      requires key.Row? || key.Span?
      modifies this
      ensures data == WriteRowsFrom(old(data), Writes(old(data), key, src), 0).state
      ensures raised == WriteRowsFrom(old(data), Writes(old(data), key, src), 0).raised
    {
      var d := data;
      ghost var w := Writes(d, key, src);
      var i := 0;
      while i < |d.keys|
        invariant RowsLoop(old(data), d, w, i)
        decreases |d.keys| - i
      {
        var k := d.keys[i];
        RowsLoopColumn(old(data), d, key, src, i);
        var c := if k in src.vals then WriteAt(d.vals[k], key, src.vals[k]) else Err(KeyError);
        if c.Err? {
          RowsLoopStop(old(data), d, w, i, c.error);
          data := d;
          return Some(c.error);
        }
        RowsLoopStep(old(data), d, w, i, c.value);
        d := Put(d, k, c.value);
        i := i + 1;
      }
      RowsLoopDone(old(data), d, w, i);
      data := d;
      raised := None;
    }

    method DelItem(name: string) returns (raised: Option<Error>)
      modifies this
      ensures data == DelName(old(data), name).state
      ensures raised == DelName(old(data), name).raised
    {
      var o := DelName(data, name);
      data := o.state;
      raised := o.raised;
    }

    /** `list(iterrows())`: the rows up to `array_length`, stopping at the
        first that raises. */
    method IterRows() returns (rows: seq<Store<T>>, raised: Option<Error>)
      ensures rows == RowsFrom(data, ArrayLength(data), 0).0
      ensures raised == RowsFrom(data, ArrayLength(data), 0).1
    {
      var d := data;
      var n := ArrayLength(d);
      rows := [];
      var i := 0;
      while i < n
        invariant i <= n
        invariant RowsFrom(d, n, 0).0 == rows + RowsFrom(d, n, i).0
        invariant RowsFrom(d, n, 0).1 == RowsFrom(d, n, i).1
      {
        var r := RowOf(d, i);
        if r.Err? {
          assert RowsFrom(d, n, i) == ([], Some(r.error));
          assert rows + [] == rows;
          return rows, Some(r.error);
        }
        assert RowsFrom(d, n, i).0 == [r.value] + RowsFrom(d, n, i + 1).0;
        assert rows + RowsFrom(d, n, i).0 == (rows + [r.value]) + RowsFrom(d, n, i + 1).0;
        rows := rows + [r.value];
        i := i + 1;
      }
      assert rows + [] == rows;
      raised := None;
    }

    /** `concat(other)`, in place on `self`. */
    method Concat(other: Store<T>) returns (raised: Option<Error>)
      modifies this
      ensures data == ConcatFrom(old(data), other, 0).state
      ensures raised == ConcatFrom(old(data), other, 0).raised
    {
      var i := 0;
      while i < |data.keys|
        invariant i <= |data.keys|
        invariant ConcatFrom(data, other, i) == ConcatFrom(old(data), other, 0)
        decreases |data.keys| - i
      {
        var k := data.keys[i];
        assert k in data.vals;
        if k !in other.vals {
          return Some(KeyError);
        }
        data := Put(data, k, data.vals[k] + other.vals[k]);
        i := i + 1;
      }
      raised := None;
    }
  }
}
