/** `NestDict` (nestdict.py): a nested mapping over any hashable keys. Its
    `_construct` creates `NestDict` containers, any key that is not a list is
    one top-level key, `flatten` keys the leaves by the tuple of their path,
    and `concat` merges other mappings into it key by key. */
module NestDicts {
  import opened PyErrors
  import opened Dicts
  import opened Trees
  import opened PyStrings

  /** A hashable key: a string, an integer or a tuple of keys. */
  datatype Key = Str(s: string) | Int(i: int) | Tuple(items: seq<Key>)

  /** A stored value that is not a mapping: a scalar of the named Python
      type, or a Python list of arbitrary objects. */
  datatype Val<A> = Scalar(ty: string, x: A) | List(items: seq<Tree<Key, Val<A>>>)

  /** Any stored object: a container (`dict` or `NestDict`) or a value. */
  type Obj<A> = Tree<Key, Val<A>>

  /** The `_data` dict. */
  type Store<A> = Dict<Key, Obj<A>>

  /** The argument of `nd[...]`: a list of keys is a path, anything else is a
      single key. */
  datatype NestedKey = Atom(key: Key) | KeyList(keys: seq<Key>)

  /** An element of an iterable handed to `dict()`: a key/value pair, a
      sequence whose length is not 2, or an object that is not a sequence
      at all. */
  datatype Element<A> = Pair(key: Key, value: Obj<A>) | WrongLength | NotSequence

  /** What the constructor is given: a mapping, an iterable of elements, or
      an object that is not iterable. */
  datatype Source<A> = Mapping(d: Store<A>) | Iterable(elems: seq<Element<A>>) | NotIterable

  /** The position of the first element that is not a pair, or the length
      when all of them are pairs. */
  function FirstBad<A>(es: seq<Element<A>>): (r: nat)
    ensures r <= |es|
    ensures forall j | 0 <= j < r :: es[j].Pair?
    ensures r < |es| ==> !es[r].Pair?
  {
    if es == [] || !es[0].Pair? then 0 else 1 + FirstBad(es[1..])
  }

  /** The pairs of an iterable whose elements are all pairs. */
  function PairsOf<A>(es: seq<Element<A>>): (r: seq<(Key, Obj<A>)>)
    requires forall j | 0 <= j < |es| :: es[j].Pair?
    ensures |r| == |es| && forall j | 0 <= j < |es| :: r[j] == (es[j].key, es[j].value)
  {
    if es == [] then [] else [(es[0].key, es[0].value)] + PairsOf(es[1..])
  }

  /** The exception `dict()` raises for an element that is not a pair. */
  function ElementError<A>(e: Element<A>): Error
  {
    if e.WrongLength? then ValueError else TypeError
  }

  /** `dict(source)`, the shallow copy the constructor stores: a mapping is
      copied, an iterable is read element by element and the first element
      that is not a pair raises, and anything else is refused. */
  function InitialData<A>(src: Source<A>): (r: Result<Store<A>>)
    ensures src.Mapping? ==> r == Ok(src.d)
    ensures src.NotIterable? ==> r == Err(TypeError)
    ensures src.Iterable? ==> (r.Ok? <==> forall j | 0 <= j < |src.elems| :: src.elems[j].Pair?)
    ensures src.Iterable? ==> forall j | 0 <= j < |src.elems| && src.elems[j].WrongLength? && (forall i | 0 <= i < j :: src.elems[i].Pair?) :: r == Err(ValueError)
    ensures src.Iterable? ==> forall j | 0 <= j < |src.elems| && src.elems[j].NotSequence? && (forall i | 0 <= i < j :: src.elems[i].Pair?) :: r == Err(TypeError)
    ensures src.Iterable? && r.Ok? ==> r.value.vals.Keys == set j | 0 <= j < |src.elems| :: src.elems[j].key
  {
    match src
    case Mapping(d) => Ok(d)
    case Iterable(es) =>
      var b := FirstBad(es);
      if b < |es| then Err(ElementError(es[b]))
      else
        var items := PairsOf(es);
        FromPairsKeys(items);
        assert PairKeys(items) == set j | 0 <= j < |es| :: es[j].key by {
          forall k | k in PairKeys(items) ensures k in set j | 0 <= j < |es| :: es[j].key {
            var j :| 0 <= j < |items| && items[j].0 == k;
            assert es[j].key == k;
          }
        }
        Ok(FromPairs(items))
    case NotIterable => Err(TypeError)
  }

  /** A pair that no later pair overrides gives its key its value in the
      converted store. */
  lemma InitialDataValues<A>(es: seq<Element<A>>, j: nat)
    requires forall t | 0 <= t < |es| :: es[t].Pair?
    requires j < |es| && forall t | j < t < |es| :: es[t].key != es[j].key
    ensures InitialData(Iterable(es)).Ok?
    ensures es[j].key in InitialData(Iterable(es)).value.vals
    ensures InitialData(Iterable(es)).value.vals[es[j].key] == es[j].value
  {
    assert LastOfKey(PairsOf(es), j);
    FromPairsValues(PairsOf(es), j);
  }

  /** `_traverse(key)` without construction: a list of keys is indexed one
      key at a time from `_data`; anything else is looked up as one key. */
  function Traverse<A>(data: Store<A>, key: NestedKey): (r: Result<Obj<A>>)
    ensures r.Err? ==> r.error == KeyError || r.error == TypeError
    ensures key.Atom? ==> (r.Ok? <==> key.key in data.vals)
  {
    match key
    case Atom(k) => if k in data.vals then Ok(data.vals[k]) else Err(KeyError)
    case KeyList(ks) => Lookup(Root(data), ks)
  }

  /** `key in nd`: true when the traversal succeeds, false when it raises
      `KeyError`; a `TypeError` from indexing into a value propagates. */
  function Contains<A>(data: Store<A>, key: NestedKey): (r: Result<bool>)
    ensures r == Ok(true) <==> Traverse(data, key).Ok?
    ensures r == Ok(false) <==> Traverse(data, key) == Err(KeyError)
    ensures r.Err? ==> r.error == TypeError
  {
    match Traverse(data, key)
    case Ok(_) => Ok(true)
    case Err(e) => if e == KeyError then Ok(false) else Err(e)
  }

  /** `nd[key] = value`: a single key is assigned on `_data`; a list of keys
      goes through `_construct` with `NestDict` containers. */
  function SetKey<A>(data: Store<A>, key: NestedKey, value: Obj<A>): Outcome<Store<A>>
  {
    match key
    case Atom(k) => Outcome(Put(data, k, value), None)
    case KeyList(ks) => SetIn(data, ks, value, NestDictNode)
  }

  /** `del nd[key]`: a single key is removed from `_data`; a list of keys
      removes its last key from the parent the rest resolves to. */
  function DelKey<A>(data: Store<A>, key: NestedKey): Outcome<Store<A>>
  {
    match key
    case Atom(k) => if k in data.vals then Outcome(Remove(data, k), None) else Outcome(data, Some(KeyError))
    case KeyList(ks) => DeleteIn(data, ks)
  }

  /** A single key behaves as the one-key path made of it, for reading,
      writing and deleting; a tuple key in particular is one key, not a
      path. */
  lemma AtomIsSingleton<A>(data: Store<A>, k: Key, value: Obj<A>)
    ensures Traverse(data, Atom(k)) == Traverse(data, KeyList([k]))
    ensures SetKey(data, Atom(k), value) == SetKey(data, KeyList([k]), value)
    ensures DelKey(data, Atom(k)) == DelKey(data, KeyList([k]))
  {
    LookupOne(Root(data), k);
    assert Init([k]) == [];
  }

  /** Deleting a single key raises `KeyError` exactly when it is absent, and
      otherwise removes only that key. */
  lemma DelAtom<A>(data: Store<A>, k: Key)
    ensures DelKey(data, Atom(k)).raised == if k in data.vals then None else Some(KeyError)
    ensures DelKey(data, Atom(k)).state.vals == data.vals - {k}
    ensures DelKey(data, Atom(k)).state.keys == Without(data.keys, k)
  {
    if k !in data.vals {
      assert data.vals - {k} == data.vals;
      WithoutAbsent(data.keys, k);
    }
  }

  /** The keys of a split string. */
  function StrKeys(parts: seq<string>): (r: seq<Key>)
    ensures |r| == |parts| && forall j | 0 <= j < |parts| :: r[j] == Str(parts[j])
  {
    if parts == [] then [] else [Str(parts[0])] + StrKeys(parts[1..])
  }

  /** The path `path.split(sep)` names. */
  function DottedPath(path: string, sep: string): (r: seq<Key>)
    requires sep != ""
    ensures |r| >= 1
  {
    StrKeys(Split(path, sep))
  }

  /** `get(path, sep)`: the value at `path.split(sep)`, or `None` when a key
      on the way is missing. `str.split` rejects an empty separator with
      `ValueError`, and a `TypeError` from indexing into a value propagates. */
  function Get<A>(data: Store<A>, path: string, sep: string): (r: Result<Option<Obj<A>>>)
    ensures sep == "" <==> r == Err(ValueError)
    ensures sep != "" ==> (r == Ok(None) <==> Lookup(Root(data), DottedPath(path, sep)) == Err(KeyError))
    ensures sep != "" && r.Ok? && r.value.Some? ==> Lookup(Root(data), DottedPath(path, sep)) == Ok(r.value.value)
    ensures sep != "" && Lookup(Root(data), DottedPath(path, sep)).Ok? ==> r.Ok? && r.value.Some?
    ensures sep != "" && Lookup(Root(data), DottedPath(path, sep)) == Err(TypeError) ==> r == Err(TypeError)
  {
    if sep == "" then Err(ValueError)
    else match Lookup(Root(data), DottedPath(path, sep))
      case Ok(t) => Ok(Some(t))
      case Err(e) => if e == KeyError then Ok(None) else Err(e)
  }

  /** `set(path, value, sep)`: the list-path assignment on `path.split(sep)`. */
  function SetPath<A>(data: Store<A>, path: string, value: Obj<A>, sep: string): Outcome<Store<A>>
  {
    if sep == "" then Outcome(data, Some(ValueError))
    else SetIn(data, DottedPath(path, sep), value, NestDictNode)
  }

  /** `set` never raises `IndexError`, since a split has at least one piece:
      it fails on an empty separator, or with `TypeError` on a path that runs
      through a value, and then changes nothing. */
  lemma SetPathRaises<A>(data: Store<A>, path: string, value: Obj<A>, sep: string)
    ensures SetPath(data, path, value, sep).raised ==
      if sep == "" then Some(ValueError)
      else if Blocked(data, DottedPath(path, sep)) then Some(TypeError)
      else None
    ensures SetPath(data, path, value, sep).raised.Some? ==> SetPath(data, path, value, sep).state == data
  {
    if sep != "" {
      SetRaises(data, DottedPath(path, sep), value, NestDictNode);
    }
  }

  /** Get after set: once `set(path, value, sep)` has succeeded,
      `get(path, sep)` returns `value`. */
  lemma SetPathGet<A>(data: Store<A>, path: string, value: Obj<A>, sep: string)
    requires SetPath(data, path, value, sep).raised.None?
    ensures Get(SetPath(data, path, value, sep).state, path, sep) == Ok(Some(value))
  {
    SetGet(data, DottedPath(path, sep), value, NestDictNode);
  }

  /** A path without the separator is one top-level key: `set` assigns it on
      `_data` itself, because traversing the empty parent path returns the
      root. */
  lemma SetPathTopLevel<A>(data: Store<A>, path: string, value: Obj<A>, sep: string)
    requires sep != "" && FindFrom(path, sep, 0).None?
    ensures SetPath(data, path, value, sep) == Outcome(Put(data, Str(path), value), None)
  {
    var p := DottedPath(path, sep);
    assert p == [Str(path)];
    assert Init(p) == [];
  }

  /** The type `fallback` is keyed by: `type(current)`. */
  datatype PyType = DictType | NestDictType | ListType | ScalarType(name: string)

  function TypeOf<A>(o: Obj<A>): PyType
  {
    match o
    case Node(PlainDict, _) => DictType
    case Node(NestDictNode, _) => NestDictType
    case Leaf(List(_)) => ListType
    case Leaf(Scalar(ty, _)) => ScalarType(ty)
  }

  /** `concat`'s `fallback`: a combining function per type of the current
      value. */
  type Fallback<!A> = map<PyType, (Obj<A>, Obj<A>) -> Obj<A>>

  /** The merge of one entry of `concat`, where `cur` is what `self` holds
      and `v` what the other mapping holds:
      two `NestDict`s are concatenated recursively, with the default empty
      fallback; two plain dicts are merged with `update`; a list `v` is
      appended to `cur`, which is first wrapped as `[cur]` unless it is a
      list; anything else is combined by `fallback[type(cur)]`, and a type
      with no entry raises `KeyError`. A recursive merge that raises keeps
      what it had already merged. */
  function Combined<A>(cur: Obj<A>, v: Obj<A>, fb: Fallback<A>): Outcome<Obj<A>>
    decreases v, 1, 0
  {
    if cur.Node? && cur.kind == NestDictNode && v.Node? && v.kind == NestDictNode then
      var sub := ConcatInto(cur.kids, v.kids, map[], 0);
      Outcome(Node(NestDictNode, sub.state), sub.raised)
    else if cur.Node? && cur.kind == PlainDict && v.Node? && v.kind == PlainDict then
      Outcome(Node(PlainDict, Update(cur.kids, v.kids)), None)
    else if v.Leaf? && v.value.List? then
      var front := if cur.Leaf? && cur.value.List? then cur.value.items else [cur];
      Outcome(Leaf(List(front + v.value.items)), None)
    else if TypeOf(cur) in fb then Outcome(fb[TypeOf(cur)](cur, v), None)
    else Outcome(cur, Some(KeyError))
  }

  /** The loop of `concat` over `other.items()` from position `i` on: a key
      `self` lacks raises `KeyError`; otherwise the merged value replaces
      the entry, and a merge that raises stops the loop. */
  function ConcatInto<A>(d: Store<A>, other: Store<A>, fb: Fallback<A>, i: nat): Outcome<Store<A>>
    requires i <= |other.keys|
    decreases other, 0, |other.keys| - i
  {
    if i == |other.keys| then Outcome(d, None)
    else
      var k := other.keys[i];
      if k !in d.vals then Outcome(d, Some(KeyError))
      else
        var c := Combined(d.vals[k], other.vals[k], fb);
        var d1 := Put(d, k, c.state);
        if c.raised.Some? then Outcome(d1, c.raised) else ConcatInto(d1, other, fb, i + 1)
  }

  /** The argument of `concat`: one mapping, or a sequence of them. */
  datatype Others<A> = Single(d: Store<A>) | Several(ds: seq<Store<A>>)

  /** `if not isinstance(others, Sequence): others = [others]` */
  function OthersList<A>(others: Others<A>): seq<Store<A>>
  {
    match others
    case Single(d) => [d]
    case Several(ds) => ds
  }

  /** `concat` from the `n`-th of the mappings on: each is merged in turn,
      and the first exception stops the whole call. */
  function ConcatAll<A>(d: Store<A>, ds: seq<Store<A>>, fb: Fallback<A>, n: nat): Outcome<Store<A>>
    requires n <= |ds|
    decreases |ds| - n
  {
    if n == |ds| then Outcome(d, None)
    else
      var c := ConcatInto(d, ds[n], fb, 0);
      if c.raised.Some? then c else ConcatAll(c.state, ds, fb, n + 1)
  }

  /** One step of the merge loop over a key `self` holds, whose merged
      value replaces the entry. */
  lemma ConcatIntoStep<A>(d: Store<A>, other: Store<A>, fb: Fallback<A>, i: nat)
    requires i < |other.keys| && other.keys[i] in d.vals
    ensures var k := other.keys[i];
            var c := Combined(d.vals[k], other.vals[k], fb);
            var d1 := Put(d, k, c.state);
            && d1.keys == d.keys && d1.vals.Keys == d.vals.Keys
            && (c.raised.Some? ==> ConcatInto(d, other, fb, i) == Outcome(d1, c.raised))
            && (c.raised.None? ==> ConcatInto(d, other, fb, i) == ConcatInto(d1, other, fb, i + 1))
  {
  }

  /** `concat` only ever replaces entries: the keys of `self` and their
      order do not change. */
  lemma {:induction false} ConcatIntoKeys<A>(d: Store<A>, other: Store<A>, fb: Fallback<A>, i: nat)
    requires i <= |other.keys|
    ensures ConcatInto(d, other, fb, i).state.keys == d.keys
    decreases |other.keys| - i
  {
    if i < |other.keys| {
      var k := other.keys[i];
      if k in d.vals {
        ConcatIntoStep(d, other, fb, i);
        var c := Combined(d.vals[k], other.vals[k], fb);
        if c.raised.None? {
          ConcatIntoKeys(Put(d, k, c.state), other, fb, i + 1);
        }
      } else {
        assert ConcatInto(d, other, fb, i) == Outcome(d, Some(KeyError));
      }
    }
  }

  lemma {:induction false} ConcatAllKeys<A>(d: Store<A>, ds: seq<Store<A>>, fb: Fallback<A>, n: nat)
    requires n <= |ds|
    ensures ConcatAll(d, ds, fb, n).state.keys == d.keys
    decreases |ds| - n
  {
    if n < |ds| {
      var c := ConcatInto(d, ds[n], fb, 0);
      ConcatIntoKeys(d, ds[n], fb, 0);
      if c.raised.None? {
        ConcatAllKeys(c.state, ds, fb, n + 1);
      }
    }
  }

  /** The only exception `concat` raises is `KeyError`: a missing key, or a
      type without a fallback, at any depth. */
  lemma {:induction false} CombinedRaises<A>(cur: Obj<A>, v: Obj<A>, fb: Fallback<A>)
    ensures Combined(cur, v, fb).raised.Some? ==> Combined(cur, v, fb).raised == Some(KeyError)
    decreases v, 1, 0
  {
    if cur.Node? && cur.kind == NestDictNode && v.Node? && v.kind == NestDictNode {
      ConcatIntoRaises(cur.kids, v.kids, map[], 0);
    }
  }

  lemma {:induction false} ConcatIntoRaises<A>(d: Store<A>, other: Store<A>, fb: Fallback<A>, i: nat)
    requires i <= |other.keys|
    ensures ConcatInto(d, other, fb, i).raised.Some? ==> ConcatInto(d, other, fb, i).raised == Some(KeyError)
    decreases other, 0, |other.keys| - i
  {
    if i < |other.keys| {
      var k := other.keys[i];
      if k in d.vals {
        var c := Combined(d.vals[k], other.vals[k], fb);
        CombinedRaises(d.vals[k], other.vals[k], fb);
        ConcatIntoStep(d, other, fb, i);
        if c.raised.None? {
          ConcatIntoRaises(Put(d, k, c.state), other, fb, i + 1);
        }
      } else {
        assert ConcatInto(d, other, fb, i) == Outcome(d, Some(KeyError));
      }
    }
  }

  lemma {:induction false} ConcatAllRaises<A>(d: Store<A>, ds: seq<Store<A>>, fb: Fallback<A>, n: nat)
    requires n <= |ds|
    ensures ConcatAll(d, ds, fb, n).raised.Some? ==> ConcatAll(d, ds, fb, n).raised == Some(KeyError)
    decreases |ds| - n
  {
    if n < |ds| {
      var c := ConcatInto(d, ds[n], fb, 0);
      ConcatIntoRaises(d, ds[n], fb, 0);
      if c.raised.None? {
        ConcatAllRaises(c.state, ds, fb, n + 1);
      }
    }
  }

  /** A merge that succeeds found every key of `other` in `self`. */
  lemma {:induction false} ConcatIntoNeedsKeys<A>(d: Store<A>, other: Store<A>, fb: Fallback<A>, i: nat)
    requires i <= |other.keys| && ConcatInto(d, other, fb, i).raised.None?
    ensures forall j | i <= j < |other.keys| :: other.keys[j] in d.vals
    decreases |other.keys| - i
  {
    if i < |other.keys| {
      var k := other.keys[i];
      assert k in d.vals;
      ConcatIntoStep(d, other, fb, i);
      var c := Combined(d.vals[k], other.vals[k], fb);
      var d1 := Put(d, k, c.state);
      assert c.raised.None?;
      ConcatIntoNeedsKeys(d1, other, fb, i + 1);
      forall j | i < j < |other.keys| ensures other.keys[j] in d.vals {
        assert other.keys[j] in d1.vals;
      }
    }
  }

  /** What a successful merge leaves: an entry of `self` whose key `other`
      holds is the merge of the two values, and any other entry is as it
      was. */
  lemma {:induction false} ConcatIntoValue<A>(d: Store<A>, other: Store<A>, fb: Fallback<A>, i: nat, k: Key)
    requires i <= |other.keys| && ConcatInto(d, other, fb, i).raised.None? && k in d.vals
    ensures var r := ConcatInto(d, other, fb, i).state;
            && k in r.vals
            && r.vals[k] == if k in other.vals && k in other.keys[i..] then Combined(d.vals[k], other.vals[k], fb).state else d.vals[k]
    decreases |other.keys| - i
  {
    if i == |other.keys| {
      assert other.keys[i..] == [];
    } else {
      var ki := other.keys[i];
      var c := Combined(d.vals[ki], other.vals[ki], fb);
      ConcatIntoValue(Put(d, ki, c.state), other, fb, i + 1, k);
      if k == ki {
        KeyNotLater(other, i);
      } else {
        InTail(other.keys, i, k);
      }
    }
  }

  lemma InTail<K>(s: seq<K>, i: nat, k: K)
    requires i < |s| && k != s[i]
    ensures k in s[i..] <==> k in s[i + 1..]
  {
    assert s[i..] == [s[i]] + s[i + 1..];
  }

  /** A successful `concat` of every mapping: each mapping's keys were all in
      `self`. */
  lemma {:induction false} ConcatAllNeedsKeys<A>(d: Store<A>, ds: seq<Store<A>>, fb: Fallback<A>, n: nat, m: nat, j: nat)
    requires n <= m < |ds| && j < |ds[m].keys| && ConcatAll(d, ds, fb, n).raised.None?
    ensures ds[m].keys[j] in d.vals
    decreases |ds| - n
  {
    var c := ConcatInto(d, ds[n], fb, 0);
    if m == n {
      ConcatIntoNeedsKeys(d, ds[n], fb, 0);
    } else {
      ConcatAllNeedsKeys(c.state, ds, fb, n + 1, m, j);
      ConcatIntoKeys(d, ds[n], fb, 0);
      assert ds[m].keys[j] in c.state.keys;
    }
  }

  /** Lists concatenate: `[1, 2]` merged with `[3, 4]` is `[1, 2, 3, 4]`. */
  lemma CombinedLists<A>(cs: seq<Obj<A>>, vs: seq<Obj<A>>, fb: Fallback<A>)
    ensures Combined(Leaf(List(cs)), Leaf(List(vs)), fb) == Outcome(Leaf(List(cs + vs)), None)
  {
  }

  /** A value that is not a list is promoted to the one-element list before
      the other list is appended: `1` merged with `[2, 3]` is `[1, 2, 3]`. */
  lemma CombinedPromotes<A>(cur: Obj<A>, vs: seq<Obj<A>>, fb: Fallback<A>)
    requires !(cur.Leaf? && cur.value.List?)
    ensures Combined(cur, Leaf(List(vs)), fb) == Outcome(Leaf(List([cur] + vs)), None)
  {
  }

  /** Two plain dicts merge shallowly, as `update` does: `other`'s entries
      win and its new keys come last. */
  lemma CombinedDicts<A>(a: Store<A>, b: Store<A>, fb: Fallback<A>)
    ensures var r := Combined(Node(PlainDict, a), Node(PlainDict, b), fb);
            && r.raised.None? && r.state.Node? && r.state.kind == PlainDict
            && r.state.kids.vals == a.vals + b.vals
            && r.state.kids.keys == a.keys + Missing(b.keys, a.vals)
  {
  }

  /** Two `NestDict`s merge recursively: the result is a `NestDict` with the
      same keys in the same order, raising only `KeyError`. */
  lemma CombinedNested<A>(a: Store<A>, b: Store<A>, fb: Fallback<A>)
    ensures var r := Combined(Node(NestDictNode, a), Node(NestDictNode, b), fb);
            && r.state.Node? && r.state.kind == NestDictNode && r.state.kids.keys == a.keys
            && (r.raised.None? ==>
                  forall k | k in a.vals :: k in r.state.kids.vals && r.state.kids.vals[k] ==
                    (if k in b.vals then Combined(a.vals[k], b.vals[k], map[]).state else a.vals[k]))
            && (r.raised.Some? ==> r.raised == Some(KeyError))
  {
    ConcatIntoKeys(a, b, map[], 0);
    ConcatIntoRaises(a, b, map[], 0);
    if ConcatInto(a, b, map[], 0).raised.None? {
      assert b.keys[0..] == b.keys;
      forall k | k in a.vals
        ensures var r := ConcatInto(a, b, map[], 0).state;
                k in r.vals && r.vals[k] == if k in b.vals then Combined(a.vals[k], b.vals[k], map[]).state else a.vals[k]
      {
        ConcatIntoValue(a, b, map[], 0, k);
      }
    }
  }

  /** Any other pair of values goes to `fallback[type(cur)]`; a type without
      an entry raises `KeyError` and leaves `cur` as it was. */
  lemma CombinedFallback<A>(cur: Obj<A>, v: Obj<A>, fb: Fallback<A>)
    requires !(cur.Node? && v.Node? && cur.kind == v.kind) && !(v.Leaf? && v.value.List?)
    ensures Combined(cur, v, fb) ==
      if TypeOf(cur) in fb then Outcome(fb[TypeOf(cur)](cur, v), None) else Outcome(cur, Some(KeyError))
  {
  }

  /** `flatten()`'s result: `dict` of the leaves keyed by the tuple of their
      path. */
  function TupleKeyed<A>(items: seq<(seq<Key>, Val<A>)>): (r: seq<(Key, Val<A>)>)
    ensures |r| == |items|
    ensures forall j | 0 <= j < |items| :: r[j] == (Tuple(items[j].0), items[j].1)
  {
    if items == [] then [] else [(Tuple(items[0].0), items[0].1)] + TupleKeyed(items[1..])
  }

  ghost function Flat<A>(data: Store<A>): Dict<Key, Val<A>>
  {
    FromPairs(TupleKeyed(FlatFrom(data, [], 0)))
  }

  /** `flatten()` holds exactly the leaves: the tuple of a path is a key of
      the flat dict, with value `v`, exactly when the path is non-empty and
      leads to the leaf `v`. */
  lemma FlattenExact<A>(data: Store<A>, p: seq<Key>, v: Val<A>)
    ensures (Tuple(p) in Flat(data).vals && Flat(data).vals[Tuple(p)] == v) <==>
            (|p| >= 1 && Lookup(Root(data), p) == Ok(Leaf(v)))
  {
    if Tuple(p) in Flat(data).vals {
      FlatKeySound(data, p);
    }
    if |p| >= 1 && Lookup(Root(data), p) == Ok(Leaf(v)) {
      FlatKeyComplete(data, p, v);
    }
  }

  lemma FlatKeySound<A>(data: Store<A>, p: seq<Key>)
    requires Tuple(p) in Flat(data).vals
    ensures |p| >= 1 && Lookup(Root(data), p) == Ok(Leaf(Flat(data).vals[Tuple(p)]))
  {
    var items := FlatFrom(data, [], 0);
    var tk := TupleKeyed(items);
    FlatTupleFunctional(data);
    FromPairsKeys(tk);
    var j :| 0 <= j < |tk| && tk[j].0 == Tuple(p);
    FlatSound(data, [], 0, j);
    assert items[j].0[0..] == p;
    FromPairsFunctional(tk, j);
  }

  lemma FlatKeyComplete<A>(data: Store<A>, p: seq<Key>, v: Val<A>)
    requires |p| >= 1 && Lookup(Root(data), p) == Ok(Leaf(v))
    ensures Tuple(p) in Flat(data).vals && Flat(data).vals[Tuple(p)] == v
  {
    var items := FlatFrom(data, [], 0);
    var tk := TupleKeyed(items);
    FlatTupleFunctional(data);
    assert p[0] in data.keys[0..];
    FlatComplete(data, [], 0, p, v);
    assert [] + p == p;
    var j :| 0 <= j < |items| && items[j] == (p, v);
    FromPairsFunctional(tk, j);
  }

  /** No key of `flatten()` names a container or the root. */
  lemma FlattenKeys<A>(data: Store<A>, key: Key)
    requires key in Flat(data).vals
    ensures key.Tuple? && |key.items| >= 1
    ensures Lookup(Root(data), key.items).Ok? && Lookup(Root(data), key.items).value.Leaf?
  {
    var items := FlatFrom(data, [], 0);
    var tk := TupleKeyed(items);
    FromPairsKeys(tk);
    var j :| 0 <= j < |tk| && tk[j].0 == key;
    FlatSound(data, [], 0, j);
    assert items[j].0[0..] == items[j].0;
  }

  lemma FlatTupleFunctional<A>(data: Store<A>)
    ensures Functional(TupleKeyed(FlatFrom(data, [], 0)))
  {
    var items := FlatFrom(data, [], 0);
    var tk := TupleKeyed(items);
    forall a, b | 0 <= a < |tk| && 0 <= b < |tk| && tk[a].0 == tk[b].0 ensures tk[a].1 == tk[b].1 {
      FlatSound(data, [], 0, a);
      FlatSound(data, [], 0, b);
      assert items[a].0[0..] == items[a].0 && items[b].0[0..] == items[b].0;
    }
  }

  /** A `NestDict`: the `_data` dict, changed in place by the mutating
      methods. */
  class NestDict<A> {
    var data: Store<A>

    /** `NestDict(source)` once `dict(source)` has succeeded. */
    constructor(source: Store<A>)
      ensures data == source
    {
      data := source;
    }

    method SetItem(key: NestedKey, value: Obj<A>) returns (raised: Option<Error>)
      modifies this
      ensures data == SetKey(old(data), key, value).state
      ensures raised == SetKey(old(data), key, value).raised
    {
      var o := SetKey(data, key, value);
      data := o.state;
      raised := o.raised;
    }

    method DelItem(key: NestedKey) returns (raised: Option<Error>)
      modifies this
      ensures data == DelKey(old(data), key).state
      ensures raised == DelKey(old(data), key).raised
    {
      var o := DelKey(data, key);
      data := o.state;
      raised := o.raised;
    }

    /** `set(path, value, sep)` */
    method Set(path: string, value: Obj<A>, sep: string) returns (raised: Option<Error>)
      modifies this
      ensures data == SetPath(old(data), path, value, sep).state
      ensures raised == SetPath(old(data), path, value, sep).raised
    {
      var o := SetPath(data, path, value, sep);
      data := o.state;
      raised := o.raised;
    }

    /** `update(other)`: the shallow `dict.update` of `_data`. */
    method Update(other: Store<A>)
      modifies this
      ensures data == Dicts.Update(old(data), other)
    {
      data := Dicts.Update(data, other);
    }

    method Clear()
      modifies this
      ensures data == Empty()
    {
      data := Empty();
    }

    /** `flatten()`: the walk of `_flatten` from `_data`, then `dict(items)`. */
    method Flatten() returns (flat: Dict<Key, Val<A>>)
      ensures flat == Flat(data)
    {
      var items := FlattenNode(data, []);
      flat := FromPairs(TupleKeyed(items));
    }

    /** `concat(others, fallback)`: for each mapping, for each of its keys in
        order, the entry of `_data` is replaced by the merged value. The
        first exception ends the call and leaves the entries merged so far. */
    method Concat(others: Others<A>, fb: Fallback<A>) returns (raised: Option<Error>)
      modifies this
      ensures data == ConcatAll(old(data), OthersList(others), fb, 0).state
      ensures raised == ConcatAll(old(data), OthersList(others), fb, 0).raised
    {
      var list := OthersList(others);
      var n := 0;
      while n < |list|
        invariant n <= |list|
        invariant ConcatAll(data, list, fb, n) == ConcatAll(old(data), list, fb, 0)
        decreases |list| - n
      {
        raised := ConcatOne(list[n], fb);
        if raised.Some? {
          return;
        }
        n := n + 1;
      }
      raised := None;
    }

    /** One pass of `concat`'s loop over `other.items()`. */
    method ConcatOne(other: Store<A>, fb: Fallback<A>) returns (raised: Option<Error>)
      modifies this
      ensures data == ConcatInto(old(data), other, fb, 0).state
      ensures raised == ConcatInto(old(data), other, fb, 0).raised
    {
      var i := 0;
      while i < |other.keys|
        invariant i <= |other.keys|
        invariant ConcatInto(data, other, fb, i) == ConcatInto(old(data), other, fb, 0)
        decreases |other.keys| - i
      {
        var k := other.keys[i];
        if k !in data.vals {
          return Some(KeyError);
        }
        var c := Combined(data.vals[k], other.vals[k], fb);
        data := Put(data, k, c.state);
        if c.raised.Some? {
          return c.raised;
        }
        i := i + 1;
      }
      raised := None;
    }
  }
}
