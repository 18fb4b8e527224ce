/** Python's built-in `dict`: a finite map that remembers insertion order.
    Every mapping of the library (the nested nodes, the top-level `_data`
    stores, the column store) is one of these. */
module Dicts {

  /** An ordered dictionary: `keys` lists the keys in insertion order and
      `vals` maps each of them to its value. */
  datatype RawDict<K, +V> = RawDict(keys: seq<K>, vals: map<K, V>)

  ghost predicate Distinct<K>(s: seq<K>) {
    forall i, j | 0 <= i < j < |s| :: s[i] != s[j]
  }

  /** The insertion order lists every key exactly once. */
  ghost predicate IsDict<K, V>(d: RawDict<K, V>) {
    && Distinct(d.keys)
    && (forall k | k in d.vals :: k in d.keys)
    && (forall i | 0 <= i < |d.keys| :: d.keys[i] in d.vals)
  }

  type Dict<K, +V> = d: RawDict<K, V> | IsDict(d) witness RawDict([], map[])

  /** `{}` */
  function Empty<K(==), V>(): (r: Dict<K, V>)
    ensures r.keys == [] && r.vals == map[]
  {
    RawDict([], map[])
  }

  /** `d[k] = v`: an existing key keeps its position, a new key goes last. */
  function Put<K(==), V>(d: Dict<K, V>, k: K, v: V): (r: Dict<K, V>)
    ensures r.vals == d.vals[k := v]
    ensures k in d.vals ==> r.keys == d.keys
    ensures k !in d.vals ==> r.keys == d.keys + [k]
  {
    if k in d.vals then RawDict(d.keys, d.vals[k := v])
    else RawDict(d.keys + [k], d.vals[k := v])
  }

  /** Writing back the value a key already has changes nothing. */
  lemma PutSame<K, V>(d: Dict<K, V>, k: K)
    requires k in d.vals
    ensures Put(d, k, d.vals[k]) == d
  {
    assert d.vals[k := d.vals[k]] == d.vals;
  }

  /** The keys of `s` other than `k`, in order. */
  function Without<K(==)>(s: seq<K>, k: K): (r: seq<K>)
    ensures forall x | x in r :: x in s && x != k
    ensures forall x | x in s && x != k :: x in r
    ensures forall i | 0 <= i < |r| :: r[i] in s && r[i] != k
    ensures |r| <= |s|
  {
    if s == [] then []
    else (if s[0] == k then [] else [s[0]]) + Without(s[1..], k)
  }

  lemma {:induction false} WithoutDistinct<K>(s: seq<K>, k: K)
    requires Distinct(s)
    ensures Distinct(Without(s, k))
  {
    if s != [] {
      WithoutDistinct(s[1..], k);
      assert s[0] !in s[1..] by {
        forall i | 0 <= i < |s[1..]| ensures s[1..][i] != s[0] {
          assert s[1..][i] == s[i + 1];
        }
      }
    }
  }

  /** Without a key `s` lacks, `s` is unchanged. */
  lemma {:induction false} WithoutAbsent<K>(s: seq<K>, k: K)
    requires k !in s
    ensures Without(s, k) == s
  {
    if s != [] {
      assert s[0] != k;
      assert k !in s[1..] by {
        forall j | 0 <= j < |s| - 1 ensures s[1..][j] != k { assert s[1..][j] == s[j + 1]; }
      }
      WithoutAbsent(s[1..], k);
      calc {
        Without(s, k);
        [s[0]] + Without(s[1..], k);
        [s[0]] + s[1..];
        s;
      }
    }
  }

  /** `del d[k]` for a key that is present: the other keys keep their order. */
  function Remove<K(==), V>(d: Dict<K, V>, k: K): (r: Dict<K, V>)
    ensures r.vals == d.vals - {k}
    ensures r.keys == Without(d.keys, k)
  {
    WithoutDistinct(d.keys, k);
    var r := RawDict(Without(d.keys, k), d.vals - {k});
    r
  }

  /** The keys of `ks` that `m` does not hold yet, in order. */
  function Missing<K(==), V>(ks: seq<K>, m: map<K, V>): (r: seq<K>)
  {
    if ks == [] then []
    else (if ks[0] in m then [] else [ks[0]]) + Missing(ks[1..], m)
  }

  lemma {:induction false} MissingAfterPut<K, V>(ks: seq<K>, m: map<K, V>, k: K, v: V)
    requires k !in ks
    ensures Missing(ks, m[k := v]) == Missing(ks, m)
  {
    if ks != [] {
      MissingAfterPut(ks[1..], m, k, v);
    }
  }

  /** The loop of `d.update(other)` from position `i` of `other`'s keys on. */
  function UpdateFrom<K(==), V>(d: Dict<K, V>, other: Dict<K, V>, i: nat): Dict<K, V>
    requires i <= |other.keys|
    decreases |other.keys| - i
  {
    if i == |other.keys| then d
    else UpdateFrom(Put(d, other.keys[i], other.vals[other.keys[i]]), other, i + 1)
  }

  /** The entries of `other` whose keys sit at position `i` or later. */
  ghost function Suffix<K, V>(other: Dict<K, V>, i: nat): map<K, V>
    requires i <= |other.keys|
  {
    map k | k in other.vals && k in other.keys[i..] :: other.vals[k]
  }

  lemma {:induction false} SuffixStep<K, V>(other: Dict<K, V>, i: nat)
    requires i < |other.keys|
    ensures other.keys[i] !in other.keys[i + 1..]
    ensures Suffix(other, i) == Suffix(other, i + 1)[other.keys[i] := other.vals[other.keys[i]]]
  {
    var k := other.keys[i];
    assert other.keys[i..] == [k] + other.keys[i + 1..];
    forall j | i + 1 <= j < |other.keys| ensures other.keys[j] != k { }
  }

  lemma KeyNotLater<K, V>(other: Dict<K, V>, i: nat)
    requires i < |other.keys|
    ensures other.keys[i] !in other.keys[i + 1..]
  {
    forall j | i + 1 <= j < |other.keys| ensures other.keys[j] != other.keys[i] { }
  }

  lemma MapPlusShift<K, V>(m: map<K, V>, s: map<K, V>, k: K, v: V)
    requires k !in s
    ensures m[k := v] + s == m + s[k := v]
  {
  }

  lemma {:induction false} UpdateFromVals<K, V>(d: Dict<K, V>, other: Dict<K, V>, i: nat)
    requires i <= |other.keys|
    ensures UpdateFrom(d, other, i).vals == d.vals + Suffix(other, i)
    decreases |other.keys| - i
  {
    if i == |other.keys| {
      assert Suffix(other, i) == map[];
    } else {
      var k := other.keys[i];
      var v := other.vals[k];
      var d1 := Put(d, k, v);
      assert UpdateFrom(d, other, i) == UpdateFrom(d1, other, i + 1);
      UpdateFromVals(d1, other, i + 1);
      SuffixStep(other, i);
      assert k !in Suffix(other, i + 1);
      MapPlusShift(d.vals, Suffix(other, i + 1), k, v);
    }
  }

  lemma ConcatAssoc<T>(a: seq<T>, b: seq<T>, c: seq<T>)
    ensures a + b + c == a + (b + c)
  {
  }

  lemma {:induction false} MissingCons<K, V>(k: K, rest: seq<K>, m: map<K, V>)
    ensures Missing([k] + rest, m) == (if k in m then [] else [k]) + Missing(rest, m)
  {
    assert ([k] + rest)[0] == k && ([k] + rest)[1..] == rest;
  }

  lemma UpdateFromUnfold<K, V>(d: Dict<K, V>, other: Dict<K, V>, i: nat)
    requires i < |other.keys|
    ensures UpdateFrom(d, other, i) == UpdateFrom(Put(d, other.keys[i], other.vals[other.keys[i]]), other, i + 1)
  {
  }

  /** The keys of `other` from position `i` on that `m` lacks, split at the first one. */
  lemma MissingAt<K, V>(other: Dict<K, V>, i: nat, m: map<K, V>, pre: seq<K>)
    requires i < |other.keys|
    ensures pre + (if other.keys[i] in m then [] else [other.keys[i]]) + Missing(other.keys[i + 1..], m)
         == pre + Missing(other.keys[i..], m)
  {
    var k := other.keys[i];
    var rest := other.keys[i + 1..];
    var x: seq<K> := if k in m then [] else [k];
    ConcatAssoc(pre, x, Missing(rest, m));
    assert other.keys[i..] == [k] + rest;
    MissingCons(k, rest, m);
  }

  lemma {:induction false} UpdateFromKeys<K, V>(d: Dict<K, V>, other: Dict<K, V>, i: nat)
    requires i <= |other.keys|
    ensures UpdateFrom(d, other, i).keys == d.keys + Missing(other.keys[i..], d.vals)
    decreases |other.keys| - i
  {
    if i == |other.keys| {
      assert other.keys[i..] == [];
    } else {
      var k := other.keys[i];
      var d1 := Put(d, k, other.vals[k]);
      var rest := other.keys[i + 1..];
      calc {
        UpdateFrom(d, other, i).keys;
        { UpdateFromUnfold(d, other, i); }
        UpdateFrom(d1, other, i + 1).keys;
        { UpdateFromKeys(d1, other, i + 1); }
        d1.keys + Missing(rest, d1.vals);
        { KeyNotLater(other, i); MissingAfterPut(rest, d.vals, k, other.vals[k]); }
        d.keys + (if k in d.vals then [] else [k]) + Missing(rest, d.vals);
        { MissingAt(other, i, d.vals, d.keys); }
        d.keys + Missing(other.keys[i..], d.vals);
      }
    }
  }

  /** `d.update(other)`: every entry of `other` overwrites or is added; the
      keys `other` lacks keep their values and the existing order is kept,
      with `other`'s new keys appended in `other`'s order. */
  function Update<K(==), V>(d: Dict<K, V>, other: Dict<K, V>): (r: Dict<K, V>)
    ensures r.vals == d.vals + other.vals
    ensures r.keys == d.keys + Missing(other.keys, d.vals)
  {
    UpdateFromVals(d, other, 0);
    UpdateFromKeys(d, other, 0);
    assert other.keys[0..] == other.keys;
    assert Suffix(other, 0) == other.vals;
    UpdateFrom(d, other, 0)
  }

  /** No pair after position `i` has the key of pair `i`. */
  ghost predicate LastOfKey<K, V>(items: seq<(K, V)>, i: nat)
    requires i < |items|
  {
    forall j | i < j < |items| :: items[j].0 != items[i].0
  }

  /** `dict(items)`: the pairs are assigned left to right, so a repeated key
      keeps its first position and its last value. */
  function FromPairs<K(==), V>(items: seq<(K, V)>): Dict<K, V>
  {
    if items == [] then Empty()
    else Put(FromPairs(items[..|items| - 1]), items[|items| - 1].0, items[|items| - 1].1)
  }

  /** The keys named by the pairs. */
  ghost function PairKeys<K, V>(items: seq<(K, V)>): set<K> {
    set i | 0 <= i < |items| :: items[i].0
  }

  lemma PairKeysSnoc<K, V>(items: seq<(K, V)>)
    requires items != []
    ensures PairKeys(items) == PairKeys(items[..|items| - 1]) + {items[|items| - 1].0}
  {
    var n := |items| - 1;
    forall k | k in PairKeys(items) ensures k in PairKeys(items[..n]) + {items[n].0} {
      var i :| 0 <= i < |items| && items[i].0 == k;
      if i < n { assert items[..n][i] == items[i]; }
    }
    forall k | k in PairKeys(items[..n]) ensures k in PairKeys(items) {
      var i :| 0 <= i < n && items[..n][i].0 == k;
      assert items[i] == items[..n][i];
    }
  }

  lemma {:induction false} FromPairsKeys<K, V>(items: seq<(K, V)>)
    ensures FromPairs(items).vals.Keys == PairKeys(items)
  {
    if items == [] {
      assert PairKeys(items) == {};
    } else {
      var n := |items| - 1;
      calc {
        FromPairs(items).vals.Keys;
        FromPairs(items[..n]).vals.Keys + {items[n].0};
        { FromPairsKeys(items[..n]); }
        PairKeys(items[..n]) + {items[n].0};
        { PairKeysSnoc(items); }
        PairKeys(items);
      }
    }
  }

  lemma {:induction false} FromPairsValues<K, V>(items: seq<(K, V)>, i: nat)
    requires i < |items| && LastOfKey(items, i)
    ensures items[i].0 in FromPairs(items).vals
    ensures FromPairs(items).vals[items[i].0] == items[i].1
  {
    var n := |items| - 1;
    if i < n {
      assert items[n].0 != items[i].0;
      assert LastOfKey(items[..n], i) by {
        forall j | i < j < n ensures items[..n][j].0 != items[..n][i].0 {
          assert items[..n][j] == items[j];
        }
      }
      FromPairsValues(items[..n], i);
      assert items[..n][i] == items[i];
    }
  }
  /** Pairs that agree wherever their keys agree. */
  ghost predicate Functional<K, V>(items: seq<(K, V)>) {
    forall a, b | 0 <= a < |items| && 0 <= b < |items| && items[a].0 == items[b].0 :: items[a].1 == items[b].1
  }

  /** When the pairs never give one key two different values, `dict(items)`
      holds every pair. */
  lemma {:induction false} FromPairsFunctional<K, V>(items: seq<(K, V)>, j: nat)
    requires j < |items| && Functional(items)
    ensures items[j].0 in FromPairs(items).vals
    ensures FromPairs(items).vals[items[j].0] == items[j].1
  {
    var n := |items| - 1;
    if items[n].0 != items[j].0 {
      var init := items[..n];
      assert Functional(init) by {
        forall a, b | 0 <= a < n && 0 <= b < n && init[a].0 == init[b].0 ensures init[a].1 == init[b].1 {
          assert init[a] == items[a] && init[b] == items[b];
        }
      }
      assert init[j] == items[j];
      FromPairsFunctional(init, j);
    }
  }
}
