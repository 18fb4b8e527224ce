/** `NestedDict` (base.py): a nested mapping over string keys. Its
    `_construct` creates plain `dict` containers, a key must be a string or
    a list of strings (anything else raises `NestedKeyError`), and `flatten`
    keys the leaves by their path joined with a separator. */
module NestedDicts {
  import opened PyErrors
  import opened Dicts
  import opened Trees
  import opened PyStrings

  /** Any stored object: a `dict` container or a value of type `A`. */
  type Obj<A> = Tree<string, A>

  /** The `_data` dict. */
  type Store<A> = Dict<string, Obj<A>>

  /** The constructor's argument: none, a `dict`, or another object, which
      is either truthy or falsy. */
  datatype Source<A> = NoSource | DictSource(d: Store<A>) | OtherSource(truthy: bool)

  /** `source or {}`, after the check that a truthy source is a `dict`. */
  function InitialData<A>(src: Source<A>): (r: Result<Store<A>>)
    ensures r.Err? <==> src.OtherSource? && src.truthy
    ensures r.Err? ==> r.error == TypeError
    ensures src.DictSource? ==> r == Ok(src.d)
    ensures src.NoSource? || (src.OtherSource? && !src.truthy) ==> r == Ok(Empty())
  {
    match src
    case NoSource => Ok(Empty())
    case DictSource(d) => Ok(d)
    case OtherSource(truthy) => if truthy then Err(TypeError) else Ok(Empty())
  }

  /** The argument of `nd[...]`: a string, a list of strings, or anything
      else. */
  datatype NestedKey = StrKey(s: string) | ListKey(keys: seq<string>) | OtherKey

  /** `_traverse(nested_key)` without construction. */
  function Traverse<A>(data: Store<A>, key: NestedKey): Result<Obj<A>>
  {
    match key
    case StrKey(s) => if s in data.vals then Ok(data.vals[s]) else Err(KeyError)
    case ListKey(ks) => Lookup(Root(data), ks)
    case OtherKey => Err(NestedKeyError)
  }

  /** `nd[key] = value`: a string is assigned on `_data`; a list goes
      through `_construct` with `dict` containers. */
  function SetKey<A>(data: Store<A>, key: NestedKey, value: Obj<A>): Outcome<Store<A>>
  {
    match key
    case StrKey(s) => Outcome(Put(data, s, value), None)
    case ListKey(ks) => SetIn(data, ks, value, PlainDict)
    case OtherKey => Outcome(data, Some(NestedKeyError))
  }

  /** `del nd[key]`: a string is removed from `_data`; a list removes its
      last key from the parent the rest resolves to. */
  function DelKey<A>(data: Store<A>, key: NestedKey): Outcome<Store<A>>
  {
    match key
    case StrKey(s) => if s in data.vals then Outcome(Remove(data, s), None) else Outcome(data, Some(KeyError))
    case ListKey(ks) => DeleteIn(data, ks)
    case OtherKey => Outcome(data, Some(NestedKeyError))
  }

  /** A key that is neither a string nor a list raises `NestedKeyError` in
      reading, writing and deleting, and changes nothing; no other key
      ever raises it, and it is never a `KeyError`. */
  lemma NestedKeyErrors<A>(data: Store<A>, key: NestedKey, value: Obj<A>)
    ensures Traverse(data, key) == Err(NestedKeyError) <==> key.OtherKey?
    ensures SetKey(data, key, value).raised == Some(NestedKeyError) <==> key.OtherKey?
    ensures DelKey(data, key).raised == Some(NestedKeyError) <==> key.OtherKey?
    ensures key.OtherKey? ==> SetKey(data, key, value).state == data && DelKey(data, key).state == data
  {
    if key.ListKey? {
      SetRaises(data, key.keys, value, PlainDict);
      DeleteRaises(data, key.keys);
    }
  }

  /** A string key behaves as the one-key list made of it. */
  lemma StrIsSingleton<A>(data: Store<A>, s: string, value: Obj<A>)
    ensures Traverse(data, StrKey(s)) == Traverse(data, ListKey([s]))
    ensures SetKey(data, StrKey(s), value) == SetKey(data, ListKey([s]), value)
    ensures DelKey(data, StrKey(s)) == DelKey(data, ListKey([s]))
  {
    LookupOne(Root(data), s);
    assert Init([s]) == [];
  }

  /** Get after set: once setting a list path has succeeded, the path reads
      back the value. */
  lemma SetItemGet<A>(data: Store<A>, ks: seq<string>, value: Obj<A>)
    requires SetKey(data, ListKey(ks), value).raised.None?
    ensures Traverse(SetKey(data, ListKey(ks), value).state, ListKey(ks)) == Ok(value)
  {
    SetGet(data, ks, value, PlainDict);
  }

  /** Every container a successful list-path set passed through is a `dict`
      afterwards: a missing one is a new `dict` holding only the next key,
      and an existing one stays what it was. */
  lemma SetItemContainers<A>(data: Store<A>, ks: seq<string>, value: Obj<A>, i: nat)
    requires SetKey(data, ListKey(ks), value).raised.None? && i < |ks|
    ensures var before := Lookup(Root(data), ks[..i]);
            var after := Lookup(Root(SetKey(data, ListKey(ks), value).state), ks[..i]);
            && after.Ok? && after.value.Node?
            && (before.Ok? ==> before.value.Node? && after.value.kind == before.value.kind)
            && (before.Err? ==> after.value.kind == PlainDict && after.value.kids.keys == [ks[i]])
  {
    if i < |ks| - 1 {
      SetAncestor(data, ks, value, PlainDict, i);
    } else {
      SetParent(data, ks, value, PlainDict);
      assert ks[..i] == Init(ks);
    }
  }

  /** `get(path, sep)`: the value at `path.split(sep)`, or `None` when a
      key on the way is missing; the split rejects an empty separator, and a
      `TypeError` from indexing into a value propagates. */
  function Get<A>(data: Store<A>, path: string, sep: string): (r: Result<Option<Obj<A>>>)
    ensures sep == "" <==> r == Err(ValueError)
    ensures sep != "" ==> (r == Ok(None) <==> Lookup(Root(data), Split(path, sep)) == Err(KeyError))
    ensures sep != "" && r.Ok? && r.value.Some? ==> Lookup(Root(data), Split(path, sep)) == Ok(r.value.value)
    ensures sep != "" && Lookup(Root(data), Split(path, sep)).Ok? ==> r.Ok? && r.value.Some?
    ensures sep != "" && Lookup(Root(data), Split(path, sep)) == Err(TypeError) ==> r == Err(TypeError)
  {
    if sep == "" then Err(ValueError)
    else match Lookup(Root(data), Split(path, sep))
      case Ok(t) => Ok(Some(t))
      case Err(e) => if e == KeyError then Ok(None) else Err(e)
  }

  /** `set(path, value, sep)`: `_construct` along all of `path.split(sep)`
      but its last piece, then the assignment of that piece. */
  function SetPath<A>(data: Store<A>, path: string, value: Obj<A>, sep: string): Outcome<Store<A>>
  {
    if sep == "" then Outcome(data, Some(ValueError))
    else SetIn(data, Split(path, sep), value, PlainDict)
  }

  /** `set` fails only on an empty separator, or with `TypeError` on a path
      that runs through a value, and then changes nothing. */
  lemma SetPathRaises<A>(data: Store<A>, path: string, value: Obj<A>, sep: string)
    ensures SetPath(data, path, value, sep).raised ==
      if sep == "" then Some(ValueError)
      else if Blocked(data, Split(path, sep)) then Some(TypeError)
      else None
    ensures SetPath(data, path, value, sep).raised.Some? ==> SetPath(data, path, value, sep).state == data
  {
    if sep != "" {
      SetRaises(data, Split(path, sep), value, PlainDict);
    }
  }

  /** Get after set, and `set` is the list-path assignment of the split. */
  lemma SetPathGet<A>(data: Store<A>, path: string, value: Obj<A>, sep: string)
    requires SetPath(data, path, value, sep).raised.None?
    ensures SetPath(data, path, value, sep) == SetKey(data, ListKey(Split(path, sep)), value)
    ensures Get(SetPath(data, path, value, sep).state, path, sep) == Ok(Some(value))
  {
    SetGet(data, Split(path, sep), value, PlainDict);
  }

  /** A path without the separator writes the top-level key, because
      traversing the empty parent path returns `_data` itself. */
  lemma SetPathTopLevel<A>(data: Store<A>, path: string, value: Obj<A>, sep: string)
    requires sep != "" && FindFrom(path, sep, 0).None?
    ensures SetPath(data, path, value, sep) == Outcome(Put(data, path, value), None)
  {
    var p := Split(path, sep);
    assert p == [path];
    assert Init(p) == [];
  }

  /** `update` is shallow: a top-level key of `other` replaces the whole
      subtree, and paths under the other top-level keys resolve as before. */
  lemma UpdateShallow<A>(data: Store<A>, other: Store<A>, ks: seq<string>)
    requires ks != []
    ensures Traverse(Dicts.Update(data, other), ListKey(ks)) ==
      if ks[0] in other.vals then Lookup(Root(other), ks) else Lookup(Root(data), ks)
  {
    UpdateLookup(data, other, ks);
  }

  /** `parent_key + sep + k if parent_key else k`: the key of `k` below
      `parent_key`; an empty parent key adds no separator. */
  function Step(pk: string, k: string, sep: string): string
  {
    if pk != "" then pk + sep + k else k
  }

  /** The key `_flatten` builds for the path `p` below `pk`, one `Step` at a
      time. */
  function Joined(pk: string, p: seq<string>, sep: string): string
    decreases |p|
  {
    if p == [] then pk else Joined(Step(pk, p[0], sep), p[1..], sep)
  }

  /** `_flatten(d, parent_key, sep)` from position `i` of `d`'s keys on. */
  function JoinedFrom<A>(d: Store<A>, pk: string, sep: string, i: nat): seq<(string, A)>
    requires i <= |d.keys|
    decreases d, |d.keys| - i
  {
    if i == |d.keys| then []
    else
      var k := d.keys[i];
      var newKey := Step(pk, k, sep);
      var piece := match d.vals[k]
        case Leaf(v) => [(newKey, v)]
        case Node(_, kids) => JoinedFrom(kids, newKey, sep, 0);
      piece + JoinedFrom(d, pk, sep, i + 1)
  }

  /** The items of a leaf walk with each path joined into one key. */
  function JoinKeys<A>(items: seq<(seq<string>, A)>, sep: string): (r: seq<(string, A)>)
    ensures |r| == |items|
    ensures forall j | 0 <= j < |items| :: r[j] == (Joined("", items[j].0, sep), items[j].1)
  {
    if items == [] then [] else [(Joined("", items[0].0, sep), items[0].1)] + JoinKeys(items[1..], sep)
  }

  lemma {:induction false} JoinKeysConcat<A>(a: seq<(seq<string>, A)>, b: seq<(seq<string>, A)>, sep: string)
    ensures JoinKeys(a + b, sep) == JoinKeys(a, sep) + JoinKeys(b, sep)
  {
    var l, r := JoinKeys(a + b, sep), JoinKeys(a, sep) + JoinKeys(b, sep);
    assert |l| == |r|;
    forall j | 0 <= j < |l| ensures l[j] == r[j] {
      if j < |a| { assert (a + b)[j] == a[j]; } else { assert (a + b)[j] == b[j - |a|]; }
    }
  }

  /** Joining one more key is one more `Step`. */
  lemma {:induction false} JoinedSnoc(pk: string, p: seq<string>, k: string, sep: string)
    ensures Joined(pk, p + [k], sep) == Step(Joined(pk, p, sep), k, sep)
    decreases |p|
  {
    if p == [] {
      assert [] + [k] == [k];
      assert [k][1..] == [];
    } else {
      assert (p + [k])[0] == p[0];
      assert (p + [k])[1..] == p[1..] + [k];
      JoinedSnoc(Step(pk, p[0], sep), p[1..], k, sep);
    }
  }

  /** One leaf step of the walk: if the walks agree from the next key on,
      they agree from a key holding a leaf. */
  lemma WalkLeafStep<A>(d: Store<A>, parent: seq<string>, sep: string, i: nat)
    requires i < |d.keys| && d.keys[i] in d.vals && d.vals[d.keys[i]].Leaf?
    requires JoinedFrom(d, Joined("", parent, sep), sep, i + 1) == JoinKeys(FlatFrom(d, parent, i + 1), sep)
    ensures JoinedFrom(d, Joined("", parent, sep), sep, i) == JoinKeys(FlatFrom(d, parent, i), sep)
  {
    var k := d.keys[i];
    var v := d.vals[k].value;
    var pk := Joined("", parent, sep);
    assert JoinedFrom(d, pk, sep, i) == [(Step(pk, k, sep), v)] + JoinedFrom(d, pk, sep, i + 1);
    assert FlatFrom(d, parent, i) == [(parent + [k], v)] + FlatFrom(d, parent, i + 1);
    JoinedSnoc("", parent, k, sep);
    JoinKeysConcat([(parent + [k], v)], FlatFrom(d, parent, i + 1), sep);
  }

  /** One container step of the walk: if the walks agree inside the
      container and from the next key on, they agree from the container's
      key. */
  lemma WalkNodeStep<A>(d: Store<A>, parent: seq<string>, sep: string, i: nat)
    requires i < |d.keys| && d.keys[i] in d.vals && d.vals[d.keys[i]].Node?
    requires var kids := d.vals[d.keys[i]].kids;
             JoinedFrom(kids, Joined("", parent + [d.keys[i]], sep), sep, 0) == JoinKeys(FlatFrom(kids, parent + [d.keys[i]], 0), sep)
    requires JoinedFrom(d, Joined("", parent, sep), sep, i + 1) == JoinKeys(FlatFrom(d, parent, i + 1), sep)
    ensures JoinedFrom(d, Joined("", parent, sep), sep, i) == JoinKeys(FlatFrom(d, parent, i), sep)
  {
    var k := d.keys[i];
    var kids := d.vals[k].kids;
    var pk := Joined("", parent, sep);
    assert JoinedFrom(d, pk, sep, i) == JoinedFrom(kids, Step(pk, k, sep), sep, 0) + JoinedFrom(d, pk, sep, i + 1);
    assert FlatFrom(d, parent, i) == FlatFrom(kids, parent + [k], 0) + FlatFrom(d, parent, i + 1);
    JoinedSnoc("", parent, k, sep);
    JoinKeysConcat(FlatFrom(kids, parent + [k], 0), FlatFrom(d, parent, i + 1), sep);
  }

  /** `_flatten` is the leaf walk of the tree with every path joined: the
      string parent key it carries is the joined parent path. */
  lemma {:induction false} JoinedFromWalk<A>(d: Store<A>, parent: seq<string>, sep: string, i: nat)
    requires i <= |d.keys|
    ensures JoinedFrom(d, Joined("", parent, sep), sep, i) == JoinKeys(FlatFrom(d, parent, i), sep)
    decreases d, |d.keys| - i
  {
    if i < |d.keys| {
      var k := d.keys[i];
      assert k in d.vals;
      JoinedFromWalk(d, parent, sep, i + 1);
      match d.vals[k] {
        case Leaf(v) =>
          WalkLeafStep(d, parent, sep, i);
        case Node(_, kids) =>
          JoinedFromWalk(kids, parent + [k], sep, 0);
          WalkNodeStep(d, parent, sep, i);
      }
    }
  }

  /** `flatten(sep)`: `dict` of the joined-key items; a later item with the
      same joined key overwrites an earlier one. */
  ghost function FlatJoined<A>(data: Store<A>, sep: string): Dict<string, A>
  {
    FromPairs(JoinedFrom(data, "", sep, 0))
  }

  /** Every key of every container is non-empty and free of the one-character
      separator. */
  ghost predicate Clean<A>(d: Store<A>, sep: string)
    decreases d
  {
    && |sep| == 1
    && forall k | k in d.vals :: k != "" && sep[0] !in k && (d.vals[k].Node? ==> Clean(d.vals[k].kids, sep))
  }

  /** The keys along a path that resolves in a clean tree are clean. */
  lemma {:induction false} CleanPath<A>(d: Store<A>, p: seq<string>, sep: string)
    requires Clean(d, sep) && Lookup(Root(d), p).Ok?
    ensures forall t | 0 <= t < |p| :: p[t] != "" && sep[0] !in p[t]
    decreases |p|
  {
    if p != [] {
      var sub := d.vals[p[0]];
      if p[1..] != [] {
        assert sub.Node?;
        CleanPath(sub.kids, p[1..], sep);
      }
      forall t | 0 <= t < |p| ensures p[t] != "" && sep[0] !in p[t] {
        if t > 0 { assert p[t] == p[1..][t - 1]; }
      }
    }
  }

  /** Below a non-empty parent key, the joined key is the parent, the
      separator and `sep.join` of the path. */
  lemma {:induction false} JoinedBelow(pk: string, p: seq<string>, sep: string)
    requires pk != "" && |p| >= 1
    ensures Joined(pk, p, sep) == pk + sep + Join(p, sep)
    decreases |p|
  {
    if |p| == 1 {
      assert p[1..] == [];
    } else {
      JoinedBelow(pk + sep + p[0], p[1..], sep);
      assert pk + sep + p[0] + sep + Join(p[1..], sep) == pk + sep + (p[0] + sep + Join(p[1..], sep));
    }
  }

  /** With non-empty keys, the joined key is `sep.join(path)`. */
  lemma JoinedIsJoin(p: seq<string>, sep: string)
    requires |p| >= 1 && forall t | 0 <= t < |p| :: p[t] != ""
    ensures Joined("", p, sep) == Join(p, sep)
  {
    if |p| > 1 {
      JoinedBelow(p[0], p[1..], sep);
    }
  }

  /** In a clean tree the joined key of a leaf gives back its path when split
      at the separator. */
  lemma CleanKeySplits<A>(data: Store<A>, p: seq<string>, sep: string)
    requires Clean(data, sep) && |p| >= 1 && Lookup(Root(data), p).Ok?
    ensures Split(Joined("", p, sep), sep) == p
  {
    CleanPath(data, p, sep);
    JoinedIsJoin(p, sep);
    SplitJoin(p, sep);
  }

  lemma FlatJoinedFunctional<A>(data: Store<A>, sep: string)
    requires Clean(data, sep)
    ensures Functional(JoinedFrom(data, "", sep, 0))
  {
    var items := FlatFrom(data, [], 0);
    var js := JoinedFrom(data, "", sep, 0);
    assert Joined("", [], sep) == "";
    JoinedFromWalk(data, [], sep, 0);
    forall a, b | 0 <= a < |js| && 0 <= b < |js| && js[a].0 == js[b].0 ensures js[a].1 == js[b].1 {
      FlatSound(data, [], 0, a);
      FlatSound(data, [], 0, b);
      assert items[a].0[0..] == items[a].0 && items[b].0[0..] == items[b].0;
      CleanKeySplits(data, items[a].0, sep);
      CleanKeySplits(data, items[b].0, sep);
    }
  }

  /** `flatten(sep)` of a clean tree holds exactly the leaves: a string is a
      key of the flat dict, with value `v`, exactly when splitting it at the
      separator gives a path to the leaf `v`. */
  lemma FlattenJoinedExact<A>(data: Store<A>, sep: string, s: string, v: A)
    requires Clean(data, sep)
    ensures (s in FlatJoined(data, sep).vals && FlatJoined(data, sep).vals[s] == v) <==>
            Lookup(Root(data), Split(s, sep)) == Ok(Leaf(v))
  {
    if s in FlatJoined(data, sep).vals {
      FlatJoinedSound(data, sep, s);
    }
    if Lookup(Root(data), Split(s, sep)) == Ok(Leaf(v)) {
      FlatJoinedComplete(data, sep, s, v);
    }
  }

  lemma FlatJoinedSound<A>(data: Store<A>, sep: string, s: string)
    requires Clean(data, sep) && s in FlatJoined(data, sep).vals
    ensures Lookup(Root(data), Split(s, sep)) == Ok(Leaf(FlatJoined(data, sep).vals[s]))
  {
    var items := FlatFrom(data, [], 0);
    var js := JoinedFrom(data, "", sep, 0);
    assert Joined("", [], sep) == "";
    JoinedFromWalk(data, [], sep, 0);
    FlatJoinedFunctional(data, sep);
    FromPairsKeys(js);
    var j :| 0 <= j < |js| && js[j].0 == s;
    FlatSound(data, [], 0, j);
    assert items[j].0[0..] == items[j].0;
    CleanKeySplits(data, items[j].0, sep);
    FromPairsFunctional(js, j);
  }

  lemma FlatJoinedComplete<A>(data: Store<A>, sep: string, s: string, v: A)
    requires Clean(data, sep) && Lookup(Root(data), Split(s, sep)) == Ok(Leaf(v))
    ensures s in FlatJoined(data, sep).vals && FlatJoined(data, sep).vals[s] == v
  {
    var p := Split(s, sep);
    var items := FlatFrom(data, [], 0);
    var js := JoinedFrom(data, "", sep, 0);
    assert Joined("", [], sep) == "";
    JoinedFromWalk(data, [], sep, 0);
    FlatJoinedFunctional(data, sep);
    assert p[0] in data.keys[0..];
    FlatComplete(data, [], 0, p, v);
    assert [] + p == p;
    var j :| 0 <= j < |items| && items[j] == (p, v);
    CleanPath(data, p, sep);
    JoinedIsJoin(p, sep);
    JoinSplit(s, sep);
    FromPairsFunctional(js, j);
  }

  /** `_flatten(data, parent_key, sep)`: the loop over `data.items()` with
      its local item list, and a recursive call per container. */
  method FlattenFrom<A>(d: Store<A>, pk: string, sep: string) returns (items: seq<(string, A)>)
    ensures items == JoinedFrom(d, pk, sep, 0)
    decreases d
  {
    items := [];
    var i := 0;
    while i < |d.keys|
      invariant i <= |d.keys|
      invariant items + JoinedFrom(d, pk, sep, i) == JoinedFrom(d, pk, sep, 0)
      decreases |d.keys| - i
    {
      var k := d.keys[i];
      var newKey := if pk != "" then pk + sep + k else k;
      var piece;
      match d.vals[k] {
        case Leaf(v) => piece := [(newKey, v)];
        case Node(_, kids) => piece := FlattenFrom(kids, newKey, sep);
      }
      ConcatAssoc(items, piece, JoinedFrom(d, pk, sep, i + 1));
      items := items + piece;
      i := i + 1;
    }
  }

  /** A `NestedDict`: the `_data` dict, changed in place by the mutating
      methods. */
  class NestedDict<A> {
    var data: Store<A>

    /** `NestedDict(source)` once the source check has passed. */
    constructor(source: Store<A>)
      ensures data == source
    {
      data := source;
    }

    method SetItem(key: NestedKey, value: Obj<A>) returns (raised: Option<Error>)
      modifies this
      ensures data == SetKey(old(data), key, value).state
      ensures raised == SetKey(old(data), key, value).raised
    {
      var o := SetKey(data, key, value);
      data := o.state;
      raised := o.raised;
    }

    method DelItem(key: NestedKey) returns (raised: Option<Error>)
      modifies this
      ensures data == DelKey(old(data), key).state
      ensures raised == DelKey(old(data), key).raised
    {
      var o := DelKey(data, key);
      data := o.state;
      raised := o.raised;
    }

    /** `set(path, value, sep)` */
    method Set(path: string, value: Obj<A>, sep: string) returns (raised: Option<Error>)
      modifies this
      ensures data == SetPath(old(data), path, value, sep).state
      ensures raised == SetPath(old(data), path, value, sep).raised
    {
      var o := SetPath(data, path, value, sep);
      data := o.state;
      raised := o.raised;
    }

    /** `update(other)`: the shallow `dict.update` of `_data`. */
    method Update(other: Store<A>)
      modifies this
      ensures data == Dicts.Update(old(data), other)
    {
      data := Dicts.Update(data, other);
    }

    method Clear()
      modifies this
      ensures data == Empty()
    {
      data := Empty();
    }

    /** `flatten(sep)` */
    method Flatten(sep: string) returns (flat: Dict<string, A>)
      ensures flat == FlatJoined(data, sep)
    {
      var items := FlattenFrom(data, "", sep);
      flat := FromPairs(items);
    }
  }
}
