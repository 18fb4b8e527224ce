/** The nested mapping shared by `NestDict` and `NestedDict`: a tree whose
    interior nodes are ordered dicts and whose leaves are any other value,
    with the path operations both classes perform on it (reading by
    successive indexing, `_construct`, assignment and deletion through the
    resolved parent, and the left-to-right walk of `flatten`). */
module Trees {
  import opened PyErrors
  import opened Dicts

  /** The container type of a node: a built-in `dict` (what `NestedDict`
      creates and what `_data` itself is) or a `NestDict` (what
      `NestDict._construct` creates through `cls()`). */
  datatype Kind = PlainDict | NestDictNode

  /** A stored value: a mapping node, or a leaf holding anything that is not
      a `MutableMapping`. */
  datatype Tree<K, +V> = Leaf(value: V) | Node(kind: Kind, kids: Dict<K, Tree<K, V>>)

  /** The top-level store `_data`, which is always a built-in dict. */
  function Root<K, V>(d: Dict<K, Tree<K, V>>): Tree<K, V>
  {
    Node(PlainDict, d)
  }

  /** All of `p` but its last key (`p[:-1]`). */
  function Init<K>(p: seq<K>): seq<K>
    requires |p| > 0
  {
    p[..|p| - 1]
  }

  /** `reduce(operator.getitem, path, t)`: index one key at a time.
      A missing key raises `KeyError`; indexing a leaf raises `TypeError`. */
  function Lookup<K(==), V>(t: Tree<K, V>, path: seq<K>): (r: Result<Tree<K, V>>)
    ensures r.Err? ==> r.error == KeyError || r.error == TypeError
    ensures path == [] ==> r == Ok(t)
    decreases |path|
  {
    if path == [] then Ok(t)
    else if t.Leaf? then Err(TypeError)
    else if path[0] in t.kids.vals then Lookup(t.kids.vals[path[0]], path[1..])
    else Err(KeyError)
  }

  /** Indexing along `p + q` is indexing along `p` and then along `q`. */
  lemma {:induction false} LookupConcat<K, V>(t: Tree<K, V>, p: seq<K>, q: seq<K>)
    ensures Lookup(t, p + q) == if Lookup(t, p).Ok? then Lookup(Lookup(t, p).value, q) else Lookup(t, p)
    decreases |p|
  {
    if p != [] {
      assert (p + q)[0] == p[0] && (p + q)[1..] == p[1..] + q;
      if t.Node? && p[0] in t.kids.vals {
        LookupConcat(t.kids.vals[p[0]], p[1..], q);
      }
    } else {
      assert p + q == q;
    }
  }

  /** Below the node itself, the kind of a node does not affect indexing. */
  lemma LookupKind<K, V>(k1: Kind, k2: Kind, d: Dict<K, Tree<K, V>>, path: seq<K>)
    requires path != []
    ensures Lookup(Node(k1, d), path) == Lookup(Node(k2, d), path)
  {
  }

  /** A one-key path is a prefix of every path that starts with that key. */
  lemma PrefixSingleton<K>(q: seq<K>, path: seq<K>)
    requires q != [] && path != [] && q[0] == path[0] && !IsPrefix(q, path)
    ensures q[1..] != []
  {
    assert path[..1] == [path[0]];
    assert q == [q[0]] + q[1..];
  }

  lemma InitLast<K>(p: seq<K>)
    requires |p| > 0
    ensures Init(p) + [p[|p| - 1]] == p
  {
  }

  /** `p` is a prefix of `q`. */
  ghost predicate IsPrefix<K>(p: seq<K>, q: seq<K>)
  {
    |p| <= |q| && q[..|p|] == p
  }

  /** Neither of `p` and `q` is a prefix of the other: they part at some key. */
  ghost predicate Diverges<K>(p: seq<K>, q: seq<K>)
    decreases |p|
  {
    |p| > 0 && |q| > 0 && (p[0] != q[0] || Diverges(p[1..], q[1..]))
  }

  lemma {:induction false} DivergesMeans<K>(p: seq<K>, q: seq<K>)
    ensures Diverges(p, q) <==> !IsPrefix(p, q) && !IsPrefix(q, p)
    decreases |p|
  {
    if |p| > 0 && |q| > 0 {
      DivergesMeans(p[1..], q[1..]);
      if p[0] == q[0] {
        assert IsPrefix(p, q) <==> IsPrefix(p[1..], q[1..]) by {
          if IsPrefix(p[1..], q[1..]) { assert q[..|p|] == [q[0]] + q[1..][..|p| - 1]; }
          if IsPrefix(p, q) { assert q[1..][..|p| - 1] == q[..|p|][1..]; }
        }
        assert IsPrefix(q, p) <==> IsPrefix(q[1..], p[1..]) by {
          if IsPrefix(q[1..], p[1..]) { assert p[..|q|] == [p[0]] + p[1..][..|q| - 1]; }
          if IsPrefix(q, p) { assert p[1..][..|q| - 1] == p[..|q|][1..]; }
        }
      } else {
        if |p| <= |q| { assert q[..|p|][0] == q[0]; }
        if |q| <= |p| { assert p[..|q|][0] == p[0]; }
      }
    } else {
      assert |p| == 0 ==> p == q[..0];
      assert |q| == 0 ==> q == p[..0];
    }
  }

  /** Walking `path` from the dict `d` reaches a leaf while keys remain:
      some prefix of `path` other than the whole names a leaf. */
  ghost predicate Blocked<K, V>(d: Dict<K, Tree<K, V>>, path: seq<K>)
    decreases |path|
  {
    && |path| >= 2
    && path[0] in d.vals
    && match d.vals[path[0]]
       case Leaf(_) => true
       case Node(_, kids) => Blocked(kids, path[1..])
  }

  /** `Blocked` says what it is meant to: a proper non-empty prefix of the
      path resolves to a leaf. */
  lemma {:induction false} BlockedMeans<K, V>(d: Dict<K, Tree<K, V>>, path: seq<K>)
    ensures Blocked(d, path) <==>
      exists i | 1 <= i < |path| :: Lookup(Root(d), path[..i]).Ok? && Lookup(Root(d), path[..i]).value.Leaf?
    decreases |path|
  {
    if |path| >= 2 && path[0] in d.vals {
      var k := path[0];
      if Blocked(d, path) {
        match d.vals[k]
        case Leaf(_) =>
          assert path[..1] == [k];
          assert Lookup(Root(d), path[..1]) == Lookup(d.vals[k], []);
        case Node(kind, kids) =>
          BlockedMeans(kids, path[1..]);
          var i :| 1 <= i < |path[1..]| && Lookup(Root(kids), path[1..][..i]).Ok? && Lookup(Root(kids), path[1..][..i]).value.Leaf?;
          assert path[..i + 1][0] == k && path[..i + 1][1..] == path[1..][..i];
          LookupKind(kind, PlainDict, kids, path[1..][..i]);
          assert Lookup(Root(d), path[..i + 1]) == Lookup(Root(kids), path[1..][..i]);
      } else {
        forall i | 1 <= i < |path|
          ensures !(Lookup(Root(d), path[..i]).Ok? && Lookup(Root(d), path[..i]).value.Leaf?)
        {
          assert path[..i][0] == k && path[..i][1..] == path[1..][..i - 1];
          match d.vals[k]
          case Node(kind, kids) =>
            BlockedMeans(kids, path[1..]);
            if i > 1 {
              LookupKind(kind, PlainDict, kids, path[1..][..i - 1]);
            } else {
              assert path[..i][1..] == [];
            }
        }
      }
    } else if |path| >= 2 {
      forall i | 1 <= i < |path|
        ensures !(Lookup(Root(d), path[..i]).Ok? && Lookup(Root(d), path[..i]).value.Leaf?)
      {
        assert path[..i][0] == path[0];
      }
    }
  }

  /** `_construct(data, path)`: walk `path` from the dict `d`, inserting a
      fresh empty container of kind `factory` wherever a key is missing.
      Descending from a leaf with keys still to go raises `TypeError`. The
      state after the call is reported together with the exception. */
  function ConstructIn<K(==), V>(d: Dict<K, Tree<K, V>>, path: seq<K>, factory: Kind): Outcome<Dict<K, Tree<K, V>>>
    decreases |path|
  {
    if path == [] then Outcome(d, None)
    else
      var k := path[0];
      var d1 := if k in d.vals then d else Put(d, k, Node(factory, Empty()));
      match d1.vals[k]
      case Leaf(_) => Outcome(d1, if |path| == 1 then None else Some(TypeError))
      case Node(kind, kids) =>
        var sub := ConstructIn(kids, path[1..], factory);
        Outcome(Put(d1, k, Node(kind, sub.state)), sub.raised)
  }

  /** `_construct` fails exactly when the walk is blocked by a leaf, and then
      it has created nothing: a new container is only ever inserted below
      which every key is missing, so no leaf can follow it. */
  lemma {:induction false} ConstructRaises<K, V>(d: Dict<K, Tree<K, V>>, path: seq<K>, factory: Kind)
    ensures ConstructIn(d, path, factory).raised == if Blocked(d, path) then Some(TypeError) else None
    ensures Blocked(d, path) ==> ConstructIn(d, path, factory).state == d
    decreases |path|
  {
    if path != [] {
      var k := path[0];
      if k in d.vals {
        match d.vals[k]
        case Leaf(_) =>
        case Node(kind, kids) =>
          ConstructRaises(kids, path[1..], factory);
          if Blocked(d, path) { PutSame(d, k); }
      } else {
        NeverBlockedEmpty<K, V>(path[1..]);
        ConstructRaises(Empty<K, Tree<K, V>>(), path[1..], factory);
      }
    }
  }

  lemma NeverBlockedEmpty<K, V>(path: seq<K>)
    ensures !Blocked(Empty<K, Tree<K, V>>(), path)
  {
  }

  /** A prefix of `path` starts with `path[0]` and continues with a prefix
      of `path[1..]`. */
  lemma PrefixCons<K>(path: seq<K>, i: nat)
    requires 1 <= i <= |path|
    ensures path[..i][0] == path[0] && path[..i][1..] == path[1..][..i - 1]
  {
  }

  lemma IsPrefixCons<K>(q: seq<K>, path: seq<K>)
    requires q != [] && path != [] && q[0] == path[0]
    ensures IsPrefix(q, path) <==> IsPrefix(q[1..], path[1..])
  {
    if IsPrefix(q[1..], path[1..]) { assert path[..|q|] == [path[0]] + path[1..][..|q| - 1]; }
    if IsPrefix(q, path) { assert path[1..][..|q| - 1] == path[..|q|][1..]; }
  }

  /** What `_construct` leaves at each prefix of the path it walked: every
      prefix is present, and every one before the last is a container; one
      that held a leaf still holds it, and one that held a container still
      holds a container of the same kind. */
  lemma {:induction false} ConstructAt<K, V>(d: Dict<K, Tree<K, V>>, path: seq<K>, factory: Kind, i: nat)
    requires !Blocked(d, path) && i <= |path|
    ensures var old_t := Lookup(Root(d), path[..i]);
            var new_t := Lookup(Root(ConstructIn(d, path, factory).state), path[..i]);
            && new_t.Ok?
            && (i < |path| ==> new_t.value.Node?)
            && (old_t.Ok? && old_t.value.Leaf? ==> new_t == old_t)
            && (old_t.Ok? && old_t.value.Node? ==> new_t.value.Node? && new_t.value.kind == old_t.value.kind)
    decreases |path|
  {
    if i == 0 {
      assert path[..i] == [];
    } else {
      var k := path[0];
      PrefixCons(path, i);
      var rest := path[1..][..i - 1];
      var d1 := if k in d.vals then d else Put(d, k, Node(factory, Empty()));
      match d1.vals[k]
      case Leaf(_) =>
      case Node(kind, kids) =>
        var sub := ConstructIn(kids, path[1..], factory);
        ConstructUnfold(d, path, factory, i);
        if i > 1 {
          ConstructAt(kids, path[1..], factory, i - 1);
          LookupKind(kind, PlainDict, sub.state, rest);
          LookupKind(kind, PlainDict, kids, rest);
        }
    }
  }

  /** A prefix that was missing before `_construct` now holds a new
      container of the factory's kind whose only key is the next key of the
      path. */
  lemma {:induction false} ConstructAtFresh<K, V>(d: Dict<K, Tree<K, V>>, path: seq<K>, factory: Kind, i: nat)
    requires !Blocked(d, path) && i <= |path| && Lookup(Root(d), path[..i]).Err?
    ensures var new_t := Lookup(Root(ConstructIn(d, path, factory).state), path[..i]);
            && new_t.Ok? && new_t.value.Node? && new_t.value.kind == factory
            && new_t.value.kids.keys == (if i < |path| then [path[i]] else [])
    decreases |path|
  {
    assert path[..0] == [];
    var k := path[0];
    PrefixCons(path, i);
    var rest := path[1..][..i - 1];
    if k in d.vals {
      match d.vals[k]
      case Leaf(_) =>
        assert false;
      case Node(kind, kids) =>
        var sub := ConstructIn(kids, path[1..], factory);
        ConstructUnfold(d, path, factory, i);
        LookupKind(kind, PlainDict, kids, rest);
        ConstructAtFresh(kids, path[1..], factory, i - 1);
        LookupKind(kind, PlainDict, sub.state, rest);
    } else {
      ConstructUnfold(d, path, factory, i);
      FreshChain<K, V>(path[1..], factory, i - 1);
    }
  }

  /** `_construct` from an empty container builds a chain of new containers
      of the factory's kind, each holding only the next key. */
  lemma {:induction false} FreshChain<K, V>(path: seq<K>, factory: Kind, i: nat)
    requires i <= |path|
    ensures var new_t := Lookup(Node(factory, ConstructIn(Empty<K, Tree<K, V>>(), path, factory).state), path[..i]);
            && new_t.Ok? && new_t.value.Node? && new_t.value.kind == factory
            && new_t.value.kids.keys == (if i < |path| then [path[i]] else [])
    decreases |path|
  {
    if i == 0 {
      assert path[..0] == [];
      ConstructKeys<K, V>(path, factory);
    } else {
      var k := path[0];
      PrefixCons(path, i);
      var rest := path[1..][..i - 1];
      var sub := ConstructIn(Empty<K, Tree<K, V>>(), path[1..], factory);
      assert ConstructIn(Empty<K, Tree<K, V>>(), path, factory).state.vals[k] == Node(factory, sub.state);
      FreshChain<K, V>(path[1..], factory, i - 1);
    }
  }

  /** One step of `_construct` seen through a prefix of its path. */
  lemma ConstructUnfold<K, V>(d: Dict<K, Tree<K, V>>, path: seq<K>, factory: Kind, i: nat)
    requires 1 <= i <= |path|
    requires var k := path[0];
             var d1 := if k in d.vals then d else Put(d, k, Node(factory, Empty()));
             d1.vals[k].Node?
    ensures var k := path[0];
            var d1 := if k in d.vals then d else Put(d, k, Node(factory, Empty()));
            var child := d1.vals[k];
            var rest := path[1..][..i - 1];
            && Lookup(Root(ConstructIn(d, path, factory).state), path[..i])
               == Lookup(Node(child.kind, ConstructIn(child.kids, path[1..], factory).state), rest)
            && Lookup(Root(d), path[..i]) == (if k in d.vals then Lookup(child, rest) else Err(KeyError))
  {
    PrefixCons(path, i);
  }

  /** `_construct` from an empty container creates one key: the next one. */
  lemma ConstructKeys<K, V>(path: seq<K>, factory: Kind)
    ensures ConstructIn(Empty<K, Tree<K, V>>(), path, factory).state.keys == if path == [] then [] else [path[0]]
  {
  }

  /** `_construct` changes what a path resolves to only for the prefixes of
      the path it walked. */
  lemma {:induction false} ConstructFrame<K, V>(d: Dict<K, Tree<K, V>>, path: seq<K>, factory: Kind, q: seq<K>)
    requires !IsPrefix(q, path)
    ensures Lookup(Root(ConstructIn(d, path, factory).state), q) == Lookup(Root(d), q)
    decreases |path|
  {
    assert path[..0] == [];
    if path != [] {
      var k := path[0];
      var s := ConstructIn(d, path, factory).state;
      var d1 := if k in d.vals then d else Put(d, k, Node(factory, Empty()));
      if q[0] == k {
        IsPrefixCons(q, path);
        match d1.vals[k]
        case Leaf(_) =>
        case Node(kind, kids) =>
          var sub := ConstructIn(kids, path[1..], factory);
          assert s == Put(d1, k, Node(kind, sub.state));
          PrefixSingleton(q, path);
          ConstructFrame(kids, path[1..], factory, q[1..]);
          LookupKind(kind, PlainDict, sub.state, q[1..]);
          LookupKind(kind, PlainDict, kids, q[1..]);
      }
    }
  }

  /** The two edits made through a resolved parent. */
  datatype Edit<K, +V> = Assign(value: Tree<K, V>) | Delete

  /** `parent[k] = value` or `del parent[k]` on the dict `d` itself. */
  function EditHere<K(==), V>(d: Dict<K, Tree<K, V>>, k: K, e: Edit<K, V>): Outcome<Dict<K, Tree<K, V>>>
  {
    match e
    case Assign(v) => Outcome(Put(d, k, v), None)
    case Delete => if k in d.vals then Outcome(Remove(d, k), None) else Outcome(d, Some(KeyError))
  }

  /** `parent = reduce(getitem, path[:-1], d)` followed by the edit of
      `path[-1]` on `parent`. The parent is changed where it sits, so every
      container above it now holds the changed one. Resolving the parent
      reads only, so nothing changes when it fails; assigning into a leaf
      raises `TypeError`. */
  function EditAt<K(==), V>(d: Dict<K, Tree<K, V>>, path: seq<K>, e: Edit<K, V>): Outcome<Dict<K, Tree<K, V>>>
    requires |path| >= 1
    decreases |path|
  {
    if |path| == 1 then EditHere(d, path[0], e)
    else if path[0] !in d.vals then Outcome(d, Some(KeyError))
    else match d.vals[path[0]]
      case Leaf(_) => Outcome(d, Some(TypeError))
      case Node(kind, kids) =>
        var sub := EditAt(kids, path[1..], e);
        if sub.raised.Some? then Outcome(d, sub.raised)
        else Outcome(Put(d, path[0], Node(kind, sub.state)), None)
  }

  /** The exception of an edit is that of resolving the parent, `TypeError`
      when the parent is a leaf, or else that of the edit itself; on an
      exception nothing has changed. */
  lemma {:induction false} EditRaises<K, V>(d: Dict<K, Tree<K, V>>, path: seq<K>, e: Edit<K, V>)
    requires |path| >= 1
    ensures EditAt(d, path, e).raised ==
      match Lookup(Root(d), Init(path))
      case Err(err) => Some(err)
      case Ok(Leaf(_)) => Some(TypeError)
      case Ok(Node(_, kids)) => EditHere(kids, path[|path| - 1], e).raised
    ensures EditAt(d, path, e).raised.Some? ==> EditAt(d, path, e).state == d
    decreases |path|
  {
    var k := path[0];
    if |path| == 1 {
      assert Init(path) == [];
    } else {
      assert Init(path)[0] == k && Init(path)[1..] == Init(path[1..]);
      if k in d.vals {
        match d.vals[k]
        case Leaf(_) =>
        case Node(kind, kids) =>
          EditRaises(kids, path[1..], e);
          if |path| > 2 {
            LookupKind(kind, PlainDict, kids, Init(path[1..]));
          } else {
            assert Init(path[1..]) == [];
          }
      }
    }
  }

  /** After a successful edit the parent is the same container with the edit
      applied to it. */
  lemma {:induction false} EditParent<K, V>(d: Dict<K, Tree<K, V>>, path: seq<K>, e: Edit<K, V>)
    requires |path| >= 1 && EditAt(d, path, e).raised.None?
    ensures Lookup(Root(d), Init(path)).Ok? && Lookup(Root(d), Init(path)).value.Node?
    ensures var parent := Lookup(Root(d), Init(path)).value;
      Lookup(Root(EditAt(d, path, e).state), Init(path))
        == Ok(Node(parent.kind, EditHere(parent.kids, path[|path| - 1], e).state))
    decreases |path|
  {
    var k := path[0];
    if |path| == 1 {
      assert Init(path) == [];
    } else {
      assert Init(path)[0] == k && Init(path)[1..] == Init(path[1..]);
      match d.vals[k]
      case Node(kind, kids) =>
        var sub := EditAt(kids, path[1..], e);
        EditParent(kids, path[1..], e);
        if |path| > 2 {
          LookupKind(kind, PlainDict, kids, Init(path[1..]));
          LookupKind(kind, PlainDict, sub.state, Init(path[1..]));
        } else {
          assert Init(path[1..]) == [];
        }
    }
  }

  /** The containers above the parent stay where they were, of the same kind
      and with the same keys in the same order. */
  lemma {:induction false} EditAncestors<K, V>(d: Dict<K, Tree<K, V>>, path: seq<K>, e: Edit<K, V>, i: nat)
    requires |path| >= 1 && EditAt(d, path, e).raised.None? && i < |path| - 1
    ensures Lookup(Root(d), path[..i]).Ok? && Lookup(Root(d), path[..i]).value.Node?
    ensures var before := Lookup(Root(d), path[..i]).value;
            var after := Lookup(Root(EditAt(d, path, e).state), path[..i]);
            after.Ok? && after.value.Node? && after.value.kind == before.kind && after.value.kids.keys == before.kids.keys
    decreases |path|
  {
    var k := path[0];
    if i == 0 {
      assert path[..i] == [];
    } else {
      PrefixCons(path, i);
      var rest := path[1..][..i - 1];
      match d.vals[k]
      case Node(kind, kids) =>
        var sub := EditAt(kids, path[1..], e);
        if i > 1 {
          EditAncestors(kids, path[1..], e, i - 1);
          LookupKind(kind, PlainDict, kids, rest);
          LookupKind(kind, PlainDict, sub.state, rest);
        }
    }
  }

  /** An edit does not change what a diverging path resolves to. */
  lemma {:induction false} EditFrame<K, V>(d: Dict<K, Tree<K, V>>, path: seq<K>, e: Edit<K, V>, q: seq<K>)
    requires |path| >= 1 && Diverges(path, q)
    ensures Lookup(Root(EditAt(d, path, e).state), q) == Lookup(Root(d), q)
    decreases |path|
  {
    var k := path[0];
    if q[0] == k && EditAt(d, path, e).raised.None? {
      match d.vals[k]
      case Node(kind, kids) =>
        var sub := EditAt(kids, path[1..], e);
        EditFrame(kids, path[1..], e, q[1..]);
        LookupKind(kind, PlainDict, kids, q[1..]);
        LookupKind(kind, PlainDict, sub.state, q[1..]);
    }
  }

  /** A path is blocked exactly when the walk to its parent is blocked or
      the parent itself is a leaf. */
  lemma {:induction false} BlockedSnoc<K, V>(d: Dict<K, Tree<K, V>>, path: seq<K>)
    requires |path| >= 1
    ensures Blocked(d, path) <==>
      Blocked(d, Init(path)) || (Lookup(Root(d), Init(path)).Ok? && Lookup(Root(d), Init(path)).value.Leaf?)
    decreases |path|
  {
    if |path| == 1 {
      assert Init(path) == [];
    } else {
      var k := path[0];
      assert Init(path)[0] == k && Init(path)[1..] == Init(path[1..]);
      if k in d.vals {
        match d.vals[k]
        case Leaf(_) =>
          if |path| == 2 { assert Init(path) == [k]; }
        case Node(kind, kids) =>
          BlockedSnoc(kids, path[1..]);
          if |path| > 2 {
            LookupKind(kind, PlainDict, kids, Init(path[1..]));
          } else {
            assert Init(path[1..]) == [];
          }
      }
    }
  }

  /** `_construct` along a path that already resolves creates nothing. */
  lemma {:induction false} ConstructExisting<K, V>(d: Dict<K, Tree<K, V>>, path: seq<K>, factory: Kind)
    requires Lookup(Root(d), path).Ok?
    ensures ConstructIn(d, path, factory).state == d
    decreases |path|
  {
    if path != [] {
      var k := path[0];
      match d.vals[k]
      case Leaf(_) =>
      case Node(kind, kids) =>
        if path[1..] != [] {
          LookupKind(kind, PlainDict, kids, path[1..]);
        }
        ConstructExisting(kids, path[1..], factory);
        PutSame(d, k);
    }
  }

  /** `d[path] = v` for a list path: `IndexError` for the empty list;
      otherwise `_construct` along `path[:-1]`, then the assignment of
      `path[-1]` on the parent that walk resolves. */
  function SetIn<K(==), V>(d: Dict<K, Tree<K, V>>, path: seq<K>, v: Tree<K, V>, factory: Kind): Outcome<Dict<K, Tree<K, V>>>
  {
    if path == [] then Outcome(d, Some(IndexError))
    else
      var c := ConstructIn(d, Init(path), factory);
      if c.raised.Some? then c else EditAt(c.state, path, Assign(v))
  }

  /** Setting fails only on the empty path (`IndexError`) or on a path that
      runs through a leaf (`TypeError`), and a failed set changes nothing. */
  lemma SetRaises<K, V>(d: Dict<K, Tree<K, V>>, path: seq<K>, v: Tree<K, V>, factory: Kind)
    ensures SetIn(d, path, v, factory).raised ==
      if path == [] then Some(IndexError) else if Blocked(d, path) then Some(TypeError) else None
    ensures SetIn(d, path, v, factory).raised.Some? ==> SetIn(d, path, v, factory).state == d
  {
    if path != [] {
      var pre := Init(path);
      ConstructRaises(d, pre, factory);
      BlockedSnoc(d, path);
      if !Blocked(d, pre) {
        AssignAfterConstruct(d, path, v, factory);
      }
    }
  }

  /** The assignment that follows a successful `_construct` fails only when
      the parent was already a leaf, and then nothing was created. */
  lemma AssignAfterConstruct<K, V>(d: Dict<K, Tree<K, V>>, path: seq<K>, v: Tree<K, V>, factory: Kind)
    requires path != [] && !Blocked(d, Init(path))
    ensures var e := EditAt(ConstructIn(d, Init(path), factory).state, path, Assign(v));
            && e.raised == (if Lookup(Root(d), Init(path)).Ok? && Lookup(Root(d), Init(path)).value.Leaf?
                            then Some(TypeError) else None)
            && (e.raised.Some? ==> e.state == d)
  {
    var pre := Init(path);
    var c := ConstructIn(d, pre, factory);
    assert pre[..|pre|] == pre;
    ConstructAt(d, pre, factory, |pre|);
    if Lookup(Root(d), pre).Err? { ConstructAtFresh(d, pre, factory, |pre|); }
    EditRaises(c.state, path, Assign(v));
    if Lookup(Root(d), pre).Ok? { ConstructExisting(d, pre, factory); }
  }

  /** Get after set: once the set succeeds, the path resolves to the value
      assigned. */
  lemma SetGet<K, V>(d: Dict<K, Tree<K, V>>, path: seq<K>, v: Tree<K, V>, factory: Kind)
    requires SetIn(d, path, v, factory).raised.None?
    ensures Lookup(Root(SetIn(d, path, v, factory).state), path) == Ok(v)
  {
    var c := ConstructIn(d, Init(path), factory);
    var s := EditAt(c.state, path, Assign(v)).state;
    var last := path[|path| - 1];
    EditParent(c.state, path, Assign(v));
    var parent := Lookup(Root(c.state), Init(path)).value;
    var changed := Node(parent.kind, Put(parent.kids, last, v));
    assert Lookup(Root(s), Init(path)) == Ok(changed);
    LookupOne(changed, last);
    LookupConcat(Root(s), Init(path), [last]);
    InitLast(path);
  }

  lemma LookupOne<K, V>(t: Tree<K, V>, k: K)
    requires t.Node?
    ensures Lookup(t, [k]) == if k in t.kids.vals then Ok(t.kids.vals[k]) else Err(KeyError)
  {
    assert [k][1..] == [];
  }

  /** Below the assigned path, indexing continues inside the value. */
  lemma SetGetBelow<K, V>(d: Dict<K, Tree<K, V>>, path: seq<K>, v: Tree<K, V>, factory: Kind, r: seq<K>)
    requires SetIn(d, path, v, factory).raised.None?
    ensures Lookup(Root(SetIn(d, path, v, factory).state), path + r) == Lookup(v, r)
  {
    SetGet(d, path, v, factory);
    LookupConcat(Root(SetIn(d, path, v, factory).state), path, r);
  }

  /** Frame of a set: a path that parts from the assigned one resolves as
      before. */
  lemma SetFrame<K, V>(d: Dict<K, Tree<K, V>>, path: seq<K>, v: Tree<K, V>, factory: Kind, q: seq<K>)
    requires Diverges(path, q)
    ensures Lookup(Root(SetIn(d, path, v, factory).state), q) == Lookup(Root(d), q)
  {
    var pre := Init(path);
    var c := ConstructIn(d, pre, factory);
    ConstructRaises(d, pre, factory);
    if c.raised.None? {
      DivergesMeans(path, q);
      PrefixOfInit(q, path);
      ConstructFrame(d, pre, factory, q);
      EditFrame(c.state, path, Assign(v), q);
    }
  }

  lemma PrefixOfInit<K>(q: seq<K>, path: seq<K>)
    requires |path| >= 1
    ensures IsPrefix(q, Init(path)) ==> IsPrefix(q, path)
  {
    if IsPrefix(q, Init(path)) { assert path[..|q|] == Init(path)[..|q|]; }
  }

  /** A walk that is not blocked meets no leaf before its last key. */
  lemma NotBlockedNoLeaf<K, V>(d: Dict<K, Tree<K, V>>, path: seq<K>, i: nat)
    requires !Blocked(d, path) && 1 <= i < |path|
    ensures !(Lookup(Root(d), path[..i]).Ok? && Lookup(Root(d), path[..i]).value.Leaf?)
  {
    BlockedMeans(d, path);
  }

  /** A set that succeeded was not blocked, and both of its steps succeeded. */
  lemma SetSucceeds<K, V>(d: Dict<K, Tree<K, V>>, path: seq<K>, v: Tree<K, V>, factory: Kind)
    requires SetIn(d, path, v, factory).raised.None?
    ensures path != [] && !Blocked(d, Init(path))
    ensures ConstructIn(d, Init(path), factory).raised.None?
    ensures EditAt(ConstructIn(d, Init(path), factory).state, path, Assign(v)).raised.None?
    ensures SetIn(d, path, v, factory).state == EditAt(ConstructIn(d, Init(path), factory).state, path, Assign(v)).state
  {
    SetRaises(d, path, v, factory);
    BlockedSnoc(d, path);
    ConstructRaises(d, Init(path), factory);
  }

  /** Every container the set passed through above the parent is still a
      container: one that existed keeps its kind, and one that was missing is
      a new container of the factory's kind holding only the next key. */
  lemma SetAncestor<K, V>(d: Dict<K, Tree<K, V>>, path: seq<K>, v: Tree<K, V>, factory: Kind, i: nat)
    requires SetIn(d, path, v, factory).raised.None? && i < |path| - 1
    ensures var before := Lookup(Root(d), path[..i]);
            var after := Lookup(Root(SetIn(d, path, v, factory).state), path[..i]);
            && after.Ok? && after.value.Node?
            && (before.Ok? ==> before.value.Node? && after.value.kind == before.value.kind)
            && (before.Err? ==> after.value.kind == factory && after.value.kids.keys == [path[i]])
  {
    SetSucceeds(d, path, v, factory);
    var pre := Init(path);
    var c := ConstructIn(d, pre, factory);
    assert pre[..i] == path[..i] && pre[i] == path[i];
    if i > 0 { NotBlockedNoLeaf(d, pre, i); }
    ConstructAt(d, pre, factory, i);
    if Lookup(Root(d), path[..i]).Err? { ConstructAtFresh(d, pre, factory, i); }
    EditAncestors(c.state, path, Assign(v), i);
  }

  /** The parent of the assigned key is a container after the set: the one
      that was there, of the same kind, or a new one of the factory's kind. */
  lemma SetParent<K, V>(d: Dict<K, Tree<K, V>>, path: seq<K>, v: Tree<K, V>, factory: Kind)
    requires SetIn(d, path, v, factory).raised.None?
    ensures path != []
    ensures var before := Lookup(Root(d), Init(path));
            var after := Lookup(Root(SetIn(d, path, v, factory).state), Init(path));
            && after.Ok? && after.value.Node?
            && (before.Ok? ==> before.value.Node? && after.value.kind == before.value.kind)
            && (before.Err? ==> after.value.kind == factory && after.value.kids.keys == [path[|path| - 1]])
  {
    SetSucceeds(d, path, v, factory);
    SetRaises(d, path, v, factory);
    BlockedSnoc(d, path);
    var pre := Init(path);
    var c := ConstructIn(d, pre, factory);
    assert pre[..|pre|] == pre;
    ConstructAt(d, pre, factory, |pre|);
    EditParent(c.state, path, Assign(v));
    var mid := Lookup(Root(c.state), pre).value;
    var edited := EditHere(mid.kids, path[|path| - 1], Assign(v)).state;
    assert edited == Put(mid.kids, path[|path| - 1], v);
    assert Lookup(Root(SetIn(d, path, v, factory).state), pre) == Ok(Node(mid.kind, edited));
    if Lookup(Root(d), pre).Err? {
      ConstructAtFresh(d, pre, factory, |pre|);
      assert mid.kids.keys == [];
    }
  }

  /** `del d[path]` for a list path: `IndexError` for the empty list,
      otherwise the removal of `path[-1]` from the resolved parent. */
  function DeleteIn<K(==), V>(d: Dict<K, Tree<K, V>>, path: seq<K>): Outcome<Dict<K, Tree<K, V>>>
  {
    if path == [] then Outcome(d, Some(IndexError)) else EditAt(d, path, Delete)
  }

  /** Deleting succeeds exactly when the path resolves, and otherwise raises
      what resolving it raises, changing nothing. */
  lemma DeleteRaises<K, V>(d: Dict<K, Tree<K, V>>, path: seq<K>)
    ensures DeleteIn(d, path).raised ==
      if path == [] then Some(IndexError)
      else if Lookup(Root(d), path).Ok? then None
      else Some(Lookup(Root(d), path).error)
    ensures DeleteIn(d, path).raised.Some? ==> DeleteIn(d, path).state == d
  {
    if path != [] {
      EditRaises(d, path, Delete);
      LookupConcat(Root(d), Init(path), [path[|path| - 1]]);
      InitLast(path);
    }
  }

  /** After a deletion the path no longer resolves. */
  lemma DeleteGone<K, V>(d: Dict<K, Tree<K, V>>, path: seq<K>)
    requires DeleteIn(d, path).raised.None?
    ensures Lookup(Root(DeleteIn(d, path).state), path) == Err(KeyError)
  {
    var s := DeleteIn(d, path).state;
    var last := path[|path| - 1];
    EditParent(d, path, Delete);
    LookupConcat(Root(s), Init(path), [last]);
    InitLast(path);
  }

  /** Deletion removes only the last key from its parent: the parent keeps
      its kind and its other keys, in order, with their values. */
  lemma DeleteSiblings<K, V>(d: Dict<K, Tree<K, V>>, path: seq<K>)
    requires DeleteIn(d, path).raised.None?
    ensures Lookup(Root(d), Init(path)).Ok? && Lookup(Root(d), Init(path)).value.Node?
    ensures var parent := Lookup(Root(d), Init(path)).value;
            var after := Lookup(Root(DeleteIn(d, path).state), Init(path));
            && after.Ok? && after.value.Node? && after.value.kind == parent.kind
            && after.value.kids.vals == parent.kids.vals - {path[|path| - 1]}
            && after.value.kids.keys == Without(parent.kids.keys, path[|path| - 1])
  {
    EditParent(d, path, Delete);
    EditRaises(d, path, Delete);
  }

  /** Frame of a deletion: a path that parts from the deleted one resolves
      as before. */
  lemma DeleteFrame<K, V>(d: Dict<K, Tree<K, V>>, path: seq<K>, q: seq<K>)
    requires Diverges(path, q)
    ensures Lookup(Root(DeleteIn(d, path).state), q) == Lookup(Root(d), q)
  {
    EditFrame(d, path, Delete, q);
  }
  /** What `_flatten(d, parent)` collects from position `i` of `d`'s keys
      on: every leaf below those keys paired with its full path, in the
      order of a left-to-right depth-first walk; a container contributes its
      leaves, never itself. */
  function FlatFrom<K(==), V>(d: Dict<K, Tree<K, V>>, parent: seq<K>, i: nat): seq<(seq<K>, V)>
    requires i <= |d.keys|
    decreases d, |d.keys| - i
  {
    if i == |d.keys| then []
    else
      var k := d.keys[i];
      var piece := match d.vals[k]
        case Leaf(v) => [(parent + [k], v)]
        case Node(_, kids) => FlatFrom(kids, parent + [k], 0);
      piece + FlatFrom(d, parent, i + 1)
  }

  /** The loop of `_flatten`: for each key in order, a leaf is appended with
      its path and a container is flattened recursively and its entries are
      appended. */
  method FlattenNode<K(==), V>(d: Dict<K, Tree<K, V>>, parent: seq<K>) returns (items: seq<(seq<K>, V)>)
    ensures items == FlatFrom(d, parent, 0)
    decreases d
  {
    items := [];
    var i := 0;
    while i < |d.keys|
      invariant i <= |d.keys|
      invariant items + FlatFrom(d, parent, i) == FlatFrom(d, parent, 0)
      decreases |d.keys| - i
    {
      var k := d.keys[i];
      var newKey := parent + [k];
      var piece;
      match d.vals[k] {
        case Leaf(v) =>
          piece := [(newKey, v)];
        case Node(_, kids) =>
          piece := FlattenNode(kids, newKey);
      }
      ConcatAssoc(items, piece, FlatFrom(d, parent, i + 1));
      items := items + piece;
      i := i + 1;
    }
  }

  /** Every entry of the walk is a leaf, found at the path it is paired with:
      the path extends `parent` by a path through `d` that starts at one of
      the keys from position `i` on. */
  lemma {:induction false} FlatSound<K, V>(d: Dict<K, Tree<K, V>>, parent: seq<K>, i: nat, j: nat)
    requires i <= |d.keys| && j < |FlatFrom(d, parent, i)|
    ensures FoundBelow(d, parent, i, FlatFrom(d, parent, i)[j].0, FlatFrom(d, parent, i)[j].1)
    decreases d, |d.keys| - i
  {
    var k := d.keys[i];
    var rest := FlatFrom(d, parent, i + 1);
    var item := FlatFrom(d, parent, i)[j];
    match d.vals[k]
    case Leaf(v) =>
      assert FlatFrom(d, parent, i) == [(parent + [k], v)] + rest;
      if j == 0 {
        FlatSoundLeaf(d, parent, i, v);
      } else {
        assert item == rest[j - 1];
        FlatSound(d, parent, i + 1, j - 1);
        FlatSoundLater(d, parent, i, item.0, item.1);
      }
    case Node(kind, kids) =>
      var sub := FlatFrom(kids, parent + [k], 0);
      assert FlatFrom(d, parent, i) == sub + rest;
      if j < |sub| {
        assert item == sub[j];
        FlatSound(kids, parent + [k], 0, j);
        FlatSoundStep(d, parent, i, kind, kids, item.0, item.1);
      } else {
        assert item == rest[j - |sub|];
        FlatSound(d, parent, i + 1, j - |sub|);
        FlatSoundLater(d, parent, i, item.0, item.1);
      }
  }

  /** The leaf `v` is found from `d` at the path `p`, which extends `parent`
      by a path through `d` that starts at one of the keys from position `i`
      on. */
  ghost predicate FoundBelow<K, V>(d: Dict<K, Tree<K, V>>, parent: seq<K>, i: nat, p: seq<K>, v: V)
    requires i <= |d.keys|
  {
    && |p| > |parent| && p[..|parent|] == parent && p[|parent|] in d.keys[i..]
    && Lookup(Root(d), p[|parent|..]) == Ok(Leaf(v))
  }

  /** A leaf found from a later key is found from an earlier position. */
  lemma FlatSoundLater<K, V>(d: Dict<K, Tree<K, V>>, parent: seq<K>, i: nat, p: seq<K>, v: V)
    requires i < |d.keys| && FoundBelow(d, parent, i + 1, p, v)
    ensures FoundBelow(d, parent, i, p, v)
  {
    assert d.keys[i..] == [d.keys[i]] + d.keys[i + 1..];
  }

  /** The leaf held at the `i`-th key is found there. */
  lemma FlatSoundLeaf<K, V>(d: Dict<K, Tree<K, V>>, parent: seq<K>, i: nat, v: V)
    requires i < |d.keys| && d.keys[i] in d.vals && d.vals[d.keys[i]] == Leaf(v)
    ensures FoundBelow(d, parent, i, parent + [d.keys[i]], v)
  {
    var k := d.keys[i];
    assert (parent + [k])[|parent|..] == [k];
    assert (parent + [k])[..|parent|] == parent;
    assert d.keys[i..][0] == k;
    LookupOne(Root(d), k);
  }

  /** One level of `FlatSound`: a leaf found below the `i`-th key is found
      from `d` by way of that key. */
  lemma FlatSoundStep<K, V>(d: Dict<K, Tree<K, V>>, parent: seq<K>, i: nat, kind: Kind,
                            kids: Dict<K, Tree<K, V>>, p: seq<K>, v: V)
    requires i < |d.keys| && d.keys[i] in d.vals && d.vals[d.keys[i]] == Node(kind, kids)
    requires FoundBelow(kids, parent + [d.keys[i]], 0, p, v)
    ensures FoundBelow(d, parent, i, p, v)
  {
    var k := d.keys[i];
    var r := p[|parent| + 1..];
    assert p[..|parent|] == p[..|parent| + 1][..|parent|];
    assert p[|parent|] == p[..|parent| + 1][|parent|];
    assert p[|parent|..] == [k] + r;
    assert d.keys[i..][0] == k;
    LookupKind(kind, PlainDict, kids, r);
  }

  /** Every leaf below the keys from position `i` on is an entry of the
      walk, paired with its full path. */
  lemma {:induction false} FlatComplete<K, V>(d: Dict<K, Tree<K, V>>, parent: seq<K>, i: nat, q: seq<K>, v: V)
    requires i <= |d.keys| && |q| >= 1 && q[0] in d.keys[i..] && Lookup(Root(d), q) == Ok(Leaf(v))
    ensures (parent + q, v) in FlatFrom(d, parent, i)
    decreases d, |d.keys| - i
  {
    var k := d.keys[i];
    var rest := FlatFrom(d, parent, i + 1);
    if q[0] == k {
      match d.vals[k]
      case Leaf(w) =>
        assert q == [k];
      case Node(kind, kids) =>
        var r := q[1..];
        assert r != [];
        LookupKind(kind, PlainDict, kids, r);
        assert r[0] in kids.keys[0..];
        FlatComplete(kids, parent + [k], 0, r, v);
        assert parent + q == parent + [k] + r;
    } else {
      assert q[0] in d.keys[i + 1..];
      FlatComplete(d, parent, i + 1, q, v);
    }
  }
  /** `d.update(o)` on paths: a path whose first key `o` holds now resolves
      inside `o`'s value, which has replaced the whole subtree; every other
      path resolves as before. */
  lemma UpdateLookup<K, V>(d: Dict<K, Tree<K, V>>, o: Dict<K, Tree<K, V>>, p: seq<K>)
    requires p != []
    ensures Lookup(Root(Update(d, o)), p) == if p[0] in o.vals then Lookup(Root(o), p) else Lookup(Root(d), p)
  {
  }
}
