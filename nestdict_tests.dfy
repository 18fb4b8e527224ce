/** The scenarios of tests/test_nestdict.py, stated on the model. */
module NestDictScenarios {
  import opened PyErrors
  import opened Dicts
  import opened Trees
  import opened PyStrings
  import opened NestDicts

  /** The Python scalars the scenarios use. */
  datatype Lit = N(n: int) | T(t: string)

  function I(n: int): Obj<Lit> { Leaf(Scalar("int", N(n))) }
  function S(t: string): Obj<Lit> { Leaf(Scalar("str", T(t))) }
  function L(items: seq<Obj<Lit>>): Obj<Lit> { Leaf(List(items)) }

  /** `{k: v}` */
  function One<V>(k: Key, v: V): (r: Dict<Key, V>)
    ensures r.keys == [k] && r.vals == map[k := v]
  {
    Put(Empty(), k, v)
  }

  /** `{k1: v1, k2: v2}` */
  function Two<V>(k1: Key, v1: V, k2: Key, v2: V): (r: Dict<Key, V>)
    requires k1 != k2
    ensures r.keys == [k1, k2] && r.vals == map[k1 := v1, k2 := v2]
  {
    Put(One(k1, v1), k2, v2)
  }

  /** Concatenating a one-key mapping onto a one-key mapping with the same
      key is one merge of the two values. */
  lemma {:induction false} OneKeyConcatInto<A>(k: Key, cur: Obj<A>, v: Obj<A>, fb: Fallback<A>)
    ensures var c := Combined(cur, v, fb);
            ConcatInto(One(k, cur), One(k, v), fb, 0) == Outcome(One(k, c.state), c.raised)
  {
    var c := Combined(cur, v, fb);
    var d1 := Put(One(k, cur), k, c.state);
    assert d1 == One(k, c.state);
    if c.raised.None? {
      assert ConcatInto(d1, One(k, v), fb, 1) == Outcome(d1, None);
    }
  }

  /** The same, through the outer loop over the mappings. */
  lemma OneKeyConcat<A>(k: Key, cur: Obj<A>, v: Obj<A>, fb: Fallback<A>)
    ensures var c := Combined(cur, v, fb);
            ConcatAll(One(k, cur), [One(k, v)], fb, 0) == Outcome(One(k, c.state), c.raised)
  {
    OneKeyConcatInto(k, cur, v, fb);
  }

  const x := Str("x")
  const a := Str("a")
  const b := Str("b")

  /** `NestDict({'x': [1, 2]}).concat({'x': [3, 4]})` leaves `[1, 2, 3, 4]`. */
  lemma ConcatListsScenario()
    ensures ConcatAll(One(x, L([I(1), I(2)])), [One(x, L([I(3), I(4)]))], map[], 0)
         == Outcome(One(x, L([I(1), I(2), I(3), I(4)])), None)
  {
    OneKeyConcat(x, L([I(1), I(2)]), L([I(3), I(4)]), map[]);
    CombinedLists([I(1), I(2)], [I(3), I(4)], map[]);
    assert [I(1), I(2)] + [I(3), I(4)] == [I(1), I(2), I(3), I(4)];
  }

  /** A scalar is promoted: `{'x': 1}` concatenated with `{'x': [2, 3]}`
      leaves `[1, 2, 3]`. */
  lemma ConcatPromoteScenario()
    ensures ConcatAll(One(x, I(1)), [One(x, L([I(2), I(3)]))], map[], 0)
         == Outcome(One(x, L([I(1), I(2), I(3)])), None)
  {
    OneKeyConcat(x, I(1), L([I(2), I(3)]), map[]);
    CombinedPromotes(I(1), [I(2), I(3)], map[]);
    assert [I(1)] + [I(2), I(3)] == [I(1), I(2), I(3)];
  }

  /** Several mappings apply in order: `{'x': 1}` with `[{'x': [2, 3]},
      {'x': [4, 5]}]` leaves `[1, 2, 3, 4, 5]`. */
  lemma ConcatSeveralScenario()
    ensures ConcatAll(One(x, I(1)), [One(x, L([I(2), I(3)])), One(x, L([I(4), I(5)]))], map[], 0)
         == Outcome(One(x, L([I(1), I(2), I(3), I(4), I(5)])), None)
  {
    var d := One(x, I(1));
    var d1 := One(x, L([I(1), I(2), I(3)]));
    var d2 := One(x, L([I(1), I(2), I(3), I(4), I(5)]));
    var ds := [One(x, L([I(2), I(3)])), One(x, L([I(4), I(5)]))];
    OneKeyConcatInto(x, I(1), L([I(2), I(3)]), map[]);
    CombinedPromotes(I(1), [I(2), I(3)], map[]);
    assert [I(1)] + [I(2), I(3)] == [I(1), I(2), I(3)];
    OneKeyConcatInto(x, L([I(1), I(2), I(3)]), L([I(4), I(5)]), map[]);
    CombinedLists([I(1), I(2), I(3)], [I(4), I(5)], map[]);
    assert [I(1), I(2), I(3)] + [I(4), I(5)] == [I(1), I(2), I(3), I(4), I(5)];
    assert ConcatInto(d, ds[0], map[], 0) == Outcome(d1, None);
    assert ConcatInto(d1, ds[1], map[], 0) == Outcome(d2, None);
    assert ConcatAll(d2, ds, map[], 2) == Outcome(d2, None);
  }

  lemma MissingOne<V>(k: Key, m: map<Key, V>)
    requires k !in m
    ensures Missing([k], m) == [k]
  {
    assert [k][1..] == [];
  }

  lemma UpdateOnesKeys<V>(k1: Key, v1: V, k2: Key, v2: V)
    requires k1 != k2
    ensures Dicts.Update(One(k1, v1), One(k2, v2)).keys == [k1, k2]
  {
    MissingOne(k2, map[k1 := v1]);
  }

  /** Updating a one-key dict with another key gives the two-key dict. */
  lemma UpdateOnes<V>(k1: Key, v1: V, k2: Key, v2: V)
    requires k1 != k2
    ensures Dicts.Update(One(k1, v1), One(k2, v2)) == Two(k1, v1, k2, v2)
  {
    UpdateOnesKeys(k1, v1, k2, v2);
  }

  /** Two one-key plain dicts with different keys merge into the two-key
      dict. */
  lemma MergeOnes<A>(k1: Key, v1: Obj<A>, k2: Key, v2: Obj<A>, fb: Fallback<A>)
    requires k1 != k2
    ensures Combined(Node(PlainDict, One(k1, v1)), Node(PlainDict, One(k2, v2)), fb)
         == Outcome(Node(PlainDict, Two(k1, v1, k2, v2)), None)
  {
    UpdateOnes(k1, v1, k2, v2);
  }

  /** Nested plain dicts are updated: `{'x': {'a': 1}}` with
      `{'x': {'b': 2}}` leaves `{'a': 1, 'b': 2}`. */
  lemma ConcatDictsScenario()
    ensures ConcatAll(One(x, Node(PlainDict, One(a, I(1)))), [One(x, Node(PlainDict, One(b, I(2))))], map[], 0)
         == Outcome(One(x, Node(PlainDict, Two(a, I(1), b, I(2)))), None)
  {
    OneKeyConcat(x, Node(PlainDict, One(a, I(1))), Node(PlainDict, One(b, I(2))), map[]);
    MergeOnes(a, I(1), b, I(2), map[]);
  }

  /** Nested `NestDict`s are concatenated recursively:
      `{'x': NestDict({'a': [1]})}` with `{'x': NestDict({'a': [2, 3]})}`
      leaves `[1, 2, 3]` under `x`, `a`. */
  lemma ConcatNestedScenario()
    ensures ConcatAll(One(x, Node(NestDictNode, One(a, L([I(1)])))),
                      [One(x, Node(NestDictNode, One(a, L([I(2), I(3)]))))], map[], 0)
         == Outcome(One(x, Node(NestDictNode, One(a, L([I(1), I(2), I(3)])))), None)
  {
    OneKeyConcat(x, Node(NestDictNode, One(a, L([I(1)]))), Node(NestDictNode, One(a, L([I(2), I(3)]))), map[]);
    OneKeyConcatInto(a, L([I(1)]), L([I(2), I(3)]), map[]);
    CombinedLists([I(1)], [I(2), I(3)], map[]);
    assert [I(1)] + [I(2), I(3)] == [I(1), I(2), I(3)];
  }

  /** A key of the other mapping that `self` lacks raises `KeyError`:
      `{'x': 1}` with `{'y': 2}`. */
  lemma ConcatMissingScenario()
    ensures ConcatAll(One(x, I(1)), [One(Str("y"), I(2))], map[], 0) == Outcome(One(x, I(1)), Some(KeyError))
  {
  }

  /** A scalar merged with a value that is neither a list nor a container
      of its own kind goes to the fallback for its type. */
  lemma OneKeyFallback<A>(k: Key, u: Obj<A>, w: Obj<A>, fb: Fallback<A>)
    requires u.Leaf? && !u.value.List? && !(w.Leaf? && w.value.List?) && TypeOf(u) in fb
    ensures ConcatAll(One(k, u), [One(k, w)], fb, 0) == Outcome(One(k, fb[TypeOf(u)](u, w)), None)
  {
    OneKeyConcat(k, u, w, fb);
    CombinedFallback(u, w, fb);
  }

  /** The test's fallback `lambda x, y: [x, y['a']]`, made total: a value
      without `'a'` stands for itself. */
  function PairWithA(u: Obj<Lit>, w: Obj<Lit>): Obj<Lit>
  {
    L([u, if w.Node? && a in w.kids.vals then w.kids.vals[a] else w])
  }

  /** The fallback for `int` combines `1` with `{'a': 1}` into `[1, 1]`. */
  lemma ConcatFallbackScenario()
    ensures ConcatAll(One(x, I(1)), [One(x, Node(PlainDict, One(a, I(1))))], map[ScalarType("int") := PairWithA], 0)
         == Outcome(One(x, L([I(1), I(1)])), None)
  {
    var fb := map[ScalarType("int") := PairWithA];
    var w := Node(PlainDict, One(a, I(1)));
    assert TypeOf(I(1)) == ScalarType("int");
    OneKeyFallback(x, I(1), w, fb);
    assert PairWithA(I(1), w) == L([I(1), I(1)]);
  }

  /** The fixture `{"a1": 1, "a2": {"b1": 2, "b2": {"c1": 3, "c2": {"d1": 4,
      "d2": 5}}}, 3: "a"}`; the nested containers are plain dicts. */
  function C2(): Obj<Lit>
  {
    Node(PlainDict, RawDict([Str("d1"), Str("d2")], map[Str("d1") := I(4), Str("d2") := I(5)]))
  }

  function B2(): Obj<Lit>
  {
    Node(PlainDict, RawDict([Str("c1"), Str("c2")], map[Str("c1") := I(3), Str("c2") := C2()]))
  }

  function A2(): Obj<Lit>
  {
    Node(PlainDict, RawDict([Str("b1"), Str("b2")], map[Str("b1") := I(2), Str("b2") := B2()]))
  }

  function Fixture(): Store<Lit>
  {
    RawDict([Str("a1"), Str("a2"), Int(3)], map[Str("a1") := I(1), Str("a2") := A2(), Int(3) := S("a")])
  }

  /** `NestDict(1)` and `NestDict([1, 2, 3])` raise `TypeError`; a string
      such as `"ab"` is an iterable of one-character strings, which are
      sequences of the wrong length, so `dict()` raises `ValueError`. */
  lemma InitFailedScenario()
    ensures InitialData<Lit>(NotIterable) == Err(TypeError)
    ensures InitialData<Lit>(Iterable([NotSequence, NotSequence, NotSequence])) == Err(TypeError)
    ensures InitialData<Lit>(Iterable([WrongLength, WrongLength])) == Err(ValueError)
    ensures InitialData<Lit>(Iterable([Pair(Str("a"), I(1)), WrongLength])) == Err(ValueError)
  {
  }

  /** `nd._traverse(3)` finds the integer key; the tuple `(1, 2, 3)` is
      one key, and a missing one. */
  lemma TraverseScenario()
    ensures Traverse(Fixture(), Atom(Int(3))) == Ok(S("a"))
    ensures Traverse(Fixture(), Atom(Tuple([Int(1), Int(2), Int(3)]))) == Err(KeyError)
  {
  }

  /** The path `a2`, `b2`, `c2`, `d1` resolves to `4`. */
  lemma LookupScenario()
    ensures Lookup(Root(Fixture()), [Str("a2"), Str("b2"), Str("c2"), Str("d1")]) == Ok(I(4))
  {
    var p := [Str("a2"), Str("b2"), Str("c2"), Str("d1")];
    assert Lookup(C2(), p[3..]) == Ok(I(4));
    assert Lookup(B2(), p[2..]) == Ok(I(4));
    assert Lookup(A2(), p[1..]) == Ok(I(4));
  }

  /** `nd[["a2", "b2", "c2", "d1"]]` is `4`. */
  lemma GetItemScenario()
    ensures Traverse(Fixture(), KeyList([Str("a2"), Str("b2"), Str("c2"), Str("d1")])) == Ok(I(4))
  {
    LookupScenario();
  }

  /** The path `a2`, `b2`, `c2`, `d2` resolves to `5`. */
  lemma LookupDeletedScenario()
    ensures Lookup(Root(Fixture()), [Str("a2"), Str("b2"), Str("c2"), Str("d2")]) == Ok(I(5))
  {
    var p := [Str("a2"), Str("b2"), Str("c2"), Str("d2")];
    assert Lookup(C2(), p[3..]) == Ok(I(5));
    assert Lookup(B2(), p[2..]) == Ok(I(5));
    assert Lookup(A2(), p[1..]) == Ok(I(5));
  }

  /** Deleting a path that resolves succeeds, and the path then reads as
      missing. */
  lemma DeleteResolved(d: Store<Lit>, p: seq<Key>)
    requires p != [] && Lookup(Root(d), p).Ok?
    ensures DelKey(d, KeyList(p)).raised.None?
    ensures Traverse(DelKey(d, KeyList(p)).state, KeyList(p)) == Err(KeyError)
  {
    DeleteRaises(d, p);
    DeleteGone(d, p);
  }

  /** `del nd[["a2", "b2", "c2", "d2"]]` succeeds, and `"d2"` is gone. */
  lemma DelItemScenario()
    ensures var r := DelKey(Fixture(), KeyList([Str("a2"), Str("b2"), Str("c2"), Str("d2")]));
            && r.raised.None?
            && Traverse(r.state, KeyList([Str("a2"), Str("b2"), Str("c2"), Str("d2")])) == Err(KeyError)
  {
    LookupDeletedScenario();
    DeleteResolved(Fixture(), [Str("a2"), Str("b2"), Str("c2"), Str("d2")]);
  }

  /** `del nd["a2", "b2"]` is the tuple key `("a2", "b2")`, which is absent. */
  lemma DelTupleScenario()
    ensures DelKey(Fixture(), Atom(Tuple([Str("a2"), Str("b2")]))) == Outcome(Fixture(), Some(KeyError))
  {
  }

  /** `"a2.b2.c1".split(".")` */
  lemma SplitScenario()
    ensures DottedPath("a2.b2.c1", ".") == [Str("a2"), Str("b2"), Str("c1")]
  {
    var parts := ["a2", "b2", "c1"];
    assert Join(parts, ".") == "a2.b2.c1";
    SplitJoin(parts, ".");
  }

  /** `nd.get("a2.b2.c1")` is `3`. */
  lemma GetScenario()
    ensures Get(Fixture(), "a2.b2.c1", ".") == Ok(Some(I(3)))
  {
    SplitScenario();
    var p := [Str("a2"), Str("b2"), Str("c1")];
    assert Lookup(B2(), p[2..]) == Ok(I(3));
    assert Lookup(A2(), p[1..]) == Ok(I(3));
  }
}
