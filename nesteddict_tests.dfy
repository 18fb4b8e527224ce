/** The examples of base.py's docstrings and of tests/test_nested_dict.py,
    stated on the model. */
module NestedDictScenarios {
  import opened PyErrors
  import opened Dicts
  import opened Trees
  import opened PyStrings
  import opened NestedDicts

  /** `{'a': {'b': {'c': 1}}}` */
  function Abc(): Store<int>
  {
    RawDict(["a"], map["a" := Node(PlainDict, RawDict(["b"], map["b" := Node(PlainDict, RawDict(["c"], map["c" := Leaf(1)]))]))])
  }

  /** The walk of `Abc()` with separator `sep`. */
  lemma AbcWalk(sep: string)
    ensures JoinedFrom(Abc(), "", sep, 0) == [("a" + sep + "b" + sep + "c", 1)]
  {
    var c := RawDict(["c"], map["c" := Leaf(1)]);
    var b := RawDict(["b"], map["b" := Node(PlainDict, c)]);
    var ab := "a" + sep + "b";
    assert JoinedFrom(c, ab, sep, 1) == [];
    assert JoinedFrom(c, ab, sep, 0) == [(ab + sep + "c", 1)];
    assert JoinedFrom(b, "a", sep, 1) == [];
    assert JoinedFrom(b, "a", sep, 0) == [(ab + sep + "c", 1)];
    assert JoinedFrom(Abc(), "", sep, 1) == [];
  }

  /** `NestedDict({'a': {'b': {'c': 1}}}).flatten()` is `{'a.b.c': 1}`. */
  lemma FlattenDotScenario()
    ensures FlatJoined(Abc(), ".") == RawDict(["a.b.c"], map["a.b.c" := 1])
  {
    AbcWalk(".");
    assert "a" + "." + "b" + "." + "c" == "a.b.c";
  }

  /** With `sep="/"` it is `{'a/b/c': 1}`. */
  lemma FlattenSlashScenario()
    ensures FlatJoined(Abc(), "/") == RawDict(["a/b/c"], map["a/b/c" := 1])
  {
    AbcWalk("/");
    assert "a" + "/" + "b" + "/" + "c" == "a/b/c";
  }

  lemma SplitAbc()
    ensures Split("a.b.c", ".") == ["a", "b", "c"]
  {
    assert Join(["a", "b", "c"], ".") == "a.b.c";
    SplitJoin(["a", "b", "c"], ".");
  }

  /** `nd.get('a.b.c')` is `1`. */
  lemma GetScenario()
    ensures Get(Abc(), "a.b.c", ".") == Ok(Some(Leaf(1)))
  {
    SplitAbc();
    var p := ["a", "b", "c"];
    var b := Abc().vals["a"];
    var c := b.kids.vals["b"];
    assert Lookup(c, p[2..]) == Ok(Leaf(1));
    assert Lookup(b, p[1..]) == Ok(Leaf(1));
  }

  /** `nd.get('a.x')` is `None`: `x` is missing below `a`. */
  lemma GetMissingScenario()
    ensures Get(Abc(), "a.x", ".") == Ok(None)
  {
    assert Join(["a", "x"], ".") == "a.x";
    SplitJoin(["a", "x"], ".");
    assert ["a", "x"][1..] == ["x"];
  }

  /** `{'a.b': 1, 'a': {'b': 2}}` */
  function Colliding(): Store<int>
  {
    RawDict(["a.b", "a"], map["a.b" := Leaf(1), "a" := Node(PlainDict, RawDict(["b"], map["b" := Leaf(2)]))])
  }

  lemma CollidingWalk()
    ensures JoinedFrom(Colliding(), "", ".", 0) == [("a.b", 1), ("a.b", 2)]
  {
    var inner := RawDict(["b"], map["b" := Leaf(2)]);
    assert "a" + "." + "b" == "a.b";
    assert JoinedFrom(inner, "a", ".", 1) == [];
    assert JoinedFrom(inner, "a", ".", 0) == [("a.b", 2)];
    assert JoinedFrom(Colliding(), "", ".", 2) == [];
    assert JoinedFrom(Colliding(), "", ".", 1) == [("a.b", 2)];
  }

  /** Joined keys of keys that hold the separator can collide: in
      `{'a.b': 1, 'a': {'b': 2}}` both leaves flatten to `'a.b'`, and the
      later one wins. */
  lemma FlattenCollisionScenario()
    ensures FlatJoined(Colliding(), ".") == RawDict(["a.b"], map["a.b" := 2])
  {
    CollidingWalk();
    var items := [("a.b", 1), ("a.b", 2)];
    assert items[..1] == [("a.b", 1)];
    assert FromPairs(items[..1]) == RawDict(["a.b"], map["a.b" := 1]);
  }

  /** An empty key adds no separator: `{'': {'b': 1}}` flattens to
      `{'b': 1}`. */
  lemma FlattenEmptyKeyScenario()
    ensures FlatJoined(RawDict([""], map["" := Node(PlainDict, RawDict(["b"], map["b" := Leaf(1)]))]), ".")
         == RawDict(["b"], map["b" := 1])
  {
    var d := RawDict([""], map["" := Node(PlainDict, RawDict(["b"], map["b" := Leaf(1)]))]);
    assert JoinedFrom(d, "", ".", 0) == [("b", 1)];
  }
}
