/** Python's `str.split(sep)` with an explicit separator, which turns a
    dotted path such as `"a.b.c"` into its keys, and `sep.join(parts)`, which
    puts them back together. */
module PyStrings {
  import opened PyErrors

  /** `sep` occurs in `s` starting at position `i`. */
  predicate OccursAt(s: string, sep: string, i: nat)
  {
    i + |sep| <= |s| && s[i..i + |sep|] == sep
  }

  /** `sep` occurs nowhere in `s`. */
  ghost predicate Free(s: string, sep: string)
  {
    forall j: nat :: !OccursAt(s, sep, j)
  }

  /** `s.find(sep, start)`: the leftmost occurrence at or after `start`. */
  function FindFrom(s: string, sep: string, start: nat): (r: Option<nat>)
    requires |sep| > 0
    ensures r.Some? ==> start <= r.value && OccursAt(s, sep, r.value)
    ensures forall j: nat | start <= j && (r.None? || j < r.value) :: !OccursAt(s, sep, j)
    decreases |s| - start
  {
    if start + |sep| > |s| then None
    else if s[start..start + |sep|] == sep then Some(start)
    else FindFrom(s, sep, start + 1)
  }

  /** `s.split(sep)`: the pieces between the non-overlapping occurrences of
      `sep`, found from the left. Python raises `ValueError` for an empty
      separator; callers check that first. */
  function Split(s: string, sep: string): (r: seq<string>)
    requires |sep| > 0
    ensures |r| >= 1
    decreases |s|
  {
    match FindFrom(s, sep, 0)
    case None => [s]
    case Some(i) => [s[..i]] + Split(s[i + |sep|..], sep)
  }

  /** `sep.join(parts)`. */
  function Join(parts: seq<string>, sep: string): string
  {
    if parts == [] then ""
    else if |parts| == 1 then parts[0]
    else parts[0] + sep + Join(parts[1..], sep)
  }

  /** A prefix of `s` that ends before the first occurrence holds none. */
  lemma FreeBefore(s: string, sep: string, i: nat)
    requires |sep| > 0 && i <= |s|
    requires forall j: nat | j < i :: !OccursAt(s, sep, j)
    ensures Free(s[..i], sep)
  {
    forall j: nat ensures !OccursAt(s[..i], sep, j) {
      if OccursAt(s[..i], sep, j) {
        assert s[..i][j..j + |sep|] == s[j..j + |sep|];
        assert OccursAt(s, sep, j);
      }
    }
  }

  /** No piece of a split contains the separator. */
  lemma {:induction false} SplitPiecesFree(s: string, sep: string)
    requires |sep| > 0
    ensures forall k | 0 <= k < |Split(s, sep)| :: Free(Split(s, sep)[k], sep)
    decreases |s|
  {
    match FindFrom(s, sep, 0)
    case None =>
      assert Split(s, sep) == [s];
      FreeBefore(s, sep, |s|);
      assert s[..|s|] == s;
    case Some(i) =>
      var rest := Split(s[i + |sep|..], sep);
      assert Split(s, sep) == [s[..i]] + rest;
      FreeBefore(s, sep, i);
      SplitPiecesFree(s[i + |sep|..], sep);
  }

  /** Joining the pieces of a split gives back the string. */
  lemma {:induction false} JoinSplit(s: string, sep: string)
    requires |sep| > 0
    ensures Join(Split(s, sep), sep) == s
    decreases |s|
  {
    match FindFrom(s, sep, 0)
    case None =>
    case Some(i) =>
      var tail := s[i + |sep|..];
      var rest := Split(tail, sep);
      JoinSplit(tail, sep);
      calc {
        Join(Split(s, sep), sep);
        { assert Split(s, sep) == [s[..i]] + rest; assert ([s[..i]] + rest)[1..] == rest; }
        s[..i] + sep + Join(rest, sep);
        s[..i] + sep + tail;
        { assert s[i..i + |sep|] == sep; assert s == s[..i] + s[i..i + |sep|] + tail; }
        s;
      }
  }

  /** With a one-character separator that no key contains, splitting the
      joined keys gives back the keys: `"a.b.c".split(".")` is
      `["a", "b", "c"]`. */
  lemma {:induction false} SplitJoin(parts: seq<string>, sep: string)
    requires |sep| == 1 && |parts| >= 1
    requires forall k | 0 <= k < |parts| :: sep[0] !in parts[k]
    ensures Split(Join(parts, sep), sep) == parts
    decreases |parts|
  {
    var p := parts[0];
    if |parts| == 1 {
      assert Join(parts, sep) == p;
      forall j: nat ensures !OccursAt(p, sep, j) {
        if j < |p| { assert p[j..j + 1][0] == p[j]; }
      }
    } else {
      var rest := parts[1..];
      var s := p + sep + Join(rest, sep);
      assert Join(parts, sep) == s;
      forall j: nat | j < |p| ensures !OccursAt(s, sep, j) {
        assert s[j..j + 1][0] == p[j];
      }
      assert OccursAt(s, sep, |p|) by { assert s[|p|..|p| + 1] == sep; }
      assert FindFrom(s, sep, 0) == Some(|p|);
      assert s[..|p|] == p;
      assert s[|p| + 1..] == Join(rest, sep);
      SplitJoin(rest, sep);
      assert parts == [p] + rest;
    }
  }
}
