/** Searching, splitting and joining sequences on a single separator. */
module Strings {
  import opened Wrappers

  /** Index of the first occurrence of `c` in `s` (Python's `s.find(c)`, with `None` for -1). */
  function FirstIndex<T(==)>(s: seq<T>, c: T): (r: Option<nat>)
    ensures r.None? <==> c !in s
    ensures r.Some? ==> r.value < |s| && s[r.value] == c && c !in s[..r.value]
  {
    if |s| == 0 then None
    else if s[0] == c then Some(0)
    else
      match FirstIndex(s[1..], c)
      case None => None
      case Some(i) =>
        assert s[1..][..i] == s[1..i + 1];
        Some(i + 1)
  }

  /** The first occurrence of `c` sits right after a prefix that does not contain it. */
  lemma FirstIndexAfter<T>(a: seq<T>, c: T, b: seq<T>)
    requires c !in a
    ensures FirstIndex(a + [c] + b, c) == Some(|a|)
  {
    var s := a + [c] + b;
    assert s[|a|] == c;
    assert s[..|a|] == a;
  }

  /** Split `s` around the first `c` (Python's `s.partition(c)` when `c` is present). */
  function SplitFirst<T(==)>(s: seq<T>, c: T): (r: Option<(seq<T>, seq<T>)>)
    ensures r.None? <==> c !in s
    ensures r.Some? ==> s == r.value.0 + [c] + r.value.1 && c !in r.value.0
  {
    match FirstIndex(s, c)
    case None => None
    case Some(i) =>
      assert s == s[..i] + [c] + s[i + 1..];
      Some((s[..i], s[i + 1..]))
  }

  /** Splitting a joined pair around a separator absent from its left part gives the pair back. */
  lemma SplitFirstJoined<T>(a: seq<T>, c: T, b: seq<T>)
    requires c !in a
    ensures SplitFirst(a + [c] + b, c) == Some((a, b))
  {
    FirstIndexAfter(a, c, b);
    var s := a + [c] + b;
    assert s[..|a|] == a;
    assert s[|a| + 1..] == b;
  }

  /** Every piece of `s` between occurrences of `c` (Python's `s.split(c)`). */
  function SplitAll<T(==)>(s: seq<T>, c: T): (r: seq<seq<T>>)
    ensures |r| > 0
    ensures forall k :: 0 <= k < |r| ==> c !in r[k]
    decreases |s|
  {
    match SplitFirst(s, c)
    case None => [s]
    case Some((head, tail)) => [head] + SplitAll(tail, c)
  }

  /** The pieces glued together with `c` between neighbours (Python's `c.join(parts)`). */
  function JoinWith<T>(parts: seq<seq<T>>, c: T): seq<T>
  {
    if |parts| == 0 then []
    else if |parts| == 1 then parts[0]
    else parts[0] + [c] + JoinWith(parts[1..], c)
  }

  /** A joined list splits back into the same pieces when no piece holds the separator. */
  lemma {:induction false} SplitAllJoinWith<T>(parts: seq<seq<T>>, c: T)
    requires |parts| > 0
    requires forall k :: 0 <= k < |parts| ==> c !in parts[k]
    ensures SplitAll(JoinWith(parts, c), c) == parts
    decreases |parts|
  {
    if |parts| == 1 {
      assert SplitFirst(parts[0], c).None?;
    } else {
      var rest := JoinWith(parts[1..], c);
      assert c !in parts[0];
      SplitFirstJoined(parts[0], c, rest);
      SplitAllJoinWith(parts[1..], c);
      assert SplitAll(parts[0] + [c] + rest, c) == [parts[0]] + SplitAll(rest, c);
      assert parts == [parts[0]] + parts[1..];
    }
  }

  /** A value absent from every piece and distinct from the separator is absent from the join. */
  lemma {:induction false} NotInJoinWith<T>(parts: seq<seq<T>>, c: T, d: T)
    requires d != c
    requires forall k :: 0 <= k < |parts| ==> d !in parts[k]
    ensures d !in JoinWith(parts, c)
    decreases |parts|
  {
    if |parts| > 1 {
      NotInJoinWith(parts[1..], c, d);
    }
  }
}
