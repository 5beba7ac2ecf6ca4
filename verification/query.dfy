/**
 * A URL's query as furl exposes it (`furl_obj.args`): an ordered list of
 * key/value pairs in which a key may repeat.  Assigning `args[key] = value`
 * keeps the first pair with that key in place with the new value, drops any
 * later pairs with that key, and appends the pair when the key is absent.
 * Percent-encoding is not modelled: keys and values are kept as plain text.
 */
module Query {
  import opened Wrappers
  import opened Strings

  datatype Arg = Arg(key: string, value: string)

  /** The value of the first pair with key `k` (`args[k]`), if any. */
  function Lookup(q: seq<Arg>, k: string): Option<string>
  {
    if |q| == 0 then None
    else if q[0].key == k then Some(q[0].value)
    else Lookup(q[1..], k)
  }

  /** `q` without any pair whose key is `k`, the others in their order. */
  function RemoveKey(q: seq<Arg>, k: string): (r: seq<Arg>)
    ensures Lookup(r, k) == None
    ensures forall k' :: k' != k ==> Lookup(r, k') == Lookup(q, k')
    ensures forall i :: 0 <= i < |r| ==> r[i].key != k
  {
    if |q| == 0 then []
    else if q[0].key == k then RemoveKey(q[1..], k)
    else [q[0]] + RemoveKey(q[1..], k)
  }

  /** `args[k] = v`: replace the first pair with key `k`, drop the later ones, or append. */
  function Assign(q: seq<Arg>, k: string, v: string): (r: seq<Arg>)
    ensures Lookup(r, k) == Some(v)
    ensures forall k' :: k' != k ==> Lookup(r, k') == Lookup(q, k')
    ensures forall i :: 0 <= i < |r| && r[i].key == k ==> r[i].value == v
    ensures RemoveKey(r, k) == RemoveKey(q, k)
  {
    if |q| == 0 then [Arg(k, v)]
    else if q[0].key == k then
      NoKeyRemoveKey(RemoveKey(q[1..], k), k);
      [Arg(k, v)] + RemoveKey(q[1..], k)
    else [q[0]] + Assign(q[1..], k, v)
  }

  /** Assigning a key that is not present appends exactly one pair at the end. */
  lemma {:induction false} AssignAbsent(q: seq<Arg>, k: string, v: string)
    requires Lookup(q, k) == None
    ensures Assign(q, k, v) == q + [Arg(k, v)]
  {
    if |q| > 0 {
      AssignAbsent(q[1..], k, v);
      assert q == [q[0]] + q[1..];
    }
  }

  /** Assigning a key that occurs exactly once replaces that pair where it stands. */
  lemma {:induction false} AssignPresentKeepsPosition(q: seq<Arg>, k: string, v: string, i: nat)
    requires i < |q| && q[i].key == k
    requires forall j :: 0 <= j < |q| && j != i ==> q[j].key != k
    ensures Assign(q, k, v) == q[i := Arg(k, v)]
  {
    if q[0].key == k {
      assert i == 0;
      NoKeyRemoveKey(q[1..], k);
      assert q[i := Arg(k, v)] == [Arg(k, v)] + q[1..];
    } else {
      var tail := q[1..];
      forall j | 0 <= j < |tail| && j != i - 1
        ensures tail[j].key != k
      {
        assert tail[j] == q[j + 1];
      }
      AssignPresentKeepsPosition(tail, k, v, i - 1);
      assert q[i := Arg(k, v)] == [q[0]] + q[1..][i - 1 := Arg(k, v)];
    }
  }

  lemma {:induction false} NoKeyRemoveKey(q: seq<Arg>, k: string)
    requires forall j :: 0 <= j < |q| ==> q[j].key != k
    ensures RemoveKey(q, k) == q
  {
    if |q| > 0 {
      NoKeyRemoveKey(q[1..], k);
      assert q == [q[0]] + q[1..];
    }
  }

  /** A later assignment to the same key overrides an earlier one completely. */
  lemma {:induction false} AssignTwice(q: seq<Arg>, k: string, v: string, w: string)
    ensures Assign(Assign(q, k, v), k, w) == Assign(q, k, w)
  {
    if |q| == 0 {
    } else if q[0].key == k {
      NoKeyRemoveKey(RemoveKey(q[1..], k), k);
    } else {
      AssignTwice(q[1..], k, v, w);
    }
  }

  /** Removing two keys gives the same pairs in either order. */
  lemma {:induction false} RemoveKeyCommutes(q: seq<Arg>, a: string, b: string)
    ensures RemoveKey(RemoveKey(q, a), b) == RemoveKey(RemoveKey(q, b), a)
  {
    if |q| > 0 {
      RemoveKeyCommutes(q[1..], a, b);
    }
  }

  // ---- query text ----

  /** `key=value` as it appears between '&' separators. */
  function ArgText(a: Arg): string { a.key + "=" + a.value }

  /** The query text after '?': the pairs joined with '&'. */
  function Join(q: seq<Arg>): string
  {
    JoinWith(seq(|q|, i requires 0 <= i < |q| => ArgText(q[i])), '&')
  }

  /** One `key=value` piece; a piece without '=' is a key with an empty value. */
  function ParseArg(piece: string): Arg
  {
    match SplitFirst(piece, '=')
    case None => Arg(piece, "")
    case Some((k, v)) => Arg(k, v)
  }

  /** The pairs of a query text; an empty text has none. */
  function ParseQuery(text: string): seq<Arg>
  {
    if text == [] then []
    else
      var pieces := SplitAll(text, '&');
      seq(|pieces|, i requires 0 <= i < |pieces| => ParseArg(pieces[i]))
  }

  /** A pair that survives being written into a query and read back. */
  predicate ArgWellFormed(a: Arg)
  {
    '&' !in a.key && '=' !in a.key && '#' !in a.key && '&' !in a.value && '#' !in a.value
  }

  predicate WellFormed(q: seq<Arg>)
  {
    forall i :: 0 <= i < |q| ==> ArgWellFormed(q[i])
  }

  /** Assigning a well-formed pair keeps a query writable. */
  lemma {:induction false} AssignWellFormed(q: seq<Arg>, k: string, v: string)
    requires WellFormed(q) && ArgWellFormed(Arg(k, v))
    ensures WellFormed(Assign(q, k, v))
  {
    if |q| > 0 {
      if q[0].key == k {
        RemoveKeyWellFormed(q[1..], k);
      } else {
        AssignWellFormed(q[1..], k, v);
      }
    }
  }

  lemma {:induction false} RemoveKeyWellFormed(q: seq<Arg>, k: string)
    requires WellFormed(q)
    ensures WellFormed(RemoveKey(q, k))
  {
    if |q| > 0 {
      RemoveKeyWellFormed(q[1..], k);
    }
  }

  /** Every pair read from a query text without '#' can be written back unchanged. */
  lemma ParseQueryWellFormed(text: string)
    requires '#' !in text
    ensures WellFormed(ParseQuery(text))
  {
    if text != [] {
      var pieces := SplitAll(text, '&');
      forall i | 0 <= i < |pieces|
        ensures ArgWellFormed(ParseArg(pieces[i]))
      {
        SplitAllSubset(text, '&', i);
      }
    }
  }

  lemma {:induction false} SplitAllSubset(s: string, c: char, i: nat)
    requires i < |SplitAll(s, c)|
    ensures forall d :: d in SplitAll(s, c)[i] ==> d in s
    decreases |s|
  {
    match SplitFirst(s, c)
    case None =>
    case Some((head, tail)) =>
      if i > 0 {
        SplitAllSubset(tail, c, i - 1);
      }
  }

  /** Writing well-formed pairs as query text and reading it back gives the same pairs. */
  lemma ParseJoin(q: seq<Arg>)
    requires WellFormed(q)
    ensures ParseQuery(Join(q)) == q
  {
    if |q| > 0 {
      var texts := seq(|q|, i requires 0 <= i < |q| => ArgText(q[i]));
      forall i | 0 <= i < |q|
        ensures '&' !in texts[i]
        ensures ParseArg(texts[i]) == q[i]
      {
        SplitFirstJoined(q[i].key, '=', q[i].value);
      }
      SplitAllJoinWith(texts, '&');
      JoinNonEmpty(q);
    }
  }

  /** Query text of at least one pair is never empty (it holds at least one '='). */
  lemma JoinNonEmpty(q: seq<Arg>)
    requires |q| > 0
    ensures Join(q) != []
  {
    var texts := seq(|q|, i requires 0 <= i < |q| => ArgText(q[i]));
    if |q| > 1 {
      assert Join(q) == texts[0] + ['&'] + JoinWith(texts[1..], '&');
    }
  }

  /** A character absent from every key and value, other than '=' and '&', is absent from the query text. */
  lemma NotInJoin(q: seq<Arg>, d: char)
    requires d != '=' && d != '&'
    requires forall i :: 0 <= i < |q| ==> d !in q[i].key && d !in q[i].value
    ensures d !in Join(q)
  {
    var texts := seq(|q|, i requires 0 <= i < |q| => ArgText(q[i]));
    NotInJoinWith(texts, '&', d);
  }
}
