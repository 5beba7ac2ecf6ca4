/**
 * A URL as furl splits it: the part before the query (`stem`), the query
 * arguments, and the fragment after '#'.  `furl.url` writes them back as
 * stem, then '?' and the query when there is one, then '#' and the fragment
 * when there is one.
 */
module Urls {
  import opened Wrappers
  import opened Strings
  import opened Query

  datatype Url = Url(stem: string, args: seq<Arg>, fragment: string)

  /** `furl.furl(text)`: the fragment after the first '#', the query after the first '?' before it. */
  function ParseUrl(text: string): Url
  {
    var (head, fragment) :=
      match SplitFirst(text, '#')
      case None => (text, "")
      case Some(p) => p;
    match SplitFirst(head, '?')
    case None => Url(head, [], fragment)
    case Some((stem, query)) => Url(stem, ParseQuery(query), fragment)
  }

  /** `furl_obj.url`. */
  function Serialize(u: Url): string
  {
    u.stem
    + (if u.args == [] then "" else "?" + Join(u.args))
    + (if u.fragment == "" then "" else "#" + u.fragment)
  }

  /** The parts that survive being written and read back. */
  predicate UrlWellFormed(u: Url)
  {
    '?' !in u.stem && '#' !in u.stem && WellFormed(u.args)
  }

  /** Whatever text furl is given, the parts it produces are well formed. */
  lemma ParseUrlWellFormed(text: string)
    ensures UrlWellFormed(ParseUrl(text))
  {
    var head :=
      match SplitFirst(text, '#')
      case None => text
      case Some(p) => p.0;
    assert '#' !in head;
    match SplitFirst(head, '?')
    case None =>
    case Some((stem, query)) =>
      assert head == stem + ['?'] + query;
      assert '#' !in query;
      ParseQueryWellFormed(query);
  }

  /** Writing well-formed parts and parsing the text gives the same parts. */
  lemma ParseSerialize(u: Url)
    requires UrlWellFormed(u)
    ensures ParseUrl(Serialize(u)) == u
  {
    var query := if u.args == [] then "" else "?" + Join(u.args);
    var head := u.stem + query;
    NotInJoin(u.args, '#');
    assert '#' !in head;
    if u.fragment == "" {
      assert Serialize(u) == head;
    } else {
      assert Serialize(u) == head + ['#'] + u.fragment;
      SplitFirstJoined(head, '#', u.fragment);
    }
    if u.args == [] {
      assert head == u.stem;
    } else {
      assert head == u.stem + ['?'] + Join(u.args);
      SplitFirstJoined(u.stem, '?', Join(u.args));
      ParseJoin(u.args);
    }
  }

  /** furl is canonical on what it produced: re-parsing its output gives the same parts. */
  lemma ParseUrlStable(text: string)
    ensures ParseUrl(Serialize(ParseUrl(text))) == ParseUrl(text)
  {
    ParseUrlWellFormed(text);
    ParseSerialize(ParseUrl(text));
  }

  /** A furl object: parsed once, then its query arguments are assigned in place. */
  class Furl {
    var stem: string
    var args: seq<Arg>
    var fragment: string

    function Parts(): Url
      reads this
    {
      Url(stem, args, fragment)
    }

    /** `furl.furl(text)`. */
    constructor (text: string)
      ensures Parts() == ParseUrl(text)
    {
      var u := ParseUrl(text);
      stem, args, fragment := u.stem, u.args, u.fragment;
    }

    /** `furl_obj.args[key] = value`: only the arguments change. */
    method SetArg(key: string, value: string)
      modifies this
      ensures Parts() == old(Parts()).(args := Assign(old(args), key, value))
    {
      args := Assign(args, key, value);
    }

    /** `furl_obj.url`: the text that parses back into this object's parts when they are well formed. */
    function ToUrl(): (r: string)
      reads this
      ensures UrlWellFormed(Parts()) ==> ParseUrl(r) == Parts()
    {
      assert UrlWellFormed(Parts()) ==> ParseUrl(Serialize(Parts())) == Parts() by {
        if UrlWellFormed(Parts()) {
          ParseSerialize(Parts());
        }
      }
      Serialize(Parts())
    }
  }
}
