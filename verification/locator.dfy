/**
 * Classification of an image locator by its URI scheme, as
 * `urllib.parse.urlparse(uri).scheme` decides it in current CPython: the
 * text before the first ':' is a scheme when it is non-empty, starts with an
 * ASCII letter and holds only ASCII letters, digits, '+', '-' and '.'; the
 * scheme is lower-cased.
 */
module Locator {
  import opened Wrappers
  import opened Strings

  predicate IsAsciiLetter(c: char) { 'a' <= c <= 'z' || 'A' <= c <= 'Z' }

  predicate IsSchemeChar(c: char)
  {
    IsAsciiLetter(c) || '0' <= c <= '9' || c == '+' || c == '-' || c == '.'
  }

  /** Text that `urlparse` accepts as a scheme. */
  predicate ValidScheme(p: string)
  {
    |p| > 0 && IsAsciiLetter(p[0]) && forall k :: 0 <= k < |p| ==> IsSchemeChar(p[k])
  }

  function LowerChar(c: char): char
  {
    if 'A' <= c <= 'Z' then (c as int - 'A' as int + 'a' as int) as char else c
  }

  function Lower(s: string): (r: string)
    ensures |r| == |s| && forall k :: 0 <= k < |s| ==> r[k] == LowerChar(s[k])
  {
    if |s| == 0 then [] else [LowerChar(s[0])] + Lower(s[1..])
  }

  /**
   * `urlparse(uri).scheme`: empty when `uri` has none, and otherwise a valid,
   * lower-case scheme that is the text before the first ':' up to case.
   */
  function Scheme(uri: string): (r: string)
    ensures r == "" <==> (':' !in uri || !ValidScheme(SplitFirst(uri, ':').value.0))
    ensures r != "" ==> ValidScheme(r) && |r| < |uri| && uri[|r|] == ':' && r == Lower(uri[..|r|])
    ensures forall k :: 0 <= k < |r| ==> !('A' <= r[k] <= 'Z')
  {
    match SplitFirst(uri, ':')
    case None => ""
    case Some((prefix, rest)) =>
      if ValidScheme(prefix) then
        LowerScheme(prefix);
        assert uri[..|prefix|] == prefix;
        Lower(prefix)
      else ""
  }

  /** Lower-casing a valid scheme leaves it valid and free of capitals. */
  lemma LowerScheme(p: string)
    requires ValidScheme(p)
    ensures ValidScheme(Lower(p))
    ensures forall k :: 0 <= k < |p| ==> !('A' <= Lower(p)[k] <= 'Z')
  {
    var l := Lower(p);
    forall k | 0 <= k < |p| ensures IsSchemeChar(l[k]) && !('A' <= l[k] <= 'Z') {
      assert IsSchemeChar(p[k]);
    }
  }

  /**
   * `is_localfile`: a locator is local exactly when it has no ':' or the text
   * before its first ':' is not a scheme.
   */
  function IsLocalFile(uri: string): (r: bool)
    ensures r <==> (':' !in uri || !ValidScheme(SplitFirst(uri, ':').value.0))
  {
    Scheme(uri) == ""
  }

  /** `is_gcs_image_uri`: a Google Cloud Storage locator has the scheme `gs`; it is never local. */
  function IsGcsImageUri(uri: string): (r: bool)
    ensures r ==> !IsLocalFile(uri)
  {
    Scheme(uri) == "gs"
  }

  /** `scheme:rest` has the lower-cased scheme, whatever follows the ':'. */
  lemma SchemeOf(p: string, rest: string)
    requires ValidScheme(p)
    ensures Scheme(p + ":" + rest) == Lower(p)
  {
    assert ':' !in p by {
      forall k | 0 <= k < |p| ensures p[k] != ':' { assert IsSchemeChar(p[k]); }
    }
    SplitFirstJoined(p, ':', rest);
  }

  /** `gs://...` locators are Google Cloud Storage references, and not local files. */
  lemma GcsLocator(rest: string)
    ensures IsGcsImageUri("gs:" + rest) && !IsLocalFile("gs:" + rest)
  {
    assert ValidScheme("gs");
    SchemeOf("gs", rest);
    assert "gs:" + rest == "gs" + ":" + rest;
    var l := Lower("gs");
    assert l[0] == 'g' && l[1] == 's';
    assert l == "gs";
  }

  /** An upper-case scheme counts too: `GS://...` is a Google Cloud Storage locator. */
  lemma UpperCaseGcsLocator(rest: string)
    ensures IsGcsImageUri("GS:" + rest)
  {
    assert ValidScheme("GS");
    SchemeOf("GS", rest);
    assert "GS:" + rest == "GS" + ":" + rest;
    var l := Lower("GS");
    assert l[0] == 'g' && l[1] == 's';
    assert l == "gs";
  }

  /** `https://...` is neither local nor a Google Cloud Storage reference. */
  lemma HttpsLocator(rest: string)
    ensures !IsLocalFile("https:" + rest) && !IsGcsImageUri("https:" + rest)
  {
    assert ValidScheme("https");
    SchemeOf("https", rest);
    assert "https:" + rest == "https" + ":" + rest;
    assert |Lower("https")| == 5;
  }

  /** A plain file name such as `foo.jpg` is local. */
  lemma PlainPathIsLocal()
    ensures IsLocalFile("foo.jpg")
  {
    assert ':' !in "foo.jpg";
  }

  /** A Windows drive path has a one-letter scheme, so it is not treated as a local file. */
  lemma DrivePathNotLocal(rest: string)
    ensures !IsLocalFile("C:" + rest)
  {
    assert ValidScheme("C");
    SchemeOf("C", rest);
    assert "C:" + rest == "C" + ":" + rest;
  }
}
