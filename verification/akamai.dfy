/**
 * `AkamaiCrop`: the bounding rectangle of a detection result's coordinates,
 * written as an Akamai Image Converter `crop=` / `resize=` directive on the
 * image URL, optionally followed by '|' and a background URL.
 */
module AkamaiCrop {
  import opened Wrappers
  import opened Strings
  import opened Numerals
  import opened Query
  import opened Urls
  import opened Coords

  /** The upper-left (`start`) and lower-right (`end`) corners of a rectangle. */
  datatype Rect = Rect(start: Coord, end: Coord)

  /** Python's `min` over a non-empty list. */
  function MinOf(xs: seq<int>): (m: int)
    requires |xs| > 0
    ensures forall i :: 0 <= i < |xs| ==> m <= xs[i]
    ensures exists i :: 0 <= i < |xs| && xs[i] == m
  {
    if |xs| == 1 then xs[0]
    else
      var rest := MinOf(xs[1..]);
      assert forall i :: 1 <= i < |xs| ==> xs[i] == xs[1..][i - 1];
      if xs[0] <= rest then xs[0] else rest
  }

  /** Python's `max` over a non-empty list. */
  function MaxOf(xs: seq<int>): (m: int)
    requires |xs| > 0
    ensures forall i :: 0 <= i < |xs| ==> xs[i] <= m
    ensures exists i :: 0 <= i < |xs| && xs[i] == m
  {
    if |xs| == 1 then xs[0]
    else
      var rest := MaxOf(xs[1..]);
      assert forall i :: 1 <= i < |xs| ==> xs[i] == xs[1..][i - 1];
      if xs[0] >= rest then xs[0] else rest
  }

  function Xs(coords: seq<Coord>): (r: seq<int>)
    ensures |r| == |coords| && forall i :: 0 <= i < |coords| ==> r[i] == coords[i].x
  {
    seq(|coords|, i requires 0 <= i < |coords| => coords[i].x)
  }

  function Ys(coords: seq<Coord>): (r: seq<int>)
    ensures |r| == |coords| && forall i :: 0 <= i < |coords| ==> r[i] == coords[i].y
  {
    seq(|coords|, i requires 0 <= i < |coords| => coords[i].y)
  }

  /**
   * `create_rect`: the smallest axis-aligned rectangle holding every coordinate.
   * An empty list has none: `min` raises, modelled as `EmptyCoords`.
   */
  function CreateRect(coords: seq<Coord>): (r: Result<Rect, Error>)
    ensures r.Err? <==> |coords| == 0
    ensures r.Err? ==> r.error == EmptyCoords
    ensures r.Ok? ==> forall i :: 0 <= i < |coords| ==>
              r.value.start.x <= coords[i].x <= r.value.end.x &&
              r.value.start.y <= coords[i].y <= r.value.end.y
    ensures r.Ok? ==> (&& (exists i :: 0 <= i < |coords| && coords[i].x == r.value.start.x)
                       && (exists i :: 0 <= i < |coords| && coords[i].y == r.value.start.y)
                       && (exists i :: 0 <= i < |coords| && coords[i].x == r.value.end.x)
                       && (exists i :: 0 <= i < |coords| && coords[i].y == r.value.end.y))
  {
    if |coords| == 0 then Err(EmptyCoords)
    else
      var xs, ys := Xs(coords), Ys(coords);
      Ok(Rect(Coord(MinOf(xs), MinOf(ys)), Coord(MaxOf(xs), MaxOf(ys))))
  }

  /**
   * The bounds `create_rect` reports are the only ones that fit: corners that
   * bound every coordinate and are each attained by one are its result.
   */
  lemma CreateRectExactly(coords: seq<Coord>, start: Coord, end: Coord)
    requires forall i :: 0 <= i < |coords| ==>
               start.x <= coords[i].x <= end.x && start.y <= coords[i].y <= end.y
    requires exists i :: 0 <= i < |coords| && coords[i].x == start.x
    requires exists i :: 0 <= i < |coords| && coords[i].y == start.y
    requires exists i :: 0 <= i < |coords| && coords[i].x == end.x
    requires exists i :: 0 <= i < |coords| && coords[i].y == end.y
    ensures CreateRect(coords) == Ok(Rect(start, end))
  {
    var xs, ys := Xs(coords), Ys(coords);
    MinOfExactly(xs, start.x);
    MinOfExactly(ys, start.y);
    MaxOfExactly(xs, end.x);
    MaxOfExactly(ys, end.y);
  }

  /** A lower bound that is attained is the minimum. */
  lemma MinOfExactly(xs: seq<int>, m: int)
    requires forall i :: 0 <= i < |xs| ==> m <= xs[i]
    requires exists i :: 0 <= i < |xs| && xs[i] == m
    ensures MinOf(xs) == m
  {
    var i :| 0 <= i < |xs| && xs[i] == m;
    var j :| 0 <= j < |xs| && xs[j] == MinOf(xs);
    assert MinOf(xs) <= xs[i] && m <= xs[j];
  }

  /** An upper bound that is attained is the maximum. */
  lemma MaxOfExactly(xs: seq<int>, m: int)
    requires forall i :: 0 <= i < |xs| ==> xs[i] <= m
    requires exists i :: 0 <= i < |xs| && xs[i] == m
    ensures MaxOf(xs) == m
  {
    var i :| 0 <= i < |xs| && xs[i] == m;
    var j :| 0 <= j < |xs| && xs[j] == MaxOf(xs);
    assert xs[i] <= MaxOf(xs) && xs[j] <= m;
  }

  /** The keyword arguments of `build_uri`, with the source's defaults. */
  datatype CropOptions = CropOptions(
    width: string := "*",
    height: string := "*",
    compositeTo: string := "*.*",
    bgUrl: string := "",        // `None` and `''` both mean "no background"
    bgWidth: string := "*",
    bgHeight: string := "*")

  /** The width `build_uri` writes: `end.x - start.x`. */
  function CropWidth(start: Coord, end: Coord): int { end.x - start.x }

  /** The height `build_uri` writes: `end.y - end.x`, as the source computes it. */
  function CropHeight(start: Coord, end: Coord): int { end.y - end.x }

  /** The `crop` value `build_uri` writes: the width, the height, then the upper-left corner. */
  function CropValue(start: Coord, end: Coord): string
  {
    CropText(CropWidth(start, end), CropHeight(start, end), start.x, start.y)
  }

  /**
   * The `crop` value reads back as the width `end.x - start.x`, the height
   * `end.y - end.x` and the upper-left corner.
   */
  lemma CropValueMeaning(start: Coord, end: Coord)
    ensures ParseCrop(CropValue(start, end))
         == Some(CropBox(CropWidth(start, end), CropHeight(start, end), start.x, start.y))
  {
    CropTextMeaning(CropWidth(start, end), CropHeight(start, end), start.x, start.y);
  }

  /** The `{}:{};{},{}` format of a `crop` value. */
  function CropText(width: int, height: int, left: int, top: int): string
  {
    IntToString(width) + ":" + IntToString(height) + ";" + IntToString(left) + "," + IntToString(top)
  }

  /** The four numbers a `crop` value carries. */
  datatype CropBox = CropBox(width: int, height: int, left: int, top: int)

  /** Reads `W:H;X,Y` back into its numbers. */
  function ParseCrop(text: string): Option<CropBox>
  {
    match SplitFirst(text, ':')
    case None => None
    case Some((w, rest)) =>
      match SplitFirst(rest, ';')
      case None => None
      case Some((h, corner)) =>
        match SplitFirst(corner, ',')
        case None => None
        case Some((x, y)) => CropFields(w, h, x, y)
  }

  /** The four numbers, once the text is cut at its delimiters. */
  function CropFields(w: string, h: string, x: string, y: string): Option<CropBox>
  {
    if ParseInt(w).Some? && ParseInt(h).Some? && ParseInt(x).Some? && ParseInt(y).Some?
    then Some(CropBox(ParseInt(w).value, ParseInt(h).value, ParseInt(x).value, ParseInt(y).value))
    else None
  }

  /** Cutting `W:H;X,Y` at its delimiters gives back the four fields. */
  lemma ParseCropFields(w: string, h: string, x: string, y: string)
    requires ':' !in w && ';' !in h && ',' !in x
    ensures ParseCrop(w + ":" + h + ";" + x + "," + y) == CropFields(w, h, x, y)
  {
    var corner := x + [','] + y;
    var rest := h + [';'] + corner;
    assert w + ":" + h + ";" + x + "," + y == w + [':'] + rest;
    SplitFirstJoined(w, ':', rest);
    SplitFirstJoined(h, ';', corner);
    SplitFirstJoined(x, ',', y);
  }

  /** A formatted integer holds none of the crop and query delimiters. */
  lemma NoDelimiterInInt(n: int, c: char)
    requires c == ':' || c == ';' || c == ',' || c == '&' || c == '#'
    ensures c !in IntToString(n)
  {
  }

  /** A `crop` value reads back as the four numbers it was written from. */
  lemma CropTextMeaning(width: int, height: int, left: int, top: int)
    ensures ParseCrop(CropText(width, height, left, top)) == Some(CropBox(width, height, left, top))
  {
    NoDelimiterInInt(width, ':');
    NoDelimiterInInt(height, ';');
    NoDelimiterInInt(left, ',');
    ParseCropFields(IntToString(width), IntToString(height), IntToString(left), IntToString(top));
    CropFieldsOfInts(width, height, left, top);
  }

  /** Four rendered integers read back as themselves. */
  lemma CropFieldsOfInts(a: int, b: int, c: int, d: int)
    ensures CropFields(IntToString(a), IntToString(b), IntToString(c), IntToString(d))
         == Some(CropBox(a, b, c, d))
  {
    IntToStringRoundTrip(a);
    IntToStringRoundTrip(b);
    IntToStringRoundTrip(c);
    IntToStringRoundTrip(d);
  }

  /** The `resize` value: cut at its first ':', it gives back a width free of ':' and the height. */
  function ResizeValue(width: string, height: string): (r: string)
    ensures ':' !in width ==> SplitFirst(r, ':') == Some((width, height))
  {
    assert ':' !in width ==> SplitFirst(width + ":" + height, ':') == Some((width, height)) by {
      if ':' !in width {
        SplitFirstJoined(width, ':', height);
      }
    }
    width + ":" + height
  }

  /** The foreground URL's parts: the source URL with `crop`, then `resize`, assigned. */
  function ForegroundParts(uri: string, start: Coord, end: Coord, opts: CropOptions): Url
  {
    var u := ParseUrl(uri);
    u.(args := Assign(Assign(u.args, "crop", CropValue(start, end)), "resize",
                      ResizeValue(opts.width, opts.height)))
  }

  /** The background URL's parts: `bg_url` with `resize` assigned. */
  function BackgroundParts(opts: CropOptions): Url
  {
    var b := ParseUrl(opts.bgUrl);
    b.(args := Assign(b.args, "resize", ResizeValue(opts.bgWidth, opts.bgHeight)))
  }

  /**
   * What `build_uri` returns.  `composite_to` does not occur: the source
   * assigns it to the foreground only after that URL's text was taken.
   */
  function AkamaiUri(uri: string, start: Coord, end: Coord, opts: CropOptions): (r: string)
    ensures Serialize(ForegroundParts(uri, start, end, opts)) <= r
    ensures opts.bgUrl == "" <==> r == Serialize(ForegroundParts(uri, start, end, opts))
  {
    var fg := Serialize(ForegroundParts(uri, start, end, opts));
    if opts.bgUrl == "" then fg else fg + "|" + Serialize(BackgroundParts(opts))
  }

  /** `build_uri`, on furl objects whose arguments it assigns in place. */
  method BuildUri(uri: string, start: Coord, end: Coord, opts: CropOptions) returns (url: string)
    ensures url == AkamaiUri(uri, start, end, opts)
  {
    var f := new Furl(uri);
    f.SetArg("crop", CropValue(start, end));
    f.SetArg("resize", ResizeValue(opts.width, opts.height));
    url := f.ToUrl();
    if opts.bgUrl != "" {
      f.SetArg("composite-to", opts.compositeTo);
      var bg := new Furl(opts.bgUrl);
      bg.SetArg("resize", ResizeValue(opts.bgWidth, opts.bgHeight));
      url := url + "|" + bg.ToUrl();
    }
  }

  /** Text that can stand in a query value unchanged by a write and a read. */
  predicate QuerySafe(s: string) { '&' !in s && '#' !in s }

  lemma ResizeArgWellFormed(width: string, height: string)
    requires QuerySafe(width) && QuerySafe(height)
    ensures ArgWellFormed(Arg("resize", ResizeValue(width, height)))
  {
  }

  /** The foreground parts are well formed, so re-parsing the foreground text gives them back. */
  lemma ForegroundRoundTrip(uri: string, start: Coord, end: Coord, opts: CropOptions)
    requires QuerySafe(opts.width) && QuerySafe(opts.height)
    ensures ParseUrl(Serialize(ForegroundParts(uri, start, end, opts)))
         == ForegroundParts(uri, start, end, opts)
  {
    var u := ParseUrl(uri);
    ParseUrlWellFormed(uri);
    NoDelimiterInInt(CropWidth(start, end), '&');
    NoDelimiterInInt(CropHeight(start, end), '&');
    NoDelimiterInInt(start.x, '&');
    NoDelimiterInInt(start.y, '&');
    NoDelimiterInInt(CropWidth(start, end), '#');
    NoDelimiterInInt(CropHeight(start, end), '#');
    NoDelimiterInInt(start.x, '#');
    NoDelimiterInInt(start.y, '#');
    AssignWellFormed(u.args, "crop", CropValue(start, end));
    ResizeArgWellFormed(opts.width, opts.height);
    AssignWellFormed(Assign(u.args, "crop", CropValue(start, end)), "resize",
                     ResizeValue(opts.width, opts.height));
    ParseSerialize(ForegroundParts(uri, start, end, opts));
  }

  /**
   * Without a background, the result is the source URL carrying `crop` and
   * `resize`: same stem and fragment, every other argument unchanged and in
   * its place.
   */
  lemma NoBackgroundResult(uri: string, start: Coord, end: Coord, opts: CropOptions)
    requires opts.bgUrl == ""
    requires QuerySafe(opts.width) && QuerySafe(opts.height)
    ensures ParseUrl(AkamaiUri(uri, start, end, opts)).stem == ParseUrl(uri).stem
    ensures ParseUrl(AkamaiUri(uri, start, end, opts)).fragment == ParseUrl(uri).fragment
    ensures Lookup(ParseUrl(AkamaiUri(uri, start, end, opts)).args, "crop") == Some(CropValue(start, end))
    ensures Lookup(ParseUrl(AkamaiUri(uri, start, end, opts)).args, "resize")
         == Some(ResizeValue(opts.width, opts.height))
    ensures forall k :: k != "crop" && k != "resize" ==>
              Lookup(ParseUrl(AkamaiUri(uri, start, end, opts)).args, k) == Lookup(ParseUrl(uri).args, k)
    ensures RemoveKey(RemoveKey(ParseUrl(AkamaiUri(uri, start, end, opts)).args, "crop"), "resize")
         == RemoveKey(RemoveKey(ParseUrl(uri).args, "crop"), "resize")
  {
    ForegroundRoundTrip(uri, start, end, opts);
    var u := ParseUrl(uri);
    var crop, resize := CropValue(start, end), ResizeValue(opts.width, opts.height);
    AssignCropResize(u.args, crop, resize);
    assert ParseUrl(AkamaiUri(uri, start, end, opts)).args
        == Assign(Assign(u.args, "crop", crop), "resize", resize);
  }

  /** Assigning `crop` then `resize` sets both and leaves every other argument as it was. */
  lemma AssignCropResize(q: seq<Arg>, crop: string, resize: string)
    ensures Lookup(Assign(Assign(q, "crop", crop), "resize", resize), "crop") == Some(crop)
    ensures Lookup(Assign(Assign(q, "crop", crop), "resize", resize), "resize") == Some(resize)
    ensures forall k :: k != "crop" && k != "resize" ==>
              Lookup(Assign(Assign(q, "crop", crop), "resize", resize), k) == Lookup(q, k)
    ensures RemoveKey(RemoveKey(Assign(Assign(q, "crop", crop), "resize", resize), "crop"), "resize")
         == RemoveKey(RemoveKey(q, "crop"), "resize")
  {
    var c, r: string := "crop", "resize";
    assert c != r by { assert |c| != |r|; }
    var q1 := Assign(q, c, crop);
    var q2 := Assign(q1, r, resize);
    assert Lookup(q2, c) == Lookup(q1, c);
    calc {
      RemoveKey(RemoveKey(q2, c), r);
      { RemoveKeyCommutes(q2, c, r); }
      RemoveKey(RemoveKey(q2, r), c);
      RemoveKey(RemoveKey(q1, r), c);
      { RemoveKeyCommutes(q1, c, r); }
      RemoveKey(RemoveKey(q1, c), r);
      RemoveKey(RemoveKey(q, c), r);
    }
  }

  /**
   * With a background, the result is the no-background result, then '|',
   * then `bg_url` carrying `resize = bg_width:bg_height` and otherwise unchanged.
   */
  lemma BackgroundResult(uri: string, start: Coord, end: Coord, opts: CropOptions)
    requires opts.bgUrl != ""
    requires QuerySafe(opts.bgWidth) && QuerySafe(opts.bgHeight)
    ensures AkamaiUri(uri, start, end, opts)
         == AkamaiUri(uri, start, end, opts.(bgUrl := "")) + "|" + Serialize(BackgroundParts(opts))
    ensures ParseUrl(Serialize(BackgroundParts(opts))).stem == ParseUrl(opts.bgUrl).stem
    ensures ParseUrl(Serialize(BackgroundParts(opts))).fragment == ParseUrl(opts.bgUrl).fragment
    ensures Lookup(ParseUrl(Serialize(BackgroundParts(opts))).args, "resize")
         == Some(ResizeValue(opts.bgWidth, opts.bgHeight))
    ensures forall k :: k != "resize" ==>
              Lookup(ParseUrl(Serialize(BackgroundParts(opts))).args, k) == Lookup(ParseUrl(opts.bgUrl).args, k)
  {
    var b := ParseUrl(opts.bgUrl);
    ParseUrlWellFormed(opts.bgUrl);
    ResizeArgWellFormed(opts.bgWidth, opts.bgHeight);
    AssignWellFormed(b.args, "resize", ResizeValue(opts.bgWidth, opts.bgHeight));
    ParseSerialize(BackgroundParts(opts));
  }

  /**
   * `composite_to` never reaches the output: the result is the same whatever
   * it is.  (`ForegroundKeepsCompositeTo` adds that the foreground's
   * `composite-to` argument is the source URL's own.)
   */
  lemma CompositeToNotWritten(uri: string, start: Coord, end: Coord, opts: CropOptions, other: string)
    ensures AkamaiUri(uri, start, end, opts.(compositeTo := other)) == AkamaiUri(uri, start, end, opts)
  {
    assert ForegroundParts(uri, start, end, opts.(compositeTo := other))
        == ForegroundParts(uri, start, end, opts);
  }

  /**
   * With or without a background, the foreground text carries the source
   * URL's `composite-to` value, never the option: the option is assigned
   * only after that text was taken.
   */
  lemma ForegroundKeepsCompositeTo(uri: string, start: Coord, end: Coord, opts: CropOptions)
    requires QuerySafe(opts.width) && QuerySafe(opts.height)
    ensures Lookup(ParseUrl(Serialize(ForegroundParts(uri, start, end, opts))).args, "composite-to")
         == Lookup(ParseUrl(uri).args, "composite-to")
  {
    var k: string := "composite-to";
    assert k != "crop" && k != "resize" by { assert |k| == 12; }
    var plain := opts.(bgUrl := "");
    ForegroundOtherArg(uri, start, end, plain, k);
    assert ForegroundParts(uri, start, end, plain) == ForegroundParts(uri, start, end, opts);
  }

  /** Without a background, an argument other than `crop` and `resize` keeps the source URL's value. */
  lemma ForegroundOtherArg(uri: string, start: Coord, end: Coord, opts: CropOptions, k: string)
    requires opts.bgUrl == ""
    requires QuerySafe(opts.width) && QuerySafe(opts.height)
    requires k != "crop" && k != "resize"
    ensures Lookup(ParseUrl(AkamaiUri(uri, start, end, opts)).args, k) == Lookup(ParseUrl(uri).args, k)
  {
    NoBackgroundResult(uri, start, end, opts);
  }

  /** A source URL without query or fragment gets exactly `?crop=...&resize=...` appended. */
  lemma PlainSourceUrl(s: string, start: Coord, end: Coord, opts: CropOptions)
    requires '#' !in s && '?' !in s && opts.bgUrl == ""
    ensures AkamaiUri(s, start, end, opts)
         == s + "?" + ("crop=" + CropValue(start, end) + "&" + "resize=" + ResizeValue(opts.width, opts.height))
  {
    var crop, resize := CropValue(start, end), ResizeValue(opts.width, opts.height);
    PlainSourceArgs(s, crop, resize);
    assert ForegroundParts(s, start, end, opts) == Url(s, [Arg("crop", crop), Arg("resize", resize)], "");
    SerializeTwoArgs(s, crop, resize);
  }

  /** On a URL without query or fragment, `crop` then `resize` are appended in that order. */
  lemma PlainSourceArgs(s: string, crop: string, resize: string)
    requires '#' !in s && '?' !in s
    ensures ParseUrl(s) == Url(s, [], "")
    ensures Assign(Assign([], "crop", crop), "resize", resize) == [Arg("crop", crop), Arg("resize", resize)]
  {
    var c, r: string := "crop", "resize";
    assert c != r by { assert |c| != |r|; }
    assert Assign([], c, crop) == [Arg(c, crop)];
  }

  lemma SerializeTwoArgs(s: string, crop: string, resize: string)
    ensures Serialize(Url(s, [Arg("crop", crop), Arg("resize", resize)], ""))
         == s + "?" + ("crop=" + crop + "&" + "resize=" + resize)
  {
    var q := [Arg("crop", crop), Arg("resize", resize)];
    var texts := seq(|q|, i requires 0 <= i < |q| => ArgText(q[i]));
    assert texts == [ArgText(q[0]), ArgText(q[1])];
    assert texts[1..] == [ArgText(q[1])];
    assert JoinWith(texts, '&') == ArgText(q[0]) + ['&'] + ArgText(q[1]);
    assert Join(q) == "crop=" + crop + "&" + "resize=" + resize;
  }

  /**
   * The `build_uri` docstring example: the height is 40 - 30, so the value is
   * "20:10;10,20", not the "30:40;10,20" the docstring shows.
   */
  lemma CropValueExample()
    ensures CropValue(Coord(10, 20), Coord(30, 40)) == "20:10;10,20"
    ensures CropValue(Coord(10, 20), Coord(30, 40)) != "30:40;10,20"
  {
    assert IntToString(20) == "20";
    assert IntToString(10) == "10";
  }

  /** The `build_uri` docstring example as a whole URL, `resize` included. */
  lemma BuildUriExample()
    ensures AkamaiUri("https://example.com/test.jpg", Coord(10, 20), Coord(30, 40), CropOptions())
         == "https://example.com/test.jpg" + "?" + ("crop=" + "20:10;10,20" + "&" + "resize=" + "*:*")
  {
    CropValueExample();
    var s := "https://example.com/test.jpg";
    assert forall i :: 0 <= i < |s| ==> s[i] != '#' && s[i] != '?';
    DefaultOptionsUrl("https://example.com/test.jpg", Coord(10, 20), Coord(30, 40), "20:10;10,20");
  }

  /** The `create_rect` docstring example. */
  lemma CreateRectExample()
    ensures CreateRect([Coord(20, 30), Coord(25, 24), Coord(29, 21)]) == Ok(Rect(Coord(20, 21), Coord(29, 30)))
  {
    var cs := [Coord(20, 30), Coord(25, 24), Coord(29, 21)];
    assert cs[0].x == 20 && cs[1].x == 25 && cs[2].x == 29;
    assert cs[0].y == 30 && cs[1].y == 24 && cs[2].y == 21;
  }

  /**
   * The crop of the `__call__` docstring example: 9 wide and 30 - 29 = 1 high,
   * so "9:1;20,21", not the "29:30;20,21" the docstring shows.
   */
  lemma CallCropValueExample()
    ensures CropValue(Coord(20, 21), Coord(29, 30)) == "9:1;20,21"
    ensures CropValue(Coord(20, 21), Coord(29, 30)) != "29:30;20,21"
  {
    assert IntToString(9) == "9";
    assert IntToString(1) == "1";
    assert IntToString(20) == "20";
    assert IntToString(21) == "21";
  }

  /** The `__call__` docstring example as a whole URL (its rectangle is `CreateRectExample`'s), `resize` included. */
  lemma CallExample()
    ensures AkamaiUri("https://example.com/example.jpg", Coord(20, 21), Coord(29, 30), CropOptions())
         == "https://example.com/example.jpg" + "?" + ("crop=" + "9:1;20,21" + "&" + "resize=" + "*:*")
  {
    CallCropValueExample();
    var s := "https://example.com/example.jpg";
    assert forall i :: 0 <= i < |s| ==> s[i] != '#' && s[i] != '?';
    DefaultOptionsUrl("https://example.com/example.jpg", Coord(20, 21), Coord(29, 30), "9:1;20,21");
  }

  /** With the default options, a plain source URL gets its crop and `resize=*:*`. */
  lemma DefaultOptionsUrl(s: string, start: Coord, end: Coord, crop: string)
    requires '#' !in s && '?' !in s && CropValue(start, end) == crop
    ensures AkamaiUri(s, start, end, CropOptions()) == s + "?" + ("crop=" + crop + "&" + "resize=" + "*:*")
  {
    assert ResizeValue("*", "*") == "*:*";
    PlainSourceUrl(s, start, end, CropOptions());
  }

  /**
   * `AkamaiCrop.__call__`: the URL for a detection result, or the error
   * `create_rect` raises on a result with no coordinates.
   */
  method Crop<D>(result: DetectionResult<D>, opts: CropOptions) returns (r: Result<string, Error>)
    ensures r.Err? <==> result.coords == []
    ensures r.Err? ==> r.error == EmptyCoords
    ensures r.Ok? ==> r.value == AkamaiUri(result.uri, CreateRect(result.coords).value.start,
                                           CreateRect(result.coords).value.end, opts)
  {
    var rect := CreateRect(result.coords);
    if rect.Err? {
      return Err(rect.error);
    }
    var url := BuildUri(result.uri, rect.value.start, rect.value.end, opts);
    return Ok(url);
  }
}
