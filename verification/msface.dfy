/**
 * The Microsoft Face API provider (`MSProjectoxfordDetection`): its request
 * headers and body, and the normalisation of its response, a list of faces
 * each with a `faceRectangle`, into four corners per face.
 */
module MsProjectoxford {
  import opened Wrappers
  import opened Coords
  import Locator
  import AkamaiCrop

  /** A face's `faceRectangle`; a field is `None` when its key is absent. */
  datatype FaceRectangle = FaceRectangle(left: Option<int>, top: Option<int>, width: Option<int>, height: Option<int>) {
    predicate Complete() { left.Some? && top.Some? && width.Some? && height.Some? }
  }

  /** A rectangle with all four of its fields. */
  datatype Box = Box(left: int, top: int, width: int, height: int)

  /** One detected face; `None` when it has no `faceRectangle` key. */
  datatype Face = Face(faceRectangle: Option<FaceRectangle>)

  /** The four corners `get_coords` yields: upper left, lower left, lower right, upper right. */
  function Corners(b: Box): seq<Coord>
  {
    [ Coord(b.left, b.top),
      Coord(b.left, b.top + b.height),
      Coord(b.left + b.width, b.top + b.height),
      Coord(b.left + b.width, b.top) ]
  }

  /**
   * The face's rectangle, or the key whose absence raises first: the first
   * corner reads `left` and `top`, the second `height`, the third `width`.
   */
  function FaceBox(face: Face): (r: Result<Box, Error>)
    ensures r.Ok? <==> face.faceRectangle.Some? && face.faceRectangle.value.Complete()
    ensures r.Ok? ==> && r.value.left == face.faceRectangle.value.left.value
                      && r.value.top == face.faceRectangle.value.top.value
                      && r.value.width == face.faceRectangle.value.width.value
                      && r.value.height == face.faceRectangle.value.height.value
    ensures face.faceRectangle.None? ==> r == Err(MissingKey("faceRectangle"))
    ensures r == Err(MissingKey("width"))
        <==> && face.faceRectangle.Some? && face.faceRectangle.value.width.None?
             && face.faceRectangle.value.left.Some? && face.faceRectangle.value.top.Some?
             && face.faceRectangle.value.height.Some?
  {
    match face.faceRectangle
    case None => Err(MissingKey("faceRectangle"))
    case Some(rect) =>
      if rect.left.None? then Err(MissingKey("left"))
      else if rect.top.None? then Err(MissingKey("top"))
      else if rect.height.None? then Err(MissingKey("height"))
      else if rect.width.None? then Err(MissingKey("width"))
      else Ok(Box(rect.left.value, rect.top.value, rect.width.value, rect.height.value))
  }

  function FaceCoords(face: Face): CoordsResult
  {
    match FaceBox(face)
    case Err(e) => Err(e)
    case Ok(b) => Ok(Corners(b))
  }

  /** `get_coords`, drained into a list. */
  function MsCoords(data: seq<Face>): CoordsResult
  {
    Gather(data, FaceCoords)
  }

  /** `get_coords`: a loop over the faces yielding four corners each, reading each key as it needs it. */
  method GetCoords(data: seq<Face>) returns (r: CoordsResult)
    ensures r == MsCoords(data)
  {
    var coords: seq<Coord> := [];
    var i := 0;
    while i < |data|
      invariant 0 <= i <= |data|
      invariant Gather(data[..i], FaceCoords) == Ok(coords)
    {
      if data[i].faceRectangle.None? {
        GatherStop(data, i, FaceCoords);
        return Err(MissingKey("faceRectangle"));
      }
      var rect := data[i].faceRectangle.value;
      if rect.left.None? {
        GatherStop(data, i, FaceCoords);
        return Err(MissingKey("left"));
      }
      if rect.top.None? {
        GatherStop(data, i, FaceCoords);
        return Err(MissingKey("top"));
      }
      var left, top := rect.left.value, rect.top.value;
      ghost var before := coords;
      coords := coords + [Coord(left, top)];
      if rect.height.None? {
        GatherStop(data, i, FaceCoords);
        return Err(MissingKey("height"));
      }
      var height := rect.height.value;
      coords := coords + [Coord(left, top + height)];
      if rect.width.None? {
        GatherStop(data, i, FaceCoords);
        return Err(MissingKey("width"));
      }
      var width := rect.width.value;
      coords := coords + [Coord(left + width, top + height)];
      coords := coords + [Coord(left + width, top)];
      assert coords == before + Corners(Box(left, top, width, height));
      GatherSnoc(data[..i], data[i], FaceCoords);
      assert data[..i + 1] == data[..i] + [data[i]];
      i := i + 1;
    }
    assert data[..|data|] == data;
    r := Ok(coords);
  }

  /** The factory's `__call__`: a fresh result holding the locator, the response and its coordinates. */
  method CreateResult(uri: string, data: seq<Face>) returns (r: Result<DetectionResult<seq<Face>>, Error>)
    ensures r.Err? <==> MsCoords(data).Err?
    ensures r.Err? ==> r.error == MsCoords(data).error
    ensures r.Ok? ==> fresh(r.value) && r.value.uri == uri && r.value.data == data
                      && r.value.coords == MsCoords(data).value
  {
    var coords := GetCoords(data);
    if coords.Err? {
      return Err(coords.error);
    }
    var result := new DetectionResult(uri, data, coords.value);
    return Ok(result);
  }

  /**
   * Four corners per face, faces in input order: corner `c` of face `i` is
   * coordinate `4 * i + c`; the call fails exactly when a face lacks its
   * rectangle or one of the rectangle's four fields.
   */
  lemma {:induction false} MsCoordsLayout(data: seq<Face>)
    ensures MsCoords(data).Ok? <==>
      forall i :: 0 <= i < |data| ==> data[i].faceRectangle.Some? && data[i].faceRectangle.value.Complete()
    ensures MsCoords(data).Ok? ==>
      && |MsCoords(data).value| == 4 * |data|
      && forall i :: 0 <= i < |data| ==>
           MsCoords(data).value[4 * i..4 * i + 4] == Corners(FaceBox(data[i]).value)
  {
    GatherOk(data, FaceCoords);
    if |data| > 0 && MsCoords(data).Ok? {
      var init := data[..|data| - 1];
      MsCoordsLayout(init);
      assert forall i :: 0 <= i < |init| ==> init[i] == data[i];
      var prev := MsCoords(init).value;
      var last := Corners(FaceBox(data[|data| - 1]).value);
      assert MsCoords(data).value == prev + last;
      forall i | 0 <= i < |data|
        ensures MsCoords(data).value[4 * i..4 * i + 4] == Corners(FaceBox(data[i]).value)
      {
        if i < |init| {
          assert (prev + last)[4 * i..4 * i + 4] == prev[4 * i..4 * i + 4];
        } else {
          assert (prev + last)[4 * i..4 * i + 4] == last;
        }
      }
    }
  }

  /** The worked example: `{left: 5, top: 6, width: 10, height: 20}` gives these four points. */
  lemma OneRectangleExample()
    ensures MsCoords([Face(Some(FaceRectangle(Some(5), Some(6), Some(10), Some(20))))])
         == Ok([Coord(5, 6), Coord(5, 26), Coord(15, 26), Coord(15, 6)])
  {
    var data := [Face(Some(FaceRectangle(Some(5), Some(6), Some(10), Some(20))))];
    var corners := [Coord(5, 6), Coord(5, 26), Coord(15, 26), Coord(15, 6)];
    assert FaceBox(data[0]) == Ok(Box(5, 6, 10, 20));
    assert Corners(Box(5, 6, 10, 20)) == corners;
    assert FaceCoords(data[0]) == Ok(corners);
    assert data[..0] == [];
    assert Gather(data[..0], FaceCoords) == Ok([]);
    assert MsCoords(data) == Then(Ok([]), Ok(corners));
    assert [] + corners == corners;
  }

  /**
   * `height` is read before `width`: a rectangle lacking both fails on
   * `height`, and the corners of the faces before it are not returned.
   */
  lemma MissingHeightExample()
    ensures MsCoords([Face(Some(FaceRectangle(Some(5), Some(6), Some(10), Some(20)))),
                      Face(Some(FaceRectangle(Some(1), Some(2), None, None)))])
         == Err(MissingKey("height"))
  {
    var good := Face(Some(FaceRectangle(Some(5), Some(6), Some(10), Some(20))));
    var bad := Face(Some(FaceRectangle(Some(1), Some(2), None, None)));
    var data := [good, bad];
    OneRectangleExample();
    assert data[..1] == [good];
    assert FaceCoords(bad) == Err(MissingKey("height"));
    assert MsCoords(data) == Then(MsCoords([good]), FaceCoords(bad));
  }

  /**
   * One face with a non-negative size: `create_rect` on its four corners
   * gives back the face's rectangle, `(left, top)` to `(left + width, top + height)`.
   */
  lemma OneFaceRect(b: Box)
    requires b.width >= 0 && b.height >= 0
    ensures AkamaiCrop.CreateRect(Corners(b))
         == Ok(AkamaiCrop.Rect(Coord(b.left, b.top), Coord(b.left + b.width, b.top + b.height)))
  {
    var c := Corners(b);
    assert c[0] == Coord(b.left, b.top);
    assert c[2] == Coord(b.left + b.width, b.top + b.height);
    AkamaiCrop.CreateRectExactly(c, Coord(b.left, b.top), Coord(b.left + b.width, b.top + b.height));
  }

  // ---- request ----

  /** The request body: the image file's bytes, or JSON naming the image URL. */
  datatype Payload =
    | FileBytes(path: string)   // the bytes of the file at `path` (reading it is not modelled)
    | JsonBody(text: string)

  /** `json.dumps({'url': url})` for a printable-ASCII URL without '"' or '\\', which JSON would escape. */
  function UrlJson(url: string): string
  {
    "{\"url\": \"" + url + "\"}"
  }

  /** Reads the URL back out of a `{"url": "..."}` body. */
  function ReadUrlJson(text: string): Option<string>
  {
    var prefix, suffix := "{\"url\": \"", "\"}";
    if |text| >= |prefix| + |suffix| && text[..|prefix|] == prefix
       && text[|text| - |suffix|..] == suffix
    then
      var url := text[|prefix|..|text| - |suffix|];
      if '"' in url then None else Some(url)
    else None
  }

  /** The body names the URL it was built for. */
  lemma UrlJsonRoundTrip(url: string)
    requires '"' !in url && '\\' !in url
    ensures ReadUrlJson(UrlJson(url)) == Some(url)
  {
    var prefix, suffix := "{\"url\": \"", "\"}";
    var text := UrlJson(url);
    assert text == prefix + url + suffix;
    assert text[..|prefix|] == prefix;
    assert text[|text| - |suffix|..] == suffix;
    assert text[|prefix|..|text| - |suffix|] == url;
  }

  /** An `MSProjectoxfordDetection` instance: only its API token. */
  datatype MsDetection = MsDetection(apiToken: string) {

    /** `build_headers`: the content type follows the locator kind; the token is always sent. */
    function BuildHeaders(isLocalFile: bool): (h: map<string, string>)
      ensures h.Keys == {"Content-Type", "Ocp-Apim-Subscription-Key"}
      ensures h["Content-Type"] == "application/octet-stream" <==> isLocalFile
      ensures h["Content-Type"] == "application/json" <==> !isLocalFile
      ensures h["Ocp-Apim-Subscription-Key"] == apiToken
    {
      var octet, json: string := "application/octet-stream", "application/json";
      assert octet != json by { assert |octet| != |json|; }
      map["Content-Type" := if isLocalFile then octet else json,
          "Ocp-Apim-Subscription-Key" := apiToken]
    }

    /** `build_payload`: a local file's bytes, or the URL as JSON. */
    function BuildPayload(urlOrPath: string, isLocalFile: bool): (p: Payload)
      ensures p.FileBytes? <==> isLocalFile
      ensures p.FileBytes? ==> p.path == urlOrPath
    {
      if isLocalFile then FileBytes(urlOrPath) else JsonBody(UrlJson(urlOrPath))
    }
  }

  /** A remote locator's body names exactly that URL. */
  lemma UrlPayloadNamesUrl(detect: MsDetection, url: string)
    requires '"' !in url && '\\' !in url
    ensures detect.BuildPayload(url, false).JsonBody?
    ensures ReadUrlJson(detect.BuildPayload(url, false).text) == Some(url)
  {
    UrlJsonRoundTrip(url);
  }

  /**
   * What `__call__` sends for a locator: a Google Cloud Storage URI is never
   * local, so it goes out as JSON with the JSON content type.
   */
  lemma GcsLocatorRequest(detect: MsDetection, uri: string)
    requires Locator.IsGcsImageUri(uri)
    ensures detect.BuildHeaders(Locator.IsLocalFile(uri))["Content-Type"] == "application/json"
    ensures detect.BuildPayload(uri, Locator.IsLocalFile(uri)).JsonBody?
  {
  }
}
