/**
 * Google Vision API face annotations (`GoogleVisionAPIFaceDetectionResultFactory`):
 * every vertex of every annotation's `fdBoundingPoly`, then of its
 * `boundingPoly`, for every annotation of every response, as one list.
 */
module GoogleVision {
  import opened Wrappers
  import opened Coords
  import Locator

  /** A vertex; Vision leaves out a coordinate that is 0. */
  datatype Vertex = Vertex(x: Option<int>, y: Option<int>)

  /** A bounding polygon; `None` when it has no `vertices` key. */
  datatype Polygon = Polygon(vertices: Option<seq<Vertex>>)

  /** An annotation's two polygons; `None` when the polygon's key is absent. */
  datatype Annotation = Annotation(fdBoundingPoly: Option<Polygon>, boundingPoly: Option<Polygon>)

  /** One response; `None` when it has no `faceAnnotations` key. */
  datatype Response = Response(faceAnnotations: Option<seq<Annotation>>)

  /** The API's answer; `None` when it has no `responses` key. */
  datatype VisionData = VisionData(responses: Option<seq<Response>>)

  /** `Coord(vertice.get('x', 0), vertice.get('y', 0))`. */
  function VertexCoord(v: Vertex): Coord
  {
    Coord(v.x.GetOr(0), v.y.GetOr(0))
  }

  /** The coordinates of a polygon's vertices, in order. */
  function PolyCoords(vs: seq<Vertex>): (r: seq<Coord>)
    ensures |r| == |vs|
    ensures forall i :: 0 <= i < |vs| ==> r[i] == VertexCoord(vs[i])
  {
    if |vs| == 0 then [] else PolyCoords(vs[..|vs| - 1]) + [VertexCoord(vs[|vs| - 1])]
  }

  /** A polygon that is present and has its `vertices`. */
  predicate HasVertices(p: Option<Polygon>)
  {
    p.Some? && p.value.vertices.Some?
  }

  /** `annotation[name]['vertices']`: the first of the two keys that is missing is the error. */
  function PolygonVertices(p: Option<Polygon>, name: string): (r: Result<seq<Vertex>, Error>)
    ensures r.Ok? <==> HasVertices(p)
    ensures r.Ok? ==> r.value == p.value.vertices.value
    ensures r.Err? ==> r.error == (if p.None? then MissingKey(name) else MissingKey("vertices"))
  {
    match p
    case None => Err(MissingKey(name))
    case Some(Polygon(None)) => Err(MissingKey("vertices"))
    case Some(Polygon(Some(vs))) => Ok(vs)
  }

  /** One annotation: the `fdBoundingPoly` vertices, then the `boundingPoly` ones. */
  function AnnotationCoords(a: Annotation): (r: CoordsResult)
    ensures r.Ok? <==> HasVertices(a.fdBoundingPoly) && HasVertices(a.boundingPoly)
  {
    var fd := PolygonVertices(a.fdBoundingPoly, "fdBoundingPoly");
    if fd.Err? then Err(fd.error)
    else
      var bp := PolygonVertices(a.boundingPoly, "boundingPoly");
      if bp.Err? then Err(bp.error)
      else Ok(PolyCoords(fd.value) + PolyCoords(bp.value))
  }

  /** One response: its annotations in order; none when `faceAnnotations` is absent. */
  function ResponseCoords(r: Response): CoordsResult
  {
    Gather(r.faceAnnotations.GetOr([]), AnnotationCoords)
  }

  /** `get_coords`, drained into a list: the responses in order; none when `responses` is absent. */
  function VisionCoords(data: VisionData): CoordsResult
  {
    Gather(data.responses.GetOr([]), ResponseCoords)
  }

  /** The innermost loop of `get_coords`: one coordinate per vertex, appended in order. */
  method AppendVertices(coords: seq<Coord>, vs: seq<Vertex>) returns (out: seq<Coord>)
    ensures out == coords + PolyCoords(vs)
  {
    out := coords;
    var k := 0;
    while k < |vs|
      invariant 0 <= k <= |vs|
      invariant out == coords + PolyCoords(vs[..k])
    {
      assert vs[..k + 1][..k] == vs[..k];
      out := out + [VertexCoord(vs[k])];
      k := k + 1;
    }
    assert vs[..|vs|] == vs;
  }

  /** One more annotation with both polygons appends its two vertex lists. */
  lemma AnnotationStep(annotations: seq<Annotation>, j: nat)
    requires j < |annotations| && Gather(annotations[..j], AnnotationCoords).Ok?
    requires HasVertices(annotations[j].fdBoundingPoly) && HasVertices(annotations[j].boundingPoly)
    ensures Gather(annotations[..j + 1], AnnotationCoords)
         == Ok(Gather(annotations[..j], AnnotationCoords).value
               + PolyCoords(annotations[j].fdBoundingPoly.value.vertices.value)
               + PolyCoords(annotations[j].boundingPoly.value.vertices.value))
  {
    var a, done := annotations[j], annotations[..j];
    assert annotations[..j + 1] == done + [a];
    GatherSnoc(done, a, AnnotationCoords);
    var fd, bp := a.fdBoundingPoly.value.vertices.value, a.boundingPoly.value.vertices.value;
    assert AnnotationCoords(a) == Ok(PolyCoords(fd) + PolyCoords(bp));
    var d := Gather(done, AnnotationCoords).value;
    assert d + (PolyCoords(fd) + PolyCoords(bp)) == d + PolyCoords(fd) + PolyCoords(bp);
  }

  /** Regrouping the two appends of one annotation (kept apart to keep the loop's proof small). */
  lemma AppendTwice(coords: seq<Coord>, done: seq<Coord>, p: seq<Coord>, q: seq<Coord>)
    ensures coords + done + p + q == coords + (done + p + q)
  {
  }

  /** The loop of `get_coords` over one response's annotations, appending to `coords`. */
  method AppendAnnotations(coords: seq<Coord>, annotations: seq<Annotation>) returns (r: CoordsResult)
    ensures r == Then(Ok(coords), Gather(annotations, AnnotationCoords))
  {
    var out := coords;
    ghost var done: seq<Coord> := [];
    assert annotations[..0] == [];
    var j := 0;
    while j < |annotations|
      invariant 0 <= j <= |annotations|
      invariant Gather(annotations[..j], AnnotationCoords) == Ok(done)
      invariant out == coords + done
    {
      var a := annotations[j];
      if !HasVertices(a.fdBoundingPoly) || !HasVertices(a.boundingPoly) {
        GatherStop(annotations, j, AnnotationCoords);
        return AnnotationCoords(a);
      }
      var fd, bp := a.fdBoundingPoly.value.vertices.value, a.boundingPoly.value.vertices.value;
      AnnotationStep(annotations, j);
      out := AppendVertices(out, fd);
      out := AppendVertices(out, bp);
      AppendTwice(coords, done, PolyCoords(fd), PolyCoords(bp));
      done := done + PolyCoords(fd) + PolyCoords(bp);
      j := j + 1;
    }
    assert annotations[..|annotations|] == annotations;
    r := Ok(out);
  }

  /** `get_coords`: the responses in order, each response's annotations appended in turn. */
  method GetCoords(data: VisionData) returns (r: CoordsResult)
    ensures r == VisionCoords(data)
  {
    var responses := data.responses.GetOr([]);
    var coords: seq<Coord> := [];
    var i := 0;
    while i < |responses|
      invariant 0 <= i <= |responses|
      invariant Gather(responses[..i], ResponseCoords) == Ok(coords)
    {
      GatherSnoc(responses[..i], responses[i], ResponseCoords);
      assert responses[..i + 1] == responses[..i] + [responses[i]];
      var next := AppendAnnotations(coords, responses[i].faceAnnotations.GetOr([]));
      if next.Err? {
        GatherErrPrefix(responses, i + 1, ResponseCoords);
        return next;
      }
      coords := next.value;
      i := i + 1;
    }
    assert responses[..|responses|] == responses;
    r := Ok(coords);
  }

  /** The factory's `__call__`: a fresh result holding the locator, the response and its coordinates. */
  method CreateResult(uri: string, data: VisionData) returns (r: Result<DetectionResult<VisionData>, Error>)
    ensures r.Err? <==> VisionCoords(data).Err?
    ensures r.Err? ==> r.error == VisionCoords(data).error
    ensures r.Ok? ==> fresh(r.value) && r.value.uri == uri && r.value.data == data
                      && r.value.coords == VisionCoords(data).value
  {
    var coords := GetCoords(data);
    if coords.Err? {
      return Err(coords.error);
    }
    var result := new DetectionResult(uri, data, coords.value);
    return Ok(result);
  }

  // ---- what the normalisation promises ----

  function PolyLength(p: Option<Polygon>): nat
  {
    if HasVertices(p) then |p.value.vertices.value| else 0
  }

  function AnnotationVertexCount(a: Annotation): nat
  {
    PolyLength(a.fdBoundingPoly) + PolyLength(a.boundingPoly)
  }

  function ResponseVertexCount(r: Response): nat
  {
    SumOf(r.faceAnnotations.GetOr([]), AnnotationVertexCount)
  }

  /** The number of vertices of both polygons of every annotation of every response. */
  function VertexCount(data: VisionData): nat
  {
    SumOf(data.responses.GetOr([]), ResponseVertexCount)
  }

  /** One coordinate per vertex: a successful result is as long as the vertex count. */
  lemma VisionCoordsLength(data: VisionData)
    ensures VisionCoords(data).Ok? ==> |VisionCoords(data).value| == VertexCount(data)
  {
    forall r: Response
      ensures ResponseCoords(r).Ok? ==> |ResponseCoords(r).value| == ResponseVertexCount(r)
    {
      GatherLength(r.faceAnnotations.GetOr([]), AnnotationCoords, AnnotationVertexCount);
    }
    GatherLength(data.responses.GetOr([]), ResponseCoords, ResponseVertexCount);
  }

  /** An annotation lacking a polygon or its `vertices` makes the whole call fail; otherwise it succeeds. */
  lemma VisionCoordsOk(data: VisionData)
    ensures VisionCoords(data).Ok? <==>
      forall i :: 0 <= i < |data.responses.GetOr([])| ==>
        var anns := data.responses.GetOr([])[i].faceAnnotations.GetOr([]);
        forall j :: 0 <= j < |anns| ==> HasVertices(anns[j].fdBoundingPoly) && HasVertices(anns[j].boundingPoly)
  {
    var rs := data.responses.GetOr([]);
    GatherOk(rs, ResponseCoords);
    forall i | 0 <= i < |rs|
      ensures ResponseCoords(rs[i]).Ok? <==>
        var anns := rs[i].faceAnnotations.GetOr([]);
        forall j :: 0 <= j < |anns| ==> HasVertices(anns[j].fdBoundingPoly) && HasVertices(anns[j].boundingPoly)
    {
      GatherOk(rs[i].faceAnnotations.GetOr([]), AnnotationCoords);
    }
  }

  /** Without `responses`, or with responses lacking `faceAnnotations`, there are no coordinates. */
  lemma NoAnnotationsNoCoords(data: VisionData)
    requires forall i :: 0 <= i < |data.responses.GetOr([])| ==>
               data.responses.GetOr([])[i].faceAnnotations.GetOr([]) == []
    ensures VisionCoords(data) == Ok([])
  {
    var rs := data.responses.GetOr([]);
    NoAnnotationsPrefix(rs, |rs|);
    assert rs[..|rs|] == rs;
  }

  lemma {:induction false} NoAnnotationsPrefix(rs: seq<Response>, n: nat)
    requires n <= |rs|
    requires forall i :: 0 <= i < |rs| ==> rs[i].faceAnnotations.GetOr([]) == []
    ensures Gather(rs[..n], ResponseCoords) == Ok([])
  {
    if n > 0 {
      NoAnnotationsPrefix(rs, n - 1);
      assert rs[..n][..n - 1] == rs[..n - 1];
      assert ResponseCoords(rs[n - 1]) == Ok([]);
      var none: seq<Coord> := [];
      assert none + none == none;
    }
  }

  /** Responses are normalised one after the other: a longer answer extends the coordinates in order. */
  lemma VisionCoordsAppend(rs1: seq<Response>, rs2: seq<Response>)
    ensures VisionCoords(VisionData(Some(rs1 + rs2)))
         == Then(VisionCoords(VisionData(Some(rs1))), VisionCoords(VisionData(Some(rs2))))
  {
    GatherAppend(rs1, rs2, ResponseCoords);
  }

  /** One face: the `fdBoundingPoly` coordinates come first, then the `boundingPoly` ones. */
  lemma SingleAnnotation(fd: seq<Vertex>, bp: seq<Vertex>)
    ensures VisionCoords(VisionData(Some([Response(Some([Annotation(Some(Polygon(Some(fd))), Some(Polygon(Some(bp))))]))])))
         == Ok(PolyCoords(fd) + PolyCoords(bp))
  {
    var a := Annotation(Some(Polygon(Some(fd))), Some(Polygon(Some(bp))));
    var r := Response(Some([a]));
    assert [a][..0] == [];
    assert [r][..0] == [];
    var p := PolyCoords(fd) + PolyCoords(bp);
    assert [] + p == p;
    assert Gather([a], AnnotationCoords) == Ok(p);
    assert ResponseCoords(r) == Ok(p);
    assert Gather([r], ResponseCoords) == Then(Gather([r][..0], ResponseCoords), ResponseCoords(r));
    assert Gather([r], ResponseCoords) == Ok(p);
    assert VisionCoords(VisionData(Some([r]))) == Gather([r], ResponseCoords);
  }

  /** Two one-vertex polygons give their two points, in order. */
  lemma TwoVertexExample()
    ensures VisionCoords(VisionData(Some([Response(Some([
              Annotation(Some(Polygon(Some([Vertex(Some(1), Some(2))]))),
                         Some(Polygon(Some([Vertex(Some(3), Some(4))]))))]))])))
         == Ok([Coord(1, 2), Coord(3, 4)])
  {
    SingleAnnotation([Vertex(Some(1), Some(2))], [Vertex(Some(3), Some(4))]);
    var p1, p2 := PolyCoords([Vertex(Some(1), Some(2))]), PolyCoords([Vertex(Some(3), Some(4))]);
    assert |p1| == 1 && p1[0] == Coord(1, 2);
    assert |p2| == 1 && p2[0] == Coord(3, 4);
    assert p1 + p2 == [Coord(1, 2), Coord(3, 4)];
  }

  /** A missing `x` or `y` reads as 0. */
  lemma MissingCoordinateExample()
    ensures VisionCoords(VisionData(Some([Response(Some([
              Annotation(Some(Polygon(Some([Vertex(None, Some(7))]))),
                         Some(Polygon(Some([Vertex(Some(5), None)]))))]))])))
         == Ok([Coord(0, 7), Coord(5, 0)])
  {
    SingleAnnotation([Vertex(None, Some(7))], [Vertex(Some(5), None)]);
    var p1, p2 := PolyCoords([Vertex(None, Some(7))]), PolyCoords([Vertex(Some(5), None)]);
    assert |p1| == 1 && p1[0] == Coord(0, 7);
    assert |p2| == 1 && p2[0] == Coord(5, 0);
    assert p1 + p2 == [Coord(0, 7), Coord(5, 0)];
  }

  /** A polygon without its `vertices` key fails with that key, whatever the other polygon holds. */
  lemma MissingVerticesExample(bp: seq<Vertex>)
    ensures VisionCoords(VisionData(Some([Response(Some([
              Annotation(Some(Polygon(None)), Some(Polygon(Some(bp))))]))])))
         == Err(MissingKey("vertices"))
  {
    var a := Annotation(Some(Polygon(None)), Some(Polygon(Some(bp))));
    var r := Response(Some([a]));
    assert [a][..0] == [];
    assert [r][..0] == [];
    var e: CoordsResult := Err(MissingKey("vertices"));
    assert AnnotationCoords(a) == e;
    assert Gather([a], AnnotationCoords) == Then(Gather([a][..0], AnnotationCoords), e);
    assert ResponseCoords(r) == e;
    assert Gather([r], ResponseCoords) == Then(Gather([r][..0], ResponseCoords), e);
  }

  /** The image a Vision request names: a local file's content, or a Cloud Storage locator. */
  datatype ImageRef =
    | Content(path: string)        // `get_encoded_image(path)` (reading and base64 are not modelled)
    | GcsSource(gcsImageUri: string)

  /** One entry of `requests`: the image and its single feature. */
  datatype VisionRequest = VisionRequest(image: ImageRef, featureType: string, maxResults: nat)

  /**
   * `build_payload`: the file's content when the locator is local, otherwise
   * the locator as `gcsImageUri`; both ask for `FACE_DETECTION` with at most
   * 4 results.
   */
  function BuildPayload(urlOrPath: string, isLocalFile: bool): (p: VisionRequest)
    ensures p.image.Content? <==> isLocalFile
    ensures p.image.Content? ==> p.image.path == urlOrPath
    ensures p.image.GcsSource? ==> p.image.gcsImageUri == urlOrPath
    ensures p.featureType == "FACE_DETECTION" && p.maxResults == 4
  {
    var image := if isLocalFile then Content(urlOrPath) else GcsSource(urlOrPath);
    VisionRequest(image, "FACE_DETECTION", 4)
  }

  /** `build_payload_for_url` logs an error for a locator that is not a Cloud Storage one. */
  predicate LogsNonGcsError(urlOrPath: string, isLocalFile: bool)
  {
    !isLocalFile && !Locator.IsGcsImageUri(urlOrPath)
  }

  /** `__call__` sends a `gs:` locator as `gcsImageUri`, with nothing logged. */
  lemma GcsLocatorPayload(rest: string)
    ensures BuildPayload("gs:" + rest, Locator.IsLocalFile("gs:" + rest)).image == GcsSource("gs:" + rest)
    ensures !LogsNonGcsError("gs:" + rest, Locator.IsLocalFile("gs:" + rest))
  {
    Locator.GcsLocator(rest);
  }

  /** An `https:` locator is still sent as `gcsImageUri`; only the error is logged. */
  lemma HttpsLocatorPayload(rest: string)
    ensures BuildPayload("https:" + rest, Locator.IsLocalFile("https:" + rest)).image == GcsSource("https:" + rest)
    ensures LogsNonGcsError("https:" + rest, Locator.IsLocalFile("https:" + rest))
  {
    Locator.HttpsLocator(rest);
  }

  /** A plain file name is sent as its content. */
  lemma LocalPathPayload()
    ensures BuildPayload("foo.jpg", Locator.IsLocalFile("foo.jpg")).image == Content("foo.jpg")
  {
    Locator.PlainPathIsLocal();
  }
}
