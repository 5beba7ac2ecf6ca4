/**
 * The `AllDetection` provider: no recognition at all, the whole image is the
 * region.  Its result factory turns the image's size into the image's four
 * corners.
 */
module AllDetection {
  import opened Wrappers
  import opened Coords
  import AkamaiCrop

  /** The `(width, height)` pair PIL reports for the image (reading it is not modelled). */
  datatype ImageSize = ImageSize(width: nat, height: nat)

  /** The corners the factory lists: upper left, lower left, upper right, lower right. */
  function AllCoords(size: ImageSize): (r: seq<Coord>)
    ensures |r| == 4
    ensures forall i :: 0 <= i < 4 ==> r[i].x in {0, size.width} && r[i].y in {0, size.height}
    ensures r[0] == Coord(0, 0) && r[3] == Coord(size.width, size.height)
  {
    [Coord(0, 0), Coord(0, size.height), Coord(size.width, 0), Coord(size.width, size.height)]
  }

  /** `AllDetectionResultFactory.__call__`: a fresh result holding the locator, the size and the corners. */
  method CreateResult(uri: string, size: ImageSize) returns (r: DetectionResult<ImageSize>)
    ensures fresh(r)
    ensures r.uri == uri && r.data == size && r.coords == AllCoords(size)
  {
    r := new DetectionResult(uri, size, AllCoords(size));
  }

  /** Cropping the whole image's result gives back the whole image: `(0, 0)` to `(width, height)`. */
  lemma WholeImageRect(size: ImageSize)
    ensures AkamaiCrop.CreateRect(AllCoords(size))
         == Ok(AkamaiCrop.Rect(Coord(0, 0), Coord(size.width, size.height)))
  {
    var coords := AllCoords(size);
    assert coords[3].x == size.width && coords[3].y == size.height;
    AkamaiCrop.CreateRectExactly(coords, Coord(0, 0), Coord(size.width, size.height));
  }

  /** The factory's own example: a 40 by 50 image. */
  lemma ExampleSize()
    ensures AllCoords(ImageSize(40, 50)) == [Coord(0, 0), Coord(0, 50), Coord(40, 0), Coord(40, 50)]
    ensures AkamaiCrop.CreateRect(AllCoords(ImageSize(40, 50)))
         == Ok(AkamaiCrop.Rect(Coord(0, 0), Coord(40, 50)))
  {
    WholeImageRect(ImageSize(40, 50));
  }
}
