# facedetection — a verified model of its geometry and URL pipeline

`facedetection.py` finds faces in an image through an external recognition
service and returns an Akamai Image Converter URL that crops the image around
them. This project models the deterministic core of that pipeline in Dafny:

- **Locator classification.** `is_localfile` and `is_gcs_image_uri` look at
  `urlparse(uri).scheme`, with the scheme rule of current CPython
  (`Locator`).
- **Response normalisers.** Each provider's answer becomes a list of `Coord`:
  - Google Vision flattens face polygons (`GoogleVision`);
  - Microsoft Face expands each face rectangle into four corners (`MsProjectoxford`);
  - "All" gives the four corners of the whole image (`AllDetection`).

  Each factory stores the locator, the raw response and the coordinates in a
  fresh result object (`Coords.DetectionResult`).
- **Akamai cropping.** `AkamaiCrop`:
  - `create_rect` reduces the coordinates to the bounding rectangle;
  - `build_uri` writes it as a `crop=` argument and a `resize=` argument on
    the image URL, optionally followed by `|` and a background URL that
    carries its own `resize=`.
- **Requests.** The Google provider's request body (`GoogleVision.BuildPayload`)
  and the Microsoft provider's request headers and body
  (`MsProjectoxford.MsDetection`).

Supporting modules:

- `Wrappers`: `Option` and `Result`.
- `Strings`: splitting and joining on a delimiter.
- `Numerals`: decimal text of integers, with its parser.
- `Query`: a URL query as an ordered list of key/value pairs, which is how
  furl's `args` behaves.
- `Urls`: a furl object, with its fields and in-place argument assignment.

Two points follow the code rather than its documentation:

- **Crop height.** The height written into `crop` is `end.y - end.x`
  (facedetection.py:151-152). The docstring results at facedetection.py:107 and
  facedetection.py:148 do not match that formula (they show `end.x:end.y`),
  and they also omit the `resize` argument the code always adds. The model
  follows the code: `CropValueExample` and `CallCropValueExample` prove what
  the code writes for those two docstring inputs, and that it is not what the
  docstrings show.
- **`composite-to`.** `build_uri` assigns `composite-to` only after it has
  taken the foreground URL's text (facedetection.py:154-157). The assignment
  never reaches the result, and `CompositeToNotWritten` proves that.

Errors the source raises become `Result` values:

- `min()` of an empty list is `EmptyCoords`.
- A missing dictionary key is `MissingKey`: `fdBoundingPoly`, `boundingPoly`
  and `vertices` for Google; `faceRectangle`, `left`, `top`, `height` and
  `width` for Microsoft, in the order the code reads them.

A generator stops at its first exception. `Coords.Gather` therefore keeps the
first failure and drops everything after it.

## Model

| member | source | states |
|---|---|---|
| Coords.Coord.Equals | facedetection.py:59-60 | two coordinates are equal exactly when both their x and y agree |
| Coords.DetectionResult.constructor | facedetection.py:243-248 | a result object holds the given locator, response and coordinates |
| Coords.GatherOk | facedetection.py:247 | draining the generator succeeds exactly when no item raises |
| Coords.GatherAppend | facedetection.py:247 | draining two item lists in a row equals draining their concatenation, and the first failure wins |
| Coords.GatherErrPrefix | facedetection.py:247 | once a prefix of the items raises, the whole drain raises the same error |
| Coords.GatherStop | facedetection.py:247 | the first item that raises, after items that do not, decides the whole drain |
| Coords.GatherLength | facedetection.py:247 | a successful drain yields the sum of the per-item coordinate counts |
| Locator.IsGcsImageUri | facedetection.py:32-35 | a locator with scheme `gs` is never a local file |
| Locator.Scheme | facedetection.py:28 | empty exactly when there is no ':' or the text before the first ':' is not a valid scheme; otherwise a valid scheme with no capitals, which is that text lower-cased |
| Locator.IsLocalFile | facedetection.py:27-29 | a locator is local exactly when it has no ':' or the text before its first ':' is not a valid scheme |
| Locator.SchemeOf | facedetection.py:27-35 | `p:rest`, where `p` is a valid scheme, has scheme `p` in lower case, whatever `rest` is |
| Locator.GcsLocator | facedetection.py:32-35 | `gs:...` is a Cloud Storage locator and not local |
| Locator.UpperCaseGcsLocator | facedetection.py:32-35 | `GS:...` is a Cloud Storage locator too, because the scheme is lower-cased |
| Locator.HttpsLocator | facedetection.py:27-35 | `https:...` is neither local nor Cloud Storage |
| Locator.PlainPathIsLocal | facedetection.py:27-29 | a file name without ':' is local |
| Locator.DrivePathNotLocal | facedetection.py:27-29 | `C:...` has scheme `c`, so it is not local |
| AkamaiCrop.MinOf | facedetection.py:134 | `min` is a lower bound of the list and is attained |
| AkamaiCrop.MaxOf | facedetection.py:135 | `max` is an upper bound of the list and is attained |
| AkamaiCrop.CreateRect | facedetection.py:115-136 | fails exactly on an empty list; otherwise every coordinate lies between start and end on both axes, and each of the four bounds is attained by some coordinate |
| AkamaiCrop.CreateRectExactly | facedetection.py:132-136 | corners that bound every coordinate and are each attained are exactly the rectangle `create_rect` returns |
| AkamaiCrop.CreateRectExample | facedetection.py:120-130 | the docstring's three coordinates give start (20, 21) and end (29, 30) |
| AkamaiCrop.CropTextMeaning | facedetection.py:151-152 | the `{}:{};{},{}` crop text reads back as exactly the four integers it was written from |
| Numerals.IntToStringRoundTrip | facedetection.py:151-152 | an integer's decimal text (with '-' when negative) parses back to that integer |
| AkamaiCrop.CropValueMeaning | facedetection.py:151-152 | the crop value reads back as width `end.x - start.x`, height `end.y - end.x`, then `start.x` and `start.y` |
| AkamaiCrop.ResizeValue | facedetection.py:153 | `width:height` cut at its first ':' gives back the width (when it has no ':') and the height |
| AkamaiCrop.AkamaiUri | facedetection.py:138-163 | the result starts with the foreground URL's text, and is exactly that text when there is no background |
| AkamaiCrop.CropValueExample | facedetection.py:142-152 | for start (10, 20) and end (30, 40) the code writes `20:10;10,20`, not the docstring's `30:40;10,20` |
| AkamaiCrop.BuildUri | facedetection.py:138-163 | the method, which assigns on furl objects in place, returns exactly the `AkamaiUri` text: the foreground, then `|` and the background when `bg_url` is non-empty |
| AkamaiCrop.NoBackgroundResult | facedetection.py:150-154 | without a background, the result read back has the source URL's stem and fragment, `crop` equal to the crop value, and `resize` equal to `width:height`; every other argument keeps its value, and the remaining pairs are unchanged and in order |
| AkamaiCrop.AssignCropResize | facedetection.py:151-153 | assigning `crop` then `resize` sets both, and no other argument changes |
| AkamaiCrop.ForegroundRoundTrip | facedetection.py:150-154 | the foreground URL text parses back to the parts it was written from |
| AkamaiCrop.ForegroundOtherArg | facedetection.py:150-154 | without a background, any argument other than `crop` and `resize` keeps the source URL's value |
| AkamaiCrop.PlainSourceUrl | facedetection.py:150-154 | a source URL with no query and no fragment gets exactly `?crop=...&resize=...` appended |
| AkamaiCrop.BackgroundResult | facedetection.py:156-163 | with a background, the result is the no-background result, then `|`, then `bg_url` with `resize = bg_width:bg_height` and its other parts unchanged |
| AkamaiCrop.CompositeToNotWritten | facedetection.py:154-157 | the result is the same whatever `composite_to` is |
| AkamaiCrop.ForegroundKeepsCompositeTo | facedetection.py:154-157 | with or without a background, the foreground text carries the source URL's `composite-to` value, never the option, which is assigned only after that text was taken |
| AkamaiCrop.DefaultOptionsUrl | facedetection.py:138-154 | with the default options, a source URL without query or fragment gets `?crop=<crop>&resize=*:*` appended |
| AkamaiCrop.BuildUriExample | facedetection.py:142-148 | the docstring call yields `https://example.com/test.jpg?crop=20:10;10,20&resize=*:*` |
| AkamaiCrop.CallCropValueExample | facedetection.py:98-107 | the `__call__` docstring rectangle gives crop `9:1;20,21`, not `29:30;20,21` |
| AkamaiCrop.CallExample | facedetection.py:98-113 | the `__call__` docstring input yields `https://example.com/example.jpg?crop=9:1;20,21&resize=*:*` |
| AkamaiCrop.Crop | facedetection.py:95-113 | `__call__` fails exactly when the result has no coordinates, with the empty-`min` error; otherwise it returns `build_uri` applied to `create_rect`'s corners |
| Query.Assign | facedetection.py:151-153 | after `args[k] = v`, `k` reads as `v` and every entry under `k` holds `v`; other keys read as before, and the pairs without `k` are unchanged |
| Query.AssignAbsent | facedetection.py:151-153 | assigning an absent key appends one pair at the end |
| Query.AssignPresentKeepsPosition | facedetection.py:151-153 | assigning a key that occurs once replaces that pair where it stands |
| Query.AssignTwice | facedetection.py:151-153 | a second assignment to the same key fully overrides the first |
| Query.ParseJoin | facedetection.py:154 | well-formed query pairs written as `k=v&...` parse back to the same pairs |
| Query.AssignWellFormed | facedetection.py:151-153 | assigning a well-formed pair keeps the query well formed |
| Urls.ParseSerialize | facedetection.py:150-154 | well-formed URL parts, written out and parsed again, are the same parts |
| Urls.ParseUrlStable | facedetection.py:150-154 | re-parsing furl's own output of any text gives the same parts |
| Urls.ParseUrlWellFormed | facedetection.py:150 | any text parses into well-formed parts |
| Urls.Furl.constructor | facedetection.py:150 | a new furl object holds the parse of its text |
| Urls.Furl.ToUrl | facedetection.py:154 | the text of well-formed parts parses back to those parts |
| Urls.Furl.SetArg | facedetection.py:151-153 | `args[k] = v` changes only the arguments, as `Assign` does |
| GoogleVision.PolygonVertices | facedetection.py:255 | the vertices when the polygon and its `vertices` key are present; otherwise the polygon's name, or `vertices`, as the missing key |
| GoogleVision.AnnotationCoords | facedetection.py:254-256 | one annotation succeeds exactly when both its polygons have their vertices |
| GoogleVision.PolyCoords | facedetection.py:255-256 | one coordinate per vertex, in order, with a missing `x` or `y` read as 0 |
| GoogleVision.AppendVertices | facedetection.py:255-256 | the innermost loop appends exactly the polygon's coordinates |
| GoogleVision.AppendAnnotations | facedetection.py:253-256 | the annotation loop appends each annotation's `fdBoundingPoly` then `boundingPoly` coordinates, or stops with the first missing key |
| GoogleVision.GetCoords | facedetection.py:250-256 | the nested loops produce exactly `VisionCoords`, the specification of `get_coords` |
| GoogleVision.CreateResult | facedetection.py:243-248 | the factory fails exactly when `get_coords` raises; otherwise it returns a fresh result with the locator, the response and the coordinates |
| GoogleVision.VisionCoordsLength | facedetection.py:250-256 | a successful result has as many coordinates as the response has vertices |
| GoogleVision.VisionCoordsOk | facedetection.py:254-255 | the call fails exactly when some annotation lacks one of its two polygons, or one of them lacks its `vertices` key |
| GoogleVision.NoAnnotationsNoCoords | facedetection.py:252-253 | a missing `responses`, or responses without `faceAnnotations`, give no coordinates |
| GoogleVision.VisionCoordsAppend | facedetection.py:252 | responses are normalised in order: more responses extend the list |
| GoogleVision.SingleAnnotation | facedetection.py:254-256 | one face gives its `fdBoundingPoly` points, then its `boundingPoly` points |
| GoogleVision.TwoVertexExample | facedetection.py:254-256 | two one-vertex polygons give their two points in order |
| GoogleVision.MissingCoordinateExample | facedetection.py:256 | missing `x` or `y` read as 0 |
| GoogleVision.MissingVerticesExample | facedetection.py:255 | a polygon without `vertices` fails with `MissingKey("vertices")` |
| GoogleVision.BuildPayload | facedetection.py:202-238 | the file's content iff the locator is local, otherwise the locator as `gcsImageUri`; always `FACE_DETECTION` with at most 4 results |
| GoogleVision.GcsLocatorPayload | facedetection.py:190-238 | a `gs:` locator is sent as `gcsImageUri` and no error is logged |
| GoogleVision.HttpsLocatorPayload | facedetection.py:190-238 | an `https:` locator is still sent as `gcsImageUri`, and the error is logged |
| GoogleVision.LocalPathPayload | facedetection.py:190-238 | a plain file name is sent as its content |
| MsProjectoxford.FaceBox | facedetection.py:358-363 | succeeds exactly when `faceRectangle` and its four fields are present, with their values; a missing `faceRectangle` is reported as such, and `width`, read last, is reported exactly when it is the only field missing |
| MsProjectoxford.GetCoords | facedetection.py:356-363 | the loop produces exactly `MsCoords`, the specification of `get_coords` |
| MsProjectoxford.CreateResult | facedetection.py:349-354 | the factory fails exactly when `get_coords` raises; otherwise it returns a fresh result with the locator, the response and the coordinates |
| MsProjectoxford.MsCoordsLayout | facedetection.py:356-363 | succeeds exactly when every face has a rectangle with its four fields; then there are 4·n coordinates, and block i is face i's corners `(l,t)`, `(l,t+h)`, `(l+w,t+h)`, `(l+w,t)` |
| MsProjectoxford.OneRectangleExample | facedetection.py:358-363 | `{left 5, top 6, width 10, height 20}` gives (5,6), (5,26), (15,26), (15,6) |
| MsProjectoxford.MissingHeightExample | facedetection.py:358-363 | a second face without `height` and `width` fails with `MissingKey("height")`, the first key read that is absent |
| MsProjectoxford.OneFaceRect | facedetection.py:358-363 | for a rectangle of non-negative size, `create_rect` of its corners is the rectangle itself |
| MsProjectoxford.MsDetection.BuildHeaders | facedetection.py:298-320 | exactly two headers; `Content-Type` is `application/octet-stream` iff the locator is local, else `application/json`; the subscription key is the API token |
| MsProjectoxford.MsDetection.BuildPayload | facedetection.py:322-344 | the file-bytes branch iff the locator is local, for the given path; otherwise a JSON body |
| MsProjectoxford.UrlPayloadNamesUrl | facedetection.py:337-344 | the URL payload is a JSON body that reads back as the URL |
| MsProjectoxford.UrlJsonRoundTrip | facedetection.py:337-344 | `{"url": "<url>"}` reads back as the URL |
| MsProjectoxford.GcsLocatorRequest | facedetection.py:281-284 | a `gs` locator is sent as JSON with the JSON content type |
| AllDetection.AllCoords | facedetection.py:414-423 | four corners: (0,0) first and (w,h) last, with every x in {0,w} and every y in {0,h} |
| AllDetection.CreateResult | facedetection.py:406-423 | a fresh result storing the locator and size unchanged, with coordinates `[(0,0),(0,h),(w,0),(w,h)]` |
| AllDetection.WholeImageRect | facedetection.py:414-423 | `create_rect` on those corners gives start (0,0) and end (w,h) |
| AllDetection.ExampleSize | facedetection.py:414-423 | a 40×50 image gives the four corners and the rectangle (0,0)–(40,50) |

## Left out

- The network and the provider clients are not modelled. This covers the HTTP calls (`requests.post`, `requests.get`), the Google API client and its `request` (which calls a misspelt `exexute`), and the credential loading. Each detection class's `__call__` needs the provider's answer, so the model takes that answer as a parameter of the result factories.
- `MSProjectoxfordDetection.request`, with its error on a non-200 status, is left out, because it depends only on the HTTP reply.
- File reading, base64 encoding (`get_encoded_image`) and PIL's image-size decoding are I/O. The local-file payload is `FileBytes(path)`, and the image size is an input.
- The Google request's nested dictionary is reduced to `GoogleVision.VisionRequest`, and the file content is the path. The log message itself is left out; its condition is `GoogleVision.LogsNonGcsError`.
- furl's percent-encoding (for example `;` written as `%3B`) and its full URL grammar are not modelled. A URL is a stem, an ordered list of query pairs split on '&' and the first '=', and a fragment after the first '#'. Values are kept as plain text.
- `urlparse`'s clean-up of its input is left out. It strips leading control characters and spaces, and it deletes tab, CR and LF anywhere in the text, so `g\ns:x` has the scheme `gs` in Python but none in the model. Its handling of schemes of other kinds is left out too; the scheme rule is the one stated in `Locator`.
- The scheme rule is that of current CPython. Older releases differ, and neither difference is modelled. Before 3.9, `urlparse` gave no scheme when only digits followed the ':' (so `localhost:8080` counted as local). Releases without the fix for gh-99418 (before 3.11.1, 3.10.9, 3.9.16 and 3.8.16) accepted a scheme that starts with a digit.
- `json.dumps` escaping (of '"', '\\', control characters and, by default, every non-ASCII character) is left out. The body is the `{"url": "..."}` shape only.
- Response values of the wrong JSON type (a string where a list is expected) are not modelled. Only missing keys are.
- The zope component registry, `argparse`, `main` (which ignores `--crop`), logging and the process exit status are plumbing and are left out.
- AkamaiCrop.NoBackgroundResult: requires `width` and `height` without '&' or '#'. Unencoded, those characters would change how the written URL reads back; furl would percent-encode them.
- AkamaiCrop.ForegroundRoundTrip: same restriction on `width` and `height`, for the same reason.
- AkamaiCrop.ForegroundOtherArg: same restriction on `width` and `height`, for the same reason.
- AkamaiCrop.ForegroundKeepsCompositeTo: same restriction on `width` and `height`, for the same reason.
- AkamaiCrop.BackgroundResult: requires `bg_width` and `bg_height` without '&' or '#', for the same reason.
- AkamaiCrop.PlainSourceUrl: stated only for a source URL without '?' and '#', and without a background.
- Urls.ParseSerialize: holds for well-formed parts only. A stem without '?' and '#', and keys and values without the delimiters, are what furl's encoding would guarantee.
- Query.ParseJoin: holds for well-formed pairs only, for the same reason.
- Urls.Furl.ToUrl: the read-back is stated for well-formed parts only, for the same reason.
- AkamaiCrop.ResizeValue: the split is stated only for a width without ':'; Akamai's own reading of the value is not modelled.
- AkamaiCrop.DefaultOptionsUrl: stated only for a source URL without '?' and '#'.
- AkamaiCrop.CropValueMeaning: the integers are read back with this model's own parser; Akamai's reading of the value is not modelled.
- MsProjectoxford.FaceBox: its contract names the reported key only for a missing `faceRectangle` and for `width`; the full order (`left`, `top`, `height`, `width`) is in its definition and `MissingHeightExample`.
- MsProjectoxford.UrlPayloadNamesUrl: the JSON body is proved to read back only for URLs without '"' and '\\'. It equals `json.dumps`'s output only for printable-ASCII URLs without those two characters.
- MsProjectoxford.UrlJsonRoundTrip: same restriction as `UrlPayloadNamesUrl`.
- MsProjectoxford.OneFaceRect: requires a non-negative width and height. With a negative size, the rectangle's corners are not its minimum and maximum.
- Image sizes are natural numbers, as PIL reports them; a negative size is not modelled.
