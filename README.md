# PDF editor core, modelled in Dafny

This project models the logic of a small desktop PDF editor. The editor loads a PDF and turns each
page into a page model carrying a list of overlay elements (images and text boxes). The user drags and
resizes these elements on a canvas that snaps them to the page and to each other, inserts new images,
edits geometry in a property panel, and exports the result back to PDF. The Qt widgets, PyMuPDF and
PIL calls around this logic are replaced by values: a draw plan for the export, a page list for the
import, and plain numbers for the canvas.

Modules, one concept each:

- `Wrappers` (wrappers.dfy): `Option` and `Result`.
- `Numeric` (numeric.dfy): Python's `max`, `min`, `abs` and `int()` truncation over `real`.
- `Document` (document.dfy): `Rect`, the `Element`, `PageModel` and `DocumentModel` classes, whose
  fields are updated in place, and their value snapshots `ElementData` and `PageData`.
- `Snapping` (snapping.dfy): the drag-snapping rule as pure functions, and its properties.
- `Canvas` (canvas.dfy): the `PageCanvas` class. It holds the snapping loop proved against
  `Snapping.ComputeSnap`, the guide and grid lines, and the write-back of item geometry into the model.
- `CanvasItems` (canvas_items.dfy): resize handles, the handle hit test, and image and text item
  resizing, which writes the new geometry back into the model through the canvas.
- `PdfIo` (pdf_io.dfy): colour parsing, the opacity map, the export draw plan and the import.
- `MainWindow` (main_window.dfy): image placement and insertion, and the property-panel edit.

The shipped `document.py` lacks fields that the other files use: `visible`, `locked`, `TextElement`,
and a page's `uid` and `source_index`. It also gives `PageModel` an `index` field that the importer
never sets. The model takes the union of the fields the code uses. An element's `Kind` is `Plain`
(the base class), `Image` or `Text`.

Three behaviours of the code a reader may not expect:

- Every sibling match overwrites the dragged position, including a page-centre snap. The first
  match does not win (`Snapping.LaterMatchesOverwrite`).
- A six-character colour does not fall back to black when it is malformed. It raises `ValueError`
  unless every pair is accepted by `int(..., 16)`; that call also accepts a sign or a space, as
  the finding below shows (`PdfIo.ColorToRgbAsWritten`, `PdfIo.SignedChannelAccepted`).
- A resize drag goes through `setPos`, so it snaps too. The whole item moves to the snapped corner,
  and the edge the user did not drag moves with it (`CanvasItems.LeftDragSnapShiftsRightEdge`). The
  item methods model this as written. `CanvasItems.AnchoredImageResize` is the corrected geometry;
  nothing else in the model uses it.

## Model

| member | source | states |
|---|---|---|
| Document.Rect.Right | src/pdf_editor/document.py:18-20 | the right edge minus the width is x |
| Document.Rect.Bottom | src/pdf_editor/document.py:22-24 | the bottom edge minus the height is y |
| Document.ClampDimension | src/pdf_editor/document.py:41-42 | `max(1.0, v)`: at least 1, and v itself when v ≥ 1 |
| Document.Element.constructor | src/pdf_editor/document.py:27-34 | a new element has rotation 0, opacity 1, is visible and unlocked |
| Document.Element.MoveTo | src/pdf_editor/document.py:36-38 | x and y set, width and height kept; no other field is in its frame |
| Document.Element.Resize | src/pdf_editor/document.py:40-42 | both sides stored as `max(1.0, requested)`, position kept, a request ≥ 1 stored exactly |
| Document.WithoutConcat | src/pdf_editor/document.py:66-67 | removal by id distributes over concatenation, so survivors keep their relative order |
| Document.WithoutMembers | src/pdf_editor/document.py:66-67 | exactly the elements with another id survive removal |
| Document.WithoutAbsent | src/pdf_editor/document.py:66-67 | removing an id no element carries changes nothing |
| Document.RemoveAfterAdd | src/pdf_editor/document.py:63-67 | removing a freshly appended element's unique id undoes the append |
| Document.PageModel.constructor | src/pdf_editor/document.py:53-61 | a new page has the given size, rotation, uid and source index, and no elements |
| Document.PageModel.AddElement | src/pdf_editor/document.py:63-64 | the element is appended on top; the earlier list is kept as a prefix |
| Document.PageModel.RemoveElement | src/pdf_editor/document.py:66-67 | the new list is the old one without that id; the id is gone; an absent id leaves the list unchanged |
| Document.PageModel.FindElement | src/pdf_editor/document.py:69-73 | null iff no element carries the id; otherwise the first element carrying it |
| Document.DocumentModel.constructor | src/pdf_editor/document.py:76-81 | a document holds the given source path and pages |
| Document.DocumentModel.PageCount | src/pdf_editor/document.py:86-88 | the page count is the length of the page list |
| Document.DocumentModel.GetPage | src/pdf_editor/document.py:83-84 | Python list indexing: success iff -count ≤ i < count; `pages[i]`, or `pages[count + i]` for negative i |
| Document.CreateImageElement | src/pdf_editor/document.py:91-107 | a fresh image element with the given id, rectangle exactly, path and bytes, rotation 0, opacity 1 |
| Numeric.Trunc | src/pdf_editor/widgets/canvas.py:69-70 | `int()` truncates toward zero: within 1 of r, never further from zero than r |
| Snapping.SiblingsPassX | src/pdf_editor/widgets/canvas.py:629-646 | the sibling pass on x is the one-axis target pass over the targets' x coordinates |
| Snapping.SiblingsPassY | src/pdf_editor/widgets/canvas.py:647-659 | the sibling pass on y is the one-axis target pass over the targets' y coordinates |
| Snapping.PageStepCoords | src/pdf_editor/widgets/canvas.py:609-627 | the page step emits the x page guide, if any, as "v" and the y page guide, if any, as "h" |
| Snapping.AxisIndependence | src/pdf_editor/widgets/canvas.py:609-659 | the snapped x and the "v" guides are the one-axis rule on x, width, page width and target x extents; likewise y with "h" |
| Snapping.SnappedXIgnoresVertical | src/pdf_editor/widgets/canvas.py:609-646 | the snapped x is the same for any y, height, page height and target y extents |
| Snapping.SnappedYIgnoresHorizontal | src/pdf_editor/widgets/canvas.py:619-659 | the snapped y is the same for any x, width, page width and target x extents |
| Snapping.NonTargetsIgnored | src/pdf_editor/widgets/canvas.py:629-633 | the dragged element and invisible elements never affect the result |
| Snapping.TargetsPassMoves | src/pdf_editor/widgets/canvas.py:640-646 | with no guide the position is unchanged; each guide moves it by less than the threshold 6 |
| Snapping.SnapAxisMoves | src/pdf_editor/widgets/canvas.py:601-659 | on one axis: no guide means the position is returned unchanged; k guides mean it moved by less than 6k |
| Snapping.TargetsPassAligned | src/pdf_editor/widgets/canvas.py:640-646 | after a match, the near or far edge lies exactly on the last guide |
| Snapping.SnapAxisAligned | src/pdf_editor/widgets/canvas.py:609-659 | whenever an axis shows a guide, the near edge, centre or far edge lies exactly on the last one |
| Snapping.PageRulePriority | src/pdf_editor/widgets/canvas.py:609-627 | at most one page guide per axis; centre before near edge before far edge; none fires means only siblings act |
| Snapping.CentreSnapExact | src/pdf_editor/widgets/canvas.py:604-621 | a centre snap with no later sibling match leaves the centre exactly on the page centre, on each axis |
| Snapping.LaterMatchesOverwrite | src/pdf_editor/widgets/canvas.py:629-659 | a concrete drag where later sibling matches overwrite a centre snap and chain 12 points away |
| Canvas.GuideLinesShape | src/pdf_editor/widgets/canvas.py:670-688 | one line per guide, in order: "v" at x spanning the page height, "h" at y spanning the width |
| Canvas.RangeMembers | src/pdf_editor/widgets/canvas.py:711 | `range(start, stop, 50)` holds exactly the values from start below stop a whole number of steps on |
| Canvas.RangeIncreasing | src/pdf_editor/widgets/canvas.py:711 | `range(start, stop, 50)` is strictly increasing from start |
| Canvas.RangeLength | src/pdf_editor/widgets/canvas.py:711 | `range(start, stop, 50)` has ⌈(stop - start) / 50⌉ values, none when start ≥ stop |
| Canvas.GridCoordinates | src/pdf_editor/widgets/canvas.py:708-718 | grid coordinates are the multiples of 50 strictly inside the page, increasing, (n - 1) / 50 of them |
| Canvas.VerticalLinesShape | src/pdf_editor/widgets/canvas.py:711-714 | one vertical line per x, in order, from 0 to the height |
| Canvas.HorizontalLinesShape | src/pdf_editor/widgets/canvas.py:715-718 | one horizontal line per y, in order, from 0 to the width |
| Canvas.SnapToTargets | src/pdf_editor/widgets/canvas.py:640-646 | the loop over one sibling's targets on one axis yields `Snapping.TargetsPass` |
| Canvas.SnapToPage | src/pdf_editor/widgets/canvas.py:609-617 | the page if/elif chain on one axis yields `Snapping.PageRule` |
| Canvas.PageCanvas.constructor | src/pdf_editor/widgets/canvas.py:468-473 | a new canvas has no page, no guide or grid lines, and the grid hidden |
| Canvas.PageCanvas.ComputeSnapGuides | src/pdf_editor/widgets/canvas.py:593-661 | the nested loops return exactly `Snapping.ComputeSnap` over the page's current elements |
| Canvas.PageCanvas.ClearGuides | src/pdf_editor/widgets/canvas.py:690-693 | no guide line remains |
| Canvas.PageCanvas.ShowGuides | src/pdf_editor/widgets/canvas.py:663-688 | the old guide lines are replaced by one line per guide across the page; none without a page |
| Canvas.PageCanvas.RequestSnapPosition | src/pdf_editor/widgets/canvas.py:578-591 | without a page: the input position and no guides; otherwise the snapped position with its guides drawn |
| Canvas.PageCanvas.UpdateGridLines | src/pdf_editor/widgets/canvas.py:699-718 | hidden grid or no page: no lines; otherwise vertical then horizontal lines every 50 points inside the truncated page size |
| Canvas.PageCanvas.SetGridVisible | src/pdf_editor/widgets/canvas.py:695-697 | the flag is set and the grid rebuilt to match |
| Canvas.PageCanvas.HandleGeometryChanged | src/pdf_editor/widgets/canvas.py:536-544 | the first element with the id gets (x, y, max(1,w), max(1,h)); every other element object, a later one with the same id included, keeps its rect; only rects change; unknown id or no page: nothing changes |
| CanvasItems.HandleMovesLeftByName | src/pdf_editor/widgets/canvas.py:177-180 | `"left" in handle` holds exactly for the three handles that drag the left edge |
| CanvasItems.HandleMovesRightByName | src/pdf_editor/widgets/canvas.py:181-184 | `"right" in handle` holds exactly for the three right-edge handles |
| CanvasItems.HandleMovesTopByName | src/pdf_editor/widgets/canvas.py:185-188 | `"top" in handle` holds exactly for the three top-edge handles |
| CanvasItems.HandleMovesBottomByName | src/pdf_editor/widgets/canvas.py:189-192 | `"bottom" in handle` holds exactly for the three bottom-edge handles |
| CanvasItems.HandleRects | src/pdf_editor/widgets/canvas.py:93-108 | eight handle squares, each 12 by 12, in table order |
| CanvasItems.HandlesInsideItem | src/pdf_editor/widgets/canvas.py:313-328 | on an item at least 12 wide and high, every handle square lies inside the item |
| CanvasItems.HitHandle | src/pdf_editor/widgets/canvas.py:110-114 | none iff no square contains the point; otherwise the first square, in table order, that contains it |
| CanvasItems.TopLeftCorner | src/pdf_editor/widgets/canvas.py:99-100 | the item's top-left corner always hits the top-left handle first |
| CanvasItems.BottomRightCorner | src/pdf_editor/widgets/canvas.py:99-104 | on an item larger than a handle, the bottom-right corner first hits the bottom-right square |
| CanvasItems.ShortItemCorner | src/pdf_editor/widgets/canvas.py:99-104 | on an item exactly 12 high, the bottom-right corner first hits the top-right square |
| CanvasItems.ImageSideFloor | src/pdf_editor/widgets/canvas.py:66-68 | clamping a side to 12 before `max(12, int(side))` changes nothing |
| CanvasItems.ImageAxis | src/pdf_editor/widgets/canvas.py:168-195 | one axis: an undragged near edge stays; a dragged one moves by the delta unless that leaves less than 12, then stops 12 short of the far edge, which stays within 1 pixel; the side is `max(12, int(extent ∓ delta))` |
| CanvasItems.ImageResize | src/pdf_editor/widgets/canvas.py:168-198 | the geometry before `setPos` snaps it: sizes ≥ 12 whole pixels; a dragged left/top edge moves by the delta or stops 12 short of the opposite edge; undragged left/top edges stay; each side is `max(12, int(·))` of the old side minus, plus or without the delta |
| CanvasItems.TextResize | src/pdf_editor/widgets/canvas.py:391-407 | the rectangle before `setPos` snaps it: a dragged edge moves by exactly the delta unless the side would drop below 20, and then the side is 20; the opposite edge stays exactly; undragged axes keep position and size |
| CanvasItems.Found | src/pdf_editor/widgets/canvas.py:536-541 | null iff there is no page or no element with the id; otherwise an element of the page carrying the id |
| CanvasItems.PixmapSide | src/pdf_editor/widgets/canvas.py:56-64 | for decoded bytes `max(12, int(side))`, at least 12 and within 1 pixel below a side of at least 12; for bytes that do not decode, 0 |
| CanvasItems.ImageItem.constructor | src/pdf_editor/widgets/canvas.py:35-57 | the item takes its element's id; its pixmap is `PixmapSide` of the element's sides: `max(12, int(side))`, so at least 12, when the bytes decode, and 0 x 0 when they do not; from the origin it is `SetPos` to the element's position for that pixmap size, with the snap, guides and write-back that implies, which store 1 x 1 for an undecodable image; no drag in progress |
| CanvasItems.ImageItem.SetPos | src/pdf_editor/widgets/canvas.py:211-234 | Qt's `setPos`: asked for its own position, nothing changes; otherwise the item goes where `_request_snap_position` sends it for the current pixmap size, the guides are redrawn, and if it moved, the first page element with its id takes its position and pixmap size; no other rect or field changes |
| CanvasItems.ImageItem.SetSize | src/pdf_editor/widgets/canvas.py:68-77 | the pixmap becomes `max(12, int(side))` on each side, a side of at least 12 truncated to within 1 pixel below it, or stays 0 x 0 when the bytes did not decode |
| CanvasItems.ImageItem.ApplyModelGeometry | src/pdf_editor/widgets/canvas.py:55-66 | the pixmap takes `PixmapSide` of the element's size first, then `SetPos` to the element's position snaps for that new size and may write it back, each side clamped to at least 1 |
| CanvasItems.ImageItem.SyncFromModel | src/pdf_editor/widgets/canvas.py:522-525 | `SetPos` with the old pixmap size, then `SetSize` from the element as it is afterwards; when a decoded item's move goes through on the element written back to, the pixmap keeps its old size |
| CanvasItems.ImageItem.StartResize | src/pdf_editor/widgets/canvas.py:131-145 | a press on a handle records it and the item's position and pixmap size as the initial rect, which is null exactly when the pixmap is 0 x 0 |
| CanvasItems.ImageItem.ResizeWithDelta | src/pdf_editor/widgets/canvas.py:168-198 | no-op without an active handle or with a missing or null (0 x 0) initial rect; otherwise the pixmap takes `PixmapSide` of `ImageResize`'s size (exactly that size when the bytes decode), the position is `ImageResize`'s corner as snapped for the old pixmap size, guides follow the snap, and the first page element with the item's id ends with that position and size clamped to at least 1; no other rect or field changes |
| CanvasItems.TextItem.constructor | src/pdf_editor/widgets/canvas.py:250-279 | the item takes its element's id and size unclamped; from the origin it is `SetPos` to the element's position, with the snap, guides and write-back that implies; no drag in progress |
| CanvasItems.TextItem.SetPos | src/pdf_editor/widgets/canvas.py:435-448 | Qt's `setPos` for the text item: as for the image, with the rectangle's size snapped for and written back clamped to at least 1 |
| CanvasItems.TextItem.ApplyModelGeometry | src/pdf_editor/widgets/canvas.py:281-286 | the rectangle takes the element's size raised to at least 20, then `SetPos` snaps for that size and may write it back |
| CanvasItems.TextItem.StartResize | src/pdf_editor/widgets/canvas.py:352-366 | a press on a handle records it and the item's position and size as the initial rect, which is null exactly when the size is 0 x 0 |
| CanvasItems.TextItem.ResizeWithDelta | src/pdf_editor/widgets/canvas.py:391-407 | no-op without an active handle or with a missing or null (0 x 0) initial rect; otherwise the size is `TextResize`'s, the position is its corner as snapped for the new size, guides follow the snap, and the first page element with the item's id ends with that position and size clamped to at least 1; no other rect or field changes |
| CanvasItems.LeftDragSnapShiftsRightEdge | src/pdf_editor/widgets/canvas.py:168-198 | a left-handle drag of -97 on a 100 by 100 image at (100, 100) keeps the right edge at 200 before the snap, but the snap to the page edge leaves it at 197 |
| CanvasItems.AnchoredImageResize | src/pdf_editor/widgets/canvas.py:168-198 | corrected resize: an undragged edge stays where `ImageResize` puts it; a dragged left or top edge takes the snapped coordinate and the opposite edge stays within 1 pixel |
| CanvasItems.AnchoredResizeKeepsRightEdge | src/pdf_editor/widgets/canvas.py:168-198 | on the same drag, the corrected resize leaves the item at (0, 100) with width 200, so the right edge stays at 200 |
| PdfIo.StripHashes | src/pdf_editor/pdf_io.py:118 | `lstrip("#")`: a suffix of the input, only '#' removed, and it does not start with '#' |
| PdfIo.HexByte | src/pdf_editor/pdf_io.py:121-123 | a pair of characters has a value iff both are hex digits, and that value is below 256 |
| PdfIo.ColorToRgb | src/pdf_editor/pdf_io.py:117-124 | not 6 characters after stripping: black; fails iff 6 characters not all hex; every channel in [0, 1] |
| PdfIo.Channels | src/pdf_editor/pdf_io.py:121-123 | six characters fail iff not all hex; otherwise every channel lies in [0, 1] |
| PdfIo.ColorRoundTrip | src/pdf_editor/pdf_io.py:117-124 | parsing `#rrggbb` made from three bytes gives those bytes over 255 |
| PdfIo.PyIntOnHexPair | src/pdf_editor/pdf_io.py:121-123 | on two hex digits, `int(pair, 16)` is their byte value |
| PdfIo.ChannelAgrees | src/pdf_editor/pdf_io.py:121-123 | on six hex digits, each pair read by `int(..., 16)` equals its byte value |
| PdfIo.WrittenChannelsOnHex | src/pdf_editor/pdf_io.py:121-123 | on six hex digits, the channels as written are the three byte values over 255 |
| PdfIo.CorrectedChannelsOnHex | src/pdf_editor/pdf_io.py:121-123 | on six hex digits, the corrected channels are the three byte values over 255 |
| PdfIo.ChannelsAgreeOnHex | src/pdf_editor/pdf_io.py:121-123 | on six hex digits, the parser as written and the corrected parser agree |
| PdfIo.CorrectedAgreesWhereDefined | src/pdf_editor/pdf_io.py:117-124 | wherever the corrected parser succeeds, the parser as written gives the same colour |
| PdfIo.PyIntNegativeDigit | src/pdf_editor/pdf_io.py:121 | `int("-f", 16)` is -15 |
| PdfIo.SignedChannelAccepted | src/pdf_editor/pdf_io.py:121-124 | "#-f0000" parses as written with a negative red channel; the corrected parser raises |
| PdfIo.AlphaMap | src/pdf_editor/pdf_io.py:110-112 | one output value per alpha value, each `int(p * opacity)` |
| PdfIo.ScaledAlpha | src/pdf_editor/pdf_io.py:111 | for opacity in [0, 1], `int(p * opacity)` lies in [0, p] and within 1 of p * opacity |
| PdfIo.AlphaMapBounds | src/pdf_editor/pdf_io.py:110-112 | for opacity in [0, 1], every mapped alpha lies in [0, p] and within 1 of p * opacity |
| PdfIo.PrepareImageStream | src/pdf_editor/pdf_io.py:101-115 | original bytes iff opacity ≥ 0.999; otherwise a re-encoding of the same bytes whose alpha at each pixel is `int(p * opacity)` of the decoded alpha p |
| PdfIo.TranslucentNeverGainsAlpha | src/pdf_editor/pdf_io.py:104-112 | below 0.999 opacity the image is re-encoded and no pixel becomes more opaque |
| PdfIo.DrawBox | src/pdf_editor/pdf_io.py:65-70 | the draw rectangle is (x, y, x + width, y + height) |
| PdfIo.ElementOpsCount | src/pdf_editor/pdf_io.py:61-95 | one element fails iff it is a visible text box whose colour the corrected parser rejects; otherwise one op if drawn, none if not, in its own box |
| PdfIo.ElementsOpsFailure | src/pdf_editor/pdf_io.py:61-95 | a page's elements fail iff one of them is a visible text box whose colour the corrected parser rejects |
| PdfIo.ElementsOpsOrder | src/pdf_editor/pdf_io.py:61-95 | one op per drawn element, in list order; hidden, base and empty-image elements are skipped |
| PdfIo.PageStamped | src/pdf_editor/pdf_io.py:56-59 | an output page has the page's size; the source page is shown iff it has a source index, and then first |
| PdfIo.ExportOnePagePerPage | src/pdf_editor/pdf_io.py:56-59 | export fails iff some page fails; otherwise exactly one output page per page, in order |
| PdfIo.DrawElement | src/pdf_editor/pdf_io.py:62-95 | drawing one element yields the ops of the export plan for it |
| PdfIo.ExportPage | src/pdf_editor/pdf_io.py:56-95 | the per-page loop yields the page's plan: source page first, then each element in order, or the first colour error |
| PdfIo.ExportPages | src/pdf_editor/pdf_io.py:55-59 | the page loop yields the export plan of the page values |
| PdfIo.Export | src/pdf_editor/pdf_io.py:52-99 | exporting a document yields the export plan of its current pages |
| PdfIo.Load | src/pdf_editor/pdf_io.py:24-46 | fresh distinct pages; page i has source page i's size and rotation, source index i, no elements; preview i has page i's uid and image |
| PdfIo.ImportThenExport | src/pdf_editor/pdf_io.py:32-59 | exporting a freshly imported document shows each source page once, at its size, in order |
| MainWindow.Placement | src/pdf_editor/widgets/main_window.py:163-167 | width ≤ pixel width and ≤ 60% of the page, equal to one of them; height ≥ 1; x, y ≥ 0 |
| MainWindow.PlacementKeepsAspect | src/pdf_editor/widgets/main_window.py:163-165 | unless the height is raised to 1, height / width equals the pixel aspect ratio |
| MainWindow.PlacementCentredHorizontally | src/pdf_editor/widgets/main_window.py:166 | on a page of non-negative width the image is centred horizontally |
| MainWindow.PlacementVertical | src/pdf_editor/widgets/main_window.py:167 | centred vertically when the height fits the page, at the top otherwise |
| MainWindow.PlacementOnA4 | src/pdf_editor/widgets/main_window.py:163-167 | a 200 by 100 pixel image on a 595 by 842 page goes at (197.5, 371) at full size |
| MainWindow.Window.constructor | src/pdf_editor/widgets/main_window.py:22-25 | a new window has no document, no current page and no selection |
| MainWindow.Window.InsertImage | src/pdf_editor/widgets/main_window.py:145-178 | without a document, page, decodable image or valid index nothing changes; otherwise one fresh element at `Placement` is appended to the current page only, and it is selected by id |
| MainWindow.Window.AddAndSelect | src/pdf_editor/widgets/main_window.py:198-209 | the element is appended and, unless its id is empty, the first element with its id becomes the selection |
| MainWindow.Window.HandlePropertyGeometryEdited | src/pdf_editor/widgets/main_window.py:219-227 | with a document, page and selection: the selected rect becomes (x, y, max(1,w), max(1,h)) and nothing else changes; otherwise a no-op |

## Left out

- Qt, PyMuPDF and PIL calls are not modelled. Painting, cursors, scene item management, signals, `fitInView`, pixmap scaling, PDF opening, rendering, drawing and saving are all replaced by the values they would receive: line lists, draw plans and page lists.
- `uuid.uuid4()` is not modelled. Element ids are the `newId` parameter and page uids the `uids` parameter of `Load`; uniqueness is not assumed.
- File dialogs, `read_bytes` and pixmap decoding are not modelled. `MainWindow.Window.InsertImage` takes a `PickedImage` whose size is absent when decoding fails. A cancelled dialog is an absent pick.
- PIL decoding, RGBA conversion and PNG encoding are not modelled. `decodeAlpha` stands for the alpha channel after conversion, and `Stream.Reencoded` for the re-encoded image. Pixel clipping to 0-255 is not modelled.
- Floating point is modelled as `real`. Rounding is not modelled; the `int()` truncations in the source are explicit (`Numeric.Trunc`).
- `int(s, 16)` is modelled on ASCII input. Python also accepts Unicode digits and whitespace, underscores and a `0x` prefix. None of these fit a two-character channel that the corrected parser accepts, and the as-written finding does not depend on them.
- `PageModel.index` is not modelled. The importer never sets it, and only the page-list labels and preview lookup in the main window read it.
- `PdfIo.Export` reads the document's pages once, as values. The source also reads them while it draws, but nothing changes them during an export.
- The source document named by `source_path` is not modelled. A page's source index is kept in the plan (`ShowSourcePage`).
- The text font family is not modelled in export, because the exporter always writes "helv".
- `CanvasItems.HitHandle` takes the handle squares as a parameter. Each item passes `HandleRects` of its own size.
- The export parses text colours with the corrected parser `PdfIo.ColorToRgb`, not with the `int(pair, 16)` the source calls. The two differ only on six characters that are not all hexadecimal digits but that `int` accepts pair by pair, such as `"#-f0000"` or `"# f0000"`. There the source draws the text box in that colour, out-of-range channels included, and the model raises. Everywhere else they agree (`PdfIo.CorrectedAgreesWhereDefined`). The next six lines name the members this affects.
- ElementOpsCount (PdfIo): a "bad colour" is one the corrected parser rejects, so a box coloured `"#-f0000"` fails here where the source draws it.
- ElementsOpsFailure (PdfIo): a page fails on a colour the corrected parser rejects, which can be one the source accepts.
- DrawElement (PdfIo): fails on a colour such as `"#-f0000"` where the source draws the text box.
- ExportPage (PdfIo): its plan fails on such a colour where the source's page is drawn.
- ExportPages (PdfIo): its plan fails on such a colour where the source goes on to later pages.
- Export (PdfIo): the whole export fails on such a colour where the source saves a file.
- Rect aliasing is not modelled. `Rect` is a value stored in `Element.rect`. The source never shares a `Rect` between elements.
- The canvas's item table, `set_page` with `_rebuild_elements`, `sync_from_model`'s lookup of the item by id, page switching, the scene-selection handler and the selection wiring are not modelled at the canvas or window level. They are not plain forwarding: building each item and syncing an image item run `setPos`, which can snap the item and write its snapped position and current size back into the page's elements. `CanvasItems.ImageItem.constructor`, `CanvasItems.TextItem.constructor`, `CanvasItems.ImageItem.SyncFromModel` and `CanvasItems.TextItem.ApplyModelGeometry` model that step item by item. Each write-back also emits `elementGeometryEdited`, which makes the written element the window's selected element; that is not modelled either.
- MainWindow.Window.InsertImage: the `_refresh_canvas` that follows the append is not modelled. It rebuilds the page's items, and each item constructor may snap its element and write it back (for example, the new element's rect can become its snapped position with its pixmap's whole-pixel size), so after the source returns, the new element and others on the page may hold other rects than the ones stated here. The per-item step is `CanvasItems.ImageItem.constructor` and `CanvasItems.TextItem.constructor`.
- MainWindow.Window.AddAndSelect: the same `_refresh_canvas` rebuild and its write-backs are not modelled. The per-item step is in the two item constructors.
- MainWindow.Window.HandlePropertyGeometryEdited: the `sync_from_model` call that follows the edit is not modelled here. It may snap the element and write back the item's old size: an image element then holds the old pixmap size, and a text element a size of at least 20. The per-item step is `CanvasItems.ImageItem.SyncFromModel` and `CanvasItems.TextItem.ApplyModelGeometry`.
- Pixmap decoding is not modelled. `CanvasItems.ImageItem.constructor` takes `decodes`, whether `loadFromData` turned the element's bytes into a pixmap; the canvas ignores that answer, so an element with empty or undecodable bytes gets a 0 x 0 pixmap, is snapped for that size and written back as 1 x 1. The window itself only inserts images that decode.
- Items are always built with the canvas's snap and geometry callbacks, so each item holds a non-null `PageCanvas`. The branches for an item built without callbacks, where `setPos` neither snaps nor writes back, are not modelled.
- Qt compares points with a fuzzy floating-point test when `setPos` decides whether an item moved. `CanvasItems.ImageItem.SetPos` and `CanvasItems.TextItem.SetPos` compare exactly.
- The image item's and text item's opacity, text, font and colour are not modelled. They never take part in geometry.

## Findings

| source | as written | input that shows it | evidently intended | confidence | as-written member | corrected member |
|---|---|---|---|---|---|---|
| src/pdf_editor/pdf_io.py:121-123 | each channel is `int(pair, 16) / 255`. `int` accepts a sign and surrounding whitespace, so a channel can be negative or come from fewer than two digits | text colour `"#-f0000"` gives a red channel of -15/255 | only two hexadecimal digits per channel, each channel in [0, 1], anything else rejected | not executed | PdfIo.SignedChannelAccepted | PdfIo.ColorToRgb |
| src/pdf_editor/widgets/canvas.py:168-198 | the image item computes the resized corner and size, then calls `setPos` with that corner; `setPos` snaps the corner for the old pixmap size and keeps the new size, so the whole item shifts, including the edge that was not dragged (the text item does the same at canvas.py:403-407) | a left-handle drag of -97 on a 100 by 100 image at (100, 100) on an empty 595 by 842 page: the left edge snaps from 3 to 0 and the right edge moves from 200 to 197 | the dragged edge snaps and the opposite edge stays where it was | not executed; the shift is certain, whether it is unwanted is inferred | CanvasItems.LeftDragSnapShiftsRightEdge | CanvasItems.AnchoredImageResize |
