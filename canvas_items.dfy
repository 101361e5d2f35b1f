/**
 * The interactive items of the page canvas (ImageGraphicsItem and TextGraphicsItem in
 * src/pdf_editor/widgets/canvas.py): their resize handles, the hit test that picks a
 * handle under the pointer, and the edge-handle resize arithmetic.
 */
module CanvasItems {
  import opened Wrappers
  import opened Numeric
  import opened Document
  import opened Canvas
  import opened Snapping

  /** Side of the square resize handles. */
  const HandleSize: real := 12.0

  /** Smallest pixmap side of an image item, in whole pixels. */
  const ImageMinSize: int := 12

  /** Smallest side of a text item's rectangle. */
  const TextMinSize: real := 20.0

  /** The eight handles, in the order the handle table lists them. */
  datatype Handle = TopLeft | Top | TopRight | Right | BottomRight | Bottom | BottomLeft | Left
  {
    /** The handle's name in the handle table. */
    function Name(): string
    {
      match this
      case TopLeft => "top-left"
      case Top => "top"
      case TopRight => "top-right"
      case Right => "right"
      case BottomRight => "bottom-right"
      case Bottom => "bottom"
      case BottomLeft => "bottom-left"
      case Left => "left"
    }

    /** The resize code tests `"left" in handle` and so on: which edges this handle drags. */
    predicate MovesLeft() { this == TopLeft || this == BottomLeft || this == Left }
    predicate MovesRight() { this == TopRight || this == BottomRight || this == Right }
    predicate MovesTop() { this == TopLeft || this == Top || this == TopRight }
    predicate MovesBottom() { this == BottomLeft || this == Bottom || this == BottomRight }
  }

  /** Whether `sub` occurs in `s` (Python's `sub in s` on strings). */
  predicate IsSubstring(sub: string, s: string)
    decreases |s|
  {
    |sub| <= |s| && (s[..|sub|] == sub || IsSubstring(sub, s[1..]))
  }

  lemma {:induction false} SubstringAt(sub: string, s: string, i: nat)
    requires i + |sub| <= |s| && forall j :: 0 <= j < |sub| ==> s[i + j] == sub[j]
    ensures IsSubstring(sub, s)
    decreases i
  {
    if i > 0 {
      SubstringAt(sub, s[1..], i - 1);
    } else {
      assert s[..|sub|] == sub;
    }
  }

  lemma {:induction false} CharAbsent(sub: string, s: string, c: char)
    requires c in sub && c !in s
    ensures !IsSubstring(sub, s)
    decreases |s|
  {
    if |sub| <= |s| {
      assert c in s[..|sub|] ==> c in s;
      assert c !in s[1..];
      CharAbsent(sub, s[1..], c);
    }
  }

  /** The handles whose names contain "left" are exactly those that drag the left edge. */
  lemma HandleMovesLeftByName(h: Handle)
    ensures h.MovesLeft() <==> IsSubstring("left", h.Name())
  {
    match h
    case TopLeft => SubstringAt("left", "top-left", 4);
    case BottomLeft => SubstringAt("left", "bottom-left", 7);
    case Left => SubstringAt("left", "left", 0);
    case _ => CharAbsent("left", h.Name(), 'l');
  }

  /** Likewise for "right". */
  lemma HandleMovesRightByName(h: Handle)
    ensures h.MovesRight() <==> IsSubstring("right", h.Name())
  {
    match h
    case TopRight => SubstringAt("right", "top-right", 4);
    case Right => SubstringAt("right", "right", 0);
    case BottomRight => SubstringAt("right", "bottom-right", 7);
    case _ => CharAbsent("right", h.Name(), 'g');
  }

  /** Likewise for "top". */
  lemma HandleMovesTopByName(h: Handle)
    ensures h.MovesTop() <==> IsSubstring("top", h.Name())
  {
    match h
    case TopLeft => SubstringAt("top", "top-left", 0);
    case Top => SubstringAt("top", "top", 0);
    case TopRight => SubstringAt("top", "top-right", 0);
    case _ => CharAbsent("top", h.Name(), 'p');
  }

  /** Likewise for "bottom". */
  lemma HandleMovesBottomByName(h: Handle)
    ensures h.MovesBottom() <==> IsSubstring("bottom", h.Name())
  {
    match h
    case BottomRight => SubstringAt("bottom", "bottom-right", 0);
    case Bottom => SubstringAt("bottom", "bottom", 0);
    case BottomLeft => SubstringAt("bottom", "bottom-left", 0);
    case _ => CharAbsent("bottom", h.Name(), 'b');
  }

  /** A handle with its square in item coordinates. */
  datatype HandleRect = HandleRect(handle: Handle, rect: Rect)

  /** The handle squares of an item whose local rectangle is (0, 0, w, h), in table order. */
  function HandleRects(w: real, h: real): (rs: seq<HandleRect>)
    ensures |rs| == 8
    ensures forall k :: 0 <= k < |rs| ==> rs[k].rect.width == HandleSize && rs[k].rect.height == HandleSize
  {
    var s := HandleSize;
    var half := s / 2.0;
    [ HandleRect(TopLeft, Rect(0.0, 0.0, s, s)),
      HandleRect(Top, Rect(Max(0.0, w / 2.0 - half), 0.0, s, s)),
      HandleRect(TopRight, Rect(Max(0.0, w - s), 0.0, s, s)),
      HandleRect(Right, Rect(Max(0.0, w - s), Max(0.0, h / 2.0 - half), s, s)),
      HandleRect(BottomRight, Rect(Max(0.0, w - s), Max(0.0, h - s), s, s)),
      HandleRect(Bottom, Rect(Max(0.0, w / 2.0 - half), Max(0.0, h - s), s, s)),
      HandleRect(BottomLeft, Rect(0.0, Max(0.0, h - s), s, s)),
      HandleRect(Left, Rect(0.0, Max(0.0, h / 2.0 - half), s, s)) ]
  }

  /** Whether a rectangle of positive size contains a point, edges included. */
  predicate Contains(r: Rect, px: real, py: real)
  {
    r.x <= px <= r.Right() && r.y <= py <= r.Bottom()
  }

  /** Every handle square lies inside an item at least one handle wide and high. */
  lemma HandlesInsideItem(w: real, h: real)
    requires w >= HandleSize && h >= HandleSize
    ensures forall k :: 0 <= k < 8 ==>
              var r := HandleRects(w, h)[k].rect;
              0.0 <= r.x && r.Right() <= w && 0.0 <= r.y && r.Bottom() <= h
  {
  }

  /**
   * The handle under the point (px, py): the first handle, in table order, whose square
   * contains the point, or none. An item searches its own squares, `HandleRects(w, h)`.
   */
  method HitHandle(rects: seq<HandleRect>, px: real, py: real) returns (r: Option<Handle>)
    ensures r.None? <==> forall k :: 0 <= k < |rects| ==> !Contains(rects[k].rect, px, py)
    ensures r.Some? ==> exists k :: 0 <= k < |rects| && rects[k].handle == r.value
                                   && Contains(rects[k].rect, px, py)
                                   && forall j :: 0 <= j < k ==> !Contains(rects[j].rect, px, py)
  {
    var i := 0;
    while i < |rects|
      invariant 0 <= i <= |rects|
      invariant forall j :: 0 <= j < i ==> !Contains(rects[j].rect, px, py)
    {
      if Contains(rects[i].rect, px, py) {
        return Some(rects[i].handle);
      }
      i := i + 1;
    }
    return None;
  }

  /** The top-left corner of an item always lies in the first square, the top-left one. */
  lemma TopLeftCorner(w: real, h: real)
    ensures HandleRects(w, h)[0].handle == TopLeft && Contains(HandleRects(w, h)[0].rect, 0.0, 0.0)
  {
  }

  /**
   * The bottom-right corner of an item more than one handle wide and high lies in no
   * square before the bottom-right one, so the first-match search picks bottom-right.
   */
  lemma BottomRightCorner(w: real, h: real)
    requires w > HandleSize && h > HandleSize
    ensures forall k :: 0 <= k < 4 ==> !Contains(HandleRects(w, h)[k].rect, w, h)
    ensures HandleRects(w, h)[4].handle == BottomRight && Contains(HandleRects(w, h)[4].rect, w, h)
  {
    var rs := HandleRects(w, h);
    assert rs[1].rect.Right() == w / 2.0 + 6.0;
    assert rs[3].rect.Bottom() == h / 2.0 + 6.0;
  }

  /**
   * On an item exactly one handle high the bottom-right corner already lies in the
   * top-right square, which comes first in the search.
   */
  lemma ShortItemCorner(w: real)
    requires w > HandleSize
    ensures !Contains(HandleRects(w, HandleSize)[0].rect, w, HandleSize)
    ensures !Contains(HandleRects(w, HandleSize)[1].rect, w, HandleSize)
    ensures HandleRects(w, HandleSize)[2].handle == TopRight
    ensures Contains(HandleRects(w, HandleSize)[2].rect, w, HandleSize)
  {
    var rs := HandleRects(w, HandleSize);
    assert rs[1].rect.Right() == w / 2.0 + 6.0;
  }

  /** Where an image item ends up: its position and its whole-pixel pixmap size. */
  datatype ImageGeometry = ImageGeometry(x: real, y: real, width: int, height: int)

  /**
   * `max(12, int(max(12, side)))` is `max(12, int(side))`: clamping the side before the
   * truncation changes nothing.
   */
  lemma ImageSideFloor(side: real)
    ensures MaxInt(ImageMinSize, Trunc(Max(ImageMinSize as real, side))) == MaxInt(ImageMinSize, Trunc(side))
  {
    if side < ImageMinSize as real {
      assert Trunc(side) < ImageMinSize;
    }
  }

  /**
   * One axis of an image resize, from the near edge at `start` and the side `extent`: a
   * dragged near edge moves by `delta` but stops 12 short of the far edge, a dragged far
   * edge moves by `delta` but stays 12 beyond the near edge, and the side is then truncated
   * to whole pixels and kept at least 12. The result is the new near edge and side.
   */
  function ImageAxis(start: real, extent: real, movesNear: bool, movesFar: bool, delta: real): (a: (real, int))
    ensures a.1 >= ImageMinSize
    ensures !movesNear ==> a.0 == start
    ensures movesNear && delta <= extent - HandleSize ==> a.0 == start + delta
    ensures movesNear && delta > extent - HandleSize ==> a.0 == start + extent - HandleSize
    ensures movesNear && !movesFar ==> start + extent - 1.0 < a.0 + a.1 as real <= start + extent
    ensures movesNear && !movesFar ==> a.1 == MaxInt(ImageMinSize, Trunc(extent - delta))
    ensures movesFar && !movesNear ==> a.1 == MaxInt(ImageMinSize, Trunc(extent + delta))
    ensures !movesNear && !movesFar ==> a.1 == MaxInt(ImageMinSize, Trunc(extent))
  {
    var min := ImageMinSize as real;
    var near := if movesNear then Min(start + delta, start + extent - min) else start;
    var far := if movesFar then Max(start + extent + delta, near + min) else start + extent;
    ImageSideFloor(far - near);
    (near, MaxInt(ImageMinSize, Trunc(Max(min, far - near))))
  }

  /**
   * The geometry after dragging `handle` by (dx, dy) from `initial`: each axis resized by
   * `ImageAxis`, left and right edges horizontally, top and bottom edges vertically.
   */
  function ImageResize(initial: Rect, handle: Handle, dx: real, dy: real): (g: ImageGeometry)
    ensures g.width >= ImageMinSize && g.height >= ImageMinSize
    ensures !handle.MovesLeft() ==> g.x == initial.x
    ensures !handle.MovesTop() ==> g.y == initial.y
    ensures handle.MovesLeft() && dx <= initial.width - HandleSize ==> g.x == initial.x + dx
    ensures handle.MovesLeft() && dx > initial.width - HandleSize ==> g.x == initial.Right() - HandleSize
    ensures handle.MovesTop() && dy <= initial.height - HandleSize ==> g.y == initial.y + dy
    ensures handle.MovesTop() && dy > initial.height - HandleSize ==> g.y == initial.Bottom() - HandleSize
    ensures handle.MovesLeft() ==> initial.Right() - 1.0 < g.x + g.width as real <= initial.Right()
    ensures handle.MovesTop() ==> initial.Bottom() - 1.0 < g.y + g.height as real <= initial.Bottom()
    ensures handle.MovesLeft() ==> g.width == MaxInt(ImageMinSize, Trunc(initial.width - dx))
    ensures handle.MovesRight() ==> g.width == MaxInt(ImageMinSize, Trunc(initial.width + dx))
    ensures !handle.MovesLeft() && !handle.MovesRight() ==> g.width == MaxInt(ImageMinSize, Trunc(initial.width))
    ensures handle.MovesTop() ==> g.height == MaxInt(ImageMinSize, Trunc(initial.height - dy))
    ensures handle.MovesBottom() ==> g.height == MaxInt(ImageMinSize, Trunc(initial.height + dy))
    ensures !handle.MovesTop() && !handle.MovesBottom() ==> g.height == MaxInt(ImageMinSize, Trunc(initial.height))
  {
    var (x, width) := ImageAxis(initial.x, initial.width, handle.MovesLeft(), handle.MovesRight(), dx);
    var (y, height) := ImageAxis(initial.y, initial.height, handle.MovesTop(), handle.MovesBottom(), dy);
    ImageGeometry(x, y, width, height)
  }

  /**
   * The rectangle after dragging `handle` by (dx, dy) from `initial`: each dragged edge
   * moves by the delta but stops 20 short of the opposite edge, which stays where it was.
   */
  function TextResize(initial: Rect, handle: Handle, dx: real, dy: real): (r: Rect)
    ensures handle.MovesLeft() ==> r.Right() == initial.Right() && r.width >= TextMinSize
    ensures handle.MovesRight() ==> r.x == initial.x && r.width >= TextMinSize
    ensures handle.MovesTop() ==> r.Bottom() == initial.Bottom() && r.height >= TextMinSize
    ensures handle.MovesBottom() ==> r.y == initial.y && r.height >= TextMinSize
    ensures handle.MovesLeft() && dx <= initial.width - TextMinSize ==> r.x == initial.x + dx
    ensures handle.MovesLeft() && dx > initial.width - TextMinSize ==> r.width == TextMinSize
    ensures handle.MovesRight() && initial.width + dx >= TextMinSize ==> r.Right() == initial.Right() + dx
    ensures handle.MovesRight() && initial.width + dx < TextMinSize ==> r.width == TextMinSize
    ensures handle.MovesTop() && dy <= initial.height - TextMinSize ==> r.y == initial.y + dy
    ensures handle.MovesTop() && dy > initial.height - TextMinSize ==> r.height == TextMinSize
    ensures handle.MovesBottom() && initial.height + dy >= TextMinSize ==> r.Bottom() == initial.Bottom() + dy
    ensures handle.MovesBottom() && initial.height + dy < TextMinSize ==> r.height == TextMinSize
    ensures !handle.MovesLeft() && !handle.MovesRight() ==> r.x == initial.x && r.width == initial.width
    ensures !handle.MovesTop() && !handle.MovesBottom() ==> r.y == initial.y && r.height == initial.height
  {
    var left := if handle.MovesLeft() then Min(initial.Right() - TextMinSize, initial.x + dx) else initial.x;
    var right := if handle.MovesRight() then Max(left + TextMinSize, initial.Right() + dx) else initial.Right();
    var top := if handle.MovesTop() then Min(initial.Bottom() - TextMinSize, initial.y + dy) else initial.y;
    var bottom := if handle.MovesBottom() then Max(top + TextMinSize, initial.Bottom() + dy) else initial.Bottom();
    Rect(left, top, right - left, bottom - top)
  }

  /**
   * The element the canvas's `find_element` returns for `id`: the first element of its page
   * carrying that id, or null without a page or without such an element.
   */
  function Found(canvas: PageCanvas, id: string): (e: Element?)
    reads canvas, canvas.page
    ensures e != null <==> canvas.page != null && id in Ids(canvas.page.elements)
    ensures e != null ==> e in canvas.page.elements && e.id == id
  {
    if canvas.page == null || id !in Ids(canvas.page.elements) then null
    else canvas.page.elements[IndexOfId(canvas.page.elements, id)]
  }

  /** Where an item stands and which guide lines the canvas draws. */
  datatype Placement = Placement(x: real, y: real, guideLines: seq<Line>)

  /**
   * What `setPos(px, py)` does to an item of the given size standing at (fromX, fromY): asked
   * for the point it stands on, nothing; otherwise the canvas's `_request_snap_position`
   * decides where it goes and which guides are drawn.
   */
  function SetPosResult(canvas: PageCanvas, elementId: string, fromX: real, fromY: real,
                        px: real, py: real, width: real, height: real): Placement
    reads canvas, canvas.page, if canvas.page == null then [] else canvas.page.elements
  {
    if px == fromX && py == fromY then Placement(fromX, fromY, canvas.guideLines)
    else if canvas.page == null then Placement(px, py, [])
    else
      var s := ComputeSnap(ElementsData(canvas.page.elements), elementId, canvas.page.width, canvas.page.height,
                           px, py, width, height);
      Placement(s.x, s.y, GuideLines(s.guides, canvas.page.width, canvas.page.height))
  }

  /**
   * The side of an image item's pixmap after `scaled()` to a requested side: `max(12, int(side))`
   * when the element's bytes decoded, and 0 when they did not, since a null pixmap scales to
   * a null pixmap.
   */
  function PixmapSide(decodes: bool, side: real): (n: int)
    ensures decodes ==> n == MaxInt(ImageMinSize, Trunc(side)) && n >= ImageMinSize
    ensures decodes && side >= ImageMinSize as real ==> n as real <= side < n as real + 1.0
    ensures !decodes ==> n == 0
  {
    if decodes then MaxInt(ImageMinSize, Trunc(side)) else 0
  }

  /** Qt's `QRectF.isNull()`: zero width and zero height. Python treats such a rectangle as false. */
  predicate NullRect(r: Rect)
  {
    r.width == 0.0 && r.height == 0.0
  }

  /**
   * The image item: its scene position, its pixmap size, the state of a resize drag and
   * the canvas whose snap and geometry callbacks it was built with. `decodes` says whether
   * `loadFromData` turned the element's bytes into a pixmap; the canvas ignores the answer.
   */
  class ImageItem {
    const elementId: string
    const decodes: bool
    const canvas: PageCanvas
    var x: real
    var y: real
    var pixWidth: int
    var pixHeight: int
    var activeHandle: Option<Handle>
    var initialRect: Option<Rect>

    /**
     * An item for `element`, built at the origin with an empty pixmap and then given the
     * element's geometry by `ApplyModelGeometry`: its pixmap scaled to `PixmapSide` of the
     * element's sides, then `SetPos` to the element's position, which may snap it and write
     * the result back. Bytes that do not decode leave a 0 x 0 pixmap, written back as 1 x 1.
     */
    constructor (element: Element, decodes: bool, canvas: PageCanvas)
      modifies canvas`guideLines
      modifies if canvas.page == null then {} else set e | e in canvas.page.elements
      ensures elementId == element.id && this.decodes == decodes && this.canvas == canvas
      ensures activeHandle == None && initialRect == None
      ensures pixWidth == PixmapSide(decodes, old(element.rect.width))
      ensures pixHeight == PixmapSide(decodes, old(element.rect.height))
      ensures decodes ==> pixWidth >= ImageMinSize && pixHeight >= ImageMinSize
      ensures !decodes ==> pixWidth == 0 && pixHeight == 0
      ensures Placement(x, y, canvas.guideLines) ==
              old(SetPosResult(canvas, element.id, 0.0, 0.0, element.rect.x, element.rect.y,
                               PixmapSide(decodes, element.rect.width) as real,
                               PixmapSide(decodes, element.rect.height) as real))
      ensures decodes && (x != 0.0 || y != 0.0) && Found(canvas, elementId) != null ==>
                Found(canvas, elementId).rect == Rect(x, y, pixWidth as real, pixHeight as real)
      ensures !decodes && (x != 0.0 || y != 0.0) && Found(canvas, elementId) != null ==>
                Found(canvas, elementId).rect == Rect(x, y, MinDimension, MinDimension)
      ensures canvas.page != null ==>
                forall e :: e in canvas.page.elements && e != Found(canvas, elementId) ==> e.rect == old(e.rect)
      ensures x == 0.0 && y == 0.0 && canvas.page != null ==>
                forall e :: e in canvas.page.elements ==> e.rect == old(e.rect)
      ensures canvas.page != null ==>
                forall e :: e in canvas.page.elements ==> e.Data() == old(e.Data()).(rect := e.rect)
    {
      elementId := element.id;
      this.decodes := decodes;
      this.canvas := canvas;
      x, y := 0.0, 0.0;
      pixWidth, pixHeight := 0, 0;
      activeHandle := None;
      initialRect := None;
      new;
      ApplyModelGeometry(element);
    }

    /**
     * Sets the position as Qt's `setPos` does for an item that sends geometry changes:
     * asked for the point it stands on, nothing happens; otherwise the canvas snaps the
     * request for the current pixmap size, and if that moves the item the canvas's
     * `HandleGeometryChanged` writes its position and pixmap size into its element.
     */
    method SetPos(px: real, py: real)
      modifies this`x, this`y, canvas`guideLines
      modifies if canvas.page == null then {} else set e | e in canvas.page.elements
      ensures Placement(x, y, canvas.guideLines) ==
              old(SetPosResult(canvas, elementId, x, y, px, py, pixWidth as real, pixHeight as real))
      ensures (x != old(x) || y != old(y)) && Found(canvas, elementId) != null ==>
                Found(canvas, elementId).rect ==
                Rect(x, y, ClampDimension(pixWidth as real), ClampDimension(pixHeight as real))
      ensures canvas.page != null ==>
                forall e :: e in canvas.page.elements && e != Found(canvas, elementId) ==> e.rect == old(e.rect)
      ensures x == old(x) && y == old(y) && canvas.page != null ==>
                forall e :: e in canvas.page.elements ==> e.rect == old(e.rect)
      ensures canvas.page != null ==>
                forall e :: e in canvas.page.elements ==> e.Data() == old(e.Data()).(rect := e.rect)
    {
      if px == x && py == y {
        return;
      }
      var sx, sy := canvas.RequestSnapPosition(elementId, px, py, pixWidth as real, pixHeight as real);
      if sx == x && sy == y {
        return;
      }
      x, y := sx, sy;
      canvas.HandleGeometryChanged(elementId, x, y, pixWidth as real, pixHeight as real);
    }

    /**
     * `set_size`: the pixmap rescaled to `max(12, int(side))` a side, or left 0 x 0 when the
     * bytes did not decode; nothing is written back.
     */
    method SetSize(width: real, height: real)
      modifies this`pixWidth, this`pixHeight
      ensures pixWidth == PixmapSide(decodes, width) && pixHeight == PixmapSide(decodes, height)
      ensures decodes ==> pixWidth >= ImageMinSize && pixHeight >= ImageMinSize
      ensures decodes && width >= ImageMinSize as real ==> pixWidth as real <= width < pixWidth as real + 1.0
      ensures decodes && height >= ImageMinSize as real ==> pixHeight as real <= height < pixHeight as real + 1.0
      ensures !decodes ==> pixWidth == 0 && pixHeight == 0
    {
      pixWidth := PixmapSide(decodes, width);
      pixHeight := PixmapSide(decodes, height);
    }

    /**
     * `apply_model_geometry`: the pixmap scaled to the element's size, then `SetPos` to the
     * element's position with that new size, which may snap it and write it back.
     */
    method ApplyModelGeometry(element: Element)
      modifies this`x, this`y, this`pixWidth, this`pixHeight, canvas`guideLines
      modifies if canvas.page == null then {} else set e | e in canvas.page.elements
      ensures pixWidth == PixmapSide(decodes, old(element.rect.width))
      ensures pixHeight == PixmapSide(decodes, old(element.rect.height))
      ensures Placement(x, y, canvas.guideLines) ==
              old(SetPosResult(canvas, elementId, x, y, element.rect.x, element.rect.y,
                               PixmapSide(decodes, element.rect.width) as real,
                               PixmapSide(decodes, element.rect.height) as real))
      ensures (x != old(x) || y != old(y)) && Found(canvas, elementId) != null ==>
                Found(canvas, elementId).rect ==
                Rect(x, y, ClampDimension(pixWidth as real), ClampDimension(pixHeight as real))
      ensures canvas.page != null ==>
                forall e :: e in canvas.page.elements && e != Found(canvas, elementId) ==> e.rect == old(e.rect)
      ensures x == old(x) && y == old(y) && canvas.page != null ==>
                forall e :: e in canvas.page.elements ==> e.rect == old(e.rect)
      ensures canvas.page != null ==>
                forall e :: e in canvas.page.elements ==> e.Data() == old(e.Data()).(rect := e.rect)
    {
      SetSize(element.rect.width, element.rect.height);
      SetPos(element.rect.x, element.rect.y);
    }

    /**
     * The image branch of the canvas's `sync_from_model`: `SetPos` to the element's position
     * with the current pixmap size, then `SetSize` from the element's size as it is after
     * that. When the move goes through and `element` is the one the canvas writes back to,
     * the write-back has already replaced its size with the old pixmap size, so the pixmap
     * keeps that size.
     */
    method SyncFromModel(element: Element)
      modifies this`x, this`y, this`pixWidth, this`pixHeight, canvas`guideLines
      modifies if canvas.page == null then {} else set e | e in canvas.page.elements
      ensures Placement(x, y, canvas.guideLines) ==
              old(SetPosResult(canvas, elementId, x, y, element.rect.x, element.rect.y, pixWidth as real, pixHeight as real))
      ensures pixWidth == PixmapSide(decodes, element.rect.width)
      ensures pixHeight == PixmapSide(decodes, element.rect.height)
      ensures decodes && (x != old(x) || y != old(y)) && element == Found(canvas, elementId) &&
              old(pixWidth) >= ImageMinSize ==>
                pixWidth == old(pixWidth)
      ensures decodes && (x != old(x) || y != old(y)) && element == Found(canvas, elementId) &&
              old(pixHeight) >= ImageMinSize ==>
                pixHeight == old(pixHeight)
      ensures (x != old(x) || y != old(y)) && Found(canvas, elementId) != null ==>
                Found(canvas, elementId).rect ==
                Rect(x, y, ClampDimension(old(pixWidth) as real), ClampDimension(old(pixHeight) as real))
      ensures canvas.page != null ==>
                forall e :: e in canvas.page.elements && e != Found(canvas, elementId) ==> e.rect == old(e.rect)
      ensures x == old(x) && y == old(y) && canvas.page != null ==>
                forall e :: e in canvas.page.elements ==> e.rect == old(e.rect)
      ensures canvas.page != null ==>
                forall e :: e in canvas.page.elements ==> e.Data() == old(e.Data()).(rect := e.rect)
    {
      SetPos(element.rect.x, element.rect.y);
      SetSize(element.rect.width, element.rect.height);
    }

    /** A resize drag is under way: a handle and a non-null initial rectangle are recorded. */
    predicate Dragging()
      reads this
    {
      initialRect.Some? && activeHandle.Some? && !NullRect(initialRect.value)
    }

    /**
     * A press on `handle`, once the hit test has found it: the handle and the item's scene
     * rectangle, position and pixmap size, are recorded for the drag. A 0 x 0 pixmap records
     * a null rectangle.
     */
    method StartResize(handle: Handle)
      modifies this`activeHandle, this`initialRect
      ensures activeHandle == Some(handle)
      ensures initialRect == Some(Rect(x, y, pixWidth as real, pixHeight as real))
      ensures NullRect(initialRect.value) <==> pixWidth == 0 && pixHeight == 0
    {
      activeHandle := Some(handle);
      initialRect := Some(Rect(x, y, pixWidth as real, pixHeight as real));
    }

    /**
     * Applies a drag of (dx, dy) since the press: no-op without an active handle or with a
     * missing or null initial rectangle. Otherwise `SetPos` to the corner `ImageResize`
     * computes, snapped for the pixmap size from before the drag step, then `SetSize` to its
     * size, then the position and pixmap size are written into the item's element.
     */
    method ResizeWithDelta(dx: real, dy: real)
      modifies this`x, this`y, this`pixWidth, this`pixHeight, canvas`guideLines
      modifies if canvas.page == null then {} else set e | e in canvas.page.elements
      ensures !Dragging() ==>
                x == old(x) && y == old(y) && pixWidth == old(pixWidth) && pixHeight == old(pixHeight) &&
                canvas.guideLines == old(canvas.guideLines)
      ensures Dragging() ==>
                var g := ImageResize(initialRect.value, activeHandle.value, dx, dy);
                pixWidth == PixmapSide(decodes, g.width as real) && pixHeight == PixmapSide(decodes, g.height as real) &&
                Placement(x, y, canvas.guideLines) ==
                old(SetPosResult(canvas, elementId, x, y, g.x, g.y, pixWidth as real, pixHeight as real))
      ensures Dragging() && decodes ==>
                var g := ImageResize(initialRect.value, activeHandle.value, dx, dy);
                pixWidth == g.width && pixHeight == g.height
      ensures Dragging() &&
              Found(canvas, elementId) != null ==>
                Found(canvas, elementId).rect ==
                Rect(x, y, ClampDimension(pixWidth as real), ClampDimension(pixHeight as real))
      ensures canvas.page != null ==>
                forall e :: e in canvas.page.elements && e != Found(canvas, elementId) ==> e.rect == old(e.rect)
      ensures !Dragging() && canvas.page != null ==>
                forall e :: e in canvas.page.elements ==> e.rect == old(e.rect)
      ensures canvas.page != null ==>
                forall e :: e in canvas.page.elements ==> e.Data() == old(e.Data()).(rect := e.rect)
    {
      if !Dragging() {
        return;
      }
      var g := ImageResize(initialRect.value, activeHandle.value, dx, dy);
      SetPos(g.x, g.y);
      SetSize(g.width as real, g.height as real);
      canvas.HandleGeometryChanged(elementId, x, y, pixWidth as real, pixHeight as real);
    }
  }

  /**
   * The text item: its scene position, its local rectangle's size, the state of a resize
   * drag and the canvas whose snap and geometry callbacks it was built with.
   */
  class TextItem {
    const elementId: string
    const canvas: PageCanvas
    var x: real
    var y: real
    var width: real
    var height: real
    var activeHandle: Option<Handle>
    var initialRect: Option<Rect>

    /**
     * An item for `element`, built at the origin with the element's size, unclamped, and
     * then `SetPos` to the element's position, which may snap it and write it back.
     */
    constructor (element: Element, canvas: PageCanvas)
      modifies canvas`guideLines
      modifies if canvas.page == null then {} else set e | e in canvas.page.elements
      ensures elementId == element.id && this.canvas == canvas
      ensures activeHandle == None && initialRect == None
      ensures width == old(element.rect.width) && height == old(element.rect.height)
      ensures Placement(x, y, canvas.guideLines) ==
              old(SetPosResult(canvas, element.id, 0.0, 0.0, element.rect.x, element.rect.y,
                               element.rect.width, element.rect.height))
      ensures (x != 0.0 || y != 0.0) && Found(canvas, elementId) != null ==>
                Found(canvas, elementId).rect == Rect(x, y, ClampDimension(width), ClampDimension(height))
      ensures canvas.page != null ==>
                forall e :: e in canvas.page.elements && e != Found(canvas, elementId) ==> e.rect == old(e.rect)
      ensures x == 0.0 && y == 0.0 && canvas.page != null ==>
                forall e :: e in canvas.page.elements ==> e.rect == old(e.rect)
      ensures canvas.page != null ==>
                forall e :: e in canvas.page.elements ==> e.Data() == old(e.Data()).(rect := e.rect)
    {
      elementId := element.id;
      this.canvas := canvas;
      x, y := 0.0, 0.0;
      width, height := element.rect.width, element.rect.height;
      activeHandle := None;
      initialRect := None;
      new;
      SetPos(element.rect.x, element.rect.y);
    }

    /**
     * Sets the position as Qt's `setPos` does for an item that sends geometry changes:
     * asked for the point it stands on, nothing happens; otherwise the canvas snaps the
     * request for the current rectangle's size, and if that moves the item the canvas's
     * `HandleGeometryChanged` writes its position and size into its element.
     */
    method SetPos(px: real, py: real)
      modifies this`x, this`y, canvas`guideLines
      modifies if canvas.page == null then {} else set e | e in canvas.page.elements
      ensures Placement(x, y, canvas.guideLines) == old(SetPosResult(canvas, elementId, x, y, px, py, width, height))
      ensures (x != old(x) || y != old(y)) && Found(canvas, elementId) != null ==>
                Found(canvas, elementId).rect == Rect(x, y, ClampDimension(width), ClampDimension(height))
      ensures canvas.page != null ==>
                forall e :: e in canvas.page.elements && e != Found(canvas, elementId) ==> e.rect == old(e.rect)
      ensures x == old(x) && y == old(y) && canvas.page != null ==>
                forall e :: e in canvas.page.elements ==> e.rect == old(e.rect)
      ensures canvas.page != null ==>
                forall e :: e in canvas.page.elements ==> e.Data() == old(e.Data()).(rect := e.rect)
    {
      if px == x && py == y {
        return;
      }
      var sx, sy := canvas.RequestSnapPosition(elementId, px, py, width, height);
      if sx == x && sy == y {
        return;
      }
      x, y := sx, sy;
      canvas.HandleGeometryChanged(elementId, x, y, width, height);
    }

    /**
     * `apply_model_geometry`: the rectangle takes the element's size, each side at least 20,
     * then `SetPos` to the element's position with that size, which may snap it and write it
     * back.
     */
    method ApplyModelGeometry(element: Element)
      modifies this`x, this`y, this`width, this`height, canvas`guideLines
      modifies if canvas.page == null then {} else set e | e in canvas.page.elements
      ensures width == Max(TextMinSize, old(element.rect.width)) && height == Max(TextMinSize, old(element.rect.height))
      ensures width >= TextMinSize && height >= TextMinSize
      ensures old(element.rect.width) >= TextMinSize ==> width == old(element.rect.width)
      ensures old(element.rect.height) >= TextMinSize ==> height == old(element.rect.height)
      ensures Placement(x, y, canvas.guideLines) ==
              old(SetPosResult(canvas, elementId, x, y, element.rect.x, element.rect.y,
                               Max(TextMinSize, element.rect.width), Max(TextMinSize, element.rect.height)))
      ensures (x != old(x) || y != old(y)) && Found(canvas, elementId) != null ==>
                Found(canvas, elementId).rect == Rect(x, y, width, height)
      ensures canvas.page != null ==>
                forall e :: e in canvas.page.elements && e != Found(canvas, elementId) ==> e.rect == old(e.rect)
      ensures x == old(x) && y == old(y) && canvas.page != null ==>
                forall e :: e in canvas.page.elements ==> e.rect == old(e.rect)
      ensures canvas.page != null ==>
                forall e :: e in canvas.page.elements ==> e.Data() == old(e.Data()).(rect := e.rect)
    {
      width, height := Max(TextMinSize, element.rect.width), Max(TextMinSize, element.rect.height);
      SetPos(element.rect.x, element.rect.y);
    }

    /** A resize drag is under way: a handle and a non-null initial rectangle are recorded. */
    predicate Dragging()
      reads this
    {
      initialRect.Some? && activeHandle.Some? && !NullRect(initialRect.value)
    }

    /**
     * A press on `handle`, once the hit test has found it: the handle and the item's scene
     * rectangle, position and size, are recorded for the drag. An item of size 0 x 0 records
     * a null rectangle.
     */
    method StartResize(handle: Handle)
      modifies this`activeHandle, this`initialRect
      ensures activeHandle == Some(handle)
      ensures initialRect == Some(Rect(x, y, width, height))
      ensures NullRect(initialRect.value) <==> width == 0.0 && height == 0.0
    {
      activeHandle := Some(handle);
      initialRect := Some(Rect(x, y, width, height));
    }

    /**
     * Applies a drag of (dx, dy) since the press: no-op without an active handle or with a
     * missing or null initial rectangle. Otherwise the rectangle takes the size `TextResize`
     * computes, the item is `SetPos` to its corner, snapped for that new size, and the
     * position and size, each clamped to at least 1, are written into the item's element.
     */
    method ResizeWithDelta(dx: real, dy: real)
      modifies this`x, this`y, this`width, this`height, canvas`guideLines
      modifies if canvas.page == null then {} else set e | e in canvas.page.elements
      ensures !Dragging() ==>
                x == old(x) && y == old(y) && width == old(width) && height == old(height) &&
                canvas.guideLines == old(canvas.guideLines)
      ensures Dragging() ==>
                var r := TextResize(initialRect.value, activeHandle.value, dx, dy);
                width == r.width && height == r.height &&
                Placement(x, y, canvas.guideLines) ==
                old(SetPosResult(canvas, elementId, x, y, r.x, r.y, r.width, r.height))
      ensures Dragging() && Found(canvas, elementId) != null ==>
                Found(canvas, elementId).rect == Rect(x, y, ClampDimension(width), ClampDimension(height))
      ensures canvas.page != null ==>
                forall e :: e in canvas.page.elements && e != Found(canvas, elementId) ==> e.rect == old(e.rect)
      ensures !Dragging() && canvas.page != null ==>
                forall e :: e in canvas.page.elements ==> e.rect == old(e.rect)
      ensures canvas.page != null ==>
                forall e :: e in canvas.page.elements ==> e.Data() == old(e.Data()).(rect := e.rect)
    {
      if !Dragging() {
        return;
      }
      var r := TextResize(initialRect.value, activeHandle.value, dx, dy);
      width, height := r.width, r.height;
      SetPos(r.x, r.y);
      canvas.HandleGeometryChanged(elementId, x, y, width, height);
    }
  }

  // ---------------------------------------------------------------------------
  // The snap during a resize moves the edge that was not dragged
  // ---------------------------------------------------------------------------

  /**
   * A left-handle drag of -97 on a 100 x 100 image at (100, 100) on an empty 595 x 842 page:
   * `ImageResize` keeps the right edge at 200, but `SetPos` then snaps the new left edge
   * from 3 to the page edge at 0 and the pixmap keeps the width 197, so the right edge the
   * user did not drag ends at 197.
   */
  lemma LeftDragSnapShiftsRightEdge()
    ensures var initial := Rect(100.0, 100.0, 100.0, 100.0);
            var g := ImageResize(initial, Left, -97.0, 0.0);
            var s := ComputeSnap([], "img", 595.0, 842.0, g.x, g.y, initial.width, initial.height);
            g == ImageGeometry(3.0, 100.0, 197, 100) && g.x + g.width as real == initial.Right() &&
            s.x == 0.0 && s.y == 100.0 && s.x + g.width as real == initial.Right() - 3.0
  {
    var initial := Rect(100.0, 100.0, 100.0, 100.0);
    var g := ImageResize(initial, Left, -97.0, 0.0);
    assert g.width == MaxInt(ImageMinSize, Trunc(197.0));
    assert Trunc(197.0) == 197;
  }

  /**
   * The geometry a resize of an image evidently means to leave once its corner is snapped
   * to (sx, sy): an edge that was not dragged stays where `ImageResize` put it, and a
   * dragged left or top edge goes to the snapped coordinate with the side recomputed from
   * there to the initial right or bottom edge.
   */
  function AnchoredImageResize(initial: Rect, handle: Handle, dx: real, dy: real, sx: real, sy: real): (a: ImageGeometry)
    ensures a.width >= ImageMinSize && a.height >= ImageMinSize
    ensures handle.MovesLeft() ==> a.x == sx
    ensures handle.MovesTop() ==> a.y == sy
    ensures !handle.MovesLeft() ==> a.x == initial.x
    ensures !handle.MovesTop() ==> a.y == initial.y
    ensures handle.MovesLeft() && initial.Right() - sx >= ImageMinSize as real ==>
              initial.Right() - 1.0 < a.x + a.width as real <= initial.Right()
    ensures handle.MovesTop() && initial.Bottom() - sy >= ImageMinSize as real ==>
              initial.Bottom() - 1.0 < a.y + a.height as real <= initial.Bottom()
    ensures !handle.MovesLeft() ==> a.width == ImageResize(initial, handle, dx, dy).width
    ensures !handle.MovesTop() ==> a.height == ImageResize(initial, handle, dx, dy).height
  {
    var g := ImageResize(initial, handle, dx, dy);
    ImageGeometry(
      if handle.MovesLeft() then sx else g.x,
      if handle.MovesTop() then sy else g.y,
      if handle.MovesLeft() then MaxInt(ImageMinSize, Trunc(initial.Right() - sx)) else g.width,
      if handle.MovesTop() then MaxInt(ImageMinSize, Trunc(initial.Bottom() - sy)) else g.height)
  }

  /** On the drag of `LeftDragSnapShiftsRightEdge`, the anchored geometry keeps the right edge at 200. */
  lemma AnchoredResizeKeepsRightEdge()
    ensures var initial := Rect(100.0, 100.0, 100.0, 100.0);
            var g := ImageResize(initial, Left, -97.0, 0.0);
            var s := ComputeSnap([], "img", 595.0, 842.0, g.x, g.y, initial.width, initial.height);
            AnchoredImageResize(initial, Left, -97.0, 0.0, s.x, s.y) == ImageGeometry(0.0, 100.0, 200, 100)
  {
    LeftDragSnapShiftsRightEdge();
    assert Trunc(200.0) == 200;
  }
}
