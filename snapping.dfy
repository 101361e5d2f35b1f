/**
 * The snapping rule the page canvas applies while an element is dragged
 * (PageCanvas._compute_snap_guides), as functions of the dragged element's
 * geometry, the page size and the other elements of the page.
 */
module Snapping {
  import opened Numeric
  import opened Document

  /** Distance, in points, within which an edge or centre snaps. */
  const Threshold: real := 6.0

  /** `V` ("v") is a vertical guide at an x coordinate, `H` ("h") a horizontal one at a y coordinate. */
  datatype Orientation = V | H

  datatype Guide = Guide(orientation: Orientation, coord: real)

  /** What one axis yields: the position and the guide coordinates emitted, in order. */
  datatype AxisSnap = AxisSnap(pos: real, coords: seq<real>)

  /** What the whole rule yields: the snapped position and the guides, in emission order. */
  datatype SnapResult = SnapResult(x: real, y: real, guides: seq<Guide>)

  /** The page rule on one axis: the centre, else the near edge at 0, else the far edge at `extent`. */
  function PageRule(pos: real, size: real, extent: real): AxisSnap
  {
    var center := extent / 2.0;
    if Abs(pos + size / 2.0 - center) < Threshold then AxisSnap(center - size / 2.0, [center])
    else if Abs(pos) < Threshold then AxisSnap(0.0, [0.0])
    else if Abs(pos + size - extent) < Threshold then AxisSnap(extent - size, [extent])
    else AxisSnap(pos, [])
  }

  /** One sibling coordinate: the near edge snaps onto it, else the far edge does. */
  function TargetRule(pos: real, size: real, target: real): AxisSnap
  {
    if Abs(pos - target) < Threshold then AxisSnap(target, [target])
    else if Abs(pos + size - target) < Threshold then AxisSnap(target - size, [target])
    else AxisSnap(pos, [])
  }

  /** The coordinates tried for a sibling spanning `start` to `start + len`: its two edges and its centre. */
  function SpanTargets(start: real, len: real): seq<real>
  {
    [start, start + len / 2.0, start + len]
  }

  /** Tries each target in turn against the current position; every match overwrites it. */
  function TargetsPass(pos: real, size: real, ts: seq<real>): AxisSnap
    decreases |ts|
  {
    if ts == [] then AxisSnap(pos, [])
    else
      var a := TargetRule(pos, size, ts[0]);
      var b := TargetsPass(a.pos, size, ts[1..]);
      AxisSnap(b.pos, a.coords + b.coords)
  }

  /** The whole rule on one axis: the page rule, then every sibling target in order. */
  function SnapAxis(pos: real, size: real, extent: real, targets: seq<real>): AxisSnap
  {
    var p := PageRule(pos, size, extent);
    var t := TargetsPass(p.pos, size, targets);
    AxisSnap(t.pos, p.coords + t.coords)
  }

  /** Whether `e` can be snapped to while `selfId` is dragged: not itself, and visible. */
  predicate IsTarget(e: ElementData, selfId: string)
  {
    e.id != selfId && e.visible
  }

  /** The elements that can be snapped to, in page order. */
  function Targets(es: seq<ElementData>, selfId: string): seq<ElementData>
  {
    if es == [] then []
    else if IsTarget(es[0], selfId) then [es[0]] + Targets(es[1..], selfId)
    else Targets(es[1..], selfId)
  }

  /** The x coordinates tried against, element after element. */
  function XTargets(es: seq<ElementData>): seq<real>
  {
    if es == [] then [] else SpanTargets(es[0].rect.x, es[0].rect.width) + XTargets(es[1..])
  }

  /** The y coordinates tried against, element after element. */
  function YTargets(es: seq<ElementData>): seq<real>
  {
    if es == [] then [] else SpanTargets(es[0].rect.y, es[0].rect.height) + YTargets(es[1..])
  }

  function Tag(o: Orientation, cs: seq<real>): (gs: seq<Guide>)
    ensures |gs| == |cs|
    ensures forall i :: 0 <= i < |cs| ==> gs[i] == Guide(o, cs[i])
  {
    seq(|cs|, i requires 0 <= i < |cs| => Guide(o, cs[i]))
  }

  /** The coordinates of the guides of orientation `o`, in order. */
  function Coords(gs: seq<Guide>, o: Orientation): seq<real>
  {
    if gs == [] then []
    else (if gs[0].orientation == o then [gs[0].coord] else []) + Coords(gs[1..], o)
  }

  /** One sibling: its x coordinates are tried, then its y coordinates. */
  function SiblingStep(st: SnapResult, e: ElementData, selfId: string, width: real, height: real): SnapResult
  {
    if !IsTarget(e, selfId) then st
    else
      var xs := TargetsPass(st.x, width, SpanTargets(e.rect.x, e.rect.width));
      var ys := TargetsPass(st.y, height, SpanTargets(e.rect.y, e.rect.height));
      SnapResult(xs.pos, ys.pos, st.guides + Tag(V, xs.coords) + Tag(H, ys.coords))
  }

  function SiblingsPass(st: SnapResult, es: seq<ElementData>, selfId: string, width: real, height: real): SnapResult
    decreases |es|
  {
    if es == [] then st else SiblingsPass(SiblingStep(st, es[0], selfId, width, height), es[1..], selfId, width, height)
  }

  /** The page rules on both axes: the starting point of the sibling pass. */
  function PageStep(pageWidth: real, pageHeight: real, x: real, y: real, width: real, height: real): SnapResult
  {
    var px := PageRule(x, width, pageWidth);
    var py := PageRule(y, height, pageHeight);
    SnapResult(px.pos, py.pos, Tag(V, px.coords) + Tag(H, py.coords))
  }

  /** The position and guides returned for a drag of `selfId` to (x, y) over the page's elements `es`. */
  function ComputeSnap(es: seq<ElementData>, selfId: string, pageWidth: real, pageHeight: real,
                       x: real, y: real, width: real, height: real): SnapResult
  {
    SiblingsPass(PageStep(pageWidth, pageHeight, x, y, width, height), es, selfId, width, height)
  }

  // ---------------------------------------------------------------------------
  // Helper facts about the list functions.

  lemma {:induction false} TargetsPassConcat(pos: real, size: real, a: seq<real>, b: seq<real>)
    ensures var r := TargetsPass(pos, size, a);
            var s := TargetsPass(r.pos, size, b);
            TargetsPass(pos, size, a + b) == AxisSnap(s.pos, r.coords + s.coords)
    decreases |a|
  {
    if a == [] {
      assert a + b == b;
    } else {
      assert (a + b)[0] == a[0];
      assert (a + b)[1..] == a[1..] + b;
      var t := TargetRule(pos, size, a[0]);
      TargetsPassConcat(t.pos, size, a[1..], b);
    }
  }

  lemma {:induction false} CoordsConcat(a: seq<Guide>, b: seq<Guide>, o: Orientation)
    ensures Coords(a + b, o) == Coords(a, o) + Coords(b, o)
  {
    if a == [] {
      assert a + b == b;
    } else {
      assert (a + b)[0] == a[0];
      assert (a + b)[1..] == a[1..] + b;
      CoordsConcat(a[1..], b, o);
    }
  }

  lemma {:induction false} CoordsTag(t: Orientation, cs: seq<real>, o: Orientation)
    ensures Coords(Tag(t, cs), o) == if t == o then cs else []
  {
    if cs != [] {
      assert Tag(t, cs)[1..] == Tag(t, cs[1..]);
      CoordsTag(t, cs[1..], o);
      assert cs == [cs[0]] + cs[1..];
    }
  }

  // ---------------------------------------------------------------------------
  // Properties of the rule.

  /** Appending x guides then y guides extends each orientation's coordinates by its own list. */
  lemma CoordsAppend(gs: seq<Guide>, xs: seq<real>, ys: seq<real>)
    ensures Coords(gs + Tag(V, xs) + Tag(H, ys), V) == Coords(gs, V) + xs
    ensures Coords(gs + Tag(V, xs) + Tag(H, ys), H) == Coords(gs, H) + ys
  {
    CoordsConcat(gs + Tag(V, xs), Tag(H, ys), V);
    CoordsConcat(gs, Tag(V, xs), V);
    CoordsConcat(gs + Tag(V, xs), Tag(H, ys), H);
    CoordsConcat(gs, Tag(V, xs), H);
    CoordsTag(V, xs, V);
    CoordsTag(H, ys, V);
    CoordsTag(V, xs, H);
    CoordsTag(H, ys, H);
  }

  /**
   * The sibling pass on x: its x is the x-only pass over the targets' x coordinates, and
   * the vertical guides it adds are exactly that pass's guides.
   */
  lemma {:induction false} SiblingsPassX(st: SnapResult, es: seq<ElementData>, selfId: string, width: real, height: real)
    ensures var r := SiblingsPass(st, es, selfId, width, height);
            var tx := TargetsPass(st.x, width, XTargets(Targets(es, selfId)));
            r.x == tx.pos && Coords(r.guides, V) == Coords(st.guides, V) + tx.coords
    decreases |es|
  {
    if es == [] {
    } else if !IsTarget(es[0], selfId) {
      SiblingsPassX(st, es[1..], selfId, width, height);
    } else {
      var e := es[0];
      var st' := SiblingStep(st, e, selfId, width, height);
      SiblingsPassX(st', es[1..], selfId, width, height);
      var rest := Targets(es[1..], selfId);
      assert Targets(es, selfId) == [e] + rest;
      assert XTargets([e] + rest) == SpanTargets(e.rect.x, e.rect.width) + XTargets(rest);
      TargetsPassConcat(st.x, width, SpanTargets(e.rect.x, e.rect.width), XTargets(rest));
      var xs := TargetsPass(st.x, width, SpanTargets(e.rect.x, e.rect.width));
      var ys := TargetsPass(st.y, height, SpanTargets(e.rect.y, e.rect.height));
      CoordsAppend(st.guides, xs.coords, ys.coords);
    }
  }

  /** The sibling pass on y, likewise. */
  lemma {:induction false} SiblingsPassY(st: SnapResult, es: seq<ElementData>, selfId: string, width: real, height: real)
    ensures var r := SiblingsPass(st, es, selfId, width, height);
            var ty := TargetsPass(st.y, height, YTargets(Targets(es, selfId)));
            r.y == ty.pos && Coords(r.guides, H) == Coords(st.guides, H) + ty.coords
    decreases |es|
  {
    if es == [] {
    } else if !IsTarget(es[0], selfId) {
      SiblingsPassY(st, es[1..], selfId, width, height);
    } else {
      var e := es[0];
      var st' := SiblingStep(st, e, selfId, width, height);
      SiblingsPassY(st', es[1..], selfId, width, height);
      var rest := Targets(es[1..], selfId);
      assert Targets(es, selfId) == [e] + rest;
      assert YTargets([e] + rest) == SpanTargets(e.rect.y, e.rect.height) + YTargets(rest);
      TargetsPassConcat(st.y, height, SpanTargets(e.rect.y, e.rect.height), YTargets(rest));
      var xs := TargetsPass(st.x, width, SpanTargets(e.rect.x, e.rect.width));
      var ys := TargetsPass(st.y, height, SpanTargets(e.rect.y, e.rect.height));
      CoordsAppend(st.guides, xs.coords, ys.coords);
    }
  }

  /** The page step's guides: the x page guide, if any, then the y page guide, if any. */
  lemma PageStepCoords(pageWidth: real, pageHeight: real, x: real, y: real, width: real, height: real)
    ensures var st := PageStep(pageWidth, pageHeight, x, y, width, height);
            && Coords(st.guides, V) == PageRule(x, width, pageWidth).coords
            && Coords(st.guides, H) == PageRule(y, height, pageHeight).coords
  {
    var px := PageRule(x, width, pageWidth);
    var py := PageRule(y, height, pageHeight);
    assert [] + Tag(V, px.coords) == Tag(V, px.coords);
    CoordsAppend([], px.coords, py.coords);
  }

  /**
   * The axes are independent: the snapped x and the vertical guides are the one-axis rule
   * applied to x, the width, the page width and the x extents of the snap targets; likewise y.
   */
  lemma AxisIndependence(es: seq<ElementData>, selfId: string, pageWidth: real, pageHeight: real,
                         x: real, y: real, width: real, height: real)
    ensures var r := ComputeSnap(es, selfId, pageWidth, pageHeight, x, y, width, height);
            var sx := SnapAxis(x, width, pageWidth, XTargets(Targets(es, selfId)));
            var sy := SnapAxis(y, height, pageHeight, YTargets(Targets(es, selfId)));
            && r.x == sx.pos && Coords(r.guides, V) == sx.coords
            && r.y == sy.pos && Coords(r.guides, H) == sy.coords
  {
    var st := PageStep(pageWidth, pageHeight, x, y, width, height);
    SiblingsPassX(st, es, selfId, width, height);
    SiblingsPassY(st, es, selfId, width, height);
    PageStepCoords(pageWidth, pageHeight, x, y, width, height);
  }

  /** The snapped x never depends on y, the height, the page height or the targets' y extents. */
  lemma SnappedXIgnoresVertical(es1: seq<ElementData>, es2: seq<ElementData>, selfId: string,
                                pageWidth: real, pageHeight1: real, pageHeight2: real,
                                x: real, y1: real, y2: real, width: real, height1: real, height2: real)
    requires XTargets(Targets(es1, selfId)) == XTargets(Targets(es2, selfId))
    ensures ComputeSnap(es1, selfId, pageWidth, pageHeight1, x, y1, width, height1).x
         == ComputeSnap(es2, selfId, pageWidth, pageHeight2, x, y2, width, height2).x
  {
    AxisIndependence(es1, selfId, pageWidth, pageHeight1, x, y1, width, height1);
    AxisIndependence(es2, selfId, pageWidth, pageHeight2, x, y2, width, height2);
  }

  /** The snapped y never depends on x, the width, the page width or the targets' x extents. */
  lemma SnappedYIgnoresHorizontal(es1: seq<ElementData>, es2: seq<ElementData>, selfId: string,
                                  pageWidth1: real, pageWidth2: real, pageHeight: real,
                                  x1: real, x2: real, y: real, width1: real, width2: real, height: real)
    requires YTargets(Targets(es1, selfId)) == YTargets(Targets(es2, selfId))
    ensures ComputeSnap(es1, selfId, pageWidth1, pageHeight, x1, y, width1, height).y
         == ComputeSnap(es2, selfId, pageWidth2, pageHeight, x2, y, width2, height).y
  {
    AxisIndependence(es1, selfId, pageWidth1, pageHeight, x1, y, width1, height);
    AxisIndependence(es2, selfId, pageWidth2, pageHeight, x2, y, width2, height);
  }

  /** The dragged element itself and invisible elements are never snap targets. */
  lemma {:induction false} NonTargetsIgnored(st: SnapResult, es: seq<ElementData>, selfId: string, width: real, height: real)
    ensures SiblingsPass(st, es, selfId, width, height) == SiblingsPass(st, Targets(es, selfId), selfId, width, height)
    decreases |es|
  {
    if es != [] {
      var st' := SiblingStep(st, es[0], selfId, width, height);
      NonTargetsIgnored(st', es[1..], selfId, width, height);
      if IsTarget(es[0], selfId) {
        var ts := [es[0]] + Targets(es[1..], selfId);
        assert ts[0] == es[0] && ts[1..] == Targets(es[1..], selfId);
      }
    }
  }

  /** Each target match moves the position by less than the threshold; no match, no move. */
  lemma {:induction false} TargetsPassMoves(pos: real, size: real, ts: seq<real>)
    ensures var r := TargetsPass(pos, size, ts);
            && (r.coords == [] ==> r.pos == pos)
            && (r.coords != [] ==> Abs(r.pos - pos) < Threshold * |r.coords| as real)
    decreases |ts|
  {
    if ts != [] {
      var a := TargetRule(pos, size, ts[0]);
      TargetsPassMoves(a.pos, size, ts[1..]);
    }
  }

  /**
   * On one axis every snap moves the position by less than the threshold and emits one
   * guide: with no guide the position is returned unchanged, and with k guides it moved
   * by less than k times the threshold.
   */
  lemma SnapAxisMoves(pos: real, size: real, extent: real, targets: seq<real>)
    ensures var r := SnapAxis(pos, size, extent, targets);
            && (r.coords == [] ==> r.pos == pos)
            && (r.coords != [] ==> Abs(r.pos - pos) < Threshold * |r.coords| as real)
  {
    var p := PageRule(pos, size, extent);
    TargetsPassMoves(p.pos, size, targets);
  }

  /** After a pass with at least one match, the position sits on the last guide emitted. */
  lemma {:induction false} TargetsPassAligned(pos: real, size: real, ts: seq<real>)
    ensures var r := TargetsPass(pos, size, ts);
            r.coords != [] ==> var c := r.coords[|r.coords| - 1];
                               r.pos == c || r.pos + size == c
    decreases |ts|
  {
    if ts != [] {
      var a := TargetRule(pos, size, ts[0]);
      TargetsPassAligned(a.pos, size, ts[1..]);
      TargetsPassMoves(a.pos, size, ts[1..]);
    }
  }

  /**
   * Whenever a guide is shown on an axis, the element's near edge, centre or far edge lies
   * exactly on the last one.
   */
  lemma SnapAxisAligned(pos: real, size: real, extent: real, targets: seq<real>)
    ensures var r := SnapAxis(pos, size, extent, targets);
            r.coords != [] ==> var c := r.coords[|r.coords| - 1];
                               r.pos == c || r.pos + size / 2.0 == c || r.pos + size == c
  {
    var p := PageRule(pos, size, extent);
    TargetsPassAligned(p.pos, size, targets);
    TargetsPassMoves(p.pos, size, targets);
  }

  /**
   * The page rules form a chain with priority centre, near edge, far edge: at most one page
   * guide per axis, and when one fires it is the first guide of that axis.
   */
  lemma PageRulePriority(pos: real, size: real, extent: real, targets: seq<real>)
    ensures |PageRule(pos, size, extent).coords| <= 1
    ensures var r := SnapAxis(pos, size, extent, targets);
            var centre := Abs(pos + size / 2.0 - extent / 2.0) < Threshold;
            var near := Abs(pos) < Threshold;
            var far := Abs(pos + size - extent) < Threshold;
            && (centre ==> r.coords != [] && r.coords[0] == extent / 2.0)
            && (!centre && near ==> r.coords != [] && r.coords[0] == 0.0)
            && (!centre && !near && far ==> r.coords != [] && r.coords[0] == extent)
            && (!centre && !near && !far ==> r == TargetsPass(pos, size, targets))
  {
  }

  /**
   * A drag whose centre comes within the threshold of the page centre, with no sibling
   * matching afterwards (only one guide on that axis), ends with its centre exactly on the
   * page centre; likewise vertically.
   */
  lemma CentreSnapExact(es: seq<ElementData>, selfId: string, pageWidth: real, pageHeight: real,
                        x: real, y: real, width: real, height: real)
    ensures var r := ComputeSnap(es, selfId, pageWidth, pageHeight, x, y, width, height);
            && (Abs(x + width / 2.0 - pageWidth / 2.0) < Threshold && |Coords(r.guides, V)| == 1
                ==> r.x + width / 2.0 == pageWidth / 2.0)
            && (Abs(y + height / 2.0 - pageHeight / 2.0) < Threshold && |Coords(r.guides, H)| == 1
                ==> r.y + height / 2.0 == pageHeight / 2.0)
  {
    AxisIndependence(es, selfId, pageWidth, pageHeight, x, y, width, height);
    var px := PageRule(x, width, pageWidth);
    var py := PageRule(y, height, pageHeight);
    TargetsPassMoves(px.pos, width, XTargets(Targets(es, selfId)));
    TargetsPassMoves(py.pos, height, YTargets(Targets(es, selfId)));
  }

  /**
   * Later sibling matches overwrite earlier ones, a page-centre snap included, and they
   * chain: on a 100-point page a 20-point element dragged to x = 41 snaps to the centre
   * (x = 40), then onto a sibling's left edge (43), its centre (48) and its right edge (53),
   * ending 12 points from where it was dropped with its centre off the page centre.
   */
  lemma LaterMatchesOverwrite()
    ensures var sibling := ElementData("b", Rect(43.0, 80.0, 10.0, 10.0), 0.0, 1.0, true, false, Plain);
            ComputeSnap([sibling], "a", 100.0, 100.0, 41.0, 30.0, 20.0, 20.0)
            == SnapResult(53.0, 30.0, [Guide(V, 50.0), Guide(V, 43.0), Guide(V, 48.0), Guide(V, 53.0)])
  {
    var sibling := ElementData("b", Rect(43.0, 80.0, 10.0, 10.0), 0.0, 1.0, true, false, Plain);
    var st := PageStep(100.0, 100.0, 41.0, 30.0, 20.0, 20.0);
    assert st == SnapResult(40.0, 30.0, [Guide(V, 50.0)]);
    var xs := TargetsPass(40.0, 20.0, [43.0, 48.0, 53.0]);
    assert TargetRule(40.0, 20.0, 43.0) == AxisSnap(43.0, [43.0]);
    assert TargetRule(43.0, 20.0, 48.0) == AxisSnap(48.0, [48.0]);
    assert TargetRule(48.0, 20.0, 53.0) == AxisSnap(53.0, [53.0]);
    assert [43.0, 48.0, 53.0][1..] == [48.0, 53.0];
    assert [48.0, 53.0][1..] == [53.0];
    assert TargetsPass(53.0, 20.0, []) == AxisSnap(53.0, []);
    assert xs == AxisSnap(53.0, [43.0, 48.0, 53.0]);
    var ys := TargetsPass(30.0, 20.0, [80.0, 85.0, 90.0]);
    assert [80.0, 85.0, 90.0][1..] == [85.0, 90.0];
    assert [85.0, 90.0][1..] == [90.0];
    assert ys == AxisSnap(30.0, []);
    assert SpanTargets(43.0, 10.0) == [43.0, 48.0, 53.0];
    assert SpanTargets(80.0, 10.0) == [80.0, 85.0, 90.0];
    assert SiblingStep(st, sibling, "a", 20.0, 20.0)
        == SnapResult(53.0, 30.0, [Guide(V, 50.0)] + Tag(V, [43.0, 48.0, 53.0]) + Tag(H, []));
  }
}
