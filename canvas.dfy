/**
 * The page canvas (PageCanvas in src/pdf_editor/widgets/canvas.py): the snapping it
 * applies while an element is dragged, the guide and grid lines it draws, and the
 * write-back of an item's geometry into the page model.
 */
module Canvas {
  import opened Numeric
  import opened Document
  import opened Snapping

  /** A line segment in scene coordinates, from (x1, y1) to (x2, y2). */
  datatype Line = Line(x1: real, y1: real, x2: real, y2: real)

  /** A vertical guide spans the page's height at its x; a horizontal one spans the width at its y. */
  function GuideLine(g: Guide, pageWidth: real, pageHeight: real): Line
  {
    if g.orientation == V then Line(g.coord, 0.0, g.coord, pageHeight)
    else Line(0.0, g.coord, pageWidth, g.coord)
  }

  /** The lines drawn for a list of guides, one per guide and in the same order. */
  function GuideLines(gs: seq<Guide>, pageWidth: real, pageHeight: real): seq<Line>
  {
    if gs == [] then [] else GuideLines(gs[..|gs| - 1], pageWidth, pageHeight) + [GuideLine(gs[|gs| - 1], pageWidth, pageHeight)]
  }

  /**
   * Every guide gets exactly one line, in order: a vertical guide at x = c becomes the segment
   * (c, 0)-(c, height) and a horizontal guide at y = c the segment (0, c)-(width, c).
   */
  lemma {:induction false} GuideLinesShape(gs: seq<Guide>, pageWidth: real, pageHeight: real)
    ensures |GuideLines(gs, pageWidth, pageHeight)| == |gs|
    ensures forall i :: 0 <= i < |gs| && gs[i].orientation == V ==>
              GuideLines(gs, pageWidth, pageHeight)[i] == Line(gs[i].coord, 0.0, gs[i].coord, pageHeight)
    ensures forall i :: 0 <= i < |gs| && gs[i].orientation == H ==>
              GuideLines(gs, pageWidth, pageHeight)[i] == Line(0.0, gs[i].coord, pageWidth, gs[i].coord)
  {
    if gs != [] {
      var init := gs[..|gs| - 1];
      GuideLinesShape(init, pageWidth, pageHeight);
      assert forall i :: 0 <= i < |init| ==> init[i] == gs[i];
    }
  }

  /** Spacing of the grid, in points. */
  const GridStep: int := 50

  /** Python's `range(start, stop, step)` for a positive step. */
  function Range(start: int, stop: int, step: int): seq<int>
    requires step > 0
    decreases stop - start
  {
    if start >= stop then [] else [start] + Range(start + step, stop, step)
  }

  /** The vertical grid lines at the given x coordinates, each spanning 0 to `height`. */
  function VerticalLines(xs: seq<int>, height: int): seq<Line>
  {
    if xs == [] then [] else [Line(xs[0] as real, 0.0, xs[0] as real, height as real)] + VerticalLines(xs[1..], height)
  }

  /** The horizontal grid lines at the given y coordinates, each spanning 0 to `width`. */
  function HorizontalLines(ys: seq<int>, width: int): seq<Line>
  {
    if ys == [] then [] else [Line(0.0, ys[0] as real, width as real, ys[0] as real)] + HorizontalLines(ys[1..], width)
  }

  /** The grid of a page whose size, truncated to whole points, is `width` by `height`. */
  function GridLines(width: int, height: int): seq<Line>
  {
    VerticalLines(Range(GridStep, width, GridStep), height) + HorizontalLines(Range(GridStep, height, GridStep), width)
  }

  /** The values of `range(start, stop, 50)` are the numbers from `start` below `stop` a whole number of steps on. */
  lemma {:induction false} RangeMembers(start: int, stop: int)
    ensures forall k :: k in Range(start, stop, GridStep) <==> start <= k < stop && (k - start) % GridStep == 0
    decreases stop - start
  {
    if start < stop {
      var rest := Range(start + GridStep, stop, GridStep);
      RangeMembers(start + GridStep, stop);
      assert Range(start, stop, GridStep) == [start] + rest;
    }
  }

  /** `range(start, stop, 50)` is strictly increasing and starts at `start`. */
  lemma {:induction false} RangeIncreasing(start: int, stop: int)
    ensures forall i :: 0 <= i < |Range(start, stop, GridStep)| ==> start <= Range(start, stop, GridStep)[i]
    ensures forall i, j :: 0 <= i < j < |Range(start, stop, GridStep)| ==>
              Range(start, stop, GridStep)[i] < Range(start, stop, GridStep)[j]
    decreases stop - start
  {
    if start < stop {
      RangeIncreasing(start + GridStep, stop);
      assert Range(start, stop, GridStep) == [start] + Range(start + GridStep, stop, GridStep);
    }
  }

  /** `range(start, stop, 50)` has (stop - start + 49) / 50 values when `start < stop`, none otherwise. */
  lemma {:induction false} RangeLength(start: int, stop: int)
    ensures |Range(start, stop, GridStep)| == if start >= stop then 0 else (stop - start - 1) / GridStep + 1
    decreases stop - start
  {
    if start < stop {
      RangeLength(start + GridStep, stop);
    }
  }

  /** Grid lines lie strictly inside the page on the multiples of 50, increasing, and there are (n - 1) / 50 of them. */
  lemma GridCoordinates(n: int)
    ensures forall k :: k in Range(GridStep, n, GridStep) <==> 0 < k < n && k % GridStep == 0
    ensures forall i, j :: 0 <= i < j < |Range(GridStep, n, GridStep)| ==>
              Range(GridStep, n, GridStep)[i] < Range(GridStep, n, GridStep)[j]
    ensures |Range(GridStep, n, GridStep)| == if n <= GridStep then 0 else (n - 1) / GridStep
  {
    RangeMembers(GridStep, n);
    RangeIncreasing(GridStep, n);
    RangeLength(GridStep, n);
  }

  /** The vertical lines are the given x coordinates, in order, each running the full height. */
  lemma {:induction false} VerticalLinesShape(xs: seq<int>, height: int)
    ensures |VerticalLines(xs, height)| == |xs|
    ensures forall i :: 0 <= i < |xs| ==>
              VerticalLines(xs, height)[i] == Line(xs[i] as real, 0.0, xs[i] as real, height as real)
  {
    if xs != [] {
      VerticalLinesShape(xs[1..], height);
    }
  }

  /** The horizontal lines are the given y coordinates, in order, each running the full width. */
  lemma {:induction false} HorizontalLinesShape(ys: seq<int>, width: int)
    ensures |HorizontalLines(ys, width)| == |ys|
    ensures forall i :: 0 <= i < |ys| ==>
              HorizontalLines(ys, width)[i] == Line(0.0, ys[i] as real, width as real, ys[i] as real)
  {
    if ys != [] {
      HorizontalLinesShape(ys[1..], width);
    }
  }

  /** Appends the guide coordinates already emitted in front of what a later pass yields. */
  function After(coords: seq<real>, a: AxisSnap): AxisSnap
  {
    AxisSnap(a.pos, coords + a.coords)
  }

  /** Trying the first target and then the rest is the whole pass. */
  lemma TargetsPassStep(coords: seq<real>, p: real, size: real, ts: seq<real>)
    requires ts != []
    ensures After(coords, TargetsPass(p, size, ts)) ==
            After(coords + TargetRule(p, size, ts[0]).coords, TargetsPass(TargetRule(p, size, ts[0]).pos, size, ts[1..]))
  {
    var r := TargetRule(p, size, ts[0]);
    assert coords + (r.coords + TargetsPass(r.pos, size, ts[1..]).coords)
        == (coords + r.coords) + TargetsPass(r.pos, size, ts[1..]).coords;
  }

  /** One sibling's targets on one axis: every match overwrites the position and records the target. */
  method SnapToTargets(pos: real, size: real, targets: seq<real>) returns (p: real, coords: seq<real>)
    ensures AxisSnap(p, coords) == TargetsPass(pos, size, targets)
  {
    p, coords := pos, [];
    var j := 0;
    while j < |targets|
      invariant 0 <= j <= |targets|
      invariant After(coords, TargetsPass(p, size, targets[j..])) == TargetsPass(pos, size, targets)
    {
      var target := targets[j];
      TargetsPassStep(coords, p, size, targets[j..]);
      assert targets[j..][0] == target && targets[j..][1..] == targets[j + 1..];
      ghost var rule := TargetRule(p, size, target);
      ghost var before := coords;
      if Abs(p - target) < Threshold {
        p := target;
        coords := coords + [target];
      } else if Abs(p + size - target) < Threshold {
        p := target - size;
        coords := coords + [target];
      }
      assert p == rule.pos && coords == before + rule.coords;
      j := j + 1;
    }
    assert targets[j..] == [];
  }

  /**
   * The page rule on one axis: the element's centre snaps onto the page's centre, else its
   * near edge onto 0, else its far edge onto the page's extent; at most one guide results.
   */
  method SnapToPage(pos: real, size: real, extent: real) returns (p: real, coords: seq<real>)
    ensures AxisSnap(p, coords) == PageRule(pos, size, extent)
  {
    var center := extent / 2.0;
    p, coords := pos, [];
    if Abs(pos + size / 2.0 - center) < Threshold {
      p := center - size / 2.0;
      coords := [center];
    } else if Abs(pos) < Threshold {
      p := 0.0;
      coords := [0.0];
    } else if Abs(pos + size - extent) < Threshold {
      p := extent - size;
      coords := [extent];
    }
  }

  /** The view of one page: the page it shows and the guide and grid lines currently drawn. */
  class PageCanvas {
    var page: PageModel?
    var guideLines: seq<Line>
    var gridLines: seq<Line>
    var gridVisible: bool

    constructor ()
      ensures page == null && guideLines == [] && gridLines == [] && !gridVisible
    {
      page := null;
      guideLines := [];
      gridLines := [];
      gridVisible := false;
    }

    /**
     * The snapped position of `elementId` dragged to (x, y) and the guides to show: the page's
     * centre and edges first, then the three x and three y targets of every other visible element.
     */
    method ComputeSnapGuides(elementId: string, x: real, y: real, width: real, height: real)
      returns (sx: real, sy: real, guides: seq<Guide>)
      requires page != null
      ensures SnapResult(sx, sy, guides) ==
              ComputeSnap(ElementsData(page.elements), elementId, page.width, page.height, x, y, width, height)
    {
      var cx, cy;
      sx, cx := SnapToPage(x, width, page.width);
      sy, cy := SnapToPage(y, height, page.height);
      guides := Tag(V, cx) + Tag(H, cy);

      ghost var data := ElementsData(page.elements);
      assert data[0..] == data;
      var i := 0;
      while i < |page.elements|
        invariant 0 <= i <= |page.elements|
        invariant SiblingsPass(SnapResult(sx, sy, guides), data[i..], elementId, width, height) ==
                  ComputeSnap(data, elementId, page.width, page.height, x, y, width, height)
      {
        var e := page.elements[i];
        assert data[i..][0] == e.Data() && data[i..][1..] == data[i + 1..];
        if e.id != elementId && e.visible {
          var vs, hs;
          sx, vs := SnapToTargets(sx, width, [e.rect.x, e.rect.x + e.rect.width / 2.0, e.rect.x + e.rect.width]);
          sy, hs := SnapToTargets(sy, height, [e.rect.y, e.rect.y + e.rect.height / 2.0, e.rect.y + e.rect.height]);
          guides := guides + Tag(V, vs) + Tag(H, hs);
        }
        i := i + 1;
      }
      assert data[i..] == [];
    }

    /** Removes every guide line. */
    method ClearGuides()
      modifies this`guideLines
      ensures guideLines == []
    {
      guideLines := [];
    }

    /** Replaces the guide lines by one line per guide across the page; none without a page. */
    method ShowGuides(guides: seq<Guide>)
      modifies this`guideLines
      ensures page == null ==> guideLines == []
      ensures page != null ==> guideLines == GuideLines(guides, page.width, page.height)
    {
      ClearGuides();
      if page == null {
        return;
      }
      var i := 0;
      while i < |guides|
        invariant 0 <= i <= |guides|
        invariant guideLines == GuideLines(guides[..i], page.width, page.height)
      {
        var g := guides[i];
        var line;
        if g.orientation == V {
          line := Line(g.coord, 0.0, g.coord, page.height);
        } else {
          line := Line(0.0, g.coord, page.width, g.coord);
        }
        assert guides[..i + 1][..i] == guides[..i];
        guideLines := guideLines + [line];
        i := i + 1;
      }
      assert guides[..i] == guides;
    }

    /**
     * The position an item is allowed to move to. Without a page the requested position is
     * kept and the guides are cleared; otherwise it is snapped and its guides are drawn.
     */
    method RequestSnapPosition(elementId: string, x: real, y: real, width: real, height: real)
      returns (rx: real, ry: real)
      modifies this`guideLines
      ensures page == null ==> rx == x && ry == y && guideLines == []
      ensures page != null ==>
        var s := ComputeSnap(ElementsData(page.elements), elementId, page.width, page.height, x, y, width, height);
        rx == s.x && ry == s.y && guideLines == GuideLines(s.guides, page.width, page.height)
    {
      if page == null {
        ClearGuides();
        return x, y;
      }
      var guides;
      rx, ry, guides := ComputeSnapGuides(elementId, x, y, width, height);
      ShowGuides(guides);
    }

    /**
     * Rebuilds the grid: with the grid shown and a page present, a vertical line every 50 points
     * across the width and then a horizontal line every 50 points down the height, both
     * computed on the page size truncated to whole points; otherwise no lines.
     */
    method UpdateGridLines()
      modifies this`gridLines
      ensures !gridVisible || page == null ==> gridLines == []
      ensures gridVisible && page != null ==> gridLines == GridLines(Trunc(page.width), Trunc(page.height))
    {
      gridLines := [];
      if !gridVisible || page == null {
        return;
      }
      var width := Trunc(page.width);
      var height := Trunc(page.height);
      var x := GridStep;
      while x < width
        invariant gridLines + VerticalLines(Range(x, width, GridStep), height) ==
                  VerticalLines(Range(GridStep, width, GridStep), height)
        decreases width - x
      {
        gridLines := gridLines + [Line(x as real, 0.0, x as real, height as real)];
        x := x + GridStep;
      }
      ghost var vertical := gridLines;
      var y := GridStep;
      while y < height
        invariant vertical == VerticalLines(Range(GridStep, width, GridStep), height)
        invariant gridLines + HorizontalLines(Range(y, height, GridStep), width) ==
                  vertical + HorizontalLines(Range(GridStep, height, GridStep), width)
        decreases height - y
      {
        gridLines := gridLines + [Line(0.0, y as real, width as real, y as real)];
        y := y + GridStep;
      }
    }

    /** Shows or hides the grid and rebuilds it. */
    method SetGridVisible(visible: bool)
      modifies this`gridVisible, this`gridLines
      ensures gridVisible == visible
      ensures !visible || page == null ==> gridLines == []
      ensures visible && page != null ==> gridLines == GridLines(Trunc(page.width), Trunc(page.height))
    {
      gridVisible := visible;
      UpdateGridLines();
    }

    /**
     * Writes an item's new geometry into the model: the first element of the page carrying
     * `elementId` moves to (x, y) and takes the size, clamped to at least 1 point; every
     * other element keeps its rectangle. Nothing changes without a page or a matching element.
     */
    method HandleGeometryChanged(elementId: string, x: real, y: real, width: real, height: real)
      modifies if page == null then {} else set e | e in page.elements
      ensures page != null && elementId in Ids(page.elements) ==>
        page.elements[IndexOfId(page.elements, elementId)].rect == Rect(x, y, ClampDimension(width), ClampDimension(height))
      ensures page != null && elementId in Ids(page.elements) ==>
        forall e :: e in page.elements && e != page.elements[IndexOfId(page.elements, elementId)] ==> e.rect == old(e.rect)
      ensures page != null && elementId !in Ids(page.elements) ==> forall e :: e in page.elements ==> e.rect == old(e.rect)
      ensures page != null ==> forall e :: e in page.elements ==> e.Data() == old(e.Data()).(rect := e.rect)
    {
      if page == null {
        return;
      }
      var element := page.FindElement(elementId);
      if element == null {
        return;
      }
      element.MoveTo(x, y);
      element.Resize(width, height);
    }
  }
}
