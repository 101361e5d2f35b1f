/**
 * The main window's editing actions (src/pdf_editor/widgets/main_window.py): inserting
 * an image on the current page and applying a geometry edit from the property panel.
 */
module MainWindow {
  import opened Wrappers
  import opened Numeric
  import opened Document

  /** Share of the page width a new image may take at most. */
  const MaxWidthShare: real := 0.6

  /**
   * Where a newly inserted image of `pixWidth` by `pixHeight` pixels goes on a page of
   * `pageWidth` by `pageHeight` points: no wider than the image or 60% of the page, the
   * height scaled by the same factor but at least 1, centred, and never left of or above 0.
   */
  function Placement(pixWidth: nat, pixHeight: nat, pageWidth: real, pageHeight: real): (r: Rect)
    ensures r.width <= pixWidth as real && r.width <= MaxWidthShare * pageWidth
    ensures r.width == pixWidth as real || r.width == MaxWidthShare * pageWidth
    ensures r.height >= 1.0
    ensures r.x >= 0.0 && r.y >= 0.0
  {
    var width := Min(pixWidth as real, pageWidth * MaxWidthShare);
    var scale := width / MaxInt(1, pixWidth) as real;
    var height := Max(1.0, pixHeight as real * scale);
    Rect(Max(0.0, (pageWidth - width) / 2.0), Max(0.0, (pageHeight - height) / 2.0), width, height)
  }

  /** Unless the height is raised to 1, the image keeps its aspect ratio. */
  lemma PlacementKeepsAspect(pixWidth: nat, pixHeight: nat, pageWidth: real, pageHeight: real)
    requires pixWidth > 0
    requires Placement(pixWidth, pixHeight, pageWidth, pageHeight).height > 1.0
    ensures var r := Placement(pixWidth, pixHeight, pageWidth, pageHeight);
      r.height * pixWidth as real == pixHeight as real * r.width
  {
    var r := Placement(pixWidth, pixHeight, pageWidth, pageHeight);
    var w := pixWidth as real;
    assert r.height == pixHeight as real * (r.width / w);
    assert (r.width / w) * w == r.width;
  }

  /** On a page of non-negative width the image is centred horizontally. */
  lemma PlacementCentredHorizontally(pixWidth: nat, pixHeight: nat, pageWidth: real, pageHeight: real)
    requires pageWidth >= 0.0
    ensures var r := Placement(pixWidth, pixHeight, pageWidth, pageHeight);
      r.x + r.width / 2.0 == pageWidth / 2.0
  {
  }

  /** The image is centred vertically when it fits the page's height, and put at the top otherwise. */
  lemma PlacementVertical(pixWidth: nat, pixHeight: nat, pageWidth: real, pageHeight: real)
    ensures var r := Placement(pixWidth, pixHeight, pageWidth, pageHeight);
      (r.height <= pageHeight ==> r.y + r.height / 2.0 == pageHeight / 2.0) &&
      (r.height > pageHeight ==> r.y == 0.0)
  {
  }

  /** A 200 by 100 pixel image on an A4 page (595 by 842 points) is placed at full size in the middle. */
  lemma PlacementOnA4()
    ensures Placement(200, 100, 595.0, 842.0) == Rect(197.5, 371.0, 200.0, 100.0)
  {
  }

  /** A file picked in the dialog: its path, its bytes and, when they decode as an image, its size in pixels. */
  datatype PickedImage = PickedImage(path: string, data: Bytes, size: Option<(nat, nat)>)

  /** The window's editing state: the open document, the page shown and the selected element. */
  class Window {
    var document: DocumentModel?
    var currentPageIndex: Option<int>
    var selected: Element?

    constructor ()
      ensures document == null && currentPageIndex.None? && selected == null
    {
      document := null;
      currentPageIndex := None;
      selected := null;
    }

    /** The pages of the open document, none without one. */
    function Pages(): set<PageModel>
      reads this, document
    {
      if document == null then {} else set p | p in document.pages
    }

    /** Whether a picked file gets inserted: a document, a current page in range and an image that decodes. */
    predicate CanInsert(pick: Option<PickedImage>)
      reads this, document
    {
      document != null && currentPageIndex.Some? && document.GetPage(currentPageIndex.value).Success? &&
      pick.Some? && pick.value.size.Some?
    }

    /** The page an image is inserted on. */
    function CurrentPage(pick: Option<PickedImage>): PageModel
      requires CanInsert(pick)
      reads this, document
    {
      document.GetPage(currentPageIndex.value).value
    }

    /**
     * `_insert_image`: with a document and a current page, a picked file that decodes as
     * an image is added on top of the current page at `Placement`, with id `newId`, and
     * the first element carrying that id becomes the selection (an empty id selects
     * nothing, as the refresh skips a falsy id). Without a document or a
     * current page, when the dialog is cancelled, the file does not decode, or the current
     * index is out of range (the source raises), nothing changes.
     */
    method InsertImage(pick: Option<PickedImage>, newId: string)
      modifies Pages()`elements, this`selected
      ensures document == old(document) && currentPageIndex == old(currentPageIndex)
      ensures !CanInsert(pick) ==> selected == old(selected)
      ensures !CanInsert(pick) ==> forall p :: p in Pages() ==> p.elements == old(p.elements)
      ensures CanInsert(pick) ==> forall p :: p in Pages() && p != CurrentPage(pick) ==> p.elements == old(p.elements)
      ensures CanInsert(pick) ==>
        var page := CurrentPage(pick);
        |page.elements| == |old(page.elements)| + 1 &&
        var e := page.elements[|old(page.elements)|];
        fresh(e) && page.elements == old(page.elements) + [e] &&
        e.id == newId && e.kind == Image(pick.value.path, pick.value.data) &&
        e.rect == Placement(pick.value.size.value.0, pick.value.size.value.1, page.width, page.height) &&
        e.rotation == 0.0 && e.opacity == 1.0 && e.visible && !e.locked &&
        (newId != "" && newId !in Ids(old(page.elements)) ==> selected == e)
      ensures CanInsert(pick) ==> newId in Ids(CurrentPage(pick).elements)
      ensures CanInsert(pick) && newId != "" ==>
                selected == CurrentPage(pick).elements[IndexOfId(CurrentPage(pick).elements, newId)]
      ensures CanInsert(pick) && newId == "" ==> selected == old(selected)
    {
      if document == null || currentPageIndex.None? {
        return;
      }
      if pick.None? || pick.value.size.None? {
        return;
      }
      var lookup := document.GetPage(currentPageIndex.value);
      if lookup.Failure? {
        return;
      }
      var page := lookup.value;
      var (pixWidth, pixHeight) := pick.value.size.value;
      var place := Placement(pixWidth, pixHeight, page.width, page.height);
      var element := CreateImageElement(newId, place.x, place.y, place.width, place.height, pick.value.path, pick.value.data);
      AddAndSelect(page, element);
    }

    /** Adds `element` on top of `page` and, unless its id is empty, selects the first element carrying that id. */
    method AddAndSelect(page: PageModel, element: Element)
      modifies page`elements, this`selected
      ensures page.elements == old(page.elements) + [element]
      ensures element.id in Ids(page.elements)
      ensures element.id != "" ==> selected == page.elements[IndexOfId(page.elements, element.id)]
      ensures element.id != "" && element.id !in Ids(old(page.elements)) ==> selected == element
      ensures element.id == "" ==> selected == old(selected)
    {
      page.AddElement(element);
      assert Ids(page.elements)[|page.elements| - 1] == element.id;
      if element.id != "" {
        selected := page.FindElement(element.id);
        if element.id !in Ids(old(page.elements)) {
          assert forall j :: 0 <= j < |old(page.elements)| ==> Ids(old(page.elements))[j] == page.elements[j].id;
        }
      }
    }

    /**
     * `_handle_property_geometry_edited`: with a document, a current page and a selection,
     * the selected element moves to (x, y) and takes the size, each clamped to at least 1;
     * otherwise nothing changes.
     */
    method HandlePropertyGeometryEdited(x: real, y: real, width: real, height: real)
      modifies if selected == null then {} else {selected}
      ensures document == null || currentPageIndex.None? || selected == null ==>
                selected == null || selected.rect == old(selected.rect)
      ensures document != null && currentPageIndex.Some? && selected != null ==>
                selected.rect == Rect(x, y, ClampDimension(width), ClampDimension(height))
      ensures selected != null ==> selected.Data() == old(selected.Data()).(rect := selected.rect)
    {
      if document == null || currentPageIndex.None? {
        return;
      }
      var element := selected;
      if element == null {
        return;
      }
      element.MoveTo(x, y);
      element.Resize(width, height);
    }
  }
}
