/**
 * The editable document: rectangles, elements placed on pages, pages and the
 * document that holds them (src/pdf_editor/document.py, with the fields the
 * importer, exporter and canvas rely on).
 */
module Document {
  import opened Wrappers
  import opened Numeric

  /** An axis-aligned rectangle in page-space points. */
  datatype Rect = Rect(x: real, y: real, width: real, height: real) {

    /** The right edge. */
    function Right(): (r: real)
      ensures r - width == x
    {
      x + width
    }

    /** The bottom edge. */
    function Bottom(): (b: real)
      ensures b - height == y
    {
      y + height
    }
  }

  type Bytes = seq<bv8>

  /** What kind of element: the base element, an image or a text box. */
  datatype Kind =
    | Plain
    | Image(sourcePath: string, imageBytes: Bytes)
    | Text(text: string, fontFamily: string, fontSize: real, color: string)

  /** The value of an element's fields at one moment. */
  datatype ElementData = ElementData(
    id: string, rect: Rect, rotation: real, opacity: real,
    visible: bool, locked: bool, kind: Kind)

  /** The value of a page's fields (and of its elements) at one moment. */
  datatype PageData = PageData(
    uid: string, width: real, height: real, rotation: int,
    sourceIndex: Option<nat>, elements: seq<ElementData>)

  /** The smallest width or height `resize` stores. */
  const MinDimension: real := 1.0

  /** `max(1.0, v)`: the size `resize` stores for a requested size `v`. */
  function ClampDimension(v: real): (r: real)
    ensures r >= MinDimension
    ensures v >= MinDimension ==> r == v
    ensures v < MinDimension ==> r == MinDimension
  {
    Max(MinDimension, v)
  }

  /** An element placed on a page; its fields are updated in place. */
  class Element {
    const id: string
    var rect: Rect
    var rotation: real
    var opacity: real
    var visible: bool
    var locked: bool
    var kind: Kind

    constructor (id: string, rect: Rect, kind: Kind)
      ensures this.id == id && this.rect == rect && this.kind == kind
      ensures rotation == 0.0 && opacity == 1.0 && visible && !locked
    {
      this.id := id;
      this.rect := rect;
      this.kind := kind;
      rotation := 0.0;
      opacity := 1.0;
      visible := true;
      locked := false;
    }

    function Data(): ElementData
      reads this
    {
      ElementData(id, rect, rotation, opacity, visible, locked, kind)
    }

    /** Moves the top-left corner; the size and every other field stay. */
    method MoveTo(x: real, y: real)
      modifies this`rect
      ensures rect == Rect(x, y, old(rect).width, old(rect).height)
    {
      rect := rect.(x := x, y := y);
    }

    /** Sets the size, never below `MinDimension`; the position stays. */
    method Resize(width: real, height: real)
      modifies this`rect
      ensures rect.x == old(rect).x && rect.y == old(rect).y
      ensures rect.width == ClampDimension(width) && rect.height == ClampDimension(height)
      ensures rect.width >= MinDimension && rect.height >= MinDimension
      ensures width >= MinDimension ==> rect.width == width
      ensures height >= MinDimension ==> rect.height == height
    {
      rect := rect.(width := ClampDimension(width), height := ClampDimension(height));
    }
  }

  /** The ids of a sequence of elements, in order. */
  function Ids(es: seq<Element>): (ids: seq<string>)
    ensures |ids| == |es|
    ensures forall i :: 0 <= i < |es| ==> ids[i] == es[i].id
  {
    if es == [] then [] else [es[0].id] + Ids(es[1..])
  }

  /** The position of the first element carrying `id`. */
  function IndexOfId(es: seq<Element>, id: string): (k: nat)
    requires id in Ids(es)
    ensures k < |es| && es[k].id == id
    ensures forall j :: 0 <= j < k ==> es[j].id != id
  {
    if es[0].id == id then 0
    else
      assert Ids(es) == [es[0].id] + Ids(es[1..]);
      1 + IndexOfId(es[1..], id)
  }

  /** The elements whose id differs from `id`, in their original order. */
  function Without(es: seq<Element>, id: string): seq<Element>
  {
    if es == [] then []
    else if es[0].id == id then Without(es[1..], id)
    else [es[0]] + Without(es[1..], id)
  }

  /** Removing by id distributes over concatenation, so relative order is kept. */
  lemma {:induction false} WithoutConcat(a: seq<Element>, b: seq<Element>, id: string)
    ensures Without(a + b, id) == Without(a, id) + Without(b, id)
  {
    if a == [] {
      assert a + b == b;
    } else {
      assert (a + b)[0] == a[0];
      assert (a + b)[1..] == a[1..] + b;
      WithoutConcat(a[1..], b, id);
    }
  }

  /** Exactly the elements with a different id survive removal. */
  lemma {:induction false} WithoutMembers(es: seq<Element>, id: string)
    ensures forall e :: e in Without(es, id) <==> e in es && e.id != id
  {
    if es != [] {
      WithoutMembers(es[1..], id);
      assert es == [es[0]] + es[1..];
    }
  }

  /** Removing an id that no element carries leaves the list unchanged. */
  lemma {:induction false} WithoutAbsent(es: seq<Element>, id: string)
    requires id !in Ids(es)
    ensures Without(es, id) == es
  {
    if es != [] {
      assert Ids(es)[0] == es[0].id;
      assert Ids(es[1..]) == Ids(es)[1..];
      WithoutAbsent(es[1..], id);
    }
  }

  /** Removing the id of an element just appended with a fresh id undoes the append. */
  lemma RemoveAfterAdd(es: seq<Element>, e: Element)
    requires e.id !in Ids(es)
    ensures Without(es + [e], e.id) == es
  {
    WithoutConcat(es, [e], e.id);
    WithoutAbsent(es, e.id);
    assert Without([e], e.id) == Without([], e.id);
  }

  /** The value of each element of a sequence. */
  function ElementsData(es: seq<Element>): (ds: seq<ElementData>)
    reads es
    ensures |ds| == |es|
    ensures forall i :: 0 <= i < |es| ==> ds[i] == es[i].Data()
  {
    seq(|es|, i requires 0 <= i < |es| reads es => es[i].Data())
  }

  /** A page: its size and provenance, and its elements in z-order (index 0 at the bottom). */
  class PageModel {
    const uid: string
    var width: real
    var height: real
    var rotation: int
    var sourceIndex: Option<nat>
    var elements: seq<Element>

    constructor (uid: string, width: real, height: real, rotation: int, sourceIndex: Option<nat>)
      ensures this.uid == uid && this.width == width && this.height == height
      ensures this.rotation == rotation && this.sourceIndex == sourceIndex
      ensures elements == []
    {
      this.uid := uid;
      this.width := width;
      this.height := height;
      this.rotation := rotation;
      this.sourceIndex := sourceIndex;
      elements := [];
    }

    function Data(): PageData
      reads this, elements
    {
      PageData(uid, width, height, rotation, sourceIndex, ElementsData(elements))
    }

    /** Puts `e` on top of the z-order; the elements below keep their order. */
    method AddElement(e: Element)
      modifies this`elements
      ensures elements == old(elements) + [e]
    {
      elements := elements + [e];
    }

    /** Drops every element carrying `id` and keeps the others in order. */
    method RemoveElement(id: string)
      modifies this`elements
      ensures elements == Without(old(elements), id)
      ensures id !in Ids(elements)
      ensures id !in Ids(old(elements)) ==> elements == old(elements)
    {
      elements := Without(elements, id);
      WithoutMembers(old(elements), id);
      if id !in Ids(old(elements)) {
        WithoutAbsent(old(elements), id);
      }
    }

    /** The first element carrying `id`, or null when there is none. */
    method FindElement(id: string) returns (r: Element?)
      ensures id !in Ids(elements) ==> r == null
      ensures id in Ids(elements) ==> r == elements[IndexOfId(elements, id)]
    {
      var i := 0;
      while i < |elements|
        invariant 0 <= i <= |elements|
        invariant forall j :: 0 <= j < i ==> elements[j].id != id
      {
        if elements[i].id == id {
          return elements[i];
        }
        i := i + 1;
      }
      return null;
    }
  }

  /** Raised by a list index out of range. */
  datatype IndexError = IndexError

  /** The document: its source file and its pages in order. */
  class DocumentModel {
    var sourcePath: string
    var pages: seq<PageModel>

    constructor (sourcePath: string, pages: seq<PageModel>)
      ensures this.sourcePath == sourcePath && this.pages == pages
    {
      this.sourcePath := sourcePath;
      this.pages := pages;
    }

    function PageCount(): (n: nat)
      reads this
      ensures n == |pages|
    {
      |pages|
    }

    /** `pages[index]` with Python's list indexing: negative indices count from the end. */
    function GetPage(index: int): (r: Result<PageModel, IndexError>)
      reads this
      ensures r.Success? <==> -(PageCount() as int) <= index < PageCount()
      ensures 0 <= index < PageCount() ==> r == Success(pages[index])
      ensures -(PageCount() as int) <= index < 0 ==> r == Success(pages[PageCount() + index])
    {
      if 0 <= index < |pages| then Success(pages[index])
      else if -|pages| <= index < 0 then Success(pages[|pages| + index])
      else Failure(IndexError)
    }
  }

  /** A new image element with a fresh id, the given rectangle exactly, rotation 0 and opacity 1. */
  method CreateImageElement(id: string, x: real, y: real, width: real, height: real,
                            sourcePath: string, imageBytes: Bytes) returns (e: Element)
    ensures fresh(e)
    ensures e.id == id && e.rect == Rect(x, y, width, height)
    ensures e.rotation == 0.0 && e.opacity == 1.0 && e.visible && !e.locked
    ensures e.kind == Image(sourcePath, imageBytes)
  {
    e := new Element(id, Rect(x, y, width, height), Image(sourcePath, imageBytes));
  }
}
