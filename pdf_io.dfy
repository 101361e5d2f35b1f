/**
 * Import and export (src/pdf_editor/pdf_io.py). The PDF and imaging libraries are
 * abstracted: the importer receives the source pages' sizes and rendered previews,
 * and the exporter produces a draw plan, one output page of drawing operations per
 * model page, instead of calling the library.
 */
module PdfIo {
  import opened Wrappers
  import opened Numeric
  import opened Document

  /** Python's ValueError, raised by `int(s, 16)` on a malformed string. */
  datatype ValueError = ValueError

  /** A colour as three channels, each meant to lie in [0, 1]. */
  datatype Rgb = Rgb(r: real, g: real, b: real)

  const Black: Rgb := Rgb(0.0, 0.0, 0.0)

  // ---------------------------------------------------------------------------
  // Colour parsing.

  /** `s.lstrip("#")`: every leading '#' removed. */
  function StripHashes(s: string): (r: string)
    ensures |r| <= |s| && r == s[|s| - |r|..]
    ensures forall i :: 0 <= i < |s| - |r| ==> s[i] == '#'
    ensures r == [] || r[0] != '#'
  {
    if s != [] && s[0] == '#' then StripHashes(s[1..]) else s
  }

  /** The value of a hexadecimal digit, either case. */
  function HexDigit(c: char): (d: Option<nat>)
    ensures d.Some? ==> d.value < 16
  {
    if '0' <= c <= '9' then Some(c as nat - '0' as nat)
    else if 'a' <= c <= 'f' then Some(c as nat - 'a' as nat + 10)
    else if 'A' <= c <= 'F' then Some(c as nat - 'A' as nat + 10)
    else None
  }

  predicate AllHex(s: string)
  {
    forall i :: 0 <= i < |s| ==> HexDigit(s[i]).Some?
  }

  /** The value of a string of hexadecimal digits, most significant first. */
  function HexValue(s: string): nat
    requires AllHex(s)
  {
    if s == [] then 0 else 16 * HexValue(s[..|s| - 1]) + HexDigit(s[|s| - 1]).value
  }

  /** The ASCII whitespace `int()` strips from both ends of its argument. */
  predicate IsSpace(c: char)
  {
    c == ' ' || c == '\t' || c == '\n' || c == '\r' || c == '\U{000B}' || c == '\U{000C}'
  }

  function TrimStart(s: string): string
  {
    if s != [] && IsSpace(s[0]) then TrimStart(s[1..]) else s
  }

  function TrimEnd(s: string): string
  {
    if s != [] && IsSpace(s[|s| - 1]) then TrimEnd(s[..|s| - 1]) else s
  }

  /**
   * `int(s, 16)` on ASCII text: surrounding whitespace is ignored, an optional sign is
   * accepted, and at least one hexadecimal digit must follow; anything else raises.
   */
  function PyIntBase16(s: string): Result<int, ValueError>
  {
    var t := TrimEnd(TrimStart(s));
    var digits := if t != [] && (t[0] == '+' || t[0] == '-') then t[1..] else t;
    if digits == [] || !AllHex(digits) then Failure(ValueError)
    else if t[0] == '-' then Success(-(HexValue(digits) as int))
    else Success(HexValue(digits))
  }

  /** `_color_to_rgb` as written: each channel is `int(pair, 16) / 255`. */
  function ColorToRgbAsWritten(color: string): Result<Rgb, ValueError>
  {
    var c := StripHashes(color);
    if |c| != 6 then Success(Black) else ChannelsAsWritten(c)
  }

  /** The three channels of six characters as written: `int(pair, 16) / 255` for each pair. */
  function ChannelsAsWritten(c: string): Result<Rgb, ValueError>
    requires |c| == 6
  {
    var r, g, b := PyIntBase16(c[0..2]), PyIntBase16(c[2..4]), PyIntBase16(c[4..6]);
    if r.Success? && g.Success? && b.Success? then
      Success(Rgb(Channel(r.value), Channel(g.value), Channel(b.value)))
    else Failure(ValueError)
  }

  /** A channel value as a fraction of 255. */
  function Channel(v: int): real
  {
    v as real / 255.0
  }

  /** A pair of hexadecimal digits as a byte value. */
  function HexByte(s: string): (r: Option<nat>)
    requires |s| == 2
    ensures r.Some? <==> AllHex(s)
    ensures r.Some? ==> r.value < 256
  {
    match (HexDigit(s[0]), HexDigit(s[1]))
    case (Some(hi), Some(lo)) => Some(16 * hi + lo)
    case _ => None
  }

  /**
   * A text colour as RGB: the leading '#'s are stripped; anything but six characters
   * gives black; six hexadecimal digits give their three byte values over 255; six
   * characters that are not all hexadecimal digits raise. Every channel lies in [0, 1].
   */
  function ColorToRgb(color: string): (r: Result<Rgb, ValueError>)
    ensures |StripHashes(color)| != 6 ==> r == Success(Black)
    ensures r.Failure? <==> |StripHashes(color)| == 6 && !AllHex(StripHashes(color))
    ensures r.Success? ==> 0.0 <= r.value.r <= 1.0 && 0.0 <= r.value.g <= 1.0 && 0.0 <= r.value.b <= 1.0
  {
    var c := StripHashes(color);
    if |c| != 6 then Success(Black) else Channels(c)
  }

  /** The three channels of six characters: each pair of hexadecimal digits over 255; anything else raises. */
  function Channels(c: string): (r: Result<Rgb, ValueError>)
    requires |c| == 6
    ensures r.Failure? <==> !AllHex(c)
    ensures r.Success? ==> 0.0 <= r.value.r <= 1.0 && 0.0 <= r.value.g <= 1.0 && 0.0 <= r.value.b <= 1.0
  {
      assert AllHex(c) <==> AllHex(c[0..2]) && AllHex(c[2..4]) && AllHex(c[4..6]) by {
        if AllHex(c[0..2]) && AllHex(c[2..4]) && AllHex(c[4..6]) {
          forall i | 0 <= i < 6 ensures HexDigit(c[i]).Some? {
            if i < 2 { assert c[i] == c[0..2][i]; }
            else if i < 4 { assert c[i] == c[2..4][i - 2]; }
            else { assert c[i] == c[4..6][i - 4]; }
          }
        }
      }
      var r, g, b := HexByte(c[0..2]), HexByte(c[2..4]), HexByte(c[4..6]);
      if r.Some? && g.Some? && b.Some? then
        Success(Rgb(Channel(r.value), Channel(g.value), Channel(b.value)))
      else Failure(ValueError)
  }

  /** The lowercase hexadecimal digit for `d`. */
  function DigitChar(d: nat): (c: char)
    requires d < 16
    ensures HexDigit(c) == Some(d)
  {
    if d < 10 then ('0' as nat + d) as char else ('a' as nat + d - 10) as char
  }

  /** `#rrggbb`, the form a colour name takes. */
  function FormatColor(r: nat, g: nat, b: nat): string
    requires r < 256 && g < 256 && b < 256
  {
    ['#', DigitChar(r / 16), DigitChar(r % 16), DigitChar(g / 16), DigitChar(g % 16), DigitChar(b / 16), DigitChar(b % 16)]
  }

  /** Two formatted digits read back as the byte they were made from. */
  lemma DigitPairRoundTrip(v: nat)
    requires v < 256
    ensures HexByte([DigitChar(v / 16), DigitChar(v % 16)]) == Some(v)
  {
  }

  /** Parsing a formatted colour gives back its three bytes over 255. */
  lemma ColorRoundTrip(r: nat, g: nat, b: nat)
    requires r < 256 && g < 256 && b < 256
    ensures ColorToRgb(FormatColor(r, g, b)) == Success(Rgb(r as real / 255.0, g as real / 255.0, b as real / 255.0))
  {
    var s := FormatColor(r, g, b);
    var c := s[1..];
    assert c[0] != '#' by { assert HexDigit(c[0]).Some?; }
    assert StripHashes(s) == StripHashes(c) == c;
    assert c[0..2] == [DigitChar(r / 16), DigitChar(r % 16)];
    assert c[2..4] == [DigitChar(g / 16), DigitChar(g % 16)];
    assert c[4..6] == [DigitChar(b / 16), DigitChar(b % 16)];
    DigitPairRoundTrip(r);
    DigitPairRoundTrip(g);
    DigitPairRoundTrip(b);
  }

  /** On two hexadecimal digits, `int(pair, 16)` is their byte value. */
  lemma PyIntOnHexPair(s: string)
    requires |s| == 2 && AllHex(s)
    ensures PyIntBase16(s) == Success(HexByte(s).value as int)
  {
    var hi, lo := HexDigit(s[0]).value, HexDigit(s[1]).value;
    assert !IsSpace(s[0]) && !IsSpace(s[1]) && s[0] != '+' && s[0] != '-';
    assert TrimStart(s) == s;
    assert TrimEnd(s) == s;
    assert s[..1][..0] == [] && s[..1][0] == s[0] && s[..2 - 1] == s[..1];
    assert HexValue(s[..1]) == hi;
    assert HexValue(s) == 16 * hi + lo;
  }

  lemma AllHexSlice(s: string, i: nat, j: nat)
    requires AllHex(s) && i <= j <= |s|
    ensures AllHex(s[i..j])
  {
    assert forall k :: 0 <= k < j - i ==> s[i..j][k] == s[i + k];
  }

  /** One channel of six hexadecimal digits: `int(pair, 16)` is the pair's byte value. */
  lemma ChannelAgrees(c: string, i: nat)
    requires |c| == 6 && AllHex(c) && i <= 4
    ensures AllHex(c[i..i + 2]) && PyIntBase16(c[i..i + 2]) == Success(HexByte(c[i..i + 2]).value as int)
  {
    AllHexSlice(c, i, i + 2);
    PyIntOnHexPair(c[i..i + 2]);
  }

  /** The three byte values of six hexadecimal digits, each over 255. */
  function HexRgb(c: string): Rgb
    requires |c| == 6 && AllHex(c)
  {
    AllHexSlice(c, 0, 2);
    AllHexSlice(c, 2, 4);
    AllHexSlice(c, 4, 6);
    Rgb(Channel(HexByte(c[0..2]).value), Channel(HexByte(c[2..4]).value), Channel(HexByte(c[4..6]).value))
  }

  lemma WrittenChannelsOnHex(c: string)
    requires |c| == 6 && AllHex(c)
    ensures ChannelsAsWritten(c) == Success(HexRgb(c))
  {
    var r, g, b := PyIntBase16(c[0..2]), PyIntBase16(c[2..4]), PyIntBase16(c[4..6]);
    ChannelAgrees(c, 0);
    ChannelAgrees(c, 2);
    ChannelAgrees(c, 4);
    assert r.Success? && g.Success? && b.Success?;
    assert HexRgb(c) == Rgb(Channel(r.value), Channel(g.value), Channel(b.value));
  }

  lemma CorrectedChannelsOnHex(c: string)
    requires |c| == 6 && AllHex(c)
    ensures Channels(c) == Success(HexRgb(c))
  {
    AllHexSlice(c, 0, 2);
    AllHexSlice(c, 2, 4);
    AllHexSlice(c, 4, 6);
  }

  /** On six hexadecimal digits the channels as written and the corrected channels agree. */
  lemma ChannelsAgreeOnHex(c: string)
    requires |c| == 6 && AllHex(c)
    ensures ChannelsAsWritten(c) == Channels(c)
  {
    WrittenChannelsOnHex(c);
    CorrectedChannelsOnHex(c);
  }

  /** Wherever the corrected parser succeeds, the parser as written gives the same colour. */
  lemma CorrectedAgreesWhereDefined(color: string)
    requires ColorToRgb(color).Success?
    ensures ColorToRgbAsWritten(color) == ColorToRgb(color)
  {
    var c := StripHashes(color);
    if |c| == 6 {
      ChannelsAgreeOnHex(c);
    }
  }

  /** `int("-f", 16)` is -15. */
  lemma PyIntNegativeDigit()
    ensures PyIntBase16("-f") == Success(-15)
  {
    assert TrimStart("-f") == "-f" && TrimEnd("-f") == "-f";
    assert "-f"[1..] == "f" && AllHex("f");
    assert HexValue("f") == 16 * HexValue([]) + 15 by { assert "f"[..0] == []; }
  }

  /**
   * The parser as written accepts a sign inside a channel: "#-f0000" gives a red
   * channel of -15/255, outside [0, 1]; the corrected parser raises instead.
   */
  lemma SignedChannelAccepted()
    ensures ColorToRgbAsWritten("#-f0000").Success?
    ensures ColorToRgbAsWritten("#-f0000").value.r < 0.0
    ensures ColorToRgb("#-f0000").Failure?
  {
    var c := "-f0000";
    assert StripHashes("#-f0000") == StripHashes(c) == c;
    assert c[0..2] == "-f" && c[2..4] == "00" && c[4..6] == "00";
    PyIntNegativeDigit();
    PyIntOnHexPair("00");
    assert !AllHex(c) by { assert HexDigit(c[0]).None?; }
  }

  // ---------------------------------------------------------------------------
  // Opacity.

  /** At this opacity or above an image is embedded as it is. */
  const OpaqueThreshold: real := 0.999

  /** `alpha.point(lambda p: int(p * opacity))`: every alpha value scaled and truncated. */
  function AlphaMap(alpha: seq<int>, opacity: real): (out: seq<int>)
    ensures |out| == |alpha|
    ensures forall i :: 0 <= i < |alpha| ==> out[i] == ScaleAlpha(alpha[i], opacity)
  {
    seq(|alpha|, i requires 0 <= i < |alpha| => ScaleAlpha(alpha[i], opacity))
  }

  /** `lambda p: int(p * opacity)`. */
  function ScaleAlpha(p: int, opacity: real): int
  {
    Trunc(p as real * opacity)
  }

  /** For an opacity in [0, 1] each alpha value p becomes an integer in [0, p] within 1 of p * opacity. */
  lemma AlphaMapBounds(alpha: seq<int>, opacity: real)
    requires 0.0 <= opacity <= 1.0
    requires forall i :: 0 <= i < |alpha| ==> 0 <= alpha[i]
    ensures forall i :: 0 <= i < |alpha| ==> 0 <= AlphaMap(alpha, opacity)[i] <= alpha[i]
    ensures forall i :: 0 <= i < |alpha| ==> alpha[i] as real * opacity - 1.0 < AlphaMap(alpha, opacity)[i] as real
  {
    forall i | 0 <= i < |alpha|
      ensures 0 <= AlphaMap(alpha, opacity)[i] <= alpha[i]
      ensures alpha[i] as real * opacity - 1.0 < AlphaMap(alpha, opacity)[i] as real
    {
      ScaledAlpha(alpha[i], opacity);
    }
  }

  /** `int(p * opacity)` for one alpha value. */
  lemma ScaledAlpha(p: int, opacity: real)
    requires 0 <= p && 0.0 <= opacity <= 1.0
    ensures 0 <= ScaleAlpha(p, opacity) <= p
    ensures p as real * opacity - 1.0 < ScaleAlpha(p, opacity) as real
  {
    var q := p as real;
    assert q - q * opacity == q * (1.0 - opacity);
    assert 0.0 <= q * opacity <= q;
    assert Trunc(q * opacity) as real <= q;
  }

  /** The image stream handed to the PDF: the original bytes, or the image re-encoded as PNG with a new alpha channel. */
  datatype Stream = Original(bytes: Bytes) | Reencoded(source: Bytes, alpha: seq<int>)

  /**
   * `_prepare_image_stream`: an image at least 0.999 opaque is embedded unchanged;
   * below that its alpha channel (as decoded by `decodeAlpha`, after conversion to
   * RGBA) is scaled by the opacity.
   */
  function PrepareImageStream(imageBytes: Bytes, opacity: real, decodeAlpha: Bytes -> seq<int>): (s: Stream)
    ensures s.Original? <==> opacity >= OpaqueThreshold
    ensures s.Original? ==> s.bytes == imageBytes
    ensures s.Reencoded? ==> s.source == imageBytes && |s.alpha| == |decodeAlpha(imageBytes)|
    ensures s.Reencoded? ==> forall i :: 0 <= i < |s.alpha| ==> s.alpha[i] == ScaleAlpha(decodeAlpha(imageBytes)[i], opacity)
  {
    if opacity >= OpaqueThreshold then Original(imageBytes)
    else Reencoded(imageBytes, AlphaMap(decodeAlpha(imageBytes), opacity))
  }

  /** A translucent image never becomes more opaque than it was, pixel by pixel. */
  lemma TranslucentNeverGainsAlpha(imageBytes: Bytes, opacity: real, decodeAlpha: Bytes -> seq<int>)
    requires 0.0 <= opacity < OpaqueThreshold
    requires forall i :: 0 <= i < |decodeAlpha(imageBytes)| ==> 0 <= decodeAlpha(imageBytes)[i]
    ensures var s := PrepareImageStream(imageBytes, opacity, decodeAlpha);
      s.Reencoded? && forall i :: 0 <= i < |s.alpha| ==> 0 <= s.alpha[i] <= decodeAlpha(imageBytes)[i]
  {
    AlphaMapBounds(decodeAlpha(imageBytes), opacity);
  }

  // ---------------------------------------------------------------------------
  // Export.

  /** A PDF rectangle by its corners (x0, y0) and (x1, y1). */
  datatype Box = Box(x0: real, y0: real, x1: real, y1: real)

  /** The rectangle an element is drawn into: its top-left corner and its right and bottom edges. */
  function DrawBox(r: Rect): (b: Box)
    ensures b.x0 == r.x && b.y0 == r.y
    ensures b.x1 - b.x0 == r.width && b.y1 - b.y0 == r.height
  {
    Box(r.x, r.y, r.Right(), r.Bottom())
  }

  /** The font every text box is written in. */
  const FontName: string := "helv"

  /** One drawing operation on an output page. */
  datatype DrawOp =
    | ShowSourcePage(sourceIndex: nat)
    | InsertImage(box: Box, stream: Stream)
    | InsertTextbox(box: Box, text: string, fontSize: real, fontName: string, color: Rgb, align: int)

  /** A new output page: its size and what is drawn on it, in order. */
  datatype OutputPage = OutputPage(width: real, height: real, ops: seq<DrawOp>)

  /** Puts `xs` in front of a successful result; a failure stays that failure. */
  function Prepend<T>(xs: seq<T>, r: Result<seq<T>, ValueError>): Result<seq<T>, ValueError>
  {
    match r
    case Success(ys) => Success(xs + ys)
    case Failure(e) => Failure(e)
  }

  lemma PrependNil<T>(r: Result<seq<T>, ValueError>)
    ensures Prepend([], r) == r
  {
    if r.Success? {
      assert [] + r.value == r.value;
    }
  }

  lemma PrependTwice<T>(xs: seq<T>, ys: seq<T>, r: Result<seq<T>, ValueError>)
    ensures Prepend(xs, Prepend(ys, r)) == Prepend(xs + ys, r)
  {
    if r.Success? {
      assert xs + (ys + r.value) == (xs + ys) + r.value;
    }
  }

  /** The source page shown first on an output page, when the page came from the source document. */
  function Stamp(sourceIndex: Option<nat>): seq<DrawOp>
  {
    if sourceIndex.Some? then [ShowSourcePage(sourceIndex.value)] else []
  }

  /** What one element contributes: hidden elements, base elements and empty images nothing. */
  function ElementOps(e: ElementData, decodeAlpha: Bytes -> seq<int>): Result<seq<DrawOp>, ValueError>
  {
    match e.kind
    case Plain => Success([])
    case Image(_, bytes) =>
      if !e.visible || bytes == [] then Success([])
      else Success([InsertImage(DrawBox(e.rect), PrepareImageStream(bytes, e.opacity, decodeAlpha))])
    case Text(text, _, fontSize, color) =>
      if !e.visible then Success([])
      else
        match ColorToRgb(color)
        case Failure(err) => Failure(err)
        case Success(rgb) => Success([InsertTextbox(DrawBox(e.rect), text, fontSize, FontName, rgb, 0)])
  }

  /** The elements' operations in list order; the first colour that raises aborts. */
  function ElementsOps(es: seq<ElementData>, decodeAlpha: Bytes -> seq<int>): Result<seq<DrawOp>, ValueError>
  {
    if es == [] then Success([])
    else
      match ElementOps(es[0], decodeAlpha)
      case Failure(err) => Failure(err)
      case Success(ops) => Prepend(ops, ElementsOps(es[1..], decodeAlpha))
  }

  /** Unfolds `ElementsOps` on the suffix starting at `j`. */
  lemma ElementsOpsAt(es: seq<ElementData>, j: nat, decodeAlpha: Bytes -> seq<int>)
    requires j < |es|
    ensures ElementOps(es[j], decodeAlpha).Failure? ==>
              ElementsOps(es[j..], decodeAlpha) == Failure(ElementOps(es[j], decodeAlpha).error)
    ensures ElementOps(es[j], decodeAlpha).Success? ==>
              ElementsOps(es[j..], decodeAlpha) == Prepend(ElementOps(es[j], decodeAlpha).value, ElementsOps(es[j + 1..], decodeAlpha))
  {
    assert es[j..][0] == es[j] && es[j..][1..] == es[j + 1..];
  }

  /** One output page of the page's size: the source page, if any, then the elements. */
  function PagePlan(p: PageData, decodeAlpha: Bytes -> seq<int>): Result<OutputPage, ValueError>
  {
    match Prepend(Stamp(p.sourceIndex), ElementsOps(p.elements, decodeAlpha))
    case Failure(err) => Failure(err)
    case Success(ops) => Success(OutputPage(p.width, p.height, ops))
  }

  /** The output pages of a document, one per page and in order; the first error aborts the export. */
  function ExportPlan(ps: seq<PageData>, decodeAlpha: Bytes -> seq<int>): Result<seq<OutputPage>, ValueError>
  {
    if ps == [] then Success([])
    else
      match PagePlan(ps[0], decodeAlpha)
      case Failure(err) => Failure(err)
      case Success(out) => Prepend([out], ExportPlan(ps[1..], decodeAlpha))
  }

  /** Unfolds `ExportPlan` on the suffix starting at `i`. */
  lemma ExportPlanAt(ps: seq<PageData>, i: nat, decodeAlpha: Bytes -> seq<int>)
    requires i < |ps|
    ensures PagePlan(ps[i], decodeAlpha).Failure? ==>
              ExportPlan(ps[i..], decodeAlpha) == Failure(PagePlan(ps[i], decodeAlpha).error)
    ensures PagePlan(ps[i], decodeAlpha).Success? ==>
              ExportPlan(ps[i..], decodeAlpha) == Prepend([PagePlan(ps[i], decodeAlpha).value], ExportPlan(ps[i + 1..], decodeAlpha))
  {
    assert ps[i..][0] == ps[i] && ps[i..][1..] == ps[i + 1..];
  }

  /** Whether an element gets drawn: it is visible and is a text box or an image with bytes. */
  predicate IsDrawn(e: ElementData)
  {
    e.visible && (e.kind.Text? || (e.kind.Image? && e.kind.imageBytes != []))
  }

  /** The elements that get drawn, in list order. */
  function Drawn(es: seq<ElementData>): seq<ElementData>
  {
    if es == [] then [] else (if IsDrawn(es[0]) then [es[0]] else []) + Drawn(es[1..])
  }

  /** Whether an element's colour makes the export raise: a visible text box whose colour is malformed. */
  predicate BadColor(e: ElementData)
  {
    e.visible && e.kind.Text? && ColorToRgb(e.kind.color).Failure?
  }

  /** An element's operations: exactly one when it is drawn, none otherwise, failing only on a bad colour. */
  lemma ElementOpsCount(e: ElementData, decodeAlpha: Bytes -> seq<int>)
    ensures ElementOps(e, decodeAlpha).Failure? <==> BadColor(e)
    ensures ElementOps(e, decodeAlpha).Success? ==>
      |ElementOps(e, decodeAlpha).value| == (if IsDrawn(e) then 1 else 0)
    ensures ElementOps(e, decodeAlpha).Success? && IsDrawn(e) ==>
      var op := ElementOps(e, decodeAlpha).value[0];
      !op.ShowSourcePage? && op.box == DrawBox(e.rect) && (op.InsertImage? <==> e.kind.Image?)
  {
  }

  /** A successful element's operations: a single one when it is drawn, none otherwise. */
  lemma ElementOpsShape(e: ElementData, decodeAlpha: Bytes -> seq<int>)
    requires ElementOps(e, decodeAlpha).Success?
    ensures IsDrawn(e) ==> ElementOps(e, decodeAlpha) == Success([ElementOps(e, decodeAlpha).value[0]])
    ensures !IsDrawn(e) ==> ElementOps(e, decodeAlpha).value == []
  {
    ElementOpsCount(e, decodeAlpha);
  }

  /** A page's elements fail exactly when one of them has a bad colour. */
  lemma {:induction false} ElementsOpsFailure(es: seq<ElementData>, decodeAlpha: Bytes -> seq<int>)
    ensures ElementsOps(es, decodeAlpha).Failure? <==> exists k :: 0 <= k < |es| && BadColor(es[k])
  {
    if es != [] {
      ElementsOpsFailure(es[1..], decodeAlpha);
      ElementOpsCount(es[0], decodeAlpha);
      if (exists k :: 0 <= k < |es[1..]| && BadColor(es[1..][k])) {
        var k :| 0 <= k < |es[1..]| && BadColor(es[1..][k]);
        assert BadColor(es[k + 1]);
      }
      if (exists k :: 0 <= k < |es| && BadColor(es[k])) && !BadColor(es[0]) {
        var k :| 0 <= k < |es| && BadColor(es[k]);
        assert BadColor(es[1..][k - 1]);
      }
    }
  }

  /**
   * Within a page, the operations are one per drawn element, in list order, each drawing
   * that element in its own rectangle; hidden elements, base elements and empty images
   * are skipped.
   */
  lemma {:induction false} ElementsOpsOrder(es: seq<ElementData>, decodeAlpha: Bytes -> seq<int>)
    requires ElementsOps(es, decodeAlpha).Success?
    ensures var ops := ElementsOps(es, decodeAlpha).value;
      |ops| == |Drawn(es)| &&
      forall k :: 0 <= k < |ops| ==> ElementOps(Drawn(es)[k], decodeAlpha) == Success([ops[k]])
  {
    if es != [] {
      ElementOpsShape(es[0], decodeAlpha);
      var first := ElementOps(es[0], decodeAlpha).value;
      ElementsOpsOrder(es[1..], decodeAlpha);
      var rest := ElementsOps(es[1..], decodeAlpha).value;
      assert ElementsOps(es, decodeAlpha).value == first + rest;
      if IsDrawn(es[0]) {
        assert Drawn(es) == [es[0]] + Drawn(es[1..]);
        assert first == [first[0]];
        PointwiseCons(es[0], first[0], Drawn(es[1..]), rest, (e, op) => ElementOps(e, decodeAlpha) == Success([op]));
      } else {
        assert Drawn(es) == Drawn(es[1..]);
        assert first + rest == rest;
      }
    }
  }

  /** Two lists related position by position stay so when one more pair is put in front. */
  lemma PointwiseCons<A, B>(x: A, y: B, xs: seq<A>, ys: seq<B>, related: (A, B) -> bool)
    requires related(x, y) && |xs| == |ys|
    requires forall k :: 0 <= k < |xs| ==> related(xs[k], ys[k])
    ensures forall k :: 0 <= k < |xs| + 1 ==> related(([x] + xs)[k], ([y] + ys)[k])
  {
    forall k | 0 <= k < |xs| + 1
      ensures related(([x] + xs)[k], ([y] + ys)[k])
    {
      if k > 0 {
        assert ([x] + xs)[k] == xs[k - 1] && ([y] + ys)[k] == ys[k - 1];
      }
    }
  }

  /** The source page is shown, first, exactly when the page came from the source document. */
  lemma PageStamped(p: PageData, decodeAlpha: Bytes -> seq<int>)
    requires PagePlan(p, decodeAlpha).Success?
    ensures var out := PagePlan(p, decodeAlpha).value;
      out.width == p.width && out.height == p.height &&
      ((exists k :: 0 <= k < |out.ops| && out.ops[k].ShowSourcePage?) <==> p.sourceIndex.Some?) &&
      (p.sourceIndex.Some? ==> out.ops[0] == ShowSourcePage(p.sourceIndex.value))
  {
    ElementsOpsOrder(p.elements, decodeAlpha);
    var ops := ElementsOps(p.elements, decodeAlpha).value;
    forall k | 0 <= k < |ops|
      ensures !ops[k].ShowSourcePage?
    {
      ElementOpsCount(Drawn(p.elements)[k], decodeAlpha);
    }
    var out := PagePlan(p, decodeAlpha).value;
    assert out.ops == Stamp(p.sourceIndex) + ops;
    if p.sourceIndex.None? {
      assert out.ops == ops;
    } else {
      assert out.ops[0].ShowSourcePage?;
    }
  }

  /**
   * Export yields exactly one output page per model page, in document order, each the
   * plan of that page; it fails exactly when some page fails.
   */
  lemma {:induction false} ExportOnePagePerPage(ps: seq<PageData>, decodeAlpha: Bytes -> seq<int>)
    ensures ExportPlan(ps, decodeAlpha).Failure? <==> exists i :: 0 <= i < |ps| && PagePlan(ps[i], decodeAlpha).Failure?
    ensures ExportPlan(ps, decodeAlpha).Success? ==>
      var out := ExportPlan(ps, decodeAlpha).value;
      |out| == |ps| && forall i :: 0 <= i < |ps| ==> PagePlan(ps[i], decodeAlpha) == Success(out[i])
  {
    if ps != [] {
      ExportOnePagePerPage(ps[1..], decodeAlpha);
      if (exists i :: 0 <= i < |ps[1..]| && PagePlan(ps[1..][i], decodeAlpha).Failure?) {
        var i :| 0 <= i < |ps[1..]| && PagePlan(ps[1..][i], decodeAlpha).Failure?;
        assert PagePlan(ps[i + 1], decodeAlpha).Failure?;
      }
      if (exists i :: 0 <= i < |ps| && PagePlan(ps[i], decodeAlpha).Failure?) && PagePlan(ps[0], decodeAlpha).Success? {
        var i :| 0 <= i < |ps| && PagePlan(ps[i], decodeAlpha).Failure?;
        assert PagePlan(ps[1..][i - 1], decodeAlpha).Failure?;
      }
    }
  }

  /** The elements of every page of a list. */
  function ElementsOf(pages: seq<PageModel>): set<Element>
    reads pages
  {
    set p, e | p in pages && e in p.elements :: e
  }

  /** The value of each page of a list, with its elements. */
  function PagesData(pages: seq<PageModel>): (ds: seq<PageData>)
    reads pages, ElementsOf(pages)
    ensures |ds| == |pages|
    ensures forall i :: 0 <= i < |pages| ==> ds[i] == pages[i].Data()
  {
    if pages == [] then []
    else
      assert ElementsOf(pages[1..]) <= ElementsOf(pages);
      assert forall e :: e in pages[0].elements ==> e in ElementsOf(pages);
      [pages[0].Data()] + PagesData(pages[1..])
  }

  /**
   * The drawing of one element in `PdfExporter.export`: a visible image with bytes is
   * inserted into its rectangle, a visible text box is written into its rectangle in
   * Helvetica, left-aligned, in its colour; a malformed colour raises.
   */
  method DrawElement(e: ElementData, decodeAlpha: Bytes -> seq<int>) returns (r: Result<seq<DrawOp>, ValueError>)
    ensures r == ElementOps(e, decodeAlpha)
  {
    match e.kind {
      case Plain =>
        return Success([]);
      case Image(_, bytes) =>
        if !e.visible || bytes == [] {
          return Success([]);
        }
        var box := Box(e.rect.x, e.rect.y, e.rect.x + e.rect.width, e.rect.y + e.rect.height);
        return Success([InsertImage(box, PrepareImageStream(bytes, e.opacity, decodeAlpha))]);
      case Text(text, _, fontSize, color) =>
        if !e.visible {
          return Success([]);
        }
        var box := Box(e.rect.x, e.rect.y, e.rect.x + e.rect.width, e.rect.y + e.rect.height);
        var rgb := ColorToRgb(color);
        if rgb.Failure? {
          return Failure(rgb.error);
        }
        return Success([InsertTextbox(box, text, fontSize, FontName, rgb.value, 0)]);
    }
  }

  /**
   * The body of `PdfExporter.export` for one page: a new page of the page's size, the
   * source page shown on it when the page has a source index, then its elements drawn
   * in list order. A malformed text colour raises.
   */
  method ExportPage(page: PageData, decodeAlpha: Bytes -> seq<int>) returns (r: Result<OutputPage, ValueError>)
    ensures r == PagePlan(page, decodeAlpha)
  {
    var es := page.elements;
    var ops: seq<DrawOp> := [];
    if page.sourceIndex.Some? {
      ops := [ShowSourcePage(page.sourceIndex.value)];
    }
    assert es[0..] == es;
    var j := 0;
    while j < |es|
      invariant 0 <= j <= |es|
      invariant Prepend(ops, ElementsOps(es[j..], decodeAlpha)) == Prepend(Stamp(page.sourceIndex), ElementsOps(es, decodeAlpha))
    {
      ElementsOpsAt(es, j, decodeAlpha);
      var drawn := DrawElement(es[j], decodeAlpha);
      if drawn.Failure? {
        return Failure(drawn.error);
      }
      PrependTwice(ops, drawn.value, ElementsOps(es[j + 1..], decodeAlpha));
      ops := ops + drawn.value;
      j := j + 1;
    }
    assert es[j..] == [] && ops + [] == ops;
    r := Success(OutputPage(page.width, page.height, ops));
  }

  /** The loop of `PdfExporter.export` over page values: one output page per page, in order; the first error aborts. */
  method ExportPages(ps: seq<PageData>, decodeAlpha: Bytes -> seq<int>) returns (r: Result<seq<OutputPage>, ValueError>)
    ensures r == ExportPlan(ps, decodeAlpha)
  {
    var output: seq<OutputPage> := [];
    assert ps[0..] == ps;
    PrependNil(ExportPlan(ps, decodeAlpha));
    var i := 0;
    while i < |ps|
      invariant 0 <= i <= |ps|
      invariant Prepend(output, ExportPlan(ps[i..], decodeAlpha)) == ExportPlan(ps, decodeAlpha)
    {
      ExportPlanAt(ps, i, decodeAlpha);
      var page := ExportPage(ps[i], decodeAlpha);
      if page.Failure? {
        assert ExportPlan(ps[i..], decodeAlpha) == Failure(page.error);
        return Failure(page.error);
      }
      PrependTwice(output, [page.value], ExportPlan(ps[i + 1..], decodeAlpha));
      output := output + [page.value];
      i := i + 1;
    }
    assert ps[i..] == [] && output + [] == output;
    r := Success(output);
  }

  /**
   * `PdfExporter.export`: the document's pages exported in order. The first malformed
   * text colour raises, and then nothing is saved. The document does not change while
   * it is exported, so its pages are read once as values.
   */
  method Export(document: DocumentModel, decodeAlpha: Bytes -> seq<int>) returns (r: Result<seq<OutputPage>, ValueError>)
    ensures r == ExportPlan(PagesData(document.pages), decodeAlpha)
  {
    var ps := PagesData(document.pages);
    r := ExportPages(ps, decodeAlpha);
    assert ps == PagesData(document.pages);
  }

  // ---------------------------------------------------------------------------
  // Import.

  /** What the PDF library reports for a source page: its size, its rotation and its PNG rendering at scale 1. */
  datatype SourcePage = SourcePage(width: real, height: real, rotation: int, png: Bytes)

  /** A page's rendered preview, tagged with the page's uid. */
  datatype PagePreview = PagePreview(pageId: string, imageBytes: Bytes)

  /**
   * `PdfImporter.load`: one new page per source page, in order, with the source page's
   * size and rotation, source index i and no elements, and one preview per page tagged
   * with that page's uid. `uids` stands for the fresh uids the pages draw.
   */
  method Load(pdfPath: string, source: seq<SourcePage>, uids: seq<string>)
    returns (document: DocumentModel, previews: seq<PagePreview>)
    requires |uids| == |source|
    ensures fresh(document) && document.sourcePath == pdfPath
    ensures |document.pages| == |source| && |previews| == |source|
    ensures forall i :: 0 <= i < |source| ==> fresh(document.pages[i])
    ensures forall i, j :: 0 <= i < j < |source| ==> document.pages[i] != document.pages[j]
    ensures PagesData(document.pages) == ImportedPages(source, uids)
    ensures forall i :: 0 <= i < |source| ==> previews[i] == PagePreview(document.pages[i].uid, source[i].png)
  {
    var pages: seq<PageModel> := [];
    previews := [];
    var index := 0;
    while index < |source|
      invariant 0 <= index <= |source|
      invariant |pages| == index && |previews| == index
      invariant forall i :: 0 <= i < index ==> fresh(pages[i])
      invariant forall i, j :: 0 <= i < j < index ==> pages[i] != pages[j]
      invariant forall i :: 0 <= i < index ==> pages[i].Data() == ImportedPages(source, uids)[i]
      invariant forall i :: 0 <= i < index ==> previews[i] == PagePreview(pages[i].uid, source[i].png)
    {
      var page := source[index];
      var pageModel := new PageModel(uids[index], page.width, page.height, page.rotation, Some(index));
      pages := pages + [pageModel];
      previews := previews + [PagePreview(pageModel.uid, page.png)];
      index := index + 1;
    }
    document := new DocumentModel(pdfPath, pages);
  }

  /** The value of the pages `load` builds: page i has the source page's size and rotation, source index i and no elements. */
  function ImportedPages(source: seq<SourcePage>, uids: seq<string>): (ps: seq<PageData>)
    requires |uids| == |source|
    ensures |ps| == |source|
  {
    seq(|source|, i requires 0 <= i < |source| =>
      PageData(uids[i], source[i].width, source[i].height, source[i].rotation, Some(i), []))
  }

  /** Exporting a freshly loaded document reproduces every source page, at its size, in order. */
  lemma {:induction false} ImportThenExport(source: seq<SourcePage>, uids: seq<string>, decodeAlpha: Bytes -> seq<int>)
    requires |uids| == |source|
    ensures ExportPlan(ImportedPages(source, uids), decodeAlpha) ==
            Success(seq(|source|, i requires 0 <= i < |source| =>
              OutputPage(source[i].width, source[i].height, [ShowSourcePage(i)])))
  {
    var ps := ImportedPages(source, uids);
    var expected := seq(|source|, i requires 0 <= i < |source| =>
      OutputPage(source[i].width, source[i].height, [ShowSourcePage(i)]));
    ExportOnePagePerPage(ps, decodeAlpha);
    forall i | 0 <= i < |ps|
      ensures PagePlan(ps[i], decodeAlpha) == Success(expected[i])
    {
      assert ps[i].elements == [] && ps[i].sourceIndex == Some(i);
      assert ElementsOps(ps[i].elements, decodeAlpha) == Success([]);
      assert Stamp(ps[i].sourceIndex) + [] == [ShowSourcePage(i)];
    }
    var out := ExportPlan(ps, decodeAlpha).value;
    assert out == expected;
  }
}
