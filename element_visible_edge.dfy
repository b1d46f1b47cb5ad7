/**
 * The visible edge descriptor of src/descriptors/element_visible_edge.js:
 * one edge of the part of an element that can be seen. An invisible element
 * (visibility hidden, display none, opacity zero) has no visible edges. A
 * clip rectangle, as the current normaliser (module ClipStyle) reads it,
 * moves the edge inwards but never past the element's own border box; a
 * clip with no width or no height leaves nothing visible.
 *
 * The source calls toPixels() on the normaliser's plain numbers and on its
 * null result; this module models the evidently intended reading of those
 * offsets (numbers as Pixels, null as NoPixels) and keeps the code as
 * written in ValueAsWritten.
 */
module ElementVisibleEdge {
  import opened Outcome
  import opened Values
  import opened Dom
  import opened StyleUtil
  import ClipStyle

  datatype ElementVisibleEdge = ElementVisibleEdge(element: ElementRef, side: Side)

  /** The constructor: the position must name one of the four edges. */
  function Create(element: ElementRef, position: string): (r: Result<ElementVisibleEdge>)
    ensures r.Ok? <==> position in {"top", "right", "bottom", "left"}
    ensures r.Ok? ==> r.value.element == element && SideName(r.value.side) == position
    ensures r.Err? ==> r.error == UnknownPosition(position)
  {
    match SideNamed(position)
    case Err(e) => Err(e)
    case Ok(side) => Ok(ElementVisibleEdge(element, side))
  }

  /** OPPOSITE_EDGES: the edge across the element on the same axis. */
  function Opposite(side: Side): (o: Side)
    ensures o != side && AxisOf(o) == AxisOf(side)
  {
    match side
    case Top => Bottom
    case Bottom => Top
    case Left => Right
    case Right => Left
  }

  /** Going across twice comes back to the same edge. */
  lemma OppositeInvolution(side: Side)
    ensures Opposite(Opposite(side)) == side
  {
  }

  /** notVisibleEdge: a NoPixels position on the edge's axis. */
  function NotVisibleEdge(side: Side): (p: Position)
    ensures p.axis == AxisOf(side) && !p.len.Pixels?
  {
    Position(AxisOf(side), NoPixels)
  }

  /** Hidden, not displayed, or fully transparent (parseFloat of the opacity is 0). */
  predicate IsNotVisible(view: NodeView)
  {
    || GetRawCssStyle(view, "visibility") == "hidden"
    || GetRawCssStyle(view, "display") == "none"
    || ParseFloat(GetRawCssStyle(view, "opacity")) == Some(0.0)
  }

  /** The clip offsets as lengths: all Pixels for a clip, all NoPixels without one. */
  datatype Offsets = Offsets(top: Length, right: Length, bottom: Length, left: Length, width: Length, height: Length)

  /** Either every offset is a pixel length or none is. */
  predicate Uniform(o: Offsets)
  {
    var p := o.top.Pixels?;
    o.right.Pixels? == p && o.bottom.Pixels? == p && o.left.Pixels? == p
    && o.width.Pixels? == p && o.height.Pixels? == p
  }

  /** The normaliser's result read as lengths: null becomes NoPixels throughout. */
  function ClipOffsets(clip: Option<ClipStyle.ClipRect>): (o: Offsets)
    ensures Uniform(o)
    ensures o.top.Pixels? <==> clip.Some?
    ensures clip.Some? ==>
              var c := clip.value;
              o.top.px == c.top && o.right.px == c.right && o.bottom.px == c.bottom && o.left.px == c.left
              && o.width.px == c.width && o.height.px == c.height
  {
    match clip
    case None => Offsets(NoPixels, NoPixels, NoPixels, NoPixels, NoPixels, NoPixels)
    case Some(c) => Offsets(Pixels(c.top), Pixels(c.right), Pixels(c.bottom), Pixels(c.left), Pixels(c.width), Pixels(c.height))
  }

  /** clipEdgeOffsets[position] */
  function OffsetAt(o: Offsets, side: Side): Length
  {
    match side
    case Top => o.top
    case Right => o.right
    case Bottom => o.bottom
    case Left => o.left
  }

  /** Stand-in for the element's own edge descriptor: its raw edge in page coordinates. */
  function ElementEdge(view: NodeView, side: Side): Length
  {
    Pixels(RawEdge(view, side))
  }

  /** The edge that lies first along the axis: left or top. */
  predicate IsLowSide(side: Side)
  {
    side == Left || side == Top
  }

  /**
   * The visible edge as a length. Without a clip it is the element's edge;
   * a clip with no width or height leaves NoPixels; otherwise the clipped
   * edge, measured from the low edge of the element, is clamped into the
   * element's box.
   */
  function VisibleEdge(side: Side, view: NodeView, o: Offsets): (r: Length)
    requires Uniform(o)
    ensures OffsetAt(o, side).NoPixels? ==> r == ElementEdge(view, side)
    ensures OffsetAt(o, side).Pixels? && (o.width.px <= 0.0 || o.height.px <= 0.0) ==> r == NoPixels
    ensures OffsetAt(o, side).Pixels? && o.width.px > 0.0 && o.height.px > 0.0 ==> r.Pixels?
  {
    var clipEdgeOffset := OffsetAt(o, side);
    var edge := ElementEdge(view, side);
    if clipEdgeOffset.NoPixels? then edge
    else
      var opposite := ElementEdge(view, Opposite(side));
      if Compare(o.width, Zero) <= 0 || Compare(o.height, Zero) <= 0 then NoPixels
      else if IsLowSide(side) then
        Min(Max(Plus(edge, clipEdgeOffset), edge), opposite)
      else
        Max(Min(Plus(opposite, clipEdgeOffset), edge), opposite)
  }

  /**
   * value, given the normaliser's result: NoPixels for an invisible
   * element, the normaliser's error, or the visible edge on the edge's axis.
   */
  function ValueWith(e: ElementVisibleEdge, view: NodeView, clip: Result<Option<ClipStyle.ClipRect>>): (r: Result<Position>)
    ensures IsNotVisible(view) ==> r == Ok(NotVisibleEdge(e.side))
    ensures !IsNotVisible(view) && clip.Err? ==> r == Err(clip.error)
    ensures r.Ok? <==> IsNotVisible(view) || clip.Ok?
    ensures r.Ok? ==> r.value.axis == AxisOf(e.side)
    ensures !IsNotVisible(view) && clip.Ok? ==> r.value.len == VisibleEdge(e.side, view, ClipOffsets(clip.value))
  {
    if IsNotVisible(view) then Ok(NotVisibleEdge(e.side))
    else
      match clip
      case Err(err) => Err(err)
      case Ok(c) => Ok(Position(AxisOf(e.side), VisibleEdge(e.side, view, ClipOffsets(c))))
  }

  /** value: the visible edge of the element as the styling engine shows it now. */
  function Value(e: ElementVisibleEdge, engine: StylingEngine): (r: Result<Position>)
    ensures r.Ok? ==> r.value.axis == AxisOf(e.side)
  {
    var view := engine.read(e.element.node);
    ValueWith(e, view, ClipStyle.Normalize(view))
  }

  /** toString */
  function ToString(e: ElementVisibleEdge): (s: string)
    ensures s == "clip " + SideName(e.side) + " edge of '" + e.element.nickname + "'"
  {
    "clip " + SideName(e.side) + " edge of " + e.element.ToString()
  }

  /**
   * All four visible edges of an element are of one kind: read from the
   * same view and the same normalised clip, they are all pixel lengths or
   * all NoPixels, and fail together.
   */
  lemma {:induction false} EdgesOfOneKind(e1: ElementVisibleEdge, e2: ElementVisibleEdge, view: NodeView, clip: Result<Option<ClipStyle.ClipRect>>)
    ensures ValueWith(e1, view, clip).Ok? <==> ValueWith(e2, view, clip).Ok?
    ensures ValueWith(e1, view, clip).Ok? ==>
              Compatible(ValueWith(e1, view, clip).value.len, ValueWith(e2, view, clip).value.len)
  {
    if !IsNotVisible(view) && clip.Ok? {
      var o := ClipOffsets(clip.value);
      assert OffsetAt(o, e1.side).Pixels? == OffsetAt(o, e2.side).Pixels?;
    }
  }

  /** An opacity of "0" hides the element. */
  lemma ZeroOpacityHides(view: NodeView)
    requires GetRawCssStyle(view, "opacity") == Numeral(0)
    ensures IsNotVisible(view)
  {
    ParseFloatOfNumeral(0);
  }

  /**
   * A written decimal opacity "w.d", signed or not, hides the element
   * exactly when it is zero ("0.0", "-0.00"); any other value leaves the
   * decision to visibility and display.
   */
  lemma {:induction false} DecimalOpacity(view: NodeView, sign: string, w: nat, d: string)
    requires sign == "" || sign == "+" || sign == "-"
    requires AllDigits(d)
    requires GetRawCssStyle(view, "opacity") == sign + (Numeral(w) + "." + d)
    ensures IsNotVisible(view) <==>
              || GetRawCssStyle(view, "visibility") == "hidden"
              || GetRawCssStyle(view, "display") == "none"
              || (w == 0 && forall k :: 0 <= k < |d| ==> d[k] == '0')
  {
    ParseFloatOfDecimal(sign, w, d);
    FractionAtBounds(d, 0, |d|);
    FractionAtZeroIff(d, 0, |d|);
  }

  /** An opacity parseFloat reads as NaN ("", "auto") never hides the element. */
  lemma {:induction false} NaNOpacityShows(view: NodeView)
    requires !StartsNumber(Unsigned(GetRawCssStyle(view, "opacity")))
    ensures IsNotVisible(view) <==>
              GetRawCssStyle(view, "visibility") == "hidden" || GetRawCssStyle(view, "display") == "none"
  {
    ParseFloatIsNumber(GetRawCssStyle(view, "opacity"));
  }

  /** Without a clip, a visible element's visible edges are its own edges. */
  lemma NoClipIsElementEdge(e: ElementVisibleEdge, view: NodeView)
    requires !IsNotVisible(view)
    ensures ValueWith(e, view, Ok(None)) == Ok(Position(AxisOf(e.side), Pixels(RawEdge(view, e.side))))
  {
  }

  /** A clip with no width or no height leaves no visible edge. */
  lemma FullyClippedIsNotVisible(e: ElementVisibleEdge, view: NodeView, c: ClipStyle.ClipRect)
    requires c.width <= 0.0 || c.height <= 0.0
    ensures ValueWith(e, view, Ok(Some(c))) == Ok(NotVisibleEdge(e.side))
  {
  }

  /** The low and high edges of the element's box along an axis. */
  function LowSide(axis: Axis): Side
  {
    if axis == X then Left else Top
  }

  function HighSide(axis: Axis): Side
  {
    if axis == X then Right else Bottom
  }

  /**
   * A visible edge never leaves the element's border box: whatever the clip,
   * a pixel edge lies between the element's low and high edges on its axis.
   */
  lemma WithinElementBox(e: ElementVisibleEdge, view: NodeView, clip: Option<ClipStyle.ClipRect>)
    requires RawEdge(view, LowSide(AxisOf(e.side))) <= RawEdge(view, HighSide(AxisOf(e.side)))
    ensures var v := ValueWith(e, view, Ok(clip));
            v.value.len.Pixels? ==>
              RawEdge(view, LowSide(AxisOf(e.side))) <= v.value.len.px <= RawEdge(view, HighSide(AxisOf(e.side)))
  {
    if !IsNotVisible(view) {
      var o := ClipOffsets(clip);
      var r := VisibleEdge(e.side, view, o);
      if OffsetAt(o, e.side).Pixels? && o.width.px > 0.0 && o.height.px > 0.0 {
        var edge := ElementEdge(view, e.side);
        var opposite := ElementEdge(view, Opposite(e.side));
        match e.side
        case Left =>
          assert r == Min(Max(Plus(edge, OffsetAt(o, e.side)), edge), opposite);
        case Top =>
          assert r == Min(Max(Plus(edge, OffsetAt(o, e.side)), edge), opposite);
        case Right =>
          assert r == Max(Min(Plus(opposite, OffsetAt(o, e.side)), edge), opposite);
        case Bottom =>
          assert r == Max(Min(Plus(opposite, OffsetAt(o, e.side)), edge), opposite);
      }
    }
  }

  /** Offsets of a clip's low and high edges along an axis. */
  function ClipLow(c: ClipStyle.ClipRect, axis: Axis): real
  {
    if axis == X then c.left else c.top
  }

  function ClipHigh(c: ClipStyle.ClipRect, axis: Axis): real
  {
    if axis == X then c.right else c.bottom
  }

  function MaxReal(a: real, b: real): real
  {
    if a >= b then a else b
  }

  function MinReal(a: real, b: real): real
  {
    if a <= b then a else b
  }

  /** The ends of the overlap of the element's box with the clip rectangle placed at the box's low corner. */
  function OverlapLow(view: NodeView, c: ClipStyle.ClipRect, axis: Axis): real
  {
    MaxReal(RawEdge(view, LowSide(axis)), RawEdge(view, LowSide(axis)) + ClipLow(c, axis))
  }

  function OverlapHigh(view: NodeView, c: ClipStyle.ClipRect, axis: Axis): real
  {
    MinReal(RawEdge(view, HighSide(axis)), RawEdge(view, LowSide(axis)) + ClipHigh(c, axis))
  }

  /**
   * The visible span along an axis is the intersection of the element's box
   * with the clip rectangle placed at the box's low corner: where the two
   * overlap the visible edges are the overlap's ends; where they do not,
   * both edges meet at one end of the box and nothing is left between them.
   */
  lemma VisibleSpanIsOverlap(view: NodeView, c: ClipStyle.ClipRect, axis: Axis) returns (lowEdge: real, highEdge: real)
    requires ClipStyle.Consistent(c) && c.width > 0.0 && c.height > 0.0
    requires RawEdge(view, LowSide(axis)) <= RawEdge(view, HighSide(axis))
    ensures VisibleEdge(LowSide(axis), view, ClipOffsets(Some(c))) == Pixels(lowEdge)
    ensures VisibleEdge(HighSide(axis), view, ClipOffsets(Some(c))) == Pixels(highEdge)
    ensures OverlapLow(view, c, axis) <= OverlapHigh(view, c, axis) ==>
              lowEdge == OverlapLow(view, c, axis) && highEdge == OverlapHigh(view, c, axis)
    ensures OverlapLow(view, c, axis) > OverlapHigh(view, c, axis) ==> lowEdge == highEdge
  {
    var o := ClipOffsets(Some(c));
    var low := LowSide(axis);
    var high := HighSide(axis);
    assert Opposite(low) == high && Opposite(high) == low;
    var boxLow := ElementEdge(view, low);
    var boxHigh := ElementEdge(view, high);
    ClampedEdge(low, view, o);
    ClampedEdge(high, view, o);
    lowEdge := VisibleEdge(low, view, o).px;
    highEdge := VisibleEdge(high, view, o).px;
  }

  /** Under a clip of positive size, the edge is the clamp of the clipped edge into the box. */
  lemma ClampedEdge(side: Side, view: NodeView, o: Offsets)
    requires Uniform(o) && OffsetAt(o, side).Pixels? && o.width.px > 0.0 && o.height.px > 0.0
    ensures var edge := ElementEdge(view, side);
            var opposite := ElementEdge(view, Opposite(side));
            VisibleEdge(side, view, o)
              == if IsLowSide(side) then Min(Max(Plus(edge, OffsetAt(o, side)), edge), opposite)
                 else Max(Min(Plus(opposite, OffsetAt(o, side)), edge), opposite)
  {
  }

  /**
   * The border-clip case: a box at (10, 10) of 100 by 100 pixels, clipped by
   * rect(10px 90px 90px 10px), shows on either axis its low edge at 20 and
   * its high edge at 100.
   */
  lemma BorderClipExample(element: ElementRef, view: NodeView, axis: Axis)
    requires !IsNotVisible(view)
    requires view.bounds == BoundingRect(10.0, 10.0, 100.0, 100.0) && view.scroll == Scroll(0.0, 0.0)
    ensures var c := ClipStyle.ClipRect(10.0, 90.0, 90.0, 10.0, 80.0, 80.0);
            ValueWith(ElementVisibleEdge(element, LowSide(axis)), view, Ok(Some(c))) == Ok(Position(axis, Pixels(20.0)))
    ensures var c := ClipStyle.ClipRect(10.0, 90.0, 90.0, 10.0, 80.0, 80.0);
            ValueWith(ElementVisibleEdge(element, HighSide(axis)), view, Ok(Some(c))) == Ok(Position(axis, Pixels(100.0)))
  {
    BorderClipAxis(view, axis);
  }

  /** One axis of the border-clip case: the clip's edges at 10 and 90 land at 20 and 100. */
  lemma BorderClipAxis(view: NodeView, axis: Axis)
    requires view.bounds == BoundingRect(10.0, 10.0, 100.0, 100.0) && view.scroll == Scroll(0.0, 0.0)
    ensures var c := ClipStyle.ClipRect(10.0, 90.0, 90.0, 10.0, 80.0, 80.0);
            && VisibleEdge(LowSide(axis), view, ClipOffsets(Some(c))) == Pixels(20.0)
            && VisibleEdge(HighSide(axis), view, ClipOffsets(Some(c))) == Pixels(100.0)
  {
    var c := ClipStyle.ClipRect(10.0, 90.0, 90.0, 10.0, 80.0, 80.0);
    assert RawEdge(view, LowSide(axis)) == 10.0 && RawEdge(view, HighSide(axis)) == 110.0;
    assert OverlapLow(view, c, axis) == 20.0 && OverlapHigh(view, c, axis) == 100.0;
    var low, high := VisibleSpanIsOverlap(view, c, axis);
  }

  /**
   * value as written: toPixels() is called on the normaliser's result, which
   * is null or a record of plain numbers, so every visible element fails
   * with a TypeError; only the invisible cases return before that call.
   */
  function ValueAsWritten(e: ElementVisibleEdge, view: NodeView, clip: Result<Option<ClipStyle.ClipRect>>): (r: Result<Position>)
    ensures r.Ok? <==> IsNotVisible(view)
    ensures r.Ok? ==> r == Ok(NotVisibleEdge(e.side))
    ensures !IsNotVisible(view) && clip.Ok? ==> r.error.TypeError?
  {
    if IsNotVisible(view) then Ok(NotVisibleEdge(e.side))
    else
      match clip
      case Err(err) => Err(err)
      case Ok(None) => Err(TypeError("Cannot read property '" + SideName(e.side) + "' of null"))
      case Ok(Some(_)) => Err(TypeError("clipEdgeOffsets[this._position].toPixels is not a function"))
  }

  /**
   * On the border-clip case the code as written throws where the intended
   * reading, and the source's own expectation, is a top edge at 20 pixels.
   */
  lemma AsWrittenFailsBorderClip(element: ElementRef, view: NodeView)
    requires !IsNotVisible(view)
    requires view.bounds == BoundingRect(10.0, 10.0, 100.0, 100.0) && view.scroll == Scroll(0.0, 0.0)
    ensures var c := ClipStyle.ClipRect(10.0, 90.0, 90.0, 10.0, 80.0, 80.0);
            && ValueAsWritten(ElementVisibleEdge(element, Top), view, Ok(Some(c))).error.TypeError?
            && ValueWith(ElementVisibleEdge(element, Top), view, Ok(Some(c))) == Ok(Position(Y, Pixels(20.0)))
  {
    BorderClipExample(element, view, Y);
  }
}
