/**
 * QElement of src/q_element.js: an element of the page under test, with the
 * descriptors of its edges, centre, middle and size, and of its visible
 * (clipped) rectangle. The constructor wires the descriptors once; their
 * values are read from the styling engine whenever they are asked for.
 *
 * The element edge, centre and element size descriptors live in files
 * that are not part of this model (element_edge.js, center.js,
 * element_size.js); they are stood in for by the bounding-box edge, the
 * midpoint of two positions and the distance between two edges.
 */
module QElements {
  import opened Outcome
  import opened Values
  import opened Dom
  import StyleUtil
  import ClipStyle
  import ElementVisibleEdge
  import ElementVisibleSize

  /** The position descriptors a QElement hands out. */
  datatype PositionDescriptor =
    | ElementEdge(element: ElementRef, side: Side)
    | VisibleEdge(edge: ElementVisibleEdge.ElementVisibleEdge)
    | Center(axis: Axis, low: PositionDescriptor, high: PositionDescriptor, description: string)

  /** The size descriptors a QElement hands out. */
  datatype SizeDescriptor =
    | ElementSize(element: ElementRef, axis: Axis)
    | VisibleSize(size: ElementVisibleSize.ElementVisibleSize<PositionDescriptor>)

  /** The descriptors of the visible rectangle, `clip` in the source. */
  datatype ClipDescriptors = ClipDescriptors(
    top: PositionDescriptor, right: PositionDescriptor, bottom: PositionDescriptor, left: PositionDescriptor,
    center: PositionDescriptor, middle: PositionDescriptor,
    width: SizeDescriptor, height: SizeDescriptor)

  /**
   * The midpoint of two positions on one axis: the average of two pixel
   * lengths, NoPixels for two NoPixels, and a failure for a mixed pair.
   */
  function Midpoint(axis: Axis, a: Position, b: Position): (r: Result<Position>)
    ensures r.Ok? <==> a.axis == axis && b.axis == axis && Compatible(a.len, b.len)
    ensures a.axis != axis || b.axis != axis ==> r == Err(AxisMismatch)
    ensures a.axis == axis && b.axis == axis && !Compatible(a.len, b.len) ==> r == Err(IncompatibleLengths)
    ensures r.Ok? ==> r.value.axis == axis && r.value.len == Average(a.len, b.len)
    ensures r.Ok? && a.len.Pixels? ==>
              r.value.len.Pixels? && r.value.len.px - a.len.px == b.len.px - r.value.len.px
    ensures r.Ok? && a.len.NoPixels? ==> r.value.len == NoPixels
  {
    if a.axis != axis || b.axis != axis then Err(AxisMismatch)
    else if !Compatible(a.len, b.len) then Err(IncompatibleLengths)
    else Ok(Position(axis, Average(a.len, b.len)))
  }

  /** The value of a position descriptor as the styling engine shows the page now. */
  function PositionValue(d: PositionDescriptor, engine: StylingEngine): (r: Result<Position>)
    ensures d.ElementEdge? ==> r == Ok(Position(AxisOf(d.side), Pixels(RawEdge(engine.read(d.element.node), d.side))))
    ensures d.VisibleEdge? ==> r == ElementVisibleEdge.Value(d.edge, engine)
    ensures r.Ok? && d.Center? ==> r.value.axis == d.axis
    ensures d.Center? && PositionValue(d.low, engine).Err? ==> r == PositionValue(d.low, engine)
    ensures d.Center? && PositionValue(d.low, engine).Ok? && PositionValue(d.high, engine).Err? ==> r == PositionValue(d.high, engine)
    ensures d.Center? && PositionValue(d.low, engine).Ok? && PositionValue(d.high, engine).Ok? ==>
              r == Midpoint(d.axis, PositionValue(d.low, engine).value, PositionValue(d.high, engine).value)
    decreases d
  {
    match d
    case ElementEdge(element, side) =>
      Ok(Position(AxisOf(side), Pixels(RawEdge(engine.read(element.node), side))))
    case VisibleEdge(edge) => ElementVisibleEdge.Value(edge, engine)
    case Center(axis, low, high, _) =>
      match PositionValue(low, engine)
      case Err(e) => Err(e)
      case Ok(a) =>
        match PositionValue(high, engine)
        case Err(e) => Err(e)
        case Ok(b) => Midpoint(axis, a, b)
  }

  /** The value of a size descriptor. */
  function SizeValue(d: SizeDescriptor, engine: StylingEngine): (r: Result<Size>)
    ensures d.VisibleSize? ==>
              r == ElementVisibleSize.ValueOf(PositionValue(d.size.position1, engine), PositionValue(d.size.position2, engine))
    ensures d.ElementSize? ==>
              var view := engine.read(d.element.node);
              r == Ok(Size(Pixels(RawEdge(view, ElementVisibleEdge.HighSide(d.axis)) - RawEdge(view, ElementVisibleEdge.LowSide(d.axis)))))
  {
    match d
    case ElementSize(element, axis) =>
      var view := engine.read(element.node);
      var low := if axis == X then Left else Top;
      var high := if axis == X then Right else Bottom;
      Ok(Size(Pixels(RawEdge(view, high) - RawEdge(view, low))))
    case VisibleSize(size) =>
      ElementVisibleSize.ValueOf(PositionValue(size.position1, engine), PositionValue(size.position2, engine))
  }

  class QElement {
    const domElement: DomNode
    const frame: QFrame
    const nickname: string

    const top: PositionDescriptor
    const right: PositionDescriptor
    const bottom: PositionDescriptor
    const left: PositionDescriptor
    const center: PositionDescriptor
    const middle: PositionDescriptor
    const width: SizeDescriptor
    const height: SizeDescriptor
    const clip: ClipDescriptors

    /** What a descriptor keeps of this element. */
    function Ref(): (r: ElementRef)
      ensures r.node == domElement && r.frame == frame && r.nickname == nickname
    {
      ElementRef(domElement, frame, nickname)
    }

    /** The descriptors are the ones the constructor wires. */
    ghost predicate Wired()
    {
      var me := Ref();
      && top == ElementEdge(me, Top) && right == ElementEdge(me, Right)
      && bottom == ElementEdge(me, Bottom) && left == ElementEdge(me, Left)
      && center == Center(X, left, right, "center of '" + nickname + "'")
      && middle == Center(Y, top, bottom, "middle of '" + nickname + "'")
      && width == ElementSize(me, X) && height == ElementSize(me, Y)
      && clip.top == VisibleEdge(ElementVisibleEdge.ElementVisibleEdge(me, Top))
      && clip.right == VisibleEdge(ElementVisibleEdge.ElementVisibleEdge(me, Right))
      && clip.bottom == VisibleEdge(ElementVisibleEdge.ElementVisibleEdge(me, Bottom))
      && clip.left == VisibleEdge(ElementVisibleEdge.ElementVisibleEdge(me, Left))
      && clip.center == Center(X, clip.left, clip.right, "center of clip for '" + nickname + "'")
      && clip.middle == Center(Y, clip.top, clip.bottom, "middle of clip for '" + nickname + "'")
      && clip.width == VisibleSize(ElementVisibleSize.X(clip.left, clip.right, "width of clip for '" + nickname + "'"))
      && clip.height == VisibleSize(ElementVisibleSize.Y(clip.top, clip.bottom, "height of clip for '" + nickname + "'"))
    }

    /** The constructor: keeps the node, frame and nickname and wires every descriptor to them. */
    constructor (domElement: DomNode, frame: QFrame, nickname: string)
      ensures this.domElement == domElement && this.frame == frame && this.nickname == nickname
      ensures Wired()
    {
      var me := ElementRef(domElement, frame, nickname);
      this.domElement := domElement;
      this.frame := frame;
      this.nickname := nickname;
      top := ElementEdge(me, Top);
      right := ElementEdge(me, Right);
      bottom := ElementEdge(me, Bottom);
      left := ElementEdge(me, Left);
      center := Center(X, ElementEdge(me, Left), ElementEdge(me, Right), "center of '" + nickname + "'");
      middle := Center(Y, ElementEdge(me, Top), ElementEdge(me, Bottom), "middle of '" + nickname + "'");
      width := ElementSize(me, X);
      height := ElementSize(me, Y);
      var clipTop := VisibleEdge(ElementVisibleEdge.ElementVisibleEdge(me, Top));
      var clipRight := VisibleEdge(ElementVisibleEdge.ElementVisibleEdge(me, Right));
      var clipBottom := VisibleEdge(ElementVisibleEdge.ElementVisibleEdge(me, Bottom));
      var clipLeft := VisibleEdge(ElementVisibleEdge.ElementVisibleEdge(me, Left));
      clip := ClipDescriptors(
        clipTop, clipRight, clipBottom, clipLeft,
        Center(X, clipLeft, clipRight, "center of clip for '" + nickname + "'"),
        Center(Y, clipTop, clipBottom, "middle of clip for '" + nickname + "'"),
        VisibleSize(ElementVisibleSize.X(clipLeft, clipRight, "width of clip for '" + nickname + "'")),
        VisibleSize(ElementVisibleSize.Y(clipTop, clipBottom, "height of clip for '" + nickname + "'")));
    }

    /** getRawStyle: the computed style property of this element, "" when there is none. */
    function GetRawStyle(engine: StylingEngine, styleName: string): (r: string)
      ensures styleName in engine.read(domElement).computed ==> r == engine.read(domElement).computed[styleName]
      ensures styleName !in engine.read(domElement).computed ==> r == ""
    {
      StyleUtil.GetRawCssStyle(engine.read(domElement), styleName)
    }

    /**
     * getRawPosition as intended: the bounding client rectangle of this
     * element, as the engine reports it.
     */
    function GetRawPosition(engine: StylingEngine): (r: BoundingRect)
      ensures r == engine.read(domElement).bounds
    {
      engine.read(domElement).bounds
    }

    /**
     * getRawPosition as written: it calls StyleUtil.getRawBoundingRect,
     * which StyleUtil does not define, so the call fails with a TypeError
     * whatever the element.
     */
    function GetRawPositionAsWritten(engine: StylingEngine): (r: Result<BoundingRect>)
      ensures r.Err? && r.error.TypeError?
    {
      Err(TypeError("StyleUtil.getRawBoundingRect is not a function"))
    }

    /** toDomElement */
    function ToDomElement(): (n: DomNode)
      ensures n == domElement
    {
      domElement
    }

    /** toString: the nickname in single quotes. */
    function ToString(): (s: string)
      ensures |s| == |nickname| + 2 && s[0] == '\'' && s[|s| - 1] == '\''
      ensures s[1..|s| - 1] == nickname
    {
      Ref().ToString()
    }

    /** equals: two QElements are equal when they wrap the same DOM node. */
    predicate Equals(that: QElement)
    {
      domElement == that.domElement
    }
  }

  /** The length of the overlap of the element's box and its clip rectangle along an axis; zero when they miss. */
  function OverlapLength(view: NodeView, c: ClipStyle.ClipRect, axis: Axis): real
  {
    ElementVisibleEdge.MaxReal(ElementVisibleEdge.OverlapHigh(view, c, axis) - ElementVisibleEdge.OverlapLow(view, c, axis), 0.0)
  }

  /** The axis-dependent clip size of an element. */
  function ClipSize(q: QElement, axis: Axis): SizeDescriptor
  {
    if axis == X then q.clip.width else q.clip.height
  }

  /**
   * The clip size along an axis is the length of the overlap between the
   * element's box and its clip rectangle, or zero when they do not overlap.
   */
  lemma ClipSizeIsOverlap(q: QElement, engine: StylingEngine, view: NodeView, c: ClipStyle.ClipRect, axis: Axis)
    requires q.Wired() && view == engine.read(q.domElement)
    requires !ElementVisibleEdge.IsNotVisible(view) && ClipStyle.Normalize(view) == Ok(Some(c))
    requires c.width > 0.0 && c.height > 0.0
    requires RawEdge(view, ElementVisibleEdge.LowSide(axis)) <= RawEdge(view, ElementVisibleEdge.HighSide(axis))
    ensures SizeValue(ClipSize(q, axis), engine) == Ok(Size(Pixels(OverlapLength(view, c, axis))))
  {
    var view := engine.read(q.domElement);
    var me := q.Ref();
    var low := ElementVisibleEdge.ElementVisibleEdge(me, ElementVisibleEdge.LowSide(axis));
    var high := ElementVisibleEdge.ElementVisibleEdge(me, ElementVisibleEdge.HighSide(axis));
    assert ClipSize(q, axis).size.position1 == VisibleEdge(low);
    assert ClipSize(q, axis).size.position2 == VisibleEdge(high);
    assert ClipStyle.Consistent(c);
    var lo := ElementVisibleEdge.ValueWith(low, view, Ok(Some(c)));
    var hi := ElementVisibleEdge.ValueWith(high, view, Ok(Some(c)));
    assert PositionValue(VisibleEdge(low), engine) == lo;
    assert PositionValue(VisibleEdge(high), engine) == hi;
    var size := VisibleSizeIsOverlap(me, view, c, axis);
    calc {
      SizeValue(ClipSize(q, axis), engine);
      ElementVisibleSize.ValueOf(PositionValue(VisibleEdge(low), engine), PositionValue(VisibleEdge(high), engine));
      ElementVisibleSize.ValueOf(lo, hi);
      Ok(Size(Pixels(size)));
    }
  }

  /** The visible size between a clipped element's low and high visible edges. */
  lemma VisibleSizeIsOverlap(me: ElementRef, view: NodeView, c: ClipStyle.ClipRect, axis: Axis) returns (size: real)
    requires !ElementVisibleEdge.IsNotVisible(view) && ClipStyle.Consistent(c) && c.width > 0.0 && c.height > 0.0
    requires RawEdge(view, ElementVisibleEdge.LowSide(axis)) <= RawEdge(view, ElementVisibleEdge.HighSide(axis))
    ensures ElementVisibleSize.ValueOf(
              ElementVisibleEdge.ValueWith(ElementVisibleEdge.ElementVisibleEdge(me, ElementVisibleEdge.LowSide(axis)), view, Ok(Some(c))),
              ElementVisibleEdge.ValueWith(ElementVisibleEdge.ElementVisibleEdge(me, ElementVisibleEdge.HighSide(axis)), view, Ok(Some(c))))
            == Ok(Size(Pixels(size)))
    ensures size == OverlapLength(view, c, axis)
  {
    var lo := ElementVisibleEdge.ValueWith(ElementVisibleEdge.ElementVisibleEdge(me, ElementVisibleEdge.LowSide(axis)), view, Ok(Some(c)));
    var hi := ElementVisibleEdge.ValueWith(ElementVisibleEdge.ElementVisibleEdge(me, ElementVisibleEdge.HighSide(axis)), view, Ok(Some(c)));
    var loPx, hiPx := ElementVisibleEdge.VisibleSpanIsOverlap(view, c, axis);
    assert lo.value.axis == hi.value.axis;
    var r := ElementVisibleSize.ValueOf(lo, hi);
    assert r.Ok? && r.value.len.Pixels?;
    var overlapLow := ElementVisibleEdge.OverlapLow(view, c, axis);
    var overlapHigh := ElementVisibleEdge.OverlapHigh(view, c, axis);
    ClampedDistance(loPx, hiPx, overlapLow, overlapHigh, r.value.len.px);
    size := r.value.len.px;
  }

  /** The clamped distance between two edges that meet the overlap's ends, or each other. */
  lemma ClampedDistance(lo: real, hi: real, overlapLow: real, overlapHigh: real, size: real)
    requires overlapLow <= overlapHigh ==> lo == overlapLow && hi == overlapHigh
    requires overlapLow > overlapHigh ==> lo == hi
    requires size >= 0.0 && size >= hi - lo && (size == 0.0 || size == hi - lo)
    ensures size == ElementVisibleEdge.MaxReal(overlapHigh - overlapLow, 0.0)
  {
  }

  /** An invisible element has no clip width, height, centre or middle. */
  lemma InvisibleHasNoClipRect(q: QElement, engine: StylingEngine)
    requires q.Wired()
    requires ElementVisibleEdge.IsNotVisible(engine.read(q.domElement))
    ensures SizeValue(q.clip.width, engine) == Ok(Size(NoPixels))
    ensures SizeValue(q.clip.height, engine) == Ok(Size(NoPixels))
    ensures PositionValue(q.clip.center, engine) == Ok(Position(X, NoPixels))
    ensures PositionValue(q.clip.middle, engine) == Ok(Position(Y, NoPixels))
  {
    var view := engine.read(q.domElement);
    var me := q.Ref();
    forall side: Side
      ensures PositionValue(VisibleEdge(ElementVisibleEdge.ElementVisibleEdge(me, side)), engine)
              == Ok(Position(AxisOf(side), NoPixels))
    {
      var e := ElementVisibleEdge.ElementVisibleEdge(me, side);
      assert ElementVisibleEdge.Value(e, engine) == ElementVisibleEdge.ValueWith(e, view, ClipStyle.Normalize(view));
    }
  }

  /** Without a clip, a visible element's clip size is its own size. */
  lemma UnclippedClipSizeIsElementSize(q: QElement, engine: StylingEngine, axis: Axis)
    requires q.Wired()
    requires var view := engine.read(q.domElement);
             !ElementVisibleEdge.IsNotVisible(view) && ClipStyle.Normalize(view) == Ok(None)
             && RawEdge(view, ElementVisibleEdge.LowSide(axis)) <= RawEdge(view, ElementVisibleEdge.HighSide(axis))
    ensures SizeValue(ClipSize(q, axis), engine) == SizeValue(ElementSize(q.Ref(), axis), engine)
  {
    var view := engine.read(q.domElement);
    var me := q.Ref();
    var low := ElementVisibleEdge.ElementVisibleEdge(me, ElementVisibleEdge.LowSide(axis));
    var high := ElementVisibleEdge.ElementVisibleEdge(me, ElementVisibleEdge.HighSide(axis));
    assert ClipSize(q, axis).size.position1 == VisibleEdge(low);
    assert ClipSize(q, axis).size.position2 == VisibleEdge(high);
    assert PositionValue(VisibleEdge(low), engine) == ElementVisibleEdge.ValueWith(low, view, Ok(None));
    assert PositionValue(VisibleEdge(high), engine) == ElementVisibleEdge.ValueWith(high, view, Ok(None));
  }

  /** Where the intended getRawPosition gives the bounding rectangle, the code as written fails. */
  lemma RawPositionAsWrittenFails(q: QElement, engine: StylingEngine)
    ensures q.GetRawPositionAsWritten(engine) != Ok(q.GetRawPosition(engine))
    ensures q.GetRawPosition(engine) == engine.read(q.ToDomElement()).bounds
  {
  }

  /**
   * The centre and middle of the visible rectangle are the averages of its
   * opposite visible edges: the two edges are always of one kind, so the
   * midpoint of a wired element never meets a mixed pair.
   */
  lemma {:induction false} ClipCentreIsAverage(q: QElement, engine: StylingEngine, axis: Axis)
    requires q.Wired()
    ensures var centre := if axis == X then q.clip.center else q.clip.middle;
            var lo := PositionValue(if axis == X then q.clip.left else q.clip.top, engine);
            var hi := PositionValue(if axis == X then q.clip.right else q.clip.bottom, engine);
            && (lo.Ok? <==> hi.Ok?)
            && (lo.Err? ==> PositionValue(centre, engine) == lo)
            && (lo.Ok? ==> PositionValue(centre, engine) == Ok(Position(axis, Average(lo.value.len, hi.value.len))))
  {
    var view := engine.read(q.domElement);
    var me := q.Ref();
    var low := ElementVisibleEdge.ElementVisibleEdge(me, ElementVisibleEdge.LowSide(axis));
    var high := ElementVisibleEdge.ElementVisibleEdge(me, ElementVisibleEdge.HighSide(axis));
    var clip := ClipStyle.Normalize(view);
    assert PositionValue(VisibleEdge(low), engine) == ElementVisibleEdge.ValueWith(low, view, clip);
    assert PositionValue(VisibleEdge(high), engine) == ElementVisibleEdge.ValueWith(high, view, clip);
    ElementVisibleEdge.EdgesOfOneKind(low, high, view, clip);
  }

  /**
   * equals is identity of the wrapped DOM node: frames and nicknames play
   * no part, and it is reflexive, symmetric and transitive.
   */
  lemma EqualsIsNodeIdentity(q1: QElement, q2: QElement, q3: QElement)
    ensures q1.Equals(q2) <==> q1.ToDomElement() == q2.ToDomElement()
    ensures q1.Equals(q1)
    ensures q1.Equals(q2) ==> q2.Equals(q1)
    ensures q1.Equals(q2) && q2.Equals(q3) ==> q1.Equals(q3)
  {
  }

  /**
   * Equal elements (the same DOM node) report the same values for every
   * descriptor, whatever their frames and nicknames.
   */
  lemma EqualElementsAgree(q1: QElement, q2: QElement, engine: StylingEngine, side: Side)
    requires q1.Wired() && q2.Wired() && q1.Equals(q2)
    ensures PositionValue(VisibleEdge(ElementVisibleEdge.ElementVisibleEdge(q1.Ref(), side)), engine)
            == PositionValue(VisibleEdge(ElementVisibleEdge.ElementVisibleEdge(q2.Ref(), side)), engine)
    ensures SizeValue(q1.clip.width, engine) == SizeValue(q2.clip.width, engine)
    ensures SizeValue(q1.clip.height, engine) == SizeValue(q2.clip.height, engine)
  {
  }
}
