/**
 * The clip edge descriptor of src/descriptors/element_clip_edge.js: one
 * edge of an element's clip rectangle in page coordinates. Its raw clip
 * position is the earlier normaliser's rectangle (src/normalize/clip-style.js,
 * of which getRawClipPosition carries a copy) moved by the bounding box's
 * top-left corner; its value adds the frame's scroll offset.
 */
module ElementClipEdge {
  import opened Outcome
  import opened Values
  import opened Dom
  import ClipStyle
  import ClipStyleV1

  datatype ElementClipEdge = ElementClipEdge(element: ElementRef, side: Side)

  /** The constructor: the position must name one of the four edges. */
  function Create(element: ElementRef, position: string): (r: Result<ElementClipEdge>)
    ensures r.Ok? <==> position in {"top", "right", "bottom", "left"}
    ensures r.Ok? ==> r.value.element == element && SideName(r.value.side) == position
    ensures r.Err? ==> r.error == UnknownPosition(position)
  {
    match SideNamed(position)
    case Err(e) => Err(e)
    case Ok(side) => Ok(ElementClipEdge(element, side))
  }

  /** A clip rectangle, relative to the bounding box, moved into viewport coordinates. */
  function InViewport(c: ClipStyle.ClipRect, bounds: BoundingRect): (r: ClipStyle.ClipRect)
    ensures r.left == bounds.left + c.left && r.right == bounds.left + c.right
    ensures r.top == bounds.top + c.top && r.bottom == bounds.top + c.bottom
    ensures r.width == c.right - c.left && r.height == c.bottom - c.top
    ensures ClipStyle.Consistent(r)
  {
    var left := bounds.left + c.left;
    var right := bounds.left + c.right;
    var top := bounds.top + c.top;
    var bottom := bounds.top + c.bottom;
    ClipStyle.ClipRect(top, right, bottom, left, right - left, bottom - top)
  }

  /**
   * getRawClipPosition: the clip rectangle in viewport coordinates, None
   * when no clip is set; its size is the normalised rectangle's size.
   */
  function GetRawClipPosition(view: NodeView): (r: Result<Option<ClipStyle.ClipRect>>)
    ensures r.Err? <==> ClipStyleV1.Normalize(view).Err?
    ensures r.Err? ==> r.error == ClipStyleV1.Normalize(view).error
    ensures r.Err? ==> r.error.UnknownClipStyle? || r.error.LengthExpected? || r.error.NotANumber?
    ensures r == Ok(None) <==> ClipStyleV1.Normalize(view) == Ok(None)
    ensures r.Ok? && r.value.Some? ==>
              var c := ClipStyleV1.Normalize(view).value.value;
              ClipStyle.Consistent(r.value.value) && r.value.value.width == c.width && r.value.value.height == c.height
    ensures r.Ok? && r.value.Some? ==> r.value.value == InViewport(ClipStyleV1.Normalize(view).value.value, view.bounds)
  {
    match ClipStyleV1.Normalize(view)
    case Err(e) => Err(e)
    case Ok(None) => Ok(None)
    case Ok(Some(c)) => Ok(Some(InViewport(c, view.bounds)))
  }

  /** The coordinate of one edge of a rectangle. */
  function EdgeOf(c: ClipStyle.ClipRect, side: Side): real
  {
    match side
    case Top => c.top
    case Right => c.right
    case Bottom => c.bottom
    case Left => c.left
  }

  /** The bounding box's top-left corner along the axis of a side. */
  function CornerAlong(view: NodeView, side: Side): real
  {
    if AxisOf(side) == X then view.bounds.left else view.bounds.top
  }

  /** The frame's scroll offset along the axis of a side. */
  function ScrollAlong(view: NodeView, side: Side): real
  {
    if AxisOf(side) == X then view.scroll.x else view.scroll.y
  }

  /** The message of ClipNotAppliedException. */
  function NotAppliedMessage(e: ElementClipEdge): string
  {
    "clip " + SideName(e.side) + " css style not applied to " + e.element.ToString()
  }

  /**
   * value: the clip edge in page coordinates on the edge's axis. Without a
   * clip it fails with ClipNotApplied; a clip that cannot be read fails
   * with the normaliser's error.
   */
  function Value(e: ElementClipEdge, engine: StylingEngine): (r: Result<Position>)
    ensures var raw := GetRawClipPosition(engine.read(e.element.node));
            (raw == Ok(None) <==> r == Err(ClipNotApplied(NotAppliedMessage(e))))
            && (raw.Err? ==> r == Err(raw.error))
    ensures r.Ok? ==> r.value.axis == AxisOf(e.side) && r.value.len.Pixels?
    ensures ClipStyleV1.Normalize(engine.read(e.element.node)).Ok? && ClipStyleV1.Normalize(engine.read(e.element.node)).value.Some? ==>
              r == Ok(Position(AxisOf(e.side), Pixels(PageEdge(e, engine.read(e.element.node)))))
  {
    var view := engine.read(e.element.node);
    EdgeInPage(e, view);
    ValueFrom(e, view, GetRawClipPosition(view))
  }

  /** The normalised clip's edge moved by the bounding box's corner and the scroll offset. */
  function PageEdge(e: ElementClipEdge, view: NodeView): real
    requires ClipStyleV1.Normalize(view).Ok? && ClipStyleV1.Normalize(view).value.Some?
  {
    EdgeOf(ClipStyleV1.Normalize(view).value.value, e.side) + CornerAlong(view, e.side) + ScrollAlong(view, e.side)
  }

  /** A normalised clip edge ends up moved by the bounding box's corner and the scroll offset. */
  lemma {:induction false} EdgeInPage(e: ElementClipEdge, view: NodeView)
    ensures ClipStyleV1.Normalize(view).Ok? && ClipStyleV1.Normalize(view).value.Some? ==>
              ValueFrom(e, view, GetRawClipPosition(view)) == Ok(Position(AxisOf(e.side), Pixels(PageEdge(e, view))))
  {
    var n := ClipStyleV1.Normalize(view);
    if n.Ok? && n.value.Some? {
      MovedClipEdge(e, view, GetRawClipPosition(view), n.value.value, PageEdge(e, view));
    }
  }

  /** The value of a clip rectangle moved into viewport coordinates is its edge plus the corner and the scroll offset. */
  lemma {:induction false} MovedClipEdge(e: ElementClipEdge, view: NodeView, raw: Result<Option<ClipStyle.ClipRect>>, c: ClipStyle.ClipRect, edge: real)
    requires raw == Ok(Some(InViewport(c, view.bounds)))
    requires edge == EdgeOf(c, e.side) + CornerAlong(view, e.side) + ScrollAlong(view, e.side)
    ensures ValueFrom(e, view, raw) == Ok(Position(AxisOf(e.side), Pixels(edge)))
  {
  }

  /** The value computed from a raw clip position already read. */
  function ValueFrom(e: ElementClipEdge, view: NodeView, raw: Result<Option<ClipStyle.ClipRect>>): (r: Result<Position>)
    ensures raw == Ok(None) ==> r == Err(ClipNotApplied(NotAppliedMessage(e)))
    ensures raw.Err? ==> r == Err(raw.error)
    ensures r.Ok? <==> raw.Ok? && raw.value.Some?
    ensures r.Ok? ==> r.value.axis == AxisOf(e.side)
                      && r.value.len == Pixels(EdgeOf(raw.value.value, e.side) + ScrollAlong(view, e.side))
  {
    match raw
    case Err(err) => Err(err)
    case Ok(None) => Err(ClipNotApplied(NotAppliedMessage(e)))
    case Ok(Some(rect)) => Ok(Position(AxisOf(e.side), Pixels(EdgeOf(rect, e.side) + ScrollAlong(view, e.side))))
  }

  /** toString */
  function ToString(e: ElementClipEdge): (s: string)
    ensures s == "clip " + SideName(e.side) + " edge of '" + e.element.nickname + "'"
  {
    "clip " + SideName(e.side) + " edge of " + e.element.ToString()
  }

  /**
   * The distance between opposite clip edges is the clip rectangle's size,
   * whatever the bounding box and the scroll offset.
   */
  lemma OppositeEdgesSpanClip(element: ElementRef, engine: StylingEngine)
    requires ClipStyleV1.Normalize(engine.read(element.node)).Ok?
    requires ClipStyleV1.Normalize(engine.read(element.node)).value.Some?
    ensures var c := ClipStyleV1.Normalize(engine.read(element.node)).value.value;
            var l := Value(ElementClipEdge(element, Left), engine);
            var r := Value(ElementClipEdge(element, Right), engine);
            var t := Value(ElementClipEdge(element, Top), engine);
            var b := Value(ElementClipEdge(element, Bottom), engine);
            l.Ok? && r.Ok? && t.Ok? && b.Ok? &&
            r.value.len.px - l.value.len.px == c.width &&
            b.value.len.px - t.value.len.px == c.height
  {
  }

  /**
   * A clip rectangle that is the element's border box (what a clip of all
   * "auto" gives when the offset size is the bounding box's size) puts every
   * clip edge on the element's own edge.
   */
  lemma BoxClipIsElementBox(element: ElementRef, view: NodeView, side: Side, c: ClipStyle.ClipRect)
    requires c.top == 0.0 && c.left == 0.0 && c.right == view.bounds.width && c.bottom == view.bounds.height
    ensures ValueFrom(ElementClipEdge(element, side), view, Ok(Some(InViewport(c, view.bounds))))
              == Ok(Position(AxisOf(side), Pixels(RawEdge(view, side))))
  {
    var rect := InViewport(c, view.bounds);
    assert EdgeOf(rect, side) + ScrollAlong(view, side) == RawEdge(view, side);
  }

  /** Without a clip every edge reports ClipNotApplied, naming the edge and the element. */
  lemma NoClipNotApplied(element: ElementRef, engine: StylingEngine, side: Side)
    requires ClipStyleV1.Normalize(engine.read(element.node)) == Ok(None)
    ensures Value(ElementClipEdge(element, side), engine)
              == Err(ClipNotApplied("clip " + SideName(side) + " css style not applied to '" + element.nickname + "'"))
  {
    assert "clip " + SideName(side) + " css style not applied to " + element.ToString()
        == "clip " + SideName(side) + " css style not applied to '" + element.nickname + "'";
  }
}
