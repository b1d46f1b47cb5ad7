/**
 * The visible size descriptor of src/descriptors/element_visible_size.js:
 * the distance between two visible edges, never negative, and NoPixels when
 * either edge is not visible. The descriptor is generic in the position
 * descriptors it holds; its value is computed from their values.
 */
module ElementVisibleSize {
  import opened Outcome
  import opened Values

  datatype Dimension = Width | Height

  function DimensionName(d: Dimension): string
  {
    match d
    case Width => "width"
    case Height => "height"
  }

  /** The dimension a size is built for by name; anything but "width" and "height" is refused. */
  function DimensionNamed(name: string): (r: Result<Dimension>)
    ensures r.Ok? <==> name == "width" || name == "height"
    ensures r.Ok? ==> DimensionName(r.value) == name
    ensures r.Err? ==> r.error == UnrecognizedDimension(name)
  {
    if name == "width" then Ok(Width)
    else if name == "height" then Ok(Height)
    else Err(UnrecognizedDimension(name))
  }

  datatype ElementVisibleSize<P> = ElementVisibleSize(dimension: Dimension, position1: P, position2: P, description: string)

  /** The constructor, with the dimension given by name. */
  function Create<P>(dimension: string, position1: P, position2: P, description: string): (r: Result<ElementVisibleSize<P>>)
    ensures r.Ok? <==> dimension == "width" || dimension == "height"
    ensures r.Ok? ==> DimensionName(r.value.dimension) == dimension
                      && r.value.position1 == position1 && r.value.position2 == position2
                      && r.value.description == description
    ensures r.Err? ==> r.error == UnrecognizedDimension(dimension)
  {
    match DimensionNamed(dimension)
    case Err(e) => Err(e)
    case Ok(d) => Ok(ElementVisibleSize(d, position1, position2, description))
  }

  /** The x factory: a width between two positions. */
  function X<P>(position1: P, position2: P, description: string): (s: ElementVisibleSize<P>)
    ensures Create("width", position1, position2, description) == Ok(s)
  {
    ElementVisibleSize(Width, position1, position2, description)
  }

  /** The y factory: a height between two positions. */
  function Y<P>(position1: P, position2: P, description: string): (s: ElementVisibleSize<P>)
    ensures Create("height", position1, position2, description) == Ok(s)
  {
    ElementVisibleSize(Height, position1, position2, description)
  }

  /**
   * value, given the values of the two positions in the order the source
   * reads them: the first position's failure, or NoPixels when it is not
   * visible (the second is then not read); then the same for the second;
   * then the difference, no less than zero. Positions on different axes
   * cannot be subtracted.
   */
  function ValueOf(p1: Result<Position>, p2: Result<Position>): (r: Result<Size>)
    ensures p1.Err? ==> r == Err(p1.error)
    ensures p1.Ok? && p1.value.len.NoPixels? ==> r == Ok(Size(NoPixels))
    ensures p1.Ok? && p1.value.len.Pixels? && p2.Err? ==> r == Err(p2.error)
    ensures p1.Ok? && p1.value.len.Pixels? && p2.Ok? && p2.value.len.NoPixels? ==> r == Ok(Size(NoPixels))
    ensures r.Ok? && r.value.len.Pixels? ==>
              p1.Ok? && p2.Ok? && p1.value.len.Pixels? && p2.value.len.Pixels? && p1.value.axis == p2.value.axis
              && r.value.len.px >= 0.0
              && r.value.len.px >= p2.value.len.px - p1.value.len.px
              && (r.value.len.px == 0.0 || r.value.len.px == p2.value.len.px - p1.value.len.px)
    ensures p1.Ok? && p2.Ok? && p1.value.len.Pixels? && p2.value.len.Pixels? ==>
              (r == Err(AxisMismatch) <==> p1.value.axis != p2.value.axis)
              && (p1.value.axis == p2.value.axis ==> r.Ok? && r.value.len.Pixels?)
  {
    match p1
    case Err(e) => Err(e)
    case Ok(a) =>
      if a.len.NoPixels? then Ok(Size(NoPixels))
      else
        match p2
        case Err(e) => Err(e)
        case Ok(b) =>
          if b.len.NoPixels? then Ok(Size(NoPixels))
          else if a.axis != b.axis then Err(AxisMismatch)
          else Ok(Size(Max(Minus(b.len, a.len), Zero)))
  }

  /** toString */
  function ToString<P>(s: ElementVisibleSize<P>): (d: string)
    ensures d == s.description
  {
    s.description
  }

  /** Ordered edges give their distance; edges in the wrong order give zero. */
  lemma OrderedEdgesGiveDistance(axis: Axis, low: real, high: real)
    ensures low <= high ==> ValueOf(Ok(Position(axis, Pixels(low))), Ok(Position(axis, Pixels(high)))) == Ok(Size(Pixels(high - low)))
    ensures high < low ==> ValueOf(Ok(Position(axis, Pixels(low))), Ok(Position(axis, Pixels(high)))) == Ok(Size(Zero))
  {
  }
}
