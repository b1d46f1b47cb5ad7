/**
 * Lengths, positions and sizes: the value algebra the descriptors produce.
 * A Length is either a pixel measurement or the NoPixels sentinel ("nothing
 * visible here"); arithmetic never mixes the two.
 */
module Values {
  import opened Outcome

  datatype Axis = X | Y

  datatype Side = Top | Right | Bottom | Left

  /** Left and right edges lie on the x axis, top and bottom on the y axis. */
  function AxisOf(side: Side): Axis
  {
    if side == Left || side == Right then X else Y
  }

  function SideName(side: Side): string
  {
    match side
    case Top => "top"
    case Right => "right"
    case Bottom => "bottom"
    case Left => "left"
  }

  /** The edge a descriptor constructor is asked for by name; any other name is refused. */
  function SideNamed(name: string): (r: Result<Side>)
    ensures r.Ok? <==> name in {"top", "right", "bottom", "left"}
    ensures r.Ok? ==> SideName(r.value) == name
    ensures r.Err? ==> r.error == UnknownPosition(name)
  {
    if name == "top" then Ok(Top)
    else if name == "right" then Ok(Right)
    else if name == "bottom" then Ok(Bottom)
    else if name == "left" then Ok(Left)
    else Err(UnknownPosition(name))
  }

  datatype Length = Pixels(px: real) | NoPixels

  const Zero: Length := Pixels(0.0)

  /** Two lengths may be combined only when both are Pixels or both are NoPixels. */
  predicate Compatible(a: Length, b: Length)
  {
    a.Pixels? == b.Pixels?
  }

  function Plus(a: Length, b: Length): (r: Length)
    requires Compatible(a, b)
    ensures r.NoPixels? <==> a.NoPixels?
    ensures r.Pixels? ==> r.px == a.px + b.px
  {
    if a.NoPixels? then NoPixels else Pixels(a.px + b.px)
  }

  function Minus(a: Length, b: Length): (r: Length)
    requires Compatible(a, b)
    ensures r.NoPixels? <==> a.NoPixels?
    ensures r.Pixels? ==> r.px == a.px - b.px
  {
    if a.NoPixels? then NoPixels else Pixels(a.px - b.px)
  }

  function Average(a: Length, b: Length): (r: Length)
    requires Compatible(a, b)
    ensures r.NoPixels? <==> a.NoPixels?
    ensures r.Pixels? ==> (a.px <= r.px <= b.px || b.px <= r.px <= a.px)
    ensures r.Pixels? ==> r.px - a.px == b.px - r.px
  {
    if a.NoPixels? then NoPixels else Pixels((a.px + b.px) / 2.0)
  }

  function Max(a: Length, b: Length): (r: Length)
    requires Compatible(a, b)
    ensures r == a || r == b
    ensures r.Pixels? ==> a.px <= r.px && b.px <= r.px
  {
    if a.NoPixels? || a.px >= b.px then a else b
  }

  function Min(a: Length, b: Length): (r: Length)
    requires Compatible(a, b)
    ensures r == a || r == b
    ensures r.Pixels? ==> r.px <= a.px && r.px <= b.px
  {
    if a.NoPixels? || a.px <= b.px then a else b
  }

  /** Sign of a - b; two NoPixels compare equal. */
  function Compare(a: Length, b: Length): (r: int)
    requires Compatible(a, b)
    ensures -1 <= r <= 1
    ensures a.Pixels? ==> (r < 0 <==> a.px < b.px) && (r == 0 <==> a.px == b.px)
    ensures a.NoPixels? ==> r == 0
  {
    if a.NoPixels? || a.px == b.px then 0 else if a.px < b.px then -1 else 1
  }

  /** A coordinate on one axis; the axis is fixed when the position is made. */
  datatype Position = Position(axis: Axis, len: Length)

  /** An extent; a Pixels size is never negative where the engine builds one. */
  datatype Size = Size(len: Length)
}
