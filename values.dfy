/** Plain values shared by the game's entities: optional results, points and
    sizes, colours, the asteroid size enumeration and the keys the form reacts to. */
module Values {

  datatype Option<T> = None | Some(value: T)

  /** A colour channel, 0..255 as in an ARGB colour. */
  newtype byte = x: int | 0 <= x < 256

  /** An ARGB colour: alpha, red, green, blue. */
  datatype Color = Color(a: byte, r: byte, g: byte, b: byte)

  const Red := Color(255, 255, 0, 0)
  const White := Color(255, 255, 255, 255)
  const Yellow := Color(255, 255, 255, 0)

  /** A position on screen; the source's single-precision floats are modelled as reals. */
  datatype Point = Point(x: real, y: real)

  /** The playfield (window) size in whole pixels. */
  datatype Size = Size(width: int, height: int)

  /** The size of an asteroid; its numeric value is the asteroid's nominal radius. */
  datatype AsterSize = Small | Medium | Large

  function Radius(size: AsterSize): (r: int)
    ensures r == 20 || r == 40 || r == 60
  {
    match size
    case Small => 20
    case Medium => 40
    case Large => 60
  }

  /** The keys the form distinguishes; every other key code is `Other`. */
  datatype Key = Space | Right | Left | Other(code: int)

  /** Halving an `int` as C# does it: the quotient is truncated toward zero. */
  function HalfTrunc(n: int): (h: int)
    ensures n >= 0 ==> 0 <= h && 2 * h <= n <= 2 * h + 1
    ensures n < 0 ==> h <= 0 && 2 * h - 1 <= n <= 2 * h
  {
    if n >= 0 then n / 2 else -((-n) / 2)
  }

  /** Dividing an `int` by 20 as C# does it, truncating toward zero. */
  function Twentieth(n: int): (t: int)
    ensures n >= 0 ==> 0 <= t && 20 * t <= n < 20 * t + 20
    ensures n < 0 ==> t <= 0 && 20 * t - 20 < n <= 20 * t
  {
    if n >= 0 then n / 20 else -((-n) / 20)
  }
}
