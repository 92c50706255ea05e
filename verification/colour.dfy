/** Packed 0xRRGGBB colours: the texel arithmetic of maze.cpp (on C
    `int`s), the y-side darkening of maze.cpp (on the bits of a `Uint32`),
    and the fixed wall colours of `drawRays` in lib/raycast.hpp. */
module Colour {

  /** A C `Uint32` held as an integer, for colours built by arithmetic. */
  type Uint32 = v: int | 0 <= v < 0x1_0000_0000

  predicate IsByte(v: int)
  {
    0 <= v < 256
  }

  /** The packed colour with red, green and blue bytes `r`, `g`, `b`. */
  function Rgb(r: int, g: int, b: int): (c: Uint32)
    requires IsByte(r) && IsByte(g) && IsByte(b)
    ensures c < 0x100_0000
  {
    65536 * r + 256 * g + b
  }

  function Red(c: int): int
    requires c >= 0
  {
    c / 65536 % 256
  }

  function Green(c: int): int
    requires c >= 0
  {
    c / 256 % 256
  }

  function Blue(c: int): int
    requires c >= 0
  {
    c % 256
  }

  /** Reading the bytes back out of a packed colour gives the bytes it was
      packed from. */
  lemma RgbBytes(r: int, g: int, b: int)
    requires IsByte(r) && IsByte(g) && IsByte(b)
    ensures Red(Rgb(r, g, b)) == r && Green(Rgb(r, g, b)) == g && Blue(Rgb(r, g, b)) == b
  {
    var c := Rgb(r, g, b);
    assert c / 256 == 256 * r + g && c % 256 == b;
    assert c / 65536 == r;
  }

  /** The y-side darkening `(color >> 1) & 8355711`: each of the three low
      bytes is halved, rounding down, and the top byte is cleared. */
  function Shade(c: bv32): (s: bv32)
    ensures (s >> 16) & 0xFF == ((c >> 16) & 0xFF) >> 1
    ensures (s >> 8) & 0xFF == ((c >> 8) & 0xFF) >> 1
    ensures s & 0xFF == (c & 0xFF) >> 1
    ensures s >> 24 == 0
  {
    (c >> 1) & 8355711
  }

  /** Darkening is determined by the bytes alone: it equals repacking the
      three halved bytes. */
  lemma ShadeRepacksHalvedBytes(c: bv32)
    ensures Shade(c) == ((((c >> 16) & 0xFF) >> 1) << 16) | ((((c >> 8) & 0xFF) >> 1) << 8) | ((c & 0xFF) >> 1)
  {
  }

  /** An SDL colour: red, green, blue and alpha bytes. */
  datatype Rgba = Rgba(r: int, g: int, b: int, a: int)

  /** The `switch` of `drawRays` on the wall code. Codes 1..4 have a colour;
      any other code leaves the source's `color` variable unset, modelled
      as `None`. */
  function WallColour(code: int): (c: Option<Rgba>)
    ensures c.Some? <==> 1 <= code <= 4
    ensures c.Some? ==> c.value.a == 255 && IsByte(c.value.r) && IsByte(c.value.g) && IsByte(c.value.b)
  {
    match code
    case 1 => Some(Rgba(255, 255, 255, 255))
    case 2 => Some(Rgba(255, 0, 0, 255))
    case 3 => Some(Rgba(0, 255, 0, 255))
    case 4 => Some(Rgba(0, 0, 255, 255))
    case _ => None
  }

  /** Codes 1, 2, 3, 4 are white, red, green and blue, so distinct codes
      get distinct colours. */
  lemma WallColoursDistinct(c1: int, c2: int)
    requires 1 <= c1 <= 4 && 1 <= c2 <= 4 && c1 != c2
    ensures WallColour(c1) != WallColour(c2)
    ensures WallColour(1).value == Rgba(255, 255, 255, 255) && WallColour(4).value == Rgba(0, 0, 255, 255)
  {
  }

  datatype Option<T> = None | Some(value: T)
}
