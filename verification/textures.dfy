/** The eleven procedurally generated 64x64 textures of maze.cpp (the
    `GEN_TEXTURES` branch), stored row-major: texel (x, y) of texture t is
    element `64 * y + x` of texture t. */
module Textures {
  import opened Colour

  const TexWidth: int := 64
  const TexHeight: int := 64
  const TextureCount: int := 11

  function Pow2(n: nat): nat
  {
    if n == 0 then 1 else 2 * Pow2(n - 1)
  }

  /** Exclusive or of the `n` low bits of `a` and `b`, lowest bit last. */
  function XorBits(a: nat, b: nat, n: nat): (r: nat)
    ensures r < Pow2(n)
  {
    if n == 0 then 0
    else 2 * XorBits(a / 2, b / 2, n - 1) + (if a % 2 == b % 2 then 0 else 1)
  }

  /** The `n` low bits of `a`, rebuilt bit by bit. */
  function LowBits(a: nat, n: nat): (r: nat)
  {
    if n == 0 then 0 else 2 * LowBits(a / 2, n - 1) + a % 2
  }

  /** A value that fits in `n` bits is its own `n` low bits. */
  lemma {:induction false} LowBitsOfFit(a: nat, n: nat)
    requires a < Pow2(n)
    ensures LowBits(a, n) == a
  {
    if n > 0 {
      LowBitsOfFit(a / 2, n - 1);
    }
  }

  /** Xor-ing with the same `b` twice gives back the low bits of `a`. */
  lemma {:induction false} XorBitsUndo(a: nat, b: nat, n: nat)
    ensures XorBits(XorBits(a, b, n), b, n) == LowBits(a, n)
  {
    if n > 0 {
      var r := XorBits(a, b, n);
      assert r / 2 == XorBits(a / 2, b / 2, n - 1) && r % 2 == (if a % 2 == b % 2 then 0 else 1);
      XorBitsUndo(a / 2, b / 2, n - 1);
    }
  }

  /** C `int ^ int` on operands in 0..255: the xor of their eight bits. */
  function Xor(a: int, b: int): (r: int)
    requires IsByte(a) && IsByte(b)
    ensures IsByte(r)
  {
    XorBits(a, b, 8)
  }

  /** Byte xor undoes itself: `(a ^ b) ^ b == a`. */
  lemma XorUndo(a: int, b: int)
    requires IsByte(a) && IsByte(b)
    ensures Xor(Xor(a, b), b) == a
  {
    XorBitsUndo(a, b, 8);
    LowBitsOfFit(a, 8);
  }

  predicate IsTexel(t: int, x: int, y: int)
  {
    0 <= t < TextureCount && 0 <= x < TexWidth && 0 <= y < TexHeight
  }

  /** What each texture looks like, colour by colour:
      0 and 8 flat red (254) with a black cross on both diagonals,
      1 and 9 a grey ramp of `2x + 2y`, 2 and 10 the same ramp in yellow,
      3 a grey and 4 a green "xor" pattern of `4x ^ 4y`,
      5 red (192) bricks with black mortar every 16 texels,
      6 a red ramp of `4y`, 7 flat grey 128. */
  function Texel(t: int, x: int, y: int): (c: Uint32)
    requires IsTexel(t, x, y)
    ensures c < 0x100_0000
  {
    if t == 0 || t == 8 then (if x == y || x == 64 - y then 0 else Rgb(254, 0, 0))
    else if t == 1 || t == 9 then Rgb(2 * x + 2 * y, 2 * x + 2 * y, 2 * x + 2 * y)
    else if t == 2 || t == 10 then Rgb(2 * x + 2 * y, 2 * x + 2 * y, 0)
    else if t == 3 then Rgb(Xor(4 * x, 4 * y), Xor(4 * x, 4 * y), Xor(4 * x, 4 * y))
    else if t == 4 then Rgb(0, Xor(4 * x, 4 * y), 0)
    else if t == 5 then (if x % 16 == 0 || y % 16 == 0 then 0 else Rgb(192, 0, 0))
    else if t == 6 then Rgb(4 * y, 0, 0)
    else Rgb(128, 128, 128)
  }

  /** Textures 1, 3, 7 and 9 are grey: their three bytes are equal. */
  lemma GreyTextures(t: int, x: int, y: int)
    requires IsTexel(t, x, y) && (t == 1 || t == 3 || t == 7 || t == 9)
    ensures Red(Texel(t, x, y)) == Green(Texel(t, x, y)) == Blue(Texel(t, x, y))
  {
    var v := if t == 1 || t == 9 then 2 * x + 2 * y else if t == 3 then Xor(4 * x, 4 * y) else 128;
    assert Texel(t, x, y) == Rgb(v, v, v);
    RgbBytes(v, v, v);
  }

  /** Textures 0, 5, 6 and 8 use only the red byte. */
  lemma RedTextures(t: int, x: int, y: int)
    requires IsTexel(t, x, y) && (t == 0 || t == 5 || t == 6 || t == 8)
    ensures Green(Texel(t, x, y)) == 0 && Blue(Texel(t, x, y)) == 0
  {
    var r := if t == 6 then 4 * y else if Texel(t, x, y) == 0 then 0 else if t == 5 then 192 else 254;
    assert Texel(t, x, y) == Rgb(r, 0, 0);
    RgbBytes(r, 0, 0);
  }

  /** Texture 4 uses only the green byte; textures 2 and 10 have equal red
      and green and no blue. */
  lemma GreenAndYellowTextures(t: int, x: int, y: int)
    requires IsTexel(t, x, y) && (t == 2 || t == 4 || t == 10)
    ensures t == 4 ==> Red(Texel(t, x, y)) == 0 && Blue(Texel(t, x, y)) == 0
    ensures t != 4 ==> Red(Texel(t, x, y)) == Green(Texel(t, x, y)) && Blue(Texel(t, x, y)) == 0
  {
    if t == 4 {
      RgbBytes(0, Xor(4 * x, 4 * y), 0);
    } else {
      RgbBytes(2 * x + 2 * y, 2 * x + 2 * y, 0);
    }
  }

  /** The three sprite textures 8, 9 and 10 repeat wall textures 0, 1 and
      2 texel for texel, and texture 7 is the constant grey 0x808080. */
  lemma SpriteTexturesRepeat(x: int, y: int)
    requires 0 <= x < TexWidth && 0 <= y < TexHeight
    ensures Texel(8, x, y) == Texel(0, x, y) && Texel(9, x, y) == Texel(1, x, y) && Texel(10, x, y) == Texel(2, x, y)
    ensures Texel(7, x, y) == 0x80_8080
  {
  }

  /** C's `bool` to `int` conversion. */
  function B2I(b: bool): int
  {
    if b then 1 else 0
  }

  /** Distinct texel coordinates are stored at distinct indices. */
  lemma IndexInjective(x1: int, y1: int, x2: int, y2: int)
    requires 0 <= x1 < TexWidth && 0 <= x2 < TexWidth && 0 <= y1 < TexHeight && 0 <= y2 < TexHeight
    requires TexWidth * y1 + x1 == TexWidth * y2 + x2
    ensures x1 == x2 && y1 == y2
  {
  }

  /** The eleven stores of one pass of the inner loop body: element `i` of
      texture t becomes `values[t]`; no other element changes. */
  method StoreTexel(texture: array2<Uint32>, i: int, values: seq<Uint32>)
    requires texture.Length0 == TextureCount && 0 <= i < texture.Length1 && |values| == TextureCount
    modifies texture
    ensures forall t :: 0 <= t < TextureCount ==> texture[t, i] == values[t]
    ensures forall t, j :: 0 <= t < TextureCount && 0 <= j < texture.Length1 && j != i ==>
      texture[t, j] == old(texture[t, j])
  {
    texture[0, i] := values[0];
    texture[1, i] := values[1];
    texture[2, i] := values[2];
    texture[3, i] := values[3];
    texture[4, i] := values[4];
    texture[5, i] := values[5];
    texture[6, i] := values[6];
    texture[7, i] := values[7];
    texture[8, i] := values[8];
    texture[9, i] := values[9];
    texture[10, i] := values[10];
  }

  /** The eleven values the inner loop body of maze.cpp computes for texel
      (x, y), by its C integer formulas, in texture order. */
  function FormulaValues(x: int, y: int): (v: seq<Uint32>)
    requires 0 <= x < TexWidth && 0 <= y < TexHeight
    ensures |v| == TextureCount
  {
    var xorcolor := Xor(x * 256 / TexWidth, y * 256 / TexHeight);
    var ycolor := y * 256 / TexHeight;
    var xycolor := y * 128 / TexHeight + x * 128 / TexWidth;
    var cross := 65536 * 254 * B2I(x != y && x != TexWidth - y);
    var bricks := 65536 * 192 * B2I(x % 16 != 0 && y % 16 != 0);
    var grey := xycolor + 256 * xycolor + 65536 * xycolor;
    var yellow := 256 * xycolor + 65536 * xycolor;
    var red := 65536 * ycolor;
    var xorGrey := xorcolor + 256 * xorcolor + 65536 * xorcolor;
    var xorGreen := 256 * xorcolor;
    var flat := 128 + 256 * 128 + 65536 * 128;
    [cross, grey, yellow, xorGrey, xorGreen, bricks, red, flat, cross, grey, yellow]
  }

  /** The C formulas compute, texture by texture, the texels `Texel`
      describes. */
  lemma {:induction false} FormulaValuesAreTexels(x: int, y: int)
    requires 0 <= x < TexWidth && 0 <= y < TexHeight
    ensures forall t :: 0 <= t < TextureCount ==> FormulaValues(x, y)[t] == Texel(t, x, y)
  {
    MaskFormulasMatch(x, y);
    RampFormulasMatch(x, y);
    XorFormulasMatch(x, y);
    var values := FormulaValues(x, y);
    forall t | 0 <= t < TextureCount
      ensures values[t] == Texel(t, x, y)
    {
      if t == 0 {} else if t == 1 {} else if t == 2 {} else if t == 3 {} else if t == 4 {}
      else if t == 5 {} else if t == 6 {} else if t == 7 {} else if t == 8 {} else if t == 9 {}
    }
  }

  /** Texel (x, y) of texture t as stored: element `64 * y + x`. */
  function TexelAt(texture: array2<Uint32>, t: int, x: int, y: int): Uint32
    reads texture
    requires texture.Length0 == TextureCount && texture.Length1 == TexWidth * TexHeight
    requires 0 <= t < TextureCount && 0 <= x < TexWidth && 0 <= y < TexHeight
  {
    texture[t, TexWidth * y + x]
  }

  /** One pass of the inner loop body: texel (x, y) of all eleven textures,
      by the C integer formulas; no other element changes. */
  method WriteTexel(texture: array2<Uint32>, x: int, y: int)
    requires texture.Length0 == TextureCount && texture.Length1 == TexWidth * TexHeight
    requires 0 <= x < TexWidth && 0 <= y < TexHeight
    modifies texture
    ensures forall t :: 0 <= t < TextureCount ==> TexelAt(texture, t, x, y) == Texel(t, x, y)
    ensures forall t, xx, yy :: 0 <= t < TextureCount && 0 <= xx < TexWidth && 0 <= yy < TexHeight && (xx, yy) != (x, y) ==>
      TexelAt(texture, t, xx, yy) == old(TexelAt(texture, t, xx, yy))
  {
    var values := FormulaValues(x, y);
    FormulaValuesAreTexels(x, y);
    StoreTexel(texture, TexWidth * y + x, values);
    forall xx, yy | 0 <= xx < TexWidth && 0 <= yy < TexHeight && (xx, yy) != (x, y)
      ensures TexWidth * yy + xx != TexWidth * y + x
    {
      if TexWidth * yy + xx == TexWidth * y + x {
        IndexInjective(xx, yy, x, y);
      }
    }
  }

  /** The C formulas of the generation loop give the texels described by
      `Texel`: the masked textures 0, 5 and 8. */
  lemma MaskFormulasMatch(x: int, y: int)
    requires 0 <= x < TexWidth && 0 <= y < TexHeight
    ensures 65536 * 254 * B2I(x != y && x != TexWidth - y) == Texel(0, x, y) == Texel(8, x, y)
    ensures 65536 * 192 * B2I(x % 16 != 0 && y % 16 != 0) == Texel(5, x, y)
    ensures 128 + 256 * 128 + 65536 * 128 == Texel(7, x, y)
  {
  }

  /** The ramps 1, 2, 6, 9 and 10. */
  lemma RampFormulasMatch(x: int, y: int)
    requires 0 <= x < TexWidth && 0 <= y < TexHeight
    ensures var xycolor := y * 128 / TexHeight + x * 128 / TexWidth;
      && xycolor + 256 * xycolor + 65536 * xycolor == Texel(1, x, y) == Texel(9, x, y)
      && 256 * xycolor + 65536 * xycolor == Texel(2, x, y) == Texel(10, x, y)
    ensures 65536 * (y * 256 / TexHeight) == Texel(6, x, y)
  {
    assert y * 128 / TexHeight == 2 * y && x * 128 / TexWidth == 2 * x;
    assert y * 256 / TexHeight == 4 * y;
  }

  /** The xor patterns 3 and 4. */
  lemma XorFormulasMatch(x: int, y: int)
    requires 0 <= x < TexWidth && 0 <= y < TexHeight
    ensures var xorcolor := Xor(x * 256 / TexWidth, y * 256 / TexHeight);
      && xorcolor + 256 * xorcolor + 65536 * xorcolor == Texel(3, x, y)
      && 256 * xorcolor == Texel(4, x, y)
  {
    assert y * 256 / TexHeight == 4 * y && x * 256 / TexWidth == 4 * x;
  }

  /** The texture generation loop: every texel of every texture is written
      once; the textures start zeroed. */
  method GenerateTextures() returns (texture: array2<Uint32>)
    ensures fresh(texture)
    ensures texture.Length0 == TextureCount && texture.Length1 == TexWidth * TexHeight
    ensures forall t, i :: 0 <= t < TextureCount && 0 <= i < TexWidth * TexHeight ==>
      texture[t, i] == Texel(t, i % TexWidth, i / TexWidth)
  {
    texture := new Uint32[TextureCount, TexWidth * TexHeight]((_, _) => 0);
    for x := 0 to TexWidth
      invariant forall t, xx, yy :: 0 <= t < TextureCount && 0 <= xx < x && 0 <= yy < TexHeight ==>
        TexelAt(texture, t, xx, yy) == Texel(t, xx, yy)
    {
      for y := 0 to TexHeight
        invariant forall t, xx, yy :: 0 <= t < TextureCount && 0 <= xx < x && 0 <= yy < TexHeight ==>
          TexelAt(texture, t, xx, yy) == Texel(t, xx, yy)
        invariant forall t, yy :: 0 <= t < TextureCount && 0 <= yy < y ==>
          TexelAt(texture, t, x, yy) == Texel(t, x, yy)
      {
        WriteTexel(texture, x, y);
      }
    }
    forall t, i | 0 <= t < TextureCount && 0 <= i < TexWidth * TexHeight
      ensures texture[t, i] == Texel(t, i % TexWidth, i / TexWidth)
    {
      assert texture[t, i] == TexelAt(texture, t, i % TexWidth, i / TexWidth);
    }
  }
}
