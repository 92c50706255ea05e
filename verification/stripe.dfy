/** One textured wall stripe of maze.cpp: the vertical clamp, the texture
    column and row, the y-side darkening, the in-place write into the
    480x640 frame buffer and the clear after each frame. The clamp is
    shared with `drawRays` of lib/raycast.hpp, which uses no pitch. */
module Stripe {
  import opened CMath
  import opened Colour
  import opened Textures

  const ScreenWidth: int := 640
  const ScreenHeight: int := 480
  /** The vertical offset of the horizon in maze.cpp. */
  const Pitch: int := 100

  /** The row the stripe is centred on. */
  function Centre(pitch: int): int
  {
    ScreenHeight / 2 + pitch
  }

  /** `drawStart` and `drawEnd` of a line `lineHeight` rows tall: C's
      truncating halves around the centre row, clamped to the screen. */
  function DrawRange(lineHeight: int, pitch: int): (r: (int, int))
    ensures 0 <= r.0 && r.1 <= ScreenHeight - 1
    ensures r.0 == 0 || r.0 == Centre(pitch) - Half(lineHeight)
    ensures r.1 == ScreenHeight - 1 || r.1 == Centre(pitch) + Half(lineHeight)
    ensures lineHeight >= 0 && 0 <= Centre(pitch) < ScreenHeight ==> r.0 <= Centre(pitch) <= r.1
  {
    var drawStart := Half(-lineHeight) + ScreenHeight / 2 + pitch;
    var drawEnd := Half(lineHeight) + ScreenHeight / 2 + pitch;
    (if drawStart < 0 then 0 else drawStart, if drawEnd >= ScreenHeight then ScreenHeight - 1 else drawEnd)
  }

  /** Every row of the stripe is on screen and within half a line height
      of the centre row; the last screen row is never inside it. */
  lemma StripeRowsOnScreen(lineHeight: int, pitch: int, y: int)
    requires DrawRange(lineHeight, pitch).0 <= y < DrawRange(lineHeight, pitch).1
    ensures 0 <= y < ScreenHeight - 1
    ensures Centre(pitch) - Half(lineHeight) <= y < Centre(pitch) + Half(lineHeight)
  {
  }

  /** `drawRays` of lib/raycast.hpp clamps the same way with no pitch: the
      stripe lies on the 480-row screen and contains the middle row 240. */
  lemma DrawRaysClamp(lineHeight: int)
    requires lineHeight >= 0
    ensures 0 <= DrawRange(lineHeight, 0).0 <= ScreenHeight / 2 <= DrawRange(lineHeight, 0).1 <= ScreenHeight - 1
  {
  }

  /** A taller line never has a shorter stripe: it starts no lower and
      ends no higher. */
  lemma {:induction false} DrawRangeMonotone(l1: int, l2: int, pitch: int)
    requires l1 <= l2
    ensures DrawRange(l2, pitch).0 <= DrawRange(l1, pitch).0
    ensures DrawRange(l1, pitch).1 <= DrawRange(l2, pitch).1
  {
    HalfMonotone(l1, l2);
  }

  /** The hit position along the wall face, `wallX - floor(wallX)`. */
  function WallX(pos: real, perpWallDist: real, rayDir: real): (f: real)
    ensures 0.0 <= f < 1.0
    ensures (pos + perpWallDist * rayDir - f).Floor as real == pos + perpWallDist * rayDir - f
  {
    var wallX := pos + perpWallDist * rayDir;
    wallX - wallX.Floor as real
  }

  /** Whether the texture is read right to left, so that it is not seen
      mirrored: an x-side hit by a ray going +x, or a y-side hit by a ray
      going -y. */
  predicate Mirrored(side: int, rayDirX: real, rayDirY: real)
  {
    (side == 0 && rayDirX > 0.0) || (side == 1 && rayDirY < 0.0)
  }

  /** `texWidth - texX - 1`. */
  function Mirror(texX: int): int
  {
    TexWidth - texX - 1
  }

  /** The texture column for a hit at `wallX` on the face. */
  function TexX(wallX: real, side: int, rayDirX: real, rayDirY: real): (t: int)
    requires 0.0 <= wallX < 1.0
    ensures 0 <= t < TexWidth
    ensures !Mirrored(side, rayDirX, rayDirY) ==> t == Trunc(wallX * TexWidth as real)
    ensures Mirrored(side, rayDirX, rayDirY) ==> Mirror(t) == Trunc(wallX * TexWidth as real)
  {
    ScaleWithin(wallX, TexWidth as real);
    var texX := Trunc(wallX * TexWidth as real);
    if side == 0 && rayDirX > 0.0 then Mirror(texX)
    else if side == 1 && rayDirY < 0.0 then Mirror(texX)
    else texX
  }

  /** Mirroring keeps a column on the texture and undoes itself. */
  lemma MirrorInvolution(t: int)
    requires 0 <= t < TexWidth
    ensures 0 <= Mirror(t) < TexWidth && Mirror(Mirror(t)) == t
  {
  }

  /** `texPos` when row `y` is drawn. The source starts it at the clamped
      `drawStart` and adds `64 / lineHeight` per row, which in exact
      arithmetic is the row's offset from the unclamped top times that
      step. Texture row 0 lines up with the unclamped top of the line. */
  function TexPos(lineHeight: int, pitch: int, y: int): (p: real)
    requires lineHeight != 0
    ensures p == 0.0 <==> y == Centre(pitch) - Half(lineHeight)
  {
    (y - pitch - ScreenHeight / 2 + Half(lineHeight)) as real * (TexHeight as real / lineHeight as real)
  }

  /** One more row adds one `step` to `texPos`. */
  lemma NextRowStep(lineHeight: int, pitch: int, y: int)
    requires lineHeight != 0
    ensures TexPos(lineHeight, pitch, y + 1) == TexPos(lineHeight, pitch, y) + TexHeight as real / lineHeight as real
  {
    var k := y - pitch - ScreenHeight / 2 + Half(lineHeight);
    var step := TexHeight as real / lineHeight as real;
    assert (k + 1) as real * step == k as real * step + step;
  }

  /** `int(texPos) & (texHeight - 1)`: on an `int`, masking with 63 is the
      non-negative remainder by 64. */
  function TexY(texPos: real): (t: int)
    ensures 0 <= t < TexHeight
    ensures 0.0 <= texPos < TexHeight as real ==> t == texPos.Floor
  {
    Trunc(texPos) % TexHeight
  }

  /** Inside the stripe `texPos` stays in [0, 64), so the mask never
      wraps: the stripe shows texture rows top to bottom, skipping the rows
      a clamp cuts off. */
  lemma {:induction false} TexPosInTexture(lineHeight: int, pitch: int, y: int)
    requires DrawRange(lineHeight, pitch).0 <= y < DrawRange(lineHeight, pitch).1
    ensures lineHeight > 0
    ensures 0.0 <= TexPos(lineHeight, pitch, y) < TexHeight as real
    ensures TexY(TexPos(lineHeight, pitch, y)) == TexPos(lineHeight, pitch, y).Floor
  {
    StripeRowsOnScreen(lineHeight, pitch, y);
    var k := y - pitch - ScreenHeight / 2 + Half(lineHeight);
    assert 0 <= k < 2 * Half(lineHeight) <= lineHeight;
    StepsWithin(k, lineHeight, TexHeight as real);
  }

  /** The texture element read for row `y`. */
  function Texel(texture: array2<Uint32>, texNum: int, texX: int, lineHeight: int, pitch: int, y: int): (c: Uint32)
    reads texture
    requires texture.Length0 == TextureCount && texture.Length1 == TexWidth * TexHeight
    requires 0 <= texNum < TextureCount && 0 <= texX < TexWidth && lineHeight != 0
  {
    texture[texNum, TexHeight * TexY(TexPos(lineHeight, pitch, y)) + texX]
  }

  /** The colour written: y-sides are darkened, x-sides are not. */
  function Pixel(texel: Uint32, side: int): bv32
  {
    if side == 1 then Shade(texel as bv32) else texel as bv32
  }

  predicate IsBuffer(buffer: array2<bv32>)
  {
    buffer.Length0 == ScreenHeight && buffer.Length1 == ScreenWidth
  }

  /** The body of the row loop: the texel at (`texX`, `texY`) of texture
      `texNum`, darkened on a y-side, goes to `buffer[y][x]`; nothing else
      changes. */
  method PutTexel(buffer: array2<bv32>, texture: array2<Uint32>, x: int, y: int,
                  texNum: int, texX: int, texY: int, side: int, ghost lineHeight: int, ghost pitch: int)
    requires IsBuffer(buffer)
    requires texture.Length0 == TextureCount && texture.Length1 == TexWidth * TexHeight
    requires 0 <= x < ScreenWidth && 0 <= y < ScreenHeight
    requires 0 <= texNum < TextureCount && 0 <= texX < TexWidth
    requires lineHeight != 0 && texY == TexY(TexPos(lineHeight, pitch, y))
    modifies buffer
    ensures buffer[y, x] == Pixel(Texel(texture, texNum, texX, lineHeight, pitch, y), side)
    ensures forall y', x' | 0 <= y' < ScreenHeight && 0 <= x' < ScreenWidth && (y', x') != (y, x) ::
      buffer[y', x'] == old(buffer[y', x'])
  {
    var color := texture[texNum, TexHeight * texY + texX] as bv32;
    if side == 1 {
      color := Shade(color);
    }
    buffer[y, x] := color;
  }

  /** The row loop of one column: rows `drawStart .. drawEnd - 1` of column
      `x` get their texel, darkened on a y-side; nothing else changes. */
  method DrawColumn(buffer: array2<bv32>, texture: array2<Uint32>, x: int, lineHeight: int, pitch: int,
                    texNum: int, texX: int, side: int)
    returns (drawStart: int, drawEnd: int)
    requires IsBuffer(buffer)
    requires texture.Length0 == TextureCount && texture.Length1 == TexWidth * TexHeight
    requires 0 <= x < ScreenWidth && 0 <= texNum < TextureCount && 0 <= texX < TexWidth
    modifies buffer
    ensures (drawStart, drawEnd) == DrawRange(lineHeight, pitch)
    ensures forall y | drawStart <= y < drawEnd ::
      buffer[y, x] == Pixel(Texel(texture, texNum, texX, lineHeight, pitch, y), side)
    ensures forall y, x' | 0 <= y < ScreenHeight && 0 <= x' < ScreenWidth && (x' != x || y < drawStart || drawEnd <= y) ::
      buffer[y, x'] == old(buffer[y, x'])
  {
    drawStart, drawEnd := DrawRange(lineHeight, pitch).0, DrawRange(lineHeight, pitch).1;
    if drawStart < drawEnd {
      assert lineHeight > 0 by {
        TexPosInTexture(lineHeight, pitch, drawStart);
      }
      var step := TexHeight as real / lineHeight as real;
      var texPos := (drawStart - pitch - ScreenHeight / 2 + Half(lineHeight)) as real * step;
      for y := drawStart to drawEnd
        invariant texPos == TexPos(lineHeight, pitch, y)
        invariant forall y' | drawStart <= y' < y ::
          buffer[y', x] == Pixel(Texel(texture, texNum, texX, lineHeight, pitch, y'), side)
        invariant forall y', x' | 0 <= y' < ScreenHeight && 0 <= x' < ScreenWidth && (x' != x || y' < drawStart || y <= y') ::
          buffer[y', x'] == old(buffer[y', x'])
      {
        var texY := TexY(texPos);
        assert texPos + step == TexPos(lineHeight, pitch, y + 1) by {
          NextRowStep(lineHeight, pitch, y);
        }
        texPos := texPos + step;
        PutTexel(buffer, texture, x, y, texNum, texX, texY, side, lineHeight, pitch);
      }
    }
  }

  /** The clear after each frame: every cell of the buffer becomes 0. */
  method ClearBuffer(buffer: array2<bv32>)
    requires IsBuffer(buffer)
    modifies buffer
    ensures forall y, x :: 0 <= y < ScreenHeight && 0 <= x < ScreenWidth ==> buffer[y, x] == 0
  {
    for y := 0 to ScreenHeight
      invariant forall y', x' :: 0 <= y' < y && 0 <= x' < ScreenWidth ==> buffer[y', x'] == 0
    {
      for x := 0 to ScreenWidth
        invariant forall y', x' :: 0 <= y' < y && 0 <= x' < ScreenWidth ==> buffer[y', x'] == 0
        invariant forall x' :: 0 <= x' < x ==> buffer[y, x'] == 0
      {
        buffer[y, x] := 0;
      }
    }
  }
}
