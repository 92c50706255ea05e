/** `getPixel` of lib/drawwalls.hpp: one pixel of an SDL surface, read as
    1, 2, 3 or 4 bytes at `y * pitch + x * bytesPerPixel`. Two- and
    four-byte pixels are loaded in the host's byte order; three-byte pixels
    are assembled by hand for either order. */
module Pixel {

  datatype ByteOrder = LittleEndian | BigEndian

  /** The parts of an `SDL_Surface` that `getPixel` reads. */
  datatype Surface = Surface(pixels: seq<bv8>, pitch: int, bytesPerPixel: int)

  function Offset(s: Surface, x: int, y: int): int
  {
    y * s.pitch + x * s.bytesPerPixel
  }

  predicate SupportedDepth(bpp: int)
  {
    1 <= bpp <= 4
  }

  /** The pixel's bytes lie inside the pixel memory. Only the supported
      depths read memory at all. */
  predicate Readable(s: Surface, x: int, y: int)
  {
    SupportedDepth(s.bytesPerPixel) ==>
      0 <= Offset(s, x, y) && Offset(s, x, y) + s.bytesPerPixel <= |s.pixels|
  }

  /** The bytes `getPixel` reads. */
  function Window(s: Surface, x: int, y: int): (w: seq<bv8>)
    requires Readable(s, x, y) && SupportedDepth(s.bytesPerPixel)
    ensures |w| == s.bytesPerPixel
    ensures forall k :: 0 <= k < |w| ==> w[k] == s.pixels[y * s.pitch + x * s.bytesPerPixel + k]
  {
    s.pixels[Offset(s, x, y)..Offset(s, x, y) + s.bytesPerPixel]
  }

  function Little2(p0: bv8, p1: bv8): bv32
  {
    (p0 as bv32) | ((p1 as bv32) << 8)
  }

  function Big2(p0: bv8, p1: bv8): bv32
  {
    ((p0 as bv32) << 8) | (p1 as bv32)
  }

  function Little3(p0: bv8, p1: bv8, p2: bv8): bv32
  {
    (p0 as bv32) | ((p1 as bv32) << 8) | ((p2 as bv32) << 16)
  }

  function Big3(p0: bv8, p1: bv8, p2: bv8): bv32
  {
    ((p0 as bv32) << 16) | ((p1 as bv32) << 8) | (p2 as bv32)
  }

  function Little4(p0: bv8, p1: bv8, p2: bv8, p3: bv8): bv32
  {
    (p0 as bv32) | ((p1 as bv32) << 8) | ((p2 as bv32) << 16) | ((p3 as bv32) << 24)
  }

  function Big4(p0: bv8, p1: bv8, p2: bv8, p3: bv8): bv32
  {
    ((p0 as bv32) << 24) | ((p1 as bv32) << 16) | ((p2 as bv32) << 8) | (p3 as bv32)
  }

  /** `getPixel`. A depth outside 1..4 reads nothing and gives 0; a
      pixel of n bytes never has bits above the lowest 8n. */
  function GetPixel(s: Surface, x: int, y: int, order: ByteOrder): (c: bv32)
    requires Readable(s, x, y)
    ensures !SupportedDepth(s.bytesPerPixel) ==> c == 0
    ensures s.bytesPerPixel == 1 ==> c >> 8 == 0
    ensures s.bytesPerPixel == 2 ==> c >> 16 == 0
    ensures s.bytesPerPixel == 3 ==> c >> 24 == 0
  {
    if !SupportedDepth(s.bytesPerPixel) then 0
    else
      var p := Window(s, x, y);
      match s.bytesPerPixel
      case 1 => p[0] as bv32
      case 2 => if order == BigEndian then Big2(p[0], p[1]) else Little2(p[0], p[1])
      case 3 => if order == BigEndian then Big3(p[0], p[1], p[2]) else Little3(p[0], p[1], p[2])
      case 4 => if order == BigEndian then Big4(p[0], p[1], p[2], p[3]) else Little4(p[0], p[1], p[2], p[3])
  }

  /** The pixel depends on its own bytes only: two surfaces of the same
      depth whose windows agree give the same pixel. */
  lemma {:induction false} GetPixelReadsWindowOnly(s1: Surface, x1: int, y1: int, s2: Surface, x2: int, y2: int, order: ByteOrder)
    requires Readable(s1, x1, y1) && Readable(s2, x2, y2)
    requires s1.bytesPerPixel == s2.bytesPerPixel && SupportedDepth(s1.bytesPerPixel)
    requires Window(s1, x1, y1) == Window(s2, x2, y2)
    ensures GetPixel(s1, x1, y1, order) == GetPixel(s2, x2, y2, order)
  {
  }

  /** The three-byte big-endian pixel is the little-endian pixel of the
      same bytes in reverse order. */
  lemma ThreeByteOrders(p0: bv8, p1: bv8, p2: bv8)
    ensures Big3(p0, p1, p2) == Little3(p2, p1, p0)
    ensures Big3(p0, p1, p2) >> 24 == 0 && Little3(p0, p1, p2) >> 24 == 0
  {
  }

  /** Byte `k` of a 32-bit value, counting from the least significant. */
  function ByteOf(v: bv32, k: int): bv8
    requires 0 <= k < 4
  {
    if k == 0 then (v & 0xFF) as bv8
    else if k == 1 then ((v >> 8) & 0xFF) as bv8
    else if k == 2 then ((v >> 16) & 0xFF) as bv8
    else (v >> 24) as bv8
  }

  /** How a pixel value `v` of `bpp` bytes is laid out in memory: least
      significant byte first on a little-endian host, last on a big-endian
      one. */
  function Encode(v: bv32, bpp: int, order: ByteOrder): (b: seq<bv8>)
    requires SupportedDepth(bpp)
    ensures |b| == bpp
  {
    if order == LittleEndian then seq(bpp, k requires 0 <= k < bpp => ByteOf(v, k))
    else seq(bpp, k requires 0 <= k < bpp => ByteOf(v, bpp - 1 - k))
  }

  /** `v` has no bits above the lowest `8 * bpp`. */
  predicate Fits(v: bv32, bpp: int)
  {
    (bpp == 1 ==> v >> 8 == 0) && (bpp == 2 ==> v >> 16 == 0) && (bpp == 3 ==> v >> 24 == 0)
  }

  lemma Repack1(v: bv32)
    requires v >> 8 == 0
    ensures ByteOf(v, 0) as bv32 == v
  {
  }

  lemma Repack2(v: bv32)
    requires v >> 16 == 0
    ensures Little2(ByteOf(v, 0), ByteOf(v, 1)) == v && Big2(ByteOf(v, 1), ByteOf(v, 0)) == v
  {
  }

  lemma Repack3(v: bv32)
    requires v >> 24 == 0
    ensures Little3(ByteOf(v, 0), ByteOf(v, 1), ByteOf(v, 2)) == v
    ensures Big3(ByteOf(v, 2), ByteOf(v, 1), ByteOf(v, 0)) == v
  {
  }

  lemma Repack4(v: bv32)
    ensures Little4(ByteOf(v, 0), ByteOf(v, 1), ByteOf(v, 2), ByteOf(v, 3)) == v
    ensures Big4(ByteOf(v, 3), ByteOf(v, 2), ByteOf(v, 1), ByteOf(v, 0)) == v
  {
  }

  /** Decoding inverts the memory layout: a pixel value that fits in its
      depth, stored in the host's order, reads back unchanged. */
  lemma {:induction false} GetPixelDecodesEncode(s: Surface, x: int, y: int, order: ByteOrder, v: bv32)
    requires Readable(s, x, y) && SupportedDepth(s.bytesPerPixel) && Fits(v, s.bytesPerPixel)
    requires Window(s, x, y) == Encode(v, s.bytesPerPixel, order)
    ensures GetPixel(s, x, y, order) == v
  {
    var p := Window(s, x, y);
    var bpp := s.bytesPerPixel;
    if bpp == 1 {
      assert p[0] == ByteOf(v, 0);
      Repack1(v);
    } else if bpp == 2 {
      if order == BigEndian {
        assert p[0] == ByteOf(v, 1) && p[1] == ByteOf(v, 0);
      } else {
        assert p[0] == ByteOf(v, 0) && p[1] == ByteOf(v, 1);
      }
      Repack2(v);
    } else if bpp == 3 {
      if order == BigEndian {
        assert p[0] == ByteOf(v, 2) && p[1] == ByteOf(v, 1) && p[2] == ByteOf(v, 0);
      } else {
        assert p[0] == ByteOf(v, 0) && p[1] == ByteOf(v, 1) && p[2] == ByteOf(v, 2);
      }
      Repack3(v);
    } else {
      if order == BigEndian {
        assert p[0] == ByteOf(v, 3) && p[1] == ByteOf(v, 2) && p[2] == ByteOf(v, 1) && p[3] == ByteOf(v, 0);
      } else {
        assert p[0] == ByteOf(v, 0) && p[1] == ByteOf(v, 1) && p[2] == ByteOf(v, 2) && p[3] == ByteOf(v, 3);
      }
      Repack4(v);
    }
  }
}
