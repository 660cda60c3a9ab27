/** What the colour conversion of the motion decoder shows (libpcsxcore/mdec.c:307-443): the colours of each
    pixel from the samples of its place.
  */
module Colors {
  import opened Common
  import opened PixelOutput

  /** `v` is sum / unit rounded to the nearest, plus `zero`, held between 0 and `max`. */
  ghost predicate Shows(sum: int, unit: nat, zero: int, max: int, v: int)
  {
    forall q :: unit * q <= sum + unit / 2 < unit * (q + 1) ==>
      v == if q + zero < 0 then 0 else if q + zero > max then max else q + zero
  }

  /** The samples that pixel (u, v) of luma block (col, row) is made of: its own luma, and the chroma of its
      two-by-two square. */
  predicate Samples(m: Macroblock, col: nat, row: nat, u: nat, v: nat, y: int, cr: int, cb: int)
    requires col < 2 && row < 2 && u < 8 && v < 8
  {
    y == m[64 * (2 + 2 * row + col) + 8 * v + u] &&
    cr == m[8 * (4 * row + v / 2) + (4 * col + u / 2)] && cb == m[64 + 8 * (4 * row + v / 2) + (4 * col + u / 2)]
  }

  /** Where the pixel is in the picture. */
  function Pixel(col: nat, row: nat, u: nat, v: nat): (p: nat)
    requires col < 2 && row < 2 && u < 8 && v < 8
    ensures p < 256
  {
    16 * (8 * row + v) + (8 * col + u)
  }

  lemma SamplesOfPixel(m: Macroblock, col: nat, row: nat, u: nat, v: nat, y: int, cr: int, cb: int, d: Depth)
    requires col < 2 && row < 2 && u < 8 && v < 8 && Samples(m, col, row, u, v, y, cr, cb)
    ensures PicturePixel(d, m, Pixel(col, row, u, v)) == PixelBytesOf(d, y, cr, cb)
  {
    hide PixelBytesOf;
    var x, z := 8 * col + u, 8 * row + v;
    Split(16, z, x);
    Split(8, col, u);
    Split(8, row, v);
    assert x / 2 == 4 * col + u / 2 && z / 2 == 4 * row + v / 2;
    var p := Pixel(col, row, u, v);
    assert p % 16 == x && p / 16 == z;
    hide Pixel;
    assert LumaIndex(x, z) == 64 * (2 + 2 * row + col) + 8 * v + u;
  }

  lemma Split(n: nat, q: nat, r: nat)
    requires (n == 8 || n == 16) && r < n
    ensures (n * q + r) / n == q && (n * q + r) % n == r
  {
  }

  lemma BytesOfFrame(d: Depth, m: Macroblock, p: nat, c: nat)
    requires p < 256 && c < d.PixelBytes()
    ensures Frame(d, m)[d.PixelBytes() * p + c] == PicturePixel(d, m, p)[c]
  {
    hide PicturePixel;
  }

  lemma Channel8(c: int)
    ensures Shows(c, 0x100000, 128, 255, ClampScale8(c))
  {
  }

  lemma Channel5(c: int)
    ensures Shows(c, 0x800000, 16, 31, ClampScale5(c))
  {
  }

  /** The bytes of a pixel at 24 bits. */
  ghost predicate Shows24(y: int, cr: int, cb: int, r: int, g: int, b: int)
  {
    Shows(1024 * y + 1434 * cr, 0x100000, 128, 255, r) &&
    Shows(1024 * y - 351 * cb - 728 * cr, 0x100000, 128, 255, g) &&
    Shows(1024 * y + 1807 * cb, 0x100000, 128, 255, b)
  }

  lemma PixelShows24(y: int, cr: int, cb: int)
    ensures var b := PixelBytesOf(Bits24, y, cr, cb); Shows24(y, cr, cb, b[0], b[1], b[2])
  {
    hide Shows, ClampScale8;
    Channel8(1024 * y + 1434 * cr);
    Channel8(1024 * y - 351 * cb - 728 * cr);
    Channel8(1024 * y + 1807 * cb);
  }

  /** A pixel at 24 bits: red of luma and Cr, green of all three, blue of luma and Cb, with the weights of
      lines 315 to 318. */
  lemma ColorsAt24Bits(m: Macroblock, col: nat, row: nat, u: nat, v: nat, y: int, cr: int, cb: int)
    requires col < 2 && row < 2 && u < 8 && v < 8 && Samples(m, col, row, u, v, y, cr, cb)
    ensures var f, p := Frame(Bits24, m), Pixel(col, row, u, v);
      Shows24(y, cr, cb, f[3 * p], f[3 * p + 1], f[3 * p + 2])
  {
    hide *;
    SamplesOfPixel(m, col, row, u, v, y, cr, cb, Bits24);
    PixelShows24(y, cr, cb);
    var p := Pixel(col, row, u, v);
    BytesAt24(m, p);
  }

  lemma BytesAt24(m: Macroblock, p: nat)
    requires p < 256
    ensures var f, b := Frame(Bits24, m), PicturePixel(Bits24, m, p);
      |f| == 768 && f[3 * p] == b[0] && f[3 * p + 1] == b[1] && f[3 * p + 2] == b[2]
  {
    hide Frame, PicturePixel;
    BytesOfFrame(Bits24, m, p, 0);
    BytesOfFrame(Bits24, m, p, 1);
    BytesOfFrame(Bits24, m, p, 2);
  }

  /** The halfword of a pixel at 15 bits: the same sums at a coarser scale, red in the low bits. */
  ghost predicate Shows15(y: int, cr: int, cb: int, stp: bool, h: int)
  {
    Shows(1024 * y + 1434 * cr, 0x800000, 16, 31, h % 32) &&
    Shows(1024 * y - 351 * cb - 728 * cr, 0x800000, 16, 31, h / 32 % 32) &&
    Shows(1024 * y + 1807 * cb, 0x800000, 16, 31, h / 1024 % 32) && (h / 0x8000 == 1 <==> stp)
  }

  lemma PixelShows15(y: int, cr: int, cb: int, stp: bool)
    ensures var b := PixelBytesOf(Bits15(stp), y, cr, cb); Shows15(y, cr, cb, stp, b[0] as int + 256 * b[1] as int)
  {
    hide Shows, ClampScale5, MakeRgb15;
    var s := Sums(y, cr, cb);
    Channel5(1024 * y + 1434 * cr);
    Channel5(1024 * y - 351 * cb - 728 * cr);
    Channel5(1024 * y + 1807 * cb);
    Rgb15ChannelsAreSeparate(s, stp);
    assert MakeRgb15(s, stp) % 0x100 + 256 * (MakeRgb15(s, stp) / 0x100) == MakeRgb15(s, stp);
  }

  lemma ColorsAt15Bits(m: Macroblock, col: nat, row: nat, u: nat, v: nat, y: int, cr: int, cb: int, stp: bool)
    requires col < 2 && row < 2 && u < 8 && v < 8 && Samples(m, col, row, u, v, y, cr, cb)
    ensures var f, p := Frame(Bits15(stp), m), Pixel(col, row, u, v);
      Shows15(y, cr, cb, stp, f[2 * p] as int + 256 * f[2 * p + 1] as int)
  {
    hide *;
    SamplesOfPixel(m, col, row, u, v, y, cr, cb, Bits15(stp));
    PixelShows15(y, cr, cb, stp);
    BytesAt15(m, Pixel(col, row, u, v), stp);
  }

  lemma BytesAt15(m: Macroblock, p: nat, stp: bool)
    requires p < 256
    ensures var f, b := Frame(Bits15(stp), m), PicturePixel(Bits15(stp), m, p);
      |f| == 512 && f[2 * p] == b[0] && f[2 * p + 1] == b[1]
  {
    hide Frame, PicturePixel;
    BytesOfFrame(Bits15(stp), m, p, 0);
    BytesOfFrame(Bits15(stp), m, p, 1);
  }

  predicate Near(x: int, y: int, d: int) { -d <= x - y <= d }

  function Size(x: int): int { if x < 0 then -x else x }

  /** The weights are 1.400, 0.343, 0.711 and 1.765 of the JPEG conversion, to ten bits. */
  lemma SumsAreJpeg(y: int, cr: int, cb: int)
    ensures var s := Sums(y, cr, cb);
      Near(1000 * s.r, 1024 * (1000 * y + 1400 * cr), 512 * Size(cr)) &&
      Near(1000 * s.g, 1024 * (1000 * y - 343 * cb - 711 * cr), 512 * (Size(cr) + Size(cb))) &&
      Near(1000 * s.b, 1024 * (1000 * y + 1765 * cb), 512 * Size(cb))
  {
  }
}
