/** The colour conversion of the motion decoder (libpcsxcore/mdec.c:312-443), in colour mode.

    The 15- and 24-bit routines walk the six decoded blocks in the same way, counted in pixels;
    they differ in what they store for a pixel.  `Frame` gives the bytes of a macroblock in closed
    form, pixel by pixel, and `Yuv2Rgb` is the pointer walk that produces them.
  */
module PixelOutput {
  import opened Common

  type Macroblock = m: seq<int> | |m| == 384 witness seq(384, _ => 0)

  /** The output format: MDEC0_RGB24 set selects the 16-bit path (mdec.c:564), with the
      transparency bit of MDEC0_STP; clear selects the 24-bit path. */
  datatype Depth = Bits15(stp: bool) | Bits24 {
    function PixelBytes(): (n: nat)
      ensures n == 2 || n == 3
    {
      if Bits15? then 2 else 3
    }

    /** SIZE_OF_16B_BLOCK, SIZE_OF_24B_BLOCK. */
    function BlockBytes(): (n: nat)
      ensures n == 256 * PixelBytes()
    {
      if Bits15? then 512 else 768
    }

    /** The byte offset of pixel `p`. */
    function Offset(p: int): int
    {
      if Bits15? then 2 * p else 3 * p
    }
  }

  // ----- one pixel -----

  function Clamp5(c: int): (r: int)
    ensures 0 <= r <= 31
    ensures -16 <= c <= 15 ==> r == c + 16
  {
    if c < -16 then 0 else if c > 31 - 16 then 31 else c + 16
  }

  function Clamp8(c: int): (r: Byte)
    ensures -128 <= c <= 127 ==> r == c + 128
  {
    if c < -128 then 0 else if c > 255 - 128 then 255 else c + 128
  }

  /** The three colour sums of a pixel, 10-bit fixed point. */
  datatype Rgb = Rgb(r: int, g: int, b: int)

  function Sums(y: int, cr: int, cb: int): Rgb
  {
    Rgb(y * 1024 + 1434 * cr, y * 1024 + (-351 * cb - 728 * cr), y * 1024 + 1807 * cb)
  }

  /** CLAMP_SCALE5 and CLAMP_SCALE8: a rounding shift by 23 or 20, then the clamp. */
  function ClampScale5(c: int): (r: int)
    ensures 0 <= r <= 31
  {
    Clamp5((c + 0x400000) / 0x800000)
  }

  function ClampScale8(c: int): Byte { Clamp8((c + 0x80000) / 0x100000) }

  /** MAKERGB15: the three channels and the transparency bit in one halfword. */
  function MakeRgb15(s: Rgb, stp: bool): (h: int)
    ensures 0 <= h < 0x10000
  {
    (if stp then 0x8000 else 0) + ClampScale5(s.b) * 1024 + ClampScale5(s.g) * 32 + ClampScale5(s.r)
  }

  /** Byte `c` of the pixel with the given samples; halfwords are stored low byte first. */
  function PixelByte(d: Depth, y: int, cr: int, cb: int, c: int): Byte
    requires 0 <= c < d.PixelBytes()
  {
    var s := Sums(y, cr, cb);
    match d
    case Bits15(stp) => if c == 0 then MakeRgb15(s, stp) % 0x100 else MakeRgb15(s, stp) / 0x100
    case Bits24 => if c == 0 then ClampScale8(s.r) else if c == 1 then ClampScale8(s.g) else ClampScale8(s.b)
  }

  /** The channels come apart again: no channel of a 15-bit pixel spills into its neighbour. */
  lemma Rgb15ChannelsAreSeparate(s: Rgb, stp: bool)
    ensures var h := MakeRgb15(s, stp);
      h % 32 == ClampScale5(s.r) && h / 32 % 32 == ClampScale5(s.g) && h / 1024 % 32 == ClampScale5(s.b) &&
        (h / 0x8000 == 1 <==> stp)
  {
    var (r, g, b) := (ClampScale5(s.r), ClampScale5(s.g), ClampScale5(s.b));
    var t := if stp then 1 else 0;
    hide ClampScale5;
    assert MakeRgb15(s, stp) == ((t * 32 + b) * 32 + g) * 32 + r;
    assert MakeRgb15(s, stp) / 32 == (t * 32 + b) * 32 + g && MakeRgb15(s, stp) / 1024 == t * 32 + b;
  }

  // ----- the whole macroblock, in closed form -----

  /** Where the luma sample of pixel (x, y) is: block 2*(y/8) + x/8, after the two chroma blocks. */
  function LumaIndex(x: int, y: int): int
  {
    64 * (2 + 2 * (y / 8) + x / 8) + 8 * (y % 8) + x % 8
  }

  /** Where its Cr sample is; Cb is one block further. */
  function ChromaIndex(x: int, y: int): int
  {
    8 * (y / 2) + x / 2
  }

  /** The bytes a pixel with the given samples is stored as. */
  function PixelBytesOf(d: Depth, y: int, cr: int, cb: int): (s: seq<Byte>)
    ensures |s| == d.PixelBytes()
  {
    seq(d.PixelBytes(), c requires 0 <= c < d.PixelBytes() => PixelByte(d, y, cr, cb, c))
  }

  /** The bytes of pixel `p` of the 16-by-16 picture. */
  function PicturePixel(d: Depth, m: Macroblock, p: int): (s: seq<Byte>)
    requires 0 <= p < 256
    ensures |s| == d.PixelBytes()
  {
    var x, y := p % 16, p / 16;
    PixelBytesOf(d, m[LumaIndex(x, y)], m[ChromaIndex(x, y)], m[64 + ChromaIndex(x, y)])
  }

  /** The bytes a decoded macroblock is stored as. */
  function Frame(d: Depth, m: Macroblock): (f: seq<Byte>)
    ensures |f| == d.BlockBytes()
  {
    if d.Bits15? then seq(512, i requires 0 <= i < 512 => PicturePixel(d, m, i / 2)[i % 2])
    else seq(768, i requires 0 <= i < 768 => PicturePixel(d, m, i / 3)[i % 3])
  }

  // ----- the pointer walk -----

  /** The bytes of pixel `p` of the picture at `at`. */
  ghost function PixelAt(image: array<Byte>, at: nat, d: Depth, p: int): seq<Byte>
    requires at + d.BlockBytes() <= image.Length && 0 <= p < 256
    reads image
  {
    image[at + d.Offset(p)..at + d.Offset(p) + d.PixelBytes()]
  }

  ghost predicate OutsideSame(image: array<Byte>, at: nat, d: Depth, was: seq<Byte>)
    requires |was| == image.Length
    reads image
  {
    forall i :: 0 <= i < image.Length && !(at <= i < at + d.BlockBytes()) ==> image[i] == was[i]
  }

  /** Stores pixel `p` of the picture at `at`. */
  method PutPixel(image: array<Byte>, at: nat, p: nat, d: Depth, y: int, cr: int, cb: int)
    requires at + d.BlockBytes() <= image.Length && p < 256
    modifies image
    ensures PixelAt(image, at, d, p) == PixelBytesOf(d, y, cr, cb)
    ensures forall q :: 0 <= q < 256 && q != p ==> PixelAt(image, at, d, q) == old(PixelAt(image, at, d, q))
    ensures OutsideSame(image, at, d, old(image[..]))
  {
    hide Clamp5, Clamp8;
    var s := Sums(y, cr, cb);
    var to := at + d.Offset(p);
    match d
    case Bits15(stp) =>
      var h := MakeRgb15(s, stp);
      image[to], image[to + 1] := h % 0x100, h / 0x100;
    case Bits24 =>
      image[to], image[to + 1], image[to + 2] := ClampScale8(s.r), ClampScale8(s.g), ClampScale8(s.b);
  }

  /** The four pixels of the quad whose first is `img`. */
  predicate InQuad(p: int, img: int)
  {
    p == img || p == img + 1 || p == img + 16 || p == img + 17
  }

  /** putquadrgb15, putquadrgb24: four pixels that share their chroma samples. `written` lists them. */
  method PutQuad(image: array<Byte>, at: nat, img: nat, d: Depth, blk: array<int>, yblk: nat, cr: int, cb: int)
    returns (ghost written: multiset<int>)
    requires at + d.BlockBytes() <= image.Length && img + 17 < 256 && yblk + 9 < blk.Length
    modifies image
    ensures PixelAt(image, at, d, img) == PixelBytesOf(d, blk[yblk], cr, cb)
    ensures PixelAt(image, at, d, img + 1) == PixelBytesOf(d, blk[yblk + 1], cr, cb)
    ensures PixelAt(image, at, d, img + 16) == PixelBytesOf(d, blk[yblk + 8], cr, cb)
    ensures PixelAt(image, at, d, img + 17) == PixelBytesOf(d, blk[yblk + 9], cr, cb)
    ensures forall q :: 0 <= q < 256 && !InQuad(q, img) ==> PixelAt(image, at, d, q) == old(PixelAt(image, at, d, q))
    ensures OutsideSame(image, at, d, old(image[..]))
    ensures forall q :: written[q] == if InQuad(q, img) then 1 else 0
  {
    hide PixelBytesOf, PixelAt;
    PutPixel(image, at, img, d, blk[yblk], cr, cb);
    PutPixel(image, at, img + 1, d, blk[yblk + 1], cr, cb);
    PutPixel(image, at, img + 16, d, blk[yblk + 8], cr, cb);
    PutPixel(image, at, img + 17, d, blk[yblk + 9], cr, cb);
    written := multiset{img, img + 1, img + 16, img + 17};
  }

  /** The eight pixels of step (x, y) of the walk: two columns of each half of rows y and y + 1. */
  predicate InStep(p: int, y: int, x: int)
  {
    (p / 16 == y || p / 16 == y + 1) && (p % 8 == 2 * x || p % 8 == 2 * x + 1)
  }

  /** The pixels stored before step (x, y). */
  predicate Done(p: int, y: int, x: int)
  {
    p / 16 < y || (p / 16 < y + 2 && p % 8 < 2 * x)
  }

  /** A quad by rows and columns. */
  lemma QuadAt(p: int, y: int, c: int)
    requires 0 <= c < 15
    ensures InQuad(p, 16 * y + c) <==> (p / 16 == y || p / 16 == y + 1) && (p % 16 == c || p % 16 == c + 1)
  {
    assert p == 16 * (p / 16) + p % 16;
  }

  lemma StepIsTwoQuads(p: int, x: int, y: int)
    requires 0 <= p < 256 && 0 <= x < 4 && 0 <= y < 16 && y % 2 == 0
    ensures InStep(p, y, x) <==> InQuad(p, 16 * y + 2 * x) || InQuad(p, 16 * y + 2 * x + 8)
  {
    QuadAt(p, y, 2 * x);
    QuadAt(p, y, 2 * x + 8);
    assert p % 16 == p % 8 || p % 16 == p % 8 + 8;
    hide InQuad;
  }

  /** Each pixel of a step takes its samples where the closed form says. */
  lemma StepSamples(d: Depth, m: Macroblock, x: int, y: int, right: nat, dy: nat, dx: nat)
    requires 0 <= x < 4 && 0 <= y < 16 && y % 2 == 0 && right <= 1 && dx <= 1 && dy <= 1
    ensures var yblk := 128 + 8 * y + (if y >= 8 then 64 else 0) + 2 * x + 64 * right;
      PicturePixel(d, m, 16 * y + 2 * x + 8 * right + 16 * dy + dx) ==
      PixelBytesOf(d, m[yblk + 8 * dy + dx], m[4 * y + x + 4 * right], m[64 + 4 * y + x + 4 * right])
  {
    hide PixelBytesOf;
    var px := 2 * x + 8 * right + dx;
    var p := 16 * (y + dy) + px;
    assert p % 16 == px && p / 16 == y + dy;
    assert px / 8 == right && px % 8 == 2 * x + dx && px / 2 == x + 4 * right;
    assert (y + dy) / 8 == (if y >= 8 then 1 else 0) && (y + dy) / 2 == y / 2;
  }

  /** One quad of a step: its four pixels become the picture's. */
  method StoreQuad(blk: array<int>, image: array<Byte>, at: nat, d: Depth, ghost x: nat, ghost y: nat, ghost right: nat,
                   img: nat, yblk: nat, crblk: nat, cbblk: nat) returns (ghost written: multiset<int>)
    requires blk.Length == 384 && at + d.BlockBytes() <= image.Length
    requires x < 4 && y < 16 && y % 2 == 0 && right <= 1
    requires img == 16 * y + 2 * x + 8 * right && yblk == 128 + 8 * y + (if y >= 8 then 64 else 0) + 2 * x + 64 * right
    requires crblk == 4 * y + x + 4 * right && cbblk == 64 + crblk
    modifies image
    ensures forall p :: 0 <= p < 256 ==>
      PixelAt(image, at, d, p) == if InQuad(p, img) then PicturePixel(d, blk[..], p) else old(PixelAt(image, at, d, p))
    ensures forall p :: written[p] == if InQuad(p, img) then 1 else 0
    ensures OutsideSame(image, at, d, old(image[..]))
  {
    hide PicturePixel, PixelBytesOf, PixelAt;
    written := PutQuad(image, at, img, d, blk, yblk, blk[crblk], blk[cbblk]);
    ghost var m := blk[..];
    StepSamples(d, m, x, y, right, 0, 0);
    StepSamples(d, m, x, y, right, 0, 1);
    StepSamples(d, m, x, y, right, 1, 0);
    StepSamples(d, m, x, y, right, 1, 1);
  }

  /** The body of the walk: both quads of a step. */
  method StorePair(blk: array<int>, image: array<Byte>, at: nat, d: Depth, ghost x: nat, ghost y: nat,
                   img: nat, yblk: nat, crblk: nat, cbblk: nat) returns (ghost written: multiset<int>)
    requires blk.Length == 384 && at + d.BlockBytes() <= image.Length
    requires x < 4 && y < 16 && y % 2 == 0
    requires img == 16 * y + 2 * x && yblk == 128 + 8 * y + (if y >= 8 then 64 else 0) + 2 * x
    requires crblk == 4 * y + x && cbblk == 64 + crblk
    modifies image
    ensures forall p :: 0 <= p < 256 ==>
      PixelAt(image, at, d, p) == if InStep(p, y, x) then PicturePixel(d, blk[..], p) else old(PixelAt(image, at, d, p))
    ensures forall p :: 0 <= p < 256 ==> written[p] == if InStep(p, y, x) then 1 else 0
    ensures OutsideSame(image, at, d, old(image[..]))
  {
    hide PicturePixel, InStep, PixelAt;
    ghost var left := StoreQuad(blk, image, at, d, x, y, 0, img, yblk, crblk, cbblk);
    ghost var right := StoreQuad(blk, image, at, d, x, y, 1, img + 8, yblk + 64, crblk + 4, cbblk + 4);
    written := left + right;
    forall p | 0 <= p < 256 ensures InStep(p, y, x) <==> InQuad(p, img) || InQuad(p, img + 8) {
      StepIsTwoQuads(p, x, y);
    }
  }

  /** The pixels of a picture, one after the other, are its bytes. */
  lemma PixelsMakeTheFrame(image: seq<Byte>, at: nat, d: Depth, m: Macroblock)
    requires at + d.BlockBytes() <= |image|
    requires forall p :: 0 <= p < 256 ==>
      image[at + d.Offset(p)..at + d.Offset(p) + d.PixelBytes()] == PicturePixel(d, m, p)
    ensures image[at..at + d.BlockBytes()] == Frame(d, m)
  {
    hide PicturePixel;
    forall i | 0 <= i < d.BlockBytes() ensures image[at + i] == Frame(d, m)[i] {
      var p := if d.Bits15? then i / 2 else i / 3;
      assert image[at + d.Offset(p)..at + d.Offset(p) + d.PixelBytes()][i - d.Offset(p)] == image[at + i];
    }
  }

  /** yuv2rgb15, yuv2rgb24: the picture at `at` becomes the closed form, and each of its 256
      pixels is stored exactly once. */
  method Yuv2Rgb(blk: array<int>, image: array<Byte>, at: nat, d: Depth) returns (ghost written: multiset<int>)
    requires blk.Length == 384 && at + d.BlockBytes() <= image.Length
    modifies image
    ensures image[at..at + d.BlockBytes()] == Frame(d, blk[..])
    ensures OutsideSame(image, at, d, old(image[..]))
    ensures forall p :: 0 <= p < 256 ==> written[p] == 1
  {
    hide PicturePixel;
    ghost var m := blk[..];
    written := multiset{};
    var img, yblk, crblk, cbblk := 0, 128, 0, 64;
    var y := 0;
    while y < 16
      invariant 0 <= y <= 16 && y % 2 == 0
      invariant img == 16 * y && yblk == 128 + 8 * y + (if y > 8 then 64 else 0) && crblk == 4 * y &&
        cbblk == 64 + 4 * y
      invariant forall p :: 0 <= p < 256 && Done(p, y, 0) ==> PixelAt(image, at, d, p) == PicturePixel(d, m, p)
      invariant forall p :: 0 <= p < 256 ==> written[p] == if Done(p, y, 0) then 1 else 0
      invariant OutsideSame(image, at, d, old(image[..]))
    {
      if y == 8 { yblk := yblk + 64; }
      var x := 0;
      while x < 4
        invariant 0 <= x <= 4
        invariant img == 16 * y + 2 * x && yblk == 128 + 8 * y + (if y >= 8 then 64 else 0) + 2 * x
        invariant crblk == 4 * y + x && cbblk == 64 + 4 * y + x
        invariant forall p :: 0 <= p < 256 && Done(p, y, x) ==> PixelAt(image, at, d, p) == PicturePixel(d, m, p)
        invariant forall p :: 0 <= p < 256 ==> written[p] == if Done(p, y, x) then 1 else 0
        invariant OutsideSame(image, at, d, old(image[..]))
      {
        ghost var w := StorePair(blk, image, at, d, x, y, img, yblk, crblk, cbblk);
        written := written + w;
        x, img, crblk, cbblk, yblk := x + 1, img + 2, crblk + 1, cbblk + 1, yblk + 2;
      }
      y, crblk, cbblk, yblk, img := y + 2, crblk + 4, cbblk + 4, yblk + 8, img + 24;
    }
    PixelsMakeTheFrame(image[..], at, d, m);
  }
}
