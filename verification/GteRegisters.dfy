/** The registers of the geometry coprocessor and its saturating arithmetic (libpcsxcore/gte.c:27-244).

    Only the halves of a register that the operations use are modelled.  The integer types do the
    work of the overflow argument: an `s32` holds what a C `int` can, so every function below that
    builds one from products and sums is checked not to leave 32 bits.
  */
module GteRegisters {
  type s16 = x: int | -0x8000 <= x < 0x8000
  type u16 = x: int | 0 <= x < 0x10000
  type s32 = x: int | -0x80000000 <= x < 0x80000000
  type u8 = x: int | 0 <= x < 0x100

  datatype V16 = V16(x: s16, y: s16, z: s16)
  datatype V32 = V32(x: s32, y: s32, z: s32)
  datatype Mat = Mat(m11: s16, m12: s16, m13: s16, m21: s16, m22: s16, m23: s16, m31: s16, m32: s16, m33: s16)
  datatype XY = XY(x: s16, y: s16)
  datatype Color = Color(r: u8, g: u8, b: u8, code: u8)

  /** The data registers (CP2D). */
  datatype Data = Data(v0: V16, v1: V16, v2: V16, rgb: Color, otz: u16, ir0: s16, ir: V16,
                       sxy0: XY, sxy1: XY, sxy2: XY, sz0: u16, sz1: u16, sz2: u16, sz3: u16,
                       rgb0: Color, rgb1: Color, rgb2: Color, mac0: s32, mac: V32)

  /** The control registers (CP2C) but FLAG: rotation, translation, light, background colour,
      light colour, far colour, screen offset, projection plane, depth cueing, average scales. */
  datatype Control = Control(rot: Mat, tr: V32, light: Mat, bk: V32, lcol: Mat, fc: V32,
                             ofx: s32, ofy: s32, h: s16, dqa: s16, dqb: s32, zsf3: s16, zsf4: s16)

  /** FLAG as the set of its raised bits. */
  type Bits = set<nat>

  datatype Regs = Regs(d: Data, c: Control, flag: Bits)

  /** DIVIDE is not interpreted: it is any function from H and SZ to a 32-bit word. */
  type Divider = (int, int) -> nat

  /** The source is compiled twice, with FLAGLESS defined and without (gte_nf.c). */
  datatype Build = Build(flagless: bool, divide: Divider)

  // ----- conversions -----

  /** The conversion of a wider value to a 32-bit register. */
  function Wrap32(x: int): (w: s32)
    ensures -0x80000000 <= x < 0x80000000 ==> w == x
  {
    (x + 0x80000000) % 0x100000000 - 0x80000000
  }

  function Shr12(x: int): int { x / 4096 }

  /** The shift that the sf bit of an opcode selects. */
  function ShrSf(x: int, sf: bool): int { if sf then x / 4096 else x }

  /** |a * x| is at most `m * n` when |a| <= m and |x| <= n. */
  lemma ProductWithin(a: int, x: int, m: int, n: int)
    requires -m <= a <= m && -n <= x <= n
    ensures -(m * n) <= a * x <= m * n
  {
    assert m * n - a * x == m * (n - x) + (m - a) * x == m * (n + x) - (m + a) * x;
    assert m * n + a * x == m * (n + x) - (m - a) * x == m * (n - x) + (m + a) * x;
    assert m * (n - x) >= 0 && m * (n + x) >= 0;
    if x >= 0 {
      assert (m - a) * x >= 0 && (m + a) * x >= 0;
    } else {
      assert (m - a) * x <= 0 && (m + a) * x <= 0;
    }
  }

  /** An int product of two 16-bit registers. */
  function Mul(a: s16, b: s16): (p: s32)
    ensures -0x3fff8000 <= p <= 0x40000000
  {
    if a == -0x8000 then a * b
    else ProductWithin(a, b, 0x7fff, 0x8000); a * b
  }

  /** An int product of a 16-bit register and the difference of two others. */
  function MulDifference(a: s16, p: s16, q: s16): (m: s32)
  {
    ProductWithin(a, p - q, 0x8000, 0xffff); a * (p - q)
  }

  /** An int product of a colour byte and a 16-bit register. */
  function MulByte(c: u8, a: s16): (p: s32)
    ensures -255 * 0x8000 <= p <= 255 * 0x8000
  {
    ProductWithin(c, a, 255, 0x8000); c * a
  }

  // ----- the saturating macros: value and flag apart -----

  /** BOUNDS_: the value passes unchanged (and is then converted); only the flag tells. */
  function BoundsBits(x: int, high: Bits, low: Bits): Bits
  {
    if x > 0x7fffffff then high else if x < -0x80000000 then low else {}
  }

  function Lim(x: int, min: int, max: int): (r: int)
    requires min <= max
    ensures min <= r <= max && (min <= x <= max ==> r == x) && (x > max ==> r == max) && (x < min ==> r == min)
  {
    if x > max then max else if x < min then min else x
  }

  function LimBits(x: int, min: int, max: int, bits: Bits): Bits
  {
    if x > max || x < min then bits else {}
  }

  /** A1, A2, A3: the bits raised by the three MAC sums. */
  function A1(x: int): Bits { BoundsBits(x, {30}, {31, 27}) }
  function A2(x: int): Bits { BoundsBits(x, {29}, {31, 26}) }
  function A3(x: int): Bits { BoundsBits(x, {28}, {31, 25}) }

  /** F: the bits raised by a MAC0 sum. */
  function F(x: int): Bits { BoundsBits(x, {31, 16}, {31, 15}) }

  /** limB: to a 16-bit register, or its nonnegative half if `lm`. */
  function LimB(x: s32, lm: bool): s16 { Lim(x, if lm then 0 else -0x8000, 0x7fff) }

  function LimB1Bits(x: s32, lm: bool): Bits { LimBits(x, if lm then 0 else -0x8000, 0x7fff, {31, 24}) }
  function LimB2Bits(x: s32, lm: bool): Bits { LimBits(x, if lm then 0 else -0x8000, 0x7fff, {31, 23}) }
  function LimB3Bits(x: s32, lm: bool): Bits { LimBits(x, if lm then 0 else -0x8000, 0x7fff, {22}) }

  function LimBs(m: V32, lm: bool): V16 { V16(LimB(m.x, lm), LimB(m.y, lm), LimB(m.z, lm)) }

  function LimBsBits(m: V32, lm: bool): Bits { LimB1Bits(m.x, lm) + LimB2Bits(m.y, lm) + LimB3Bits(m.z, lm) }

  /** limC: to a colour byte. */
  function LimC(x: int): u8 { Lim(x, 0, 0xff) }

  /** limD, limG, limH and limE: depth, screen coordinate, IR0 and the quotient. */
  function LimD(x: int): u16 { Lim(x, 0, 0xffff) }
  function LimDBits(x: int): Bits { LimBits(x, 0, 0xffff, {31, 18}) }
  function LimG(x: int): s16 { Lim(x, -0x400, 0x3ff) }
  function LimG1Bits(x: int): Bits { LimBits(x, -0x400, 0x3ff, {31, 14}) }
  function LimG2Bits(x: int): Bits { LimBits(x, -0x400, 0x3ff, {31, 13}) }
  function LimH(x: int): s16 { Lim(x, 0, 0x1000) }
  function LimHBits(x: int): Bits { LimBits(x, 0, 0x1000, {12}) }
  function LimE(x: nat): (q: nat)
    ensures q <= 0x1ffff
  {
    if x > 0x1ffff then 0x1ffff else x
  }
  function LimEBits(x: nat): Bits { if x > 0x1ffff then {31, 17} else {} }

  /** The colour FIFO takes MAC/16, with the code of RGB. */
  function PushColor(d: Data, m: V32): Data
  {
    d.(rgb0 := d.rgb1, rgb1 := d.rgb2, rgb2 := Color(LimC(m.x / 16), LimC(m.y / 16), LimC(m.z / 16), d.rgb.code))
  }

  function PushColorBits(m: V32): Bits
  {
    LimBits(m.x / 16, 0, 0xff, {21}) + LimBits(m.y / 16, 0, 0xff, {20}) + LimBits(m.z / 16, 0, 0xff, {19})
  }

  /** What a build keeps of the bits an operation raises. */
  function Kept(b: Build, bits: Bits): Bits { if b.flagless then {} else bits }
}
