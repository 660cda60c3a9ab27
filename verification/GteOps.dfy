/** What each operation of the geometry coprocessor does to the registers (libpcsxcore/gte.c:377-958).

    An operation is a function of the register file, once for both builds; the flag bits that its
    saturating steps raise are collected in one set, as FLAG only ever gains bits within an
    operation.  Sums that the C code makes in 64 bits are plain integers here.
  */
module GteOps {
  import opened GteRegisters

  /** The operations, with the opcode fields they read. */
  datatype Op =
    | RTPS | RTPT | NCLIP | AVSZ3 | AVSZ4
    | NCS | NCT | NCCS | NCCT | NCDS | NCDT | CC | CDP
    | MVMVA(sf: bool, mx: nat, v: nat, cv: nat, lm: bool)
    | SQR(sf: bool, lm: bool) | OuterProduct(sf: bool, lm: bool) | INTPL(sf: bool, lm: bool) | DCPL(lm: bool)
    | GPF(sf: bool) | GPL(sf: bool) | DPCS(sf: bool) | DPCT

  /** Three values on their way into MAC1-3. */
  datatype Wide = Wide(x: int, y: int, z: int) {
    function ToMac(): V32 { V32(Wrap32(x), Wrap32(y), Wrap32(z)) }

    /** The bits of A1, A2, A3. */
    function Bits(): Bits { A1(x) + A2(y) + A3(z) }

    function Shifted(sf: bool): Wide { Wide(ShrSf(x, sf), ShrSf(y, sf), ShrSf(z, sf)) }
  }

  // ----- building blocks -----

  function Dot(a: s16, b: s16, c: s16, v: V16): int { Mul(a, v.x) + Mul(b, v.y) + Mul(c, v.z) }

  /** (t << 12) + m * v. */
  function Affine(m: Mat, t: V32, v: V16): Wide
  {
    Wide(t.x * 4096 + Dot(m.m11, m.m12, m.m13, v), t.y * 4096 + Dot(m.m21, m.m22, m.m23, v),
      t.z * 4096 + Dot(m.m31, m.m32, m.m33, v))
  }

  const ZERO32 := V32(0, 0, 0)
  const ZEROMAT := Mat(0, 0, 0, 0, 0, 0, 0, 0, 0)

  /** The part of a result that goes to MAC1-3 and IR1-3, with its bits. */
  datatype Vector = Vector(mac: V32, ir: V16, bits: Bits)

  /** MAC through A1-A3, IR through limB1-limB3. */
  function Saturated(w: Wide, lm: bool): Vector
  {
    Vector(w.ToMac(), LimBs(w.ToMac(), lm), w.Bits() + LimBsBits(w.ToMac(), lm))
  }

  /** A vertex in screen space: its vector, depth, quotient, position and bits. */
  datatype Projection = Projection(vec: Vector, sz: u16, quotient: nat, at: XY, bits: Bits)

  /** A screen coordinate before limG: `F(sum) >> 16`, whose conversion to 32 bits comes before the
      shift in the flagged build and after it in the other. */
  function ScreenCoordinate(b: Build, sum: int): int
  {
    if b.flagless then Wrap32(sum / 0x10000) else Wrap32(sum) / 0x10000
  }

  function Project(b: Build, c: Control, v: V16): Projection
  {
    var vec := Saturated(Affine(c.rot, c.tr, v).Shifted(true), false);
    var sz := LimD(vec.mac.z);
    var e := b.divide(c.h, sz);
    var q := LimE(e);
    var x, y := c.ofx + vec.ir.x * q, c.ofy + vec.ir.y * q;
    var sx, sy := ScreenCoordinate(b, x), ScreenCoordinate(b, y);
    Projection(vec, sz, q, XY(LimG(sx), LimG(sy)),
               vec.bits + LimDBits(vec.mac.z) + LimEBits(e) + F(x) + LimG1Bits(sx) + F(y) + LimG2Bits(sy))
  }

  /** Depth cueing: MAC0 and IR0 from the quotient, and their bits. */
  function Cue(c: Control, q: nat): (s32, s16, Bits)
  {
    var w := c.dqb + c.dqa * q;
    var m := Wrap32(w);
    (m, LimH(Shr12(m)), F(w) + LimHBits(Shr12(m)))
  }

  /** The first stage of the normal operations: light matrix times normal, which fits 32 bits unchecked. */
  function LightNormal(c: Control, v: V16): Vector
  {
    var w := Affine(c.light, ZERO32, v);
    var m := V32(Shr12(w.x), Shr12(w.y), Shr12(w.z));
    Vector(m, LimBs(m, true), LimBsBits(m, true))
  }

  /** The second stage: background plus light colour matrix.  The bits are those of the sums only;
      where an operation goes on to saturate the result, it adds those bits itself. */
  function LightColor(c: Control, ir: V16): Vector
  {
    var w := Affine(c.lcol, c.bk, ir).Shifted(true);
    Vector(w.ToMac(), LimBs(w.ToMac(), true), w.Bits())
  }

  /** Both stages. */
  function Lit(c: Control, v: V16): Vector
  {
    var first := LightNormal(c, v);
    var second := LightColor(c, first.ir);
    second.(bits := first.bits + second.bits)
  }

  /** Light always comes out saturated. */
  lemma LitIsSaturated(c: Control, v: V16)
    ensures Lit(c, v).ir == LimBs(Lit(c, v).mac, true)
  {
    hide Affine, Wrap32, LimB;
  }

  /** The colour of RGB scaled by IR. */
  function Tint(rgb: Color, ir: V16): V32
  {
    V32(MulByte(rgb.r, ir.x) / 256, MulByte(rgb.g, ir.y) / 256, MulByte(rgb.b, ir.z) / 256)
  }

  /** One channel blended towards the far colour: base + IR0 * limB(far), with base and far given. */
  function Blend(base: int, ir0: s16, far: int): (m: s32)
    requires -0x10000000 <= base <= 0x10000000
  {
    base + Mul(ir0, LimB(Wrap32(far), false))
  }

  /** The bits of three blends, each channel with its own limB. */
  function BlendBits(far: Wide): Bits
  {
    far.Bits() + LimBsBits(far.ToMac(), false)
  }

  /** Depth cueing of a lit colour (NCDS, NCDT, CDP). */
  function CueLit(rgb: Color, ir0: s16, c: Control, ir: V16): (V32, Bits)
  {
    var t := Tint(rgb, ir);
    var far := Wide(c.fc.x - t.x, c.fc.y - t.y, c.fc.z - t.z);
    (V32(Blend(MulByte(rgb.r, ir.x) * 16, ir0, far.x) / 4096,
         Blend(MulByte(rgb.g, ir.y) * 16, ir0, far.y) / 4096,
         Blend(MulByte(rgb.b, ir.z) * 16, ir0, far.z) / 4096), BlendBits(far))
  }

  /** Depth cueing of a plain colour (DPCS, DPCT): the far colour less sixteen times the colour. */
  function FarFrom(col: Color, fc: V32): Wide { Wide(fc.x - col.r * 16, fc.y - col.g * 16, fc.z - col.b * 16) }

  function CuePlain(col: Color, ir0: s16, far: Wide): V32
  {
    V32(Blend(col.r * 0x10000, ir0, far.x) / 4096, Blend(col.g * 0x10000, ir0, far.y) / 4096,
      Blend(col.b * 0x10000, ir0, far.z) / 4096)
  }

  // ----- results -----

  function Result(b: Build, r: Regs, d: Data, bits: Bits): Regs { Regs(d, r.c, Kept(b, bits)) }

  /** MAC and IR take a vector. */
  function WithVector(d: Data, v: Vector): Data { d.(mac := v.mac, ir := v.ir) }

  /** MAC, IR and the colour FIFO take a result. */
  function Colored(b: Build, r: Regs, m: V32, ir: V16, bits: Bits): Regs
  {
    Result(b, r, PushColor(r.d.(mac := m, ir := ir), m), bits + PushColorBits(m))
  }

  // ----- the single operations -----

  function Rtps(b: Build, r: Regs): Regs
  {
    var p := Project(b, r.c, r.d.v0);
    var (mac0, ir0, bits) := Cue(r.c, p.quotient);
    Result(b, r, r.d.(mac := p.vec.mac, ir := p.vec.ir, sz0 := r.d.sz1, sz1 := r.d.sz2, sz2 := r.d.sz3, sz3 := p.sz,
                      sxy0 := r.d.sxy1, sxy1 := r.d.sxy2, sxy2 := p.at, mac0 := mac0, ir0 := ir0), p.bits + bits)
  }

  function Ncs(b: Build, r: Regs): Regs
  {
    var l := Lit(r.c, r.d.v0);
    Colored(b, r, l.mac, l.ir, l.bits + LimBsBits(l.mac, true))
  }

  function Nccs(b: Build, r: Regs): Regs
  {
    var l := Lit(r.c, r.d.v0);
    var t := Tint(r.d.rgb, l.ir);
    Colored(b, r, t, V16(t.x, t.y, t.z), l.bits + LimBsBits(l.mac, true))
  }

  function Ncds(b: Build, r: Regs): Regs
  {
    var l := Lit(r.c, r.d.v0);
    var (m, bits) := CueLit(r.d.rgb, r.d.ir0, r.c, l.ir);
    Colored(b, r, m, LimBs(m, true), l.bits + LimBsBits(l.mac, true) + bits + LimBsBits(m, true))
  }

  function Cc(b: Build, r: Regs): Regs
  {
    var l := LightColor(r.c, r.d.ir);
    var t := Tint(r.d.rgb, l.ir);
    Colored(b, r, t, LimBs(t, true), l.bits + LimBsBits(l.mac, true) + LimBsBits(t, true))
  }

  function Cdp(b: Build, r: Regs): Regs
  {
    var l := LightColor(r.c, r.d.ir);
    var (m, bits) := CueLit(r.d.rgb, r.d.ir0, r.c, l.ir);
    Colored(b, r, m, LimBs(m, true), l.bits + LimBsBits(l.mac, true) + bits + LimBsBits(m, true))
  }

  function Dpcs(b: Build, r: Regs, sf: bool): Regs
  {
    var far := FarFrom(r.d.rgb, r.c.fc);
    var far' := if sf then far else Wide(far.x * 4096, far.y * 4096, far.z * 4096);
    var m := CuePlain(r.d.rgb, r.d.ir0, far');
    Colored(b, r, m, LimBs(m, false), BlendBits(far') + LimBsBits(m, false))
  }

  /** The far colour less the tinted colour, and less IR. */
  function FarFromTint(d: Data, fc: V32): Wide
  {
    var t := Tint(d.rgb, d.ir);
    Wide(fc.x - t.x, fc.y - t.y, fc.z - t.z)
  }

  function FarFromIr(d: Data, fc: V32): Wide { Wide(fc.x - d.ir.x, fc.y - d.ir.y, fc.z - d.ir.z) }

  function DcplMac(d: Data, fc: V32): V32
  {
    var t, far := Tint(d.rgb, d.ir), FarFromTint(d, fc);
    V32(t.x + Shr12(Blend(0, d.ir0, far.x)), t.y + Shr12(Blend(0, d.ir0, far.y)), t.z + Shr12(Blend(0, d.ir0, far.z)))
  }

  /** The bits of blends that use limB1 for every channel (DCPL, and DPCT at gte.c:783-785). */
  function FirstChannelBits(far: Wide): Bits
  {
    var s := far.ToMac();
    far.Bits() + LimB1Bits(s.x, false) + LimB1Bits(s.y, false) + LimB1Bits(s.z, false)
  }

  function Dcpl(b: Build, r: Regs, lm: bool): Regs
  {
    var m := DcplMac(r.d, r.c.fc);
    Colored(b, r, m, LimBs(m, lm), FirstChannelBits(FarFromTint(r.d, r.c.fc)) + LimBsBits(m, lm))
  }

  function IntplMac(d: Data, fc: V32, sf: bool): V32
  {
    var i, far := d.ir, FarFromIr(d, fc);
    V32(ShrSf(Blend(i.x * 4096, d.ir0, far.x), sf), ShrSf(Blend(i.y * 4096, d.ir0, far.y), sf),
      ShrSf(Blend(i.z * 4096, d.ir0, far.z), sf))
  }

  function Intpl(b: Build, r: Regs, sf: bool, lm: bool): Regs
  {
    var m := IntplMac(r.d, r.c.fc, sf);
    Colored(b, r, m, LimBs(m, lm), BlendBits(FarFromIr(r.d, r.c.fc)) + LimBsBits(m, lm))
  }

  /** IR0 times IR, as GPF and GPL need it. */
  function Scaled(d: Data): V32 { V32(Mul(d.ir0, d.ir.x), Mul(d.ir0, d.ir.y), Mul(d.ir0, d.ir.z)) }

  function Gpf(b: Build, r: Regs, sf: bool): Regs
  {
    var p := Scaled(r.d);
    var m := V32(ShrSf(p.x, sf), ShrSf(p.y, sf), ShrSf(p.z, sf));
    Colored(b, r, m, LimBs(m, false), LimBsBits(m, false))
  }

  function Gpl(b: Build, r: Regs, sf: bool): Regs
  {
    var p := Scaled(r.d);
    var k := if sf then 4096 else 1;
    var s := Saturated(Wide(r.d.mac.x * k + p.x, r.d.mac.y * k + p.y, r.d.mac.z * k + p.z).Shifted(sf), false);
    Colored(b, r, s.mac, s.ir, s.bits)
  }

  /** MAC and IR of an operation that touches nothing else. */
  function VectorOnly(b: Build, r: Regs, v: Vector): Regs { Result(b, r, WithVector(r.d, v), v.bits) }

  /** The matrix, vector and operand that the fields of MVMVA select; the last choice is zero, or IR. */
  function Matrix(c: Control, mx: nat): Mat
  {
    if mx == 0 then c.rot else if mx == 1 then c.light else if mx == 2 then c.lcol else ZEROMAT
  }

  function Translation(c: Control, cv: nat): V32
  {
    if cv == 0 then c.tr else if cv == 1 then c.bk else if cv == 2 then c.fc else ZERO32
  }

  function Operand(d: Data, v: nat): V16
  {
    if v == 0 then d.v0 else if v == 1 then d.v1 else if v == 2 then d.v2 else d.ir
  }

  function Mvmva(b: Build, r: Regs, sf: bool, mx: nat, v: nat, cv: nat, lm: bool): Regs
  {
    VectorOnly(b, r, Saturated(Affine(Matrix(r.c, mx), Translation(r.c, cv), Operand(r.d, v)).Shifted(sf), lm))
  }

  function Sqr(b: Build, r: Regs, sf: bool, lm: bool): Regs
  {
    var i := r.d.ir;
    var m := V32(ShrSf(Mul(i.x, i.x), sf), ShrSf(Mul(i.y, i.y), sf), ShrSf(Mul(i.z, i.z), sf));
    VectorOnly(b, r, Vector(m, LimBs(m, lm), LimBsBits(m, lm)))
  }

  /** gteOP: the cross product with the diagonal of the rotation matrix; each difference fits an int. */
  function Cross(c: Control, i: V16): V32
  {
    V32(Mul(c.rot.m22, i.z) - Mul(c.rot.m33, i.y), Mul(c.rot.m33, i.x) - Mul(c.rot.m11, i.z),
      Mul(c.rot.m11, i.y) - Mul(c.rot.m22, i.x))
  }

  function Outer(b: Build, r: Regs, sf: bool, lm: bool): Regs
  {
    var p := Cross(r.c, r.d.ir);
    var m := V32(ShrSf(p.x, sf), ShrSf(p.y, sf), ShrSf(p.z, sf));
    VectorOnly(b, r, Vector(m, LimBs(m, lm), LimBsBits(m, lm)))
  }

  function Nclip(b: Build, r: Regs): Regs
  {
    var p, q, s := r.d.sxy0, r.d.sxy1, r.d.sxy2;
    var w := p.x * (q.y - s.y) + MulDifference(q.x, s.y, p.y) + MulDifference(s.x, p.y, q.y);
    Result(b, r, r.d.(mac0 := Wrap32(w)), F(w))
  }

  /** The scaled sum of depths; the sum is an int in the source, the product is not. */
  function Average(b: Build, r: Regs, scale: s16, sum: s32): Regs
  {
    var w := scale * sum;
    var m := Wrap32(w);
    Result(b, r, r.d.(mac0 := m, otz := LimD(Shr12(m))), F(w) + LimDBits(Shr12(m)))
  }

  // ----- the fused operations -----

  /** Vertex `k` of the three. */
  function Vertex(d: Data, k: int): V16 { if k == 0 then d.v0 else if k == 1 then d.v1 else d.v2 }

  /** gteRTPT: the FIFOs are written by index rather than shifted, and depth cueing is left to the end. */
  function Rtpt(b: Build, r: Regs): Regs
  {
    var p0, p1, p2 := Project(b, r.c, r.d.v0), Project(b, r.c, r.d.v1), Project(b, r.c, r.d.v2);
    var (mac0, ir0, bits) := Cue(r.c, p2.quotient);
    Result(b, r, r.d.(mac := p2.vec.mac, ir := p2.vec.ir, sz0 := r.d.sz3, sz1 := p0.sz, sz2 := p1.sz, sz3 := p2.sz,
                      sxy0 := p0.at, sxy1 := p1.at, sxy2 := p2.at, mac0 := mac0, ir0 := ir0),
                        p0.bits + p1.bits + p2.bits + bits)
  }

  /** Three colours pushed one after the other; MAC keeps the last. */
  function PushThree(d: Data, m0: V32, m1: V32, m2: V32): Data
  {
    PushColor(PushColor(PushColor(d, m0), m1), m2).(mac := m2)
  }

  function PushThreeBits(m0: V32, m1: V32, m2: V32): Bits
  {
    PushColorBits(m0) + PushColorBits(m1) + PushColorBits(m2)
  }

  function Nct(b: Build, r: Regs): Regs
  {
    var l0, l1, l2 := Lit(r.c, r.d.v0), Lit(r.c, r.d.v1), Lit(r.c, r.d.v2);
    Result(b, r, PushThree(r.d, l0.mac, l1.mac, l2.mac).(ir := l2.ir),
           l0.bits + l1.bits + l2.bits + PushThreeBits(l0.mac, l1.mac, l2.mac) + LimBsBits(l2.mac, true))
  }

  /** The bits of saturating three lit colours. */
  function LitBits(m0: V32, m1: V32, m2: V32): Bits
  {
    LimBsBits(m0, true) + LimBsBits(m1, true) + LimBsBits(m2, true)
  }

  function Ncct(b: Build, r: Regs): Regs
  {
    var l0, l1, l2 := Lit(r.c, r.d.v0), Lit(r.c, r.d.v1), Lit(r.c, r.d.v2);
    var t0, t1, t2 := Tint(r.d.rgb, l0.ir), Tint(r.d.rgb, l1.ir), Tint(r.d.rgb, l2.ir);
    Result(b, r, PushThree(r.d, t0, t1, t2).(ir := V16(t2.x, t2.y, t2.z)),
           l0.bits + l1.bits + l2.bits + LitBits(l0.mac, l1.mac, l2.mac) + PushThreeBits(t0, t1, t2))
  }

  function Ncdt(b: Build, r: Regs): Regs
  {
    var l0, l1, l2 := Lit(r.c, r.d.v0), Lit(r.c, r.d.v1), Lit(r.c, r.d.v2);
    var (m0, b0) := CueLit(r.d.rgb, r.d.ir0, r.c, l0.ir);
    var (m1, b1) := CueLit(r.d.rgb, r.d.ir0, r.c, l1.ir);
    var (m2, b2) := CueLit(r.d.rgb, r.d.ir0, r.c, l2.ir);
    Result(b, r, PushThree(r.d, m0, m1, m2).(ir := LimBs(m2, true)),
           l0.bits + l1.bits + l2.bits + LitBits(l0.mac, l1.mac, l2.mac) + b0 + b1 + b2 + PushThreeBits(m0, m1, m2) +
             LimBsBits(m2, true))
  }

  function Dpct(b: Build, r: Regs): Regs
  {
    var f0, f1, f2 := FarFrom(r.d.rgb0, r.c.fc), FarFrom(r.d.rgb1, r.c.fc), FarFrom(r.d.rgb2, r.c.fc);
    var m0, m1, m2 := CuePlain(r.d.rgb0, r.d.ir0, f0), CuePlain(r.d.rgb1, r.d.ir0, f1), CuePlain(r.d.rgb2, r.d.ir0, f2);
    Result(b, r, PushThree(r.d, m0, m1, m2).(ir := LimBs(m2, false)),
           FirstChannelBits(f0) + FirstChannelBits(f1) + FirstChannelBits(f2) + PushThreeBits(m0, m1, m2) +
             LimBsBits(m2, false))
  }

  function Execute(b: Build, op: Op, r: Regs): Regs
  {
    match op
    case RTPS => Rtps(b, r)
    case RTPT => Rtpt(b, r)
    case NCLIP => Nclip(b, r)
    case AVSZ3 => Average(b, r, r.c.zsf3, r.d.sz1 + r.d.sz2 + r.d.sz3)
    case AVSZ4 => Average(b, r, r.c.zsf4, r.d.sz0 + r.d.sz1 + r.d.sz2 + r.d.sz3)
    case NCS => Ncs(b, r)
    case NCT => Nct(b, r)
    case NCCS => Nccs(b, r)
    case NCCT => Ncct(b, r)
    case NCDS => Ncds(b, r)
    case NCDT => Ncdt(b, r)
    case CC => Cc(b, r)
    case CDP => Cdp(b, r)
    case MVMVA(sf, mx, v, cv, lm) => Mvmva(b, r, sf, mx, v, cv, lm)
    case SQR(sf, lm) => Sqr(b, r, sf, lm)
    case OuterProduct(sf, lm) => Outer(b, r, sf, lm)
    case INTPL(sf, lm) => Intpl(b, r, sf, lm)
    case DCPL(lm) => Dcpl(b, r, lm)
    case GPF(sf) => Gpf(b, r, sf)
    case GPL(sf) => Gpl(b, r, sf)
    case DPCS(sf) => Dpcs(b, r, sf)
    case DPCT => Dpct(b, r)
  }
}
