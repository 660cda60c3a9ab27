/** The operations of the geometry coprocessor as the source runs them (libpcsxcore/gte.c:377-958):
    sequences of writes to the register file, the saturating macros adding to FLAG as they go and
    the fused operations looping over their vertices.  Each is shown to do what `Execute` says.

    A write of a triple of registers stands for the three lines of the source that make it.
  */
module GteMachine {
  import opened GteRegisters
  import opened GteOps

  class Gte {
    var d: Data
    var c: Control
    var flag: Bits
    const build: Build

    constructor (build: Build, r: Regs)
      ensures Regs() == r && this.build == build
    {
      this.build := build;
      d, c, flag := r.d, r.c, r.flag;
    }

    ghost function Regs(): Regs
      reads this
    {
      GteRegisters.Regs(d, c, flag)
    }

    // ----- the macros -----

    /** BOUNDS: a 64-bit value on its way into a 32-bit register. */
    method Bounds(x: int, high: Bits, low: Bits) returns (v: s32)
      modifies `flag
      ensures v == Wrap32(x) && flag == old(flag) + Kept(build, BoundsBits(x, high, low))
    {
      if !build.flagless {
        if x > 0x7fffffff {
          flag := flag + high;
        } else if x < -0x80000000 {
          flag := flag + low;
        }
      }
      v := Wrap32(x);
    }

    /** LIM. */
    method Limit(x: int, min: int, max: int, bits: Bits) returns (v: int)
      requires min <= max
      modifies `flag
      ensures v == Lim(x, min, max) && flag == old(flag) + Kept(build, LimBits(x, min, max, bits))
    {
      v := x;
      if x > max || x < min {
        if !build.flagless {
          flag := flag + bits;
        }
        v := if x > max then max else min;
      }
    }

    /** limE. */
    method LimitQuotient(e: nat) returns (q: nat)
      modifies `flag
      ensures q == LimE(e) && flag == old(flag) + Kept(build, LimEBits(e))
    {
      q := e;
      if e > 0x1ffff {
        if !build.flagless {
          flag := flag + {31, 17};
        }
        q := 0x1ffff;
      }
    }

    /** The three A sums. */
    method WideSums(w: Wide) returns (m: V32)
      modifies `flag
      ensures m == w.ToMac() && flag == old(flag) + Kept(build, w.Bits())
    {
      var x := Bounds(w.x, {30}, {31, 27});
      var y := Bounds(w.y, {29}, {31, 26});
      var z := Bounds(w.z, {28}, {31, 25});
      m := V32(x, y, z);
    }

    /** limB1, limB2, limB3 of a triple. */
    method LimitVector(m: V32, lm: bool) returns (i: V16)
      modifies `flag
      ensures i == LimBs(m, lm) && flag == old(flag) + Kept(build, LimBsBits(m, lm))
    {
      var low := if lm then 0 else -0x8000;
      var x := Limit(m.x, low, 0x7fff, {31, 24});
      var y := Limit(m.y, low, 0x7fff, {31, 23});
      var z := Limit(m.z, low, 0x7fff, {22});
      i := V16(x, y, z);
    }

    method SetMac(w: Wide)
      modifies `d, `flag
      ensures d == old(d).(mac := w.ToMac()) && flag == old(flag) + Kept(build, w.Bits())
    {
      var m := WideSums(w);
      d := d.(mac := m);
    }

    method SetIr(lm: bool)
      modifies `d, `flag
      ensures d == old(d).(ir := LimBs(d.mac, lm)) && flag == old(flag) + Kept(build, LimBsBits(d.mac, lm))
    {
      var i := LimitVector(d.mac, lm);
      d := d.(ir := i);
    }

    /** The colour FIFO shift that ends every colour operation. */
    method PushMac()
      modifies `d, `flag
      ensures d == PushColor(old(d), old(d).mac) && flag == old(flag) + Kept(build, PushColorBits(d.mac))
    {
      d := d.(rgb0 := d.rgb1);
      d := d.(rgb1 := d.rgb2);
      var r := Limit(d.mac.x / 16, 0, 0xff, {21});
      var g := Limit(d.mac.y / 16, 0, 0xff, {20});
      var b := Limit(d.mac.z / 16, 0, 0xff, {19});
      d := d.(rgb2 := Color(r, g, b, d.rgb.code));
    }

    // ----- perspective -----

    /** A screen coordinate: limG(F(sum) >> 16), the conversion before or after the shift. */
    method ScreenLimit(sum: int, bits: Bits) returns (s: s16)
      modifies `flag
      ensures s == LimG(ScreenCoordinate(build, sum))
      ensures flag == old(flag) + Kept(build, F(sum) + LimBits(ScreenCoordinate(build, sum), -0x400, 0x3ff, bits))
    {
      hide Wrap32;
      var w := Bounds(sum, {31, 16}, {31, 15});
      s := Limit(if build.flagless then Wrap32(sum / 0x10000) else w / 0x10000, -0x400, 0x3ff, bits);
    }

    /** MAC, IR, the depth and the position of a vertex, the last two not yet stored. */
    method ProjectVertex(v: V16) returns (sz: u16, quotient: nat, at: XY)
      modifies `d, `flag
      ensures var p := Project(build, c, v);
        d == old(d).(mac := p.vec.mac, ir := p.vec.ir) && sz == p.sz && quotient == p.quotient && at == p.at &&
        flag == old(flag) + Kept(build, p.bits)
    {
      hide Affine, Wrap32, LimBits, BoundsBits, ScreenCoordinate;
      SetMac(Affine(c.rot, c.tr, v).Shifted(true));
      SetIr(false);
      sz := Limit(d.mac.z, 0, 0xffff, {31, 18});
      var e := build.divide(c.h, sz);
      quotient := LimitQuotient(e);
      var x, y := c.ofx + d.ir.x * quotient, c.ofy + d.ir.y * quotient;
      var sx := ScreenLimit(x, {31, 14});
      var sy := ScreenLimit(y, {31, 13});
      at := XY(sx, sy);
    }

    method CueDepth(quotient: nat)
      modifies `d, `flag
      ensures var (mac0, ir0, bits) := Cue(c, quotient);
        d == old(d).(mac0 := mac0, ir0 := ir0) && flag == old(flag) + Kept(build, bits)
    {
      var m := Bounds(c.dqb + c.dqa * quotient, {31, 16}, {31, 15});
      d := d.(mac0 := m);
      var i := Limit(d.mac0 / 4096, 0, 0x1000, {12});
      d := d.(ir0 := i);
    }

    method RtpsInPlace()
      modifies this
      ensures Regs() == Execute(build, RTPS, old(Regs()))
    {
      hide Project, Cue;
      flag := {};
      var sz, quotient, at := ProjectVertex(d.v0);
      d := d.(sz0 := d.sz1);
      d := d.(sz1 := d.sz2);
      d := d.(sz2 := d.sz3);
      d := d.(sz3 := sz);
      d := d.(sxy0 := d.sxy1);
      d := d.(sxy1 := d.sxy2);
      d := d.(sxy2 := at);
      CueDepth(quotient);
    }

    /** The data registers and bits after `n` turns of the RTPT loop. */
    static ghost function RtptStage(b: Build, r: GteRegisters.Regs, n: nat): (Data, Bits)
      requires n <= 3
    {
      if n == 0 then (r.d.(sz0 := r.d.sz3), {})
      else
        var (d, bits) := RtptStage(b, r, n - 1);
        var p := Project(b, r.c, Vertex(r.d, n - 1));
        var e := d.(mac := p.vec.mac, ir := p.vec.ir);
        (if n == 1 then e.(sz1 := p.sz, sxy0 := p.at) else if n == 2 then e.(sz2 := p.sz, sxy1 := p.at)
          else e.(sz3 := p.sz, sxy2 := p.at),
         bits + p.bits)
    }

    method RtptInPlace()
      modifies this
      ensures Regs() == Execute(build, RTPT, old(Regs()))
    {
      hide Project, Cue;
      flag := {};
      ghost var r := old(Regs());
      d := d.(sz0 := d.sz3);
      var quotient := 0;
      for v := 0 to 3
        invariant c == r.c && d == RtptStage(build, r, v).0 && flag == Kept(build, RtptStage(build, r, v).1)
        invariant d.v0 == r.d.v0 && d.v1 == r.d.v1 && d.v2 == r.d.v2
        invariant v == 3 ==> quotient == Project(build, r.c, r.d.v2).quotient
      {
        var sz, q, at := ProjectVertex(Vertex(d, v));
        quotient := q;
        d := if v == 0 then d.(sz1 := sz) else if v == 1 then d.(sz2 := sz) else d.(sz3 := sz);
        d := if v == 0 then d.(sxy0 := at) else if v == 1 then d.(sxy1 := at) else d.(sxy2 := at);
      }
      assert RtptStage(build, r, 1).1 == Project(build, r.c, r.d.v0).bits;
      CueDepth(quotient);
    }

    // ----- light -----

    /** Both stages up to MAC: the first with its saturation, the second without. */
    method LightUp(v: V16)
      modifies `d, `flag
      ensures var l := Lit(c, v);
        d == old(d).(mac := l.mac, ir := LightNormal(c, v).ir) && flag == old(flag) + Kept(build, l.bits)
    {
      hide Wrap32, LimBs, LimBsBits, Mul;
      var w := Affine(c.light, ZERO32, v);
      d := d.(mac := V32(w.x / 4096, w.y / 4096, w.z / 4096));
      SetIr(true);
      LightColorMac();
    }

    /** The second stage up to MAC. */
    method LightColorMac()
      modifies `d, `flag
      ensures var l := LightColor(c, old(d).ir);
        d == old(d).(mac := l.mac) && flag == old(flag) + Kept(build, l.bits)
    {
      hide Affine, Wrap32, LimBs;
      SetMac(Affine(c.lcol, c.bk, d.ir).Shifted(true));
    }

    /** MAC takes the colour scaled by IR. */
    method TintMac()
      modifies `d
      ensures d == old(d).(mac := Tint(old(d).rgb, old(d).ir))
    {
      hide MulByte;
      d := d.(mac := Tint(d.rgb, d.ir));
    }

    /** MAC takes the lit colour blended towards the far colour. */
    method CueMac()
      modifies `d, `flag
      ensures var (m, bits) := CueLit(old(d).rgb, old(d).ir0, c, old(d).ir);
        d == old(d).(mac := m) && flag == old(flag) + Kept(build, bits)
    {
      hide MulByte, Mul, Wrap32, LimB, BoundsBits, LimBits;
      var t := Tint(d.rgb, d.ir);
      var s := WideSums(Wide(c.fc.x - t.x, c.fc.y - t.y, c.fc.z - t.z));
      var f := LimitVector(s, false);
      d := d.(mac := V32((MulByte(d.rgb.r, d.ir.x) * 16 + Mul(d.ir0, f.x)) / 4096,
                         (MulByte(d.rgb.g, d.ir.y) * 16 + Mul(d.ir0, f.y)) / 4096,
                         (MulByte(d.rgb.b, d.ir.z) * 16 + Mul(d.ir0, f.z)) / 4096));
    }

    method NcsInPlace()
      modifies this
      ensures Regs() == Execute(build, NCS, old(Regs()))
    {
      hide Lit, PushColorBits, LimBsBits, LimC, LimBs;
      flag := {};
      LightUp(d.v0);
      SetIr(true);
      LitIsSaturated(c, old(d).v0);
      PushMac();
    }

    method NccsInPlace()
      modifies this
      ensures Regs() == Execute(build, NCCS, old(Regs()))
    {
      hide Lit, PushColorBits, LimBsBits, LimC, LimBs, Tint;
      flag := {};
      LightUp(d.v0);
      SetIr(true);
      LitIsSaturated(c, old(d).v0);
      TintMac();
      TintFits(d.rgb, d.ir);
      d := d.(ir := V16(d.mac.x, d.mac.y, d.mac.z));
      PushMac();
    }

    /** A tinted colour fits IR. */
    static lemma TintFits(rgb: Color, ir: V16)
      ensures var t := Tint(rgb, ir); -0x8000 <= t.x < 0x8000 && -0x8000 <= t.y < 0x8000 && -0x8000 <= t.z < 0x8000
    {
    }

    method NcdsInPlace()
      modifies this
      ensures Regs() == Execute(build, NCDS, old(Regs()))
    {
      hide Lit, PushColorBits, LimBsBits, LimC, LimBs, CueLit;
      flag := {};
      LightUp(d.v0);
      SetIr(true);
      LitIsSaturated(c, old(d).v0);
      CueMac();
      SetIr(true);
      PushMac();
    }

    method CcInPlace()
      modifies this
      ensures Regs() == Execute(build, CC, old(Regs()))
    {
      hide LightColor, PushColorBits, LimBsBits, LimC, LimBs, Tint;
      flag := {};
      LightColorMac();
      SetIr(true);
      LightColorSaturates(c, old(d).ir);
      TintMac();
      SetIr(true);
      PushMac();
    }

    static lemma LightColorSaturates(c: Control, ir: V16)
      ensures LightColor(c, ir).ir == LimBs(LightColor(c, ir).mac, true)
    {
      hide Affine, Wrap32, LimB;
    }

    method CdpInPlace()
      modifies this
      ensures Regs() == Execute(build, CDP, old(Regs()))
    {
      hide LightColor, PushColorBits, LimBsBits, LimC, LimBs, CueLit;
      flag := {};
      LightColorMac();
      SetIr(true);
      LightColorSaturates(c, old(d).ir);
      CueMac();
      SetIr(true);
      PushMac();
    }

    // ----- the loops over three vertices -----

    /** The data registers when the first `n` of three colours have been pushed: MAC is the last of
        them, IR is `ir`. */
    static ghost function PushStage(d: Data, m0: V32, m1: V32, m2: V32, n: nat, ir: V16): Data
    {
      var e := if n == 0 then d
        else if n == 1 then PushColor(d, m0).(mac := m0)
        else if n == 2 then PushColor(PushColor(d, m0), m1).(mac := m1)
        else PushThree(d, m0, m1, m2);
      e.(ir := ir)
    }

    /** The union of the first `n` of three sets of bits. */
    static ghost function FirstBits(b0: Bits, b1: Bits, b2: Bits, n: nat): Bits
    {
      if n == 0 then {} else if n == 1 then b0 else if n == 2 then b0 + b1 else b0 + b1 + b2
    }

    method NctInPlace()
      modifies this
      ensures Regs() == Execute(build, NCT, old(Regs()))
    {
      hide Lit, PushColorBits, LimBsBits, LimC, LimBs;
      flag := {};
      ghost var r := old(Regs());
      ghost var l0, l1, l2 := Lit(r.c, r.d.v0), Lit(r.c, r.d.v1), Lit(r.c, r.d.v2);
      LitIsSaturated(r.c, r.d.v2);
      for v := 0 to 3
        invariant c == r.c && d == PushStage(r.d, l0.mac, l1.mac, l2.mac, v, d.ir)
        invariant v == 0 ==> d == r.d
        invariant flag == Kept(build,
          FirstBits(l0.bits + PushColorBits(l0.mac), l1.bits + PushColorBits(l1.mac),
            l2.bits + PushColorBits(l2.mac), v))
      {
        LightUp(Vertex(d, v));
        PushMac();
      }
      SetIr(true);
    }

    method NcctInPlace()
      modifies this
      ensures Regs() == Execute(build, NCCT, old(Regs()))
    {
      hide Lit, PushColorBits, LimBsBits, LimC, LimBs, Tint;
      flag := {};
      ghost var r := old(Regs());
      ghost var l0, l1, l2 := Lit(r.c, r.d.v0), Lit(r.c, r.d.v1), Lit(r.c, r.d.v2);
      ghost var t0, t1, t2 := Tint(r.d.rgb, l0.ir), Tint(r.d.rgb, l1.ir), Tint(r.d.rgb, l2.ir);
      LitIsSaturated(r.c, r.d.v0);
      LitIsSaturated(r.c, r.d.v1);
      LitIsSaturated(r.c, r.d.v2);
      for v := 0 to 3
        invariant c == r.c && d == PushStage(r.d, t0, t1, t2, v, d.ir)
        invariant v == 3 ==> d.ir == l2.ir
        invariant flag == Kept(build, FirstBits(l0.bits + LimBsBits(l0.mac, true) + PushColorBits(t0),
                                                l1.bits + LimBsBits(l1.mac, true) + PushColorBits(t1),
                                                l2.bits + LimBsBits(l2.mac, true) + PushColorBits(t2), v))
      {
        LightUp(Vertex(d, v));
        SetIr(true);
        TintMac();
        PushMac();
      }
      TintFits(r.d.rgb, l2.ir);
      d := d.(ir := V16(d.mac.x, d.mac.y, d.mac.z));
    }

    method NcdtInPlace()
      modifies this
      ensures Regs() == Execute(build, NCDT, old(Regs()))
    {
      hide Lit, PushColorBits, LimBsBits, LimC, LimBs, CueLit;
      flag := {};
      ghost var r := old(Regs());
      ghost var l0, l1, l2 := Lit(r.c, r.d.v0), Lit(r.c, r.d.v1), Lit(r.c, r.d.v2);
      ghost var (m0, b0) := CueLit(r.d.rgb, r.d.ir0, r.c, l0.ir);
      ghost var (m1, b1) := CueLit(r.d.rgb, r.d.ir0, r.c, l1.ir);
      ghost var (m2, b2) := CueLit(r.d.rgb, r.d.ir0, r.c, l2.ir);
      for v := 0 to 3
        invariant c == r.c && d == PushStage(r.d, m0, m1, m2, v, d.ir)
        invariant flag == Kept(build, FirstBits(l0.bits + LimBsBits(l0.mac, true) + b0 + PushColorBits(m0),
                                                l1.bits + LimBsBits(l1.mac, true) + b1 + PushColorBits(m1),
                                                l2.bits + LimBsBits(l2.mac, true) + b2 + PushColorBits(m2), v))
      {
        CueLitTurn(Vertex(d, v));
      }
      SetIr(true);
    }

    /** One turn of the NCDT loop. */
    method CueLitTurn(v: V16)
      modifies `d, `flag
      ensures var l := Lit(c, v); var (m, bits) := CueLit(old(d).rgb, old(d).ir0, c, l.ir);
        d == PushColor(old(d), m).(mac := m, ir := l.ir) &&
        flag == old(flag) + Kept(build, l.bits + LimBsBits(l.mac, true) + bits + PushColorBits(m))
    {
      hide Lit, PushColorBits, LimBsBits, LimC, LimBs, CueLit;
      LightUp(v);
      SetIr(true);
      LitIsSaturated(c, v);
      CueMac();
      PushMac();
    }

    // ----- blends and products -----

    /** MAC takes a plain colour blended towards the far colour, each channel with its own limB. */
    method CuePlainMac(col: Color, far: Wide)
      modifies `d, `flag
      ensures d == old(d).(mac := CuePlain(col, old(d).ir0, far)) && flag == old(flag) + Kept(build, BlendBits(far))
    {
      hide Mul, Wrap32, LimB, BoundsBits, LimBits;
      var s := WideSums(far);
      var f := LimitVector(s, false);
      d := d.(mac := V32((col.r * 0x10000 + Mul(d.ir0, f.x)) / 4096, (col.g * 0x10000 + Mul(d.ir0, f.y)) / 4096,
                         (col.b * 0x10000 + Mul(d.ir0, f.z)) / 4096));
    }

    /** The three differences to the far colour, all clamped by limB1 (DPCT and DCPL). */
    method FirstChannelLimits(far: Wide) returns (f: V16)
      modifies `flag
      ensures f == LimBs(far.ToMac(), false) && flag == old(flag) + Kept(build, FirstChannelBits(far))
    {
      hide Wrap32, BoundsBits, LimBits;
      var s := WideSums(far);
      var x := Limit(s.x, -0x8000, 0x7fff, {31, 24});
      var y := Limit(s.y, -0x8000, 0x7fff, {31, 24});
      var z := Limit(s.z, -0x8000, 0x7fff, {31, 24});
      f := V16(x, y, z);
    }

    method DpcsInPlace(sf: bool)
      modifies this
      ensures Regs() == Execute(build, DPCS(sf), old(Regs()))
    {
      hide PushColorBits, LimBsBits, LimC, LimBs, CuePlain, BlendBits;
      flag := {};
      var far := FarFrom(d.rgb, c.fc);
      CuePlainMac(d.rgb, if sf then far else Wide(far.x * 4096, far.y * 4096, far.z * 4096));
      SetIr(false);
      PushMac();
    }

    method DpctInPlace()
      modifies this
      ensures Regs() == Execute(build, DPCT, old(Regs()))
    {
      hide PushColorBits, LimBsBits, LimC, FirstChannelBits, FarFrom, CuePlain, LimBs;
      flag := {};
      ghost var r := old(Regs());
      ghost var f0, f1, f2 := FarFrom(r.d.rgb0, r.c.fc), FarFrom(r.d.rgb1, r.c.fc), FarFrom(r.d.rgb2, r.c.fc);
      ghost var m0, m1, m2 := CuePlain(r.d.rgb0, r.d.ir0, f0), CuePlain(r.d.rgb1, r.d.ir0, f1),
        CuePlain(r.d.rgb2, r.d.ir0, f2);
      for v := 0 to 3
        invariant c == r.c && d == PushStage(r.d, m0, m1, m2, v, r.d.ir)
        invariant flag == Kept(build,
          FirstBits(FirstChannelBits(f0) + PushColorBits(m0), FirstChannelBits(f1) + PushColorBits(m1),
                                                FirstChannelBits(f2) + PushColorBits(m2), v))
      {
        DpctTurn();
      }
      SetIr(false);
    }

    /** One turn of the DPCT loop, on the colour in front. */
    method DpctTurn()
      modifies `d, `flag
      ensures var f := FarFrom(old(d).rgb0, c.fc); var m := CuePlain(old(d).rgb0, old(d).ir0, f);
        d == PushColor(old(d), m).(mac := m) && flag == old(flag) + Kept(build, FirstChannelBits(f) + PushColorBits(m))
    {
      hide Mul, Wrap32, LimB, LimBits, PushColorBits, FirstChannelBits, LimC;
      var col := d.rgb0;
      var f := FirstChannelLimits(FarFrom(col, c.fc));
      d := d.(mac := V32((col.r * 0x10000 + Mul(d.ir0, f.x)) / 4096, (col.g * 0x10000 + Mul(d.ir0, f.y)) / 4096,
                         (col.b * 0x10000 + Mul(d.ir0, f.z)) / 4096));
      PushMac();
    }

    method DcplMacInPlace()
      modifies `d, `flag
      ensures d == old(d).(mac := DcplMac(old(d), c.fc))
      ensures flag == old(flag) + Kept(build, FirstChannelBits(FarFromTint(old(d), c.fc)))
    {
      hide Wrap32, LimB, LimBits, FirstChannelBits;
      var t := Tint(d.rgb, d.ir);
      var f := FirstChannelLimits(Wide(c.fc.x - t.x, c.fc.y - t.y, c.fc.z - t.z));
      d := d.(mac := V32(t.x + Mul(d.ir0, f.x) / 4096, t.y + Mul(d.ir0, f.y) / 4096, t.z + Mul(d.ir0, f.z) / 4096));
    }

    method DcplInPlace(lm: bool)
      modifies this
      ensures Regs() == Execute(build, DCPL(lm), old(Regs()))
    {
      hide DcplMac, FarFromTint, FirstChannelBits, LimC, LimBs, PushColorBits, LimBsBits;
      flag := {};
      DcplMacInPlace();
      SetIr(lm);
      PushMac();
    }

    method IntplMacInPlace(sf: bool)
      modifies `d, `flag
      ensures d == old(d).(mac := IntplMac(old(d), c.fc, sf))
      ensures flag == old(flag) + Kept(build, BlendBits(FarFromIr(old(d), c.fc)))
    {
      hide Wrap32, BoundsBits, LimBits, LimB, Mul;
      var s := WideSums(Wide(c.fc.x - d.ir.x, c.fc.y - d.ir.y, c.fc.z - d.ir.z));
      var f := LimitVector(s, false);
      d := d.(mac := V32(ShrSf(d.ir.x * 4096 + Mul(d.ir0, f.x), sf), ShrSf(d.ir.y * 4096 + Mul(d.ir0, f.y), sf),
                         ShrSf(d.ir.z * 4096 + Mul(d.ir0, f.z), sf)));
    }

    method IntplInPlace(sf: bool, lm: bool)
      modifies this
      ensures Regs() == Execute(build, INTPL(sf, lm), old(Regs()))
    {
      hide IntplMac, FarFromIr, BlendBits, LimC, LimBs, PushColorBits, LimBsBits;
      flag := {};
      IntplMacInPlace(sf);
      SetIr(lm);
      PushMac();
    }

    method GpfInPlace(sf: bool)
      modifies this
      ensures Regs() == Execute(build, GPF(sf), old(Regs()))
    {
      hide LimBits, LimC, LimB, PushColorBits, LimBsBits, Mul;
      flag := {};
      d := d.(mac := V32(ShrSf(Mul(d.ir0, d.ir.x), sf), ShrSf(Mul(d.ir0, d.ir.y), sf), ShrSf(Mul(d.ir0, d.ir.z), sf)));
      SetIr(false);
      PushMac();
    }

    method GplInPlace(sf: bool)
      modifies this
      ensures Regs() == Execute(build, GPL(sf), old(Regs()))
    {
      hide Wrap32, BoundsBits, LimBits, LimC, LimB, PushColorBits, LimBsBits, Mul, ShrSf;
      flag := {};
      var k := if sf then 4096 else 1;
      SetMac(Wide(d.mac.x * k + Mul(d.ir0, d.ir.x), d.mac.y * k + Mul(d.ir0, d.ir.y),
        d.mac.z * k + Mul(d.ir0, d.ir.z)).Shifted(sf));
      SetIr(false);
      PushMac();
    }

    method MvmvaInPlace(sf: bool, mx: nat, v: nat, cv: nat, lm: bool)
      modifies this
      ensures Regs() == Execute(build, MVMVA(sf, mx, v, cv, lm), old(Regs()))
    {
      hide Affine, Wrap32, BoundsBits, LimBits, LimB, LimBsBits, ShrSf;
      hide Matrix, Translation, Operand;
      flag := {};
      SetMac(Affine(Matrix(c, mx), Translation(c, cv), Operand(d, v)).Shifted(sf));
      SetIr(lm);
    }

    method SqrInPlace(sf: bool, lm: bool)
      modifies this
      ensures Regs() == Execute(build, SQR(sf, lm), old(Regs()))
    {
      hide LimBits, LimB, LimBsBits, Mul;
      flag := {};
      d := d.(mac := V32(ShrSf(Mul(d.ir.x, d.ir.x), sf), ShrSf(Mul(d.ir.y, d.ir.y), sf),
        ShrSf(Mul(d.ir.z, d.ir.z), sf)));
      SetIr(lm);
    }

    method OuterProductInPlace(sf: bool, lm: bool)
      modifies this
      ensures Regs() == Execute(build, OuterProduct(sf, lm), old(Regs()))
    {
      hide LimBits, LimB, LimBsBits, Mul;
      flag := {};
      var x: s32 := Mul(c.rot.m22, d.ir.z) - Mul(c.rot.m33, d.ir.y);
      var y: s32 := Mul(c.rot.m33, d.ir.x) - Mul(c.rot.m11, d.ir.z);
      var z: s32 := Mul(c.rot.m11, d.ir.y) - Mul(c.rot.m22, d.ir.x);
      d := d.(mac := V32(ShrSf(x, sf), ShrSf(y, sf), ShrSf(z, sf)));
      SetIr(lm);
    }

    method NclipInPlace()
      modifies this
      ensures Regs() == Execute(build, NCLIP, old(Regs()))
    {
      hide MulDifference, Wrap32;
      flag := {};
      var p, q, s := d.sxy0, d.sxy1, d.sxy2;
      var m := Bounds(p.x * (q.y - s.y) + MulDifference(q.x, s.y, p.y) + MulDifference(s.x, p.y, q.y), {31, 16},
        {31, 15});
      d := d.(mac0 := m);
    }

    /** AVSZ3 and AVSZ4: the scaled sum of three or four depths. */
    method AverageInPlace(four: bool)
      modifies this
      ensures Regs() == Execute(build, if four then AVSZ4 else AVSZ3, old(Regs()))
    {
      hide Wrap32;
      flag := {};
      var scale: s16 := if four then c.zsf4 else c.zsf3;
      var sum: s32 := if four then d.sz0 + d.sz1 + d.sz2 + d.sz3 else d.sz1 + d.sz2 + d.sz3;
      var m := Bounds(scale * sum, {31, 16}, {31, 15});
      d := d.(mac0 := m);
      var z := Limit(d.mac0 / 4096, 0, 0xffff, {31, 18});
      d := d.(otz := z);
    }
  }
}
