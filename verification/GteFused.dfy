/** The operations on three vertices or colours against their single forms (libpcsxcore/gte.c:405-461,
    535-681, 774-881): the data registers always agree, and for each pair the difference in FLAG is
    given exactly.
  */
module GteFused {
  import opened GteRegisters
  import opened GteOps

  function WithV0(r: Regs, v: V16): Regs { r.(d := r.d.(v0 := v)) }

  /** A single operation run on vertices 0, 1 and 2 in turn, each put into V0 first; V0 is put back
      and FLAG collects the bits of all three runs. */
  function InTurn(b: Build, op: Op, r: Regs): Regs
  {
    var r0 := Execute(b, op, r);
    var r1 := Execute(b, op, WithV0(r0, r.d.v1));
    var r2 := Execute(b, op, WithV0(r1, r.d.v2));
    WithV0(r2, r.d.v0).(flag := r0.flag + r1.flag + r2.flag)
  }

  /** The front of the colour FIFO put into RGB, whose code stays. */
  function WithFront(r: Regs): Regs
  {
    var c := r.d.rgb0;
    r.(d := r.d.(rgb := Color(c.r, c.g, c.b, r.d.rgb.code)))
  }

  /** DPCS with sf = 1 run three times, each on the colour then in front; RGB is put back. */
  function DpcsInTurn(b: Build, r: Regs): Regs
  {
    var r0 := Execute(b, DPCS(true), WithFront(r));
    var r1 := Execute(b, DPCS(true), WithFront(r0));
    var r2 := Execute(b, DPCS(true), WithFront(r1));
    Regs(r2.d.(rgb := r.d.rgb), r.c, r0.flag + r1.flag + r2.flag)
  }

  /** RTPT is RTPS three times; RTPS raises the cueing bits of the first two vertices besides. */
  lemma RtptIsRtpsInTurn(b: Build, r: Regs)
    ensures Execute(b, RTPT, r).d == InTurn(b, RTPS, r).d
    ensures Execute(b, RTPT, r).flag <= InTurn(b, RTPS, r).flag
    ensures InTurn(b, RTPS, r).flag == Execute(b, RTPT, r).flag +
      Kept(b, Cue(r.c, Project(b, r.c, r.d.v0).quotient).2 + Cue(r.c, Project(b, r.c, r.d.v1).quotient).2)
  {
    hide Project, Cue;
  }

  /** NCT is NCS three times; NCS saturates the first two colours besides. */
  lemma NctIsNcsInTurn(b: Build, r: Regs)
    ensures Execute(b, NCT, r).d == InTurn(b, NCS, r).d
    ensures Execute(b, NCT, r).flag <= InTurn(b, NCS, r).flag
    ensures InTurn(b, NCS, r).flag == Execute(b, NCT, r).flag +
      Kept(b, LimBsBits(Lit(r.c, r.d.v0).mac, true) + LimBsBits(Lit(r.c, r.d.v1).mac, true))
  {
    hide Lit, LimBsBits, LimC, PushColorBits;
    LitIsSaturated(r.c, r.d.v0);
    LitIsSaturated(r.c, r.d.v1);
    LitIsSaturated(r.c, r.d.v2);
  }

  /** NCCT is NCCS three times, bit for bit. */
  lemma NcctIsNccsInTurn(b: Build, r: Regs)
    ensures Execute(b, NCCT, r) == InTurn(b, NCCS, r)
  {
    hide Lit, LimBsBits, LimC, PushColorBits, Tint;
  }

  /** NCDT is NCDS three times; NCDS saturates the first two results besides. */
  lemma NcdtIsNcdsInTurn(b: Build, r: Regs)
    ensures Execute(b, NCDT, r).d == InTurn(b, NCDS, r).d
    ensures Execute(b, NCDT, r).flag <= InTurn(b, NCDS, r).flag
    ensures InTurn(b, NCDS, r).flag == Execute(b, NCDT, r).flag +
      Kept(b, LimBsBits(CueLit(r.d.rgb, r.d.ir0, r.c, Lit(r.c, r.d.v0).ir).0, true) +
              LimBsBits(CueLit(r.d.rgb, r.d.ir0, r.c, Lit(r.c, r.d.v1).ir).0, true))
  {
    hide Lit, CueLit, LimBsBits, LimC, PushColorBits;
  }

  // ----- DPCT -----

  /** limB saturates this difference. */
  predicate Saturates(x: int) { Wrap32(x) > 0x7fff || Wrap32(x) < -0x8000 }

  function FarOf(r: Regs, k: int): Wide
  {
    FarFrom(if k == 0 then r.d.rgb0 else if k == 1 then r.d.rgb1 else r.d.rgb2, r.c.fc)
  }

  function CuedOf(r: Regs, k: int): V32
  {
    CuePlain(if k == 0 then r.d.rgb0 else if k == 1 then r.d.rgb1 else r.d.rgb2, r.d.ir0, FarOf(r, k))
  }

  /** One DPCS fed from the front of the FIFO. */
  lemma DpcsOnFront(b: Build, r: Regs)
    ensures var f := FarOf(r, 0); var m := CuedOf(r, 0);
      Execute(b, DPCS(true), WithFront(r)) ==
      Regs(PushColor(WithFront(r).d.(mac := m, ir := LimBs(m, false)), m), r.c,
        Kept(b, BlendBits(f) + LimBsBits(m, false) + PushColorBits(m)))
  {
    hide LimBs, LimBsBits, PushColorBits, LimC, Blend;
  }

  /** DPCT is DPCS (sf = 1) three times in its data registers; the bits of the three DPCS. */
  lemma DpctIsDpcsInTurn(b: Build, r: Regs)
    ensures Execute(b, DPCT, r).d == DpcsInTurn(b, r).d
    ensures DpcsInTurn(b, r).flag == Kept(b, TurnBits(r, 0) + TurnBits(r, 1) + TurnBits(r, 2))
  {
    hide CuePlain, FarFrom, LimBs, LimBsBits, PushColorBits, BlendBits, LimC;
    var r0 := Execute(b, DPCS(true), WithFront(r));
    var r1 := Execute(b, DPCS(true), WithFront(r0));
    DpcsOnFront(b, r);
    DpcsOnFront(b, r0);
    DpcsOnFront(b, r1);
  }

  /** The bits of the DPCS run on colour `k`. */
  function TurnBits(r: Regs, k: int): Bits
  {
    BlendBits(FarOf(r, k)) + LimBsBits(CuedOf(r, k), false) + PushColorBits(CuedOf(r, k))
  }

  /** Some green or blue difference of the three colours saturates. */
  predicate GreenOrBlueSaturates(r: Regs)
  {
    Saturates(FarOf(r, 0).y) || Saturates(FarOf(r, 0).z) || Saturates(FarOf(r, 1).y) || Saturates(FarOf(r, 1).z) ||
    Saturates(FarOf(r, 2).y) || Saturates(FarOf(r, 2).z)
  }

  /** Some red difference or red result saturates. */
  predicate RedSaturates(r: Regs)
  {
    Saturates(FarOf(r, 0).x) || Saturates(FarOf(r, 1).x) || Saturates(FarOf(r, 2).x) ||
    Saturates(CuedOf(r, 0).x) || Saturates(CuedOf(r, 1).x) || Saturates(CuedOf(r, 2).x)
  }

  /** The bits of color `k` that DPCT raises for green and blue. */
  function StrayBits(r: Regs, k: int): Bits
  {
    LimB1Bits(FarOf(r, k).ToMac().y, false) + LimB1Bits(FarOf(r, k).ToMac().z, false)
  }

  /** Bit 24 in the bits of one DPCS stands for red, and comes with bit 31. */
  lemma TurnBitsOfRed(r: Regs, k: int)
    ensures 24 in TurnBits(r, k) <==> Saturates(FarOf(r, k).x) || Saturates(CuedOf(r, k).x)
    ensures 24 in TurnBits(r, k) ==> 31 in TurnBits(r, k)
  {
    hide FarOf, CuedOf;
  }

  lemma StrayBitsOfGreenAndBlue(r: Regs, k: int)
    ensures StrayBits(r, k) == if Saturates(FarOf(r, k).y) || Saturates(FarOf(r, k).z) then {24, 31} else {}
  {
    hide FarOf;
  }

  /** The bits of DPCT, sorted into those that DPCS raises too and the stray ones. */
  lemma DpctBits(r: Regs)
    ensures var stray := StrayBits(r, 0) + StrayBits(r, 1) + StrayBits(r, 2);
      var turned := TurnBits(r, 0) + TurnBits(r, 1) + TurnBits(r, 2);
      forall b: Build :: !b.flagless ==> stray <= Execute(b, DPCT, r).flag <= turned + stray
  {
    hide FarOf, CuedOf, PushColorBits, A1, A2, A3, LimB1Bits, LimB2Bits, LimB3Bits;
    forall b: Build | !b.flagless
      ensures Execute(b, DPCT, r).flag ==
        FirstChannelBits(FarOf(r, 0)) + FirstChannelBits(FarOf(r, 1)) + FirstChannelBits(FarOf(r, 2)) +
        PushThreeBits(CuedOf(r, 0), CuedOf(r, 1), CuedOf(r, 2)) + LimBsBits(CuedOf(r, 2), false)
    {
      DpctFlag(b, r);
    }
  }

  lemma DpctFlag(b: Build, r: Regs)
    requires !b.flagless
    ensures Execute(b, DPCT, r).flag ==
        FirstChannelBits(FarOf(r, 0)) + FirstChannelBits(FarOf(r, 1)) + FirstChannelBits(FarOf(r, 2)) +
        PushThreeBits(CuedOf(r, 0), CuedOf(r, 1), CuedOf(r, 2)) + LimBsBits(CuedOf(r, 2), false)
  {
    hide CuePlain, FarFrom, FirstChannelBits, PushThreeBits, LimBsBits, LimBs, LimC;
  }

  /** DPCT clamps all three channels with limB1, DPCS each with its own.  So FLAG of DPCT is not
      always among the bits of the three DPCS: it is exactly when no green or blue difference
      saturates, or some red value does as well. */
  lemma DpctFlagContained(b: Build, r: Regs)
    requires !b.flagless
    ensures Execute(b, DPCT, r).flag <= DpcsInTurn(b, r).flag <==> (GreenOrBlueSaturates(r) ==> RedSaturates(r))
  {
    hide FarOf, CuedOf, TurnBits, StrayBits, Execute, DpcsInTurn, Saturates;
    DpctIsDpcsInTurn(b, r);
    DpctBits(r);
    TurnBitsOfRed(r, 0);
    TurnBitsOfRed(r, 1);
    TurnBitsOfRed(r, 2);
    StrayBitsOfGreenAndBlue(r, 0);
    StrayBitsOfGreenAndBlue(r, 1);
    StrayBitsOfGreenAndBlue(r, 2);
  }

  const BLACK := Color(0, 0, 0, 0)
  const ORIGIN := V16(0, 0, 0)
  const CORNER := XY(0, 0)

  /** All registers zero, but for a green far colour beyond 16 bits. */
  const FARGREEN: Regs :=
    Regs(Data(ORIGIN, ORIGIN, ORIGIN, BLACK, 0, 0, ORIGIN, CORNER, CORNER, CORNER, 0, 0, 0, 0, BLACK, BLACK, BLACK,
              0, ZERO32),
         Control(ZEROMAT, ZERO32, ZEROMAT, ZERO32, ZEROMAT, V32(0, 0x18000, 0), 0, 0, 0, 0, 0, 0, 0), {})

  /** A green far colour out of range is the only value of a black colour that saturates. */
  lemma GreenDifference(col: Color, ir0: s16, fc: V32)
    requires col.r == col.g == col.b == 0 && ir0 == 0 && fc.x == 0 && fc.y == 0x18000 && fc.z == 0
    ensures Saturates(FarFrom(col, fc).y) && !Saturates(FarFrom(col, fc).x)
    ensures !Saturates(CuePlain(col, ir0, FarFrom(col, fc)).x)
  {
    assert Mul(ir0, LimB(Wrap32(FarFrom(col, fc).x), false)) == 0;
    hide Mul, LimB;
  }

  lemma OnlyGreenSaturates(r: Regs)
    requires r.d.rgb0 == r.d.rgb1 == r.d.rgb2 && r.d.rgb0.r == r.d.rgb0.g == r.d.rgb0.b == 0
    requires r.d.ir0 == 0 && r.c.fc.x == 0 && r.c.fc.y == 0x18000 && r.c.fc.z == 0
    ensures GreenOrBlueSaturates(r) && !RedSaturates(r)
  {
    hide FarFrom, CuePlain, Saturates;
    GreenDifference(r.d.rgb0, r.d.ir0, r.c.fc);
  }

  /** And it does happen that it is not. */
  lemma DpctFlagNotAlwaysContained(divide: Divider)
    ensures var b := Build(false, divide); !(Execute(b, DPCT, FARGREEN).flag <= DpcsInTurn(b, FARGREEN).flag)
  {
    hide Execute, DpcsInTurn, GreenOrBlueSaturates, RedSaturates;
    OnlyGreenSaturates(FARGREEN);
    DpctFlagContained(Build(false, divide), FARGREEN);
  }

  // ----- the parts that the recompiler calls (gte.c:962-1082) -----

  /** gteGPL_part_shift and gteGPL_part_noshift: the product is shifted before it is added. */
  function GplPart(d: Data, sf: bool): Wide
  {
    var p := Scaled(d);
    Wide(d.mac.x + ShrSf(p.x, sf), d.mac.y + ShrSf(p.y, sf), d.mac.z + ShrSf(p.z, sf))
  }

  /** gteMACtoRGB after MAC has been saturated into IR. */
  function Finish(b: Build, r: Regs, w: Wide): Regs
  {
    var s := Saturated(w, false);
    Colored(b, r, s.mac, s.ir, s.bits)
  }

  /** GPL in parts is GPL, registers and FLAG. */
  lemma GplPartIsGpl(b: Build, r: Regs, sf: bool)
    ensures Finish(b, r, GplPart(r.d, sf)) == Execute(b, GPL(sf), r)
  {
    hide Saturated, Mul, Colored;
    var p := Scaled(r.d);
    var k := if sf then 4096 else 1;
    assert GplPart(r.d, sf) == Wide(r.d.mac.x * k + p.x, r.d.mac.y * k + p.y, r.d.mac.z * k + p.z).Shifted(sf);
  }

  lemma WrapIsPeriodic(x: int, k: int)
    ensures Wrap32(x + 0x100000000 * k) == Wrap32(x)
  {
  }

  /** gteDPCS_part_noshift converts to 32 bits before it shifts, DPCS after: modulo 2^32 it is the same. */
  lemma ShiftAfterConversion(x: int)
    ensures Wrap32(Wrap32(x) * 4096) == Wrap32(x * 4096)
  {
    var k := (x + 0x80000000) / 0x100000000;
    assert Wrap32(x) == x - 0x100000000 * k;
    hide Wrap32;
    WrapIsPeriodic(x * 4096, -4096 * k);
  }

  /** So the colour that DPCS in parts computes is the colour of DPCS. */
  lemma DpcsPartIsDpcs(col: Color, ir0: s16, fc: V32)
    ensures var far := FarFrom(col, fc);
      CuePlain(col, ir0, Wide(Wrap32(far.x) * 4096, Wrap32(far.y) * 4096, Wrap32(far.z) * 4096)) ==
      CuePlain(col, ir0, Wide(far.x * 4096, far.y * 4096, far.z * 4096))
  {
    hide Wrap32, Mul, LimB;
    var far := FarFrom(col, fc);
    ShiftAfterConversion(far.x);
    ShiftAfterConversion(far.y);
    ShiftAfterConversion(far.z);
  }
}
