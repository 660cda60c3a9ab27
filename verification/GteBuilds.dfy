/** The two builds of the geometry coprocessor (libpcsxcore/gte.c:171-244, gte_nf.c): a program that
    does not read FLAG cannot tell them apart, as long as the screen coordinates of RTPS and RTPT
    stay where the two conversions to 32 bits agree.
  */
module GteBuilds {
  import opened GteRegisters
  import opened GteOps

  // ----- int arithmetic -----

  predicate FitsInt(x: int) { -0x80000000 <= x < 0x80000000 }

  /** Every shape of int-typed subexpression in the operations, over arbitrary 16-bit registers and
      colour bytes: none overflows.  In order: a product; OP's difference of two; NCLIP's terms; a
      colour times IR; INTPL's blend; the blend of NCDS, NCDT and CDP; that of DPCS and DPCT;
      DCPL's; the depth sums of AVSZ3 and AVSZ4. */
  lemma IntSubexpressionsFit(p: s16, q: s16, s: s16, t: s16, col: u8, z0: u16, z1: u16, z2: u16, z3: u16)
    ensures FitsInt(p * q)
    ensures FitsInt(p * q - s * t)
    ensures FitsInt(p * (q - s))
    ensures FitsInt(col * p)
    ensures FitsInt(p * 4096 + q * s)
    ensures FitsInt(col * 16 * p + q * s)
    ensures FitsInt(col * 0x10000 + q * s)
    ensures FitsInt(col * p / 256 + q * s / 4096)
    ensures FitsInt(z1 + z2 + z3) && FitsInt(z0 + z1 + z2 + z3)
  {
    assert p * q == Mul(p, q) && s * t == Mul(s, t) && q * s == Mul(q, s);
    assert p * (q - s) == MulDifference(p, q, s) && col * p == MulByte(col, p);
    assert col * 16 * p == 16 * (col * p);
  }

  // ----- where the builds differ -----

  function Flagged(divide: Divider): Build { Build(false, divide) }

  function Flagless(divide: Divider): Build { Build(true, divide) }

  /** A screen-coordinate sum on which the builds agree: it fits 32 bits, or lies so far outside
      that it saturates the same way after wrapping round. */
  predicate SumAgrees(x: int)
  {
    FitsInt(x) || x >= 0x100000000 + 0x3ff0000 || x < -0x100000000 - 0x3ff0000
  }

  /** The screen-coordinate sums of a vertex. */
  function ScreenSums(divide: Divider, c: Control, v: V16): (int, int)
  {
    var vec := Saturated(Affine(c.rot, c.tr, v).Shifted(true), false);
    var q := LimE(divide(c.h, LimD(vec.mac.z)));
    (c.ofx + vec.ir.x * q, c.ofy + vec.ir.y * q)
  }

  predicate VertexAgrees(divide: Divider, c: Control, v: V16)
  {
    var (x, y) := ScreenSums(divide, c, v);
    SumAgrees(x) && SumAgrees(y)
  }

  /** The condition under which an operation leaves the same data registers in both builds. */
  predicate OpAgrees(divide: Divider, op: Op, r: Regs)
  {
    match op
    case RTPS => VertexAgrees(divide, r.c, r.d.v0)
    case RTPT => VertexAgrees(divide, r.c, r.d.v0) && VertexAgrees(divide, r.c, r.d.v1) &&
      VertexAgrees(divide, r.c, r.d.v2)
    case _ => true
  }

  lemma SumsAreBounded(divide: Divider, c: Control, v: V16)
    ensures var (x, y) := ScreenSums(divide, c, v);
      -0x180000000 <= x < 0x180000000 && -0x180000000 <= y < 0x180000000
  {
    var vec := Saturated(Affine(c.rot, c.tr, v).Shifted(true), false);
    var q := LimE(divide(c.h, LimD(vec.mac.z)));
    hide Saturated, LimE;
    ProductWithin(vec.ir.x, q, 0x8000, 0x1ffff);
    ProductWithin(vec.ir.y, q, 0x8000, 0x1ffff);
  }

  /** The condition is exact, coordinate by coordinate. */
  lemma SumAgreesExactly(divide: Divider, x: int)
    requires -0x180000000 <= x < 0x180000000
    ensures SumAgrees(x) <==> LimG(ScreenCoordinate(Flagged(divide), x)) == LimG(ScreenCoordinate(Flagless(divide), x))
  {
    if x >= 0x80000000 {
      assert Wrap32(x) == x - 0x100000000;
    } else if x < -0x80000000 {
      assert Wrap32(x) == x + 0x100000000;
    }
    assert Wrap32(x / 0x10000) == x / 0x10000;
  }

  /** Two projections of a vertex differ in the position at most, and do not exactly when its sums agree. */
  lemma ProjectionsAgree(divide: Divider, c: Control, v: V16)
    ensures var p, p' := Project(Flagged(divide), c, v), Project(Flagless(divide), c, v);
      p.vec == p'.vec && p.sz == p'.sz && p.quotient == p'.quotient &&
      (p.at == p'.at <==> VertexAgrees(divide, c, v))
  {
    var (x, y) := ScreenSums(divide, c, v);
    hide Saturated, Affine, LimE, LimD, ScreenCoordinate, LimG, SumAgrees, LimDBits, LimEBits, F, LimG1Bits, LimG2Bits;
    SumsAreBounded(divide, c, v);
    SumAgreesExactly(divide, x);
    SumAgreesExactly(divide, y);
  }

  lemma ScreenOperationsAgree(divide: Divider, r: Regs, r': Regs)
    requires r.d == r'.d && r.c == r'.c
    ensures Rtps(Flagged(divide), r).d == Rtps(Flagless(divide), r').d <==> OpAgrees(divide, RTPS, r)
    ensures Rtpt(Flagged(divide), r).d == Rtpt(Flagless(divide), r').d <==> OpAgrees(divide, RTPT, r)
  {
    hide Project, Cue, VertexAgrees, Kept;
    ProjectionsAgree(divide, r.c, r.d.v0);
    ProjectionsAgree(divide, r.c, r.d.v1);
    ProjectionsAgree(divide, r.c, r.d.v2);
  }

  /** The operations on colours never depend on the build. */
  lemma ColorOperationsAgree(b: Build, b': Build, op: Op, r: Regs, r': Regs)
    requires r.d == r'.d && r.c == r'.c
    requires op.NCS? || op.NCT? || op.NCCS? || op.NCCT? || op.NCDS? || op.NCDT? || op.CC? || op.CDP?
    ensures Execute(b, op, r).d == Execute(b', op, r').d
  {
    hide Lit, LightColor, CueLit, Tint, PushColor, PushThree, LimBs, PushColorBits, PushThreeBits, LimBsBits, Kept;
  }

  lemma BlendOperationsAgree(b: Build, b': Build, op: Op, r: Regs, r': Regs)
    requires r.d == r'.d && r.c == r'.c
    requires op.DCPL? || op.INTPL? || op.GPF? || op.GPL? || op.DPCS? || op.DPCT?
    ensures Execute(b, op, r).d == Execute(b', op, r').d
  {
    hide Tint, CuePlain, PushColor, PushThree, Saturated, Blend, LimBs, Mul, Shr12, ShrSf, PushColorBits, PushThreeBits,
      LimBsBits, LimB1Bits, BlendBits, FirstChannelBits, Kept, FarFrom, Scaled;
  }

  lemma VectorOperationsAgree(b: Build, b': Build, op: Op, r: Regs, r': Regs)
    requires r.d == r'.d && r.c == r'.c
    requires op.NCLIP? || op.AVSZ3? || op.AVSZ4? || op.MVMVA? || op.SQR? || op.OuterProduct?
    ensures Execute(b, op, r).d == Execute(b', op, r').d
  {
    hide Saturated, Affine, LimBs, Wrap32, Mul, MulDifference, Shr12, ShrSf, Cross, LimBsBits, LimD, LimDBits, F, Kept;
  }

  /** An operation leaves the same data registers in both builds if and only if its sums agree. */
  lemma OperationAgrees(divide: Divider, op: Op, r: Regs, r': Regs)
    requires r.d == r'.d && r.c == r'.c
    ensures Execute(Flagged(divide), op, r).d == Execute(Flagless(divide), op, r').d <==> OpAgrees(divide, op, r)
    ensures Execute(Flagged(divide), op, r).c == r.c && Execute(Flagless(divide), op, r').c == r'.c
  {
    var b, b' := Flagged(divide), Flagless(divide);
    ControlIsKept(b, op, r);
    ControlIsKept(b', op, r');
    hide Rtps, Rtpt, Ncs, Nct, Nccs, Ncct, Ncds, Ncdt, Cc, Cdp, Mvmva, Sqr, Outer, Intpl, Dcpl, Gpf, Gpl, Dpcs, Dpct,
      Nclip, Average;
    match op
    case RTPS => ScreenOperationsAgree(divide, r, r');
    case RTPT => ScreenOperationsAgree(divide, r, r');
    case NCLIP => VectorOperationsAgree(b, b', op, r, r');
    case AVSZ3 => VectorOperationsAgree(b, b', op, r, r');
    case AVSZ4 => VectorOperationsAgree(b, b', op, r, r');
    case MVMVA(_, _, _, _, _) => VectorOperationsAgree(b, b', op, r, r');
    case SQR(_, _) => VectorOperationsAgree(b, b', op, r, r');
    case OuterProduct(_, _) => VectorOperationsAgree(b, b', op, r, r');
    case DCPL(_) => BlendOperationsAgree(b, b', op, r, r');
    case INTPL(_, _) => BlendOperationsAgree(b, b', op, r, r');
    case GPF(_) => BlendOperationsAgree(b, b', op, r, r');
    case GPL(_) => BlendOperationsAgree(b, b', op, r, r');
    case DPCS(_) => BlendOperationsAgree(b, b', op, r, r');
    case DPCT => BlendOperationsAgree(b, b', op, r, r');
    case _ => ColorOperationsAgree(b, b', op, r, r');
  }

  lemma ControlIsKept(b: Build, op: Op, r: Regs)
    ensures Execute(b, op, r).c == r.c
  {
    hide Project, Cue, Lit, LightColor, CueLit, Tint, CuePlain, PushColor, PushThree, Saturated, Blend, Affine,
      LimBs, Wrap32, Mul, MulDifference, Shr12, ShrSf, Cross, LimBsBits, LimD, LimDBits, F, Kept, PushColorBits,
      PushThreeBits, BlendBits, FarFrom, Scaled;
  }

  // ----- whole programs -----

  /** What the processor does next: an operation, a register move (any function of the data and
      control registers), a write of FLAG, or a read of a word of the data or control registers. */
  datatype Step =
    | Do(op: Op)
    | Move(f: (Data, Control) -> (Data, Control))
    | WriteFlag(bits: Bits)
    | Read(g: (Data, Control) -> int)

  /** A program that never reads FLAG: its next step depends on the words it has read so far. */
  type Program = seq<int> -> Step

  /** The registers and the words read. */
  datatype Machine = Machine(r: Regs, seen: seq<int>)

  function After(b: Build, s: Step, m: Machine): Machine
  {
    match s
    case Do(op) => m.(r := Execute(b, op, m.r))
    case Move(f) => var (d, c) := f(m.r.d, m.r.c); m.(r := Regs(d, c, m.r.flag))
    case WriteFlag(bits) => m.(r := m.r.(flag := bits))
    case Read(g) => m.(seen := m.seen + [g(m.r.d, m.r.c)])
  }

  function Running(b: Build, program: Program, m: Machine, n: nat): Machine
  {
    if n == 0 then m else
      var before := Running(b, program, m, n - 1);
      After(b, program(before.seen), before)
  }

  /** Along the first `n` steps of the flagged build every operation meets its condition. */
  predicate StaysAgreed(divide: Divider, program: Program, m: Machine, n: nat)
  {
    n == 0 || (
      var before := Running(Flagged(divide), program, m, n - 1);
      StaysAgreed(divide, program, m, n - 1) &&
      (program(before.seen).Do? ==> OpAgrees(divide, program(before.seen).op, before.r)))
  }

  /** All a program can observe. */
  predicate SameButFlag(m: Machine, m': Machine)
  {
    m.r.d == m'.r.d && m.r.c == m'.r.c && m.seen == m'.seen
  }

  /** The FLAGLESS build refines the flagged one over whole programs: after every step the data and
      control registers, and every word read, are the same. */
  lemma {:induction false} BuildsAgreeOverPrograms(divide: Divider, program: Program, m: Machine, n: nat)
    requires StaysAgreed(divide, program, m, n)
    ensures forall k :: 0 <= k <= n ==>
      SameButFlag(Running(Flagged(divide), program, m, k), Running(Flagless(divide), program, m, k))
  {
    hide Execute, OpAgrees;
    if n > 0 {
      BuildsAgreeOverPrograms(divide, program, m, n - 1);
      var a, b := Running(Flagged(divide), program, m, n - 1), Running(Flagless(divide), program, m, n - 1);
      assert SameButFlag(a, b);
      var s := program(a.seen);
      if s.Do? {
        OperationAgrees(divide, s.op, a.r, b.r);
      }
    }
  }
}
