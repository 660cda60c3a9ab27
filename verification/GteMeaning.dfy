/** What the operations of the geometry coprocessor compute (libpcsxcore/gte.c:377-958), in terms of the
    registers they leave: MVMVA is the affine map of the matrix it names, the other operations on vectors
    are MVMVA followed by little more, NCLIP is an area and OP a cross product.  And what FLAG tells.
  */
module GteMeaning {
  import opened GteRegisters
  import opened GteOps

  // ----- registers by index -----

  function Entry(m: Mat, i: nat, j: nat): s16
  {
    if i == 0 then if j == 0 then m.m11 else if j == 1 then m.m12 else m.m13
    else if i == 1 then if j == 0 then m.m21 else if j == 1 then m.m22 else m.m23
    else if j == 0 then m.m31 else if j == 1 then m.m32 else m.m33
  }

  function At(v: V16, j: nat): s16 { if j == 0 then v.x else if j == 1 then v.y else v.z }

  function WideAt(v: V32, i: nat): s32 { if i == 0 then v.x else if i == 1 then v.y else v.z }

  /** Sum over j < n of m(i,j) * v(j). */
  function RowSum(m: Mat, v: V16, i: nat, n: nat): int
  {
    if n == 0 then 0 else RowSum(m, v, i, n - 1) + Entry(m, i, n - 1) * At(v, n - 1)
  }

  /** `y` is `x` held between `lo` and `hi`. */
  predicate Clamped(x: int, lo: int, hi: int, y: int)
  {
    if x < lo then y == lo else if x > hi then y == hi else y == x
  }

  /** The greatest integer not above x / 4096, or x itself. */
  predicate Shifted(x: int, sf: bool, y: int) { if sf then 4096 * y <= x < 4096 * (y + 1) else y == x }

  // ----- MVMVA -----

  /** The matrix, the vector and the translation of MVMVA by their numbers. */
  predicate Chosen(r: Regs, mx: nat, v: nat, cv: nat, m: Mat, w: V16, t: V32)
  {
    (mx == 0 ==> m == r.c.rot) && (mx == 1 ==> m == r.c.light) && (mx == 2 ==> m == r.c.lcol) &&
    (mx > 2 ==> m == ZEROMAT) &&
    (v == 0 ==> w == r.d.v0) && (v == 1 ==> w == r.d.v1) && (v == 2 ==> w == r.d.v2) && (v > 2 ==> w == r.d.ir) &&
    (cv == 0 ==> t == r.c.tr) && (cv == 1 ==> t == r.c.bk) && (cv == 2 ==> t == r.c.fc) &&
    (cv > 2 ==> t == ZERO32)
  }

  lemma ChoiceIsUnique(r: Regs, mx: nat, v: nat, cv: nat, m: Mat, w: V16, t: V32)
    requires Chosen(r, mx, v, cv, m, w, t)
    ensures m == Matrix(r.c, mx) && w == Operand(r.d, v) && t == Translation(r.c, cv)
  {
  }

  function WideSum(w: Wide, i: nat): int { if i == 0 then w.x else if i == 1 then w.y else w.z }

  lemma AffineAt(m: Mat, t: V32, v: V16, i: nat)
    requires i < 3
    ensures WideSum(Affine(m, t, v), i) == Row(m, t, v, i)
  {
    RowSumOfThree(m, v, i);
    hide RowSum;
  }

  lemma RowSumOfThree(m: Mat, v: V16, i: nat)
    ensures RowSum(m, v, i, 3) == Entry(m, i, 0) * v.x + Entry(m, i, 1) * v.y + Entry(m, i, 2) * v.z
  {
    hide Entry;
    assert RowSum(m, v, i, 1) == Entry(m, i, 0) * v.x;
    assert RowSum(m, v, i, 2) == RowSum(m, v, i, 1) + Entry(m, i, 1) * v.y;
  }

  lemma SaturatedAt(w: Wide, lm: bool, i: nat)
    requires i < 3
    ensures var v := Saturated(w, lm);
      WideAt(v.mac, i) == Wrap32(WideSum(w, i)) &&
      Clamped(WideAt(v.mac, i), if lm then 0 else -0x8000, 0x7fff, At(v.ir, i))
  {
    hide Wrap32, Lim;
  }

  /** Component `i` of MAC is the affine map, shifted and cut to 32 bits; IR is MAC held to 16 bits. */
  lemma MvmvaIsTheAffineMap(b: Build, r: Regs, sf: bool, mx: nat, v: nat, cv: nat, lm: bool, m: Mat, w: V16, t: V32,
      i: nat, x: int)
    requires Chosen(r, mx, v, cv, m, w, t) && i < 3
    requires Shifted(Row(m, t, w, i), sf, x)
    ensures var d := Execute(b, MVMVA(sf, mx, v, cv, lm), r).d;
      WideAt(d.mac, i) == Wrap32(x) && Clamped(WideAt(d.mac, i), if lm then 0 else -0x8000, 0x7fff, At(d.ir, i)) &&
      d == r.d.(mac := d.mac, ir := d.ir)
  {
    MvmvaVector(b, r, sf, mx, v, cv, lm, m, w, t);
    AffineAt(m, t, w, i);
    hide Execute, Wrap32, Affine, RowSum, Chosen, Saturated;
    var a := Affine(m, t, w);
    assert WideSum(a.Shifted(sf), i) == x;
    SaturatedAt(a.Shifted(sf), lm, i);
  }

  lemma MvmvaVector(b: Build, r: Regs, sf: bool, mx: nat, v: nat, cv: nat, lm: bool, m: Mat, w: V16, t: V32)
    requires Chosen(r, mx, v, cv, m, w, t)
    ensures var s := Saturated(Affine(m, t, w).Shifted(sf), lm);
      Execute(b, MVMVA(sf, mx, v, cv, lm), r) == Regs(r.d.(mac := s.mac, ir := s.ir), r.c, Kept(b, s.bits))
  {
    ChoiceIsUnique(r, mx, v, cv, m, w, t);
    hide Affine, Chosen, Matrix, Operand, Translation, Saturated, Kept;
  }

  predicate IsUnit(v: V16, j: nat)
  {
    v == if j == 0 then V16(1, 0, 0) else if j == 1 then V16(0, 1, 0) else V16(0, 0, 1)
  }

  /** The unit vector along axis `j` gives column `j` of the matrix. */
  lemma UnitVectorGivesColumn(b: Build, r: Regs, mx: nat, v: nat, lm: bool, m: Mat, w: V16, i: nat, j: nat)
    requires Chosen(r, mx, v, 3, m, w, ZERO32) && i < 3 && j < 3 && IsUnit(w, j)
    ensures WideAt(Execute(b, MVMVA(false, mx, v, 3, lm), r).d.mac, i) == Entry(m, i, j)
  {
    RowSumOfThree(m, w, i);
    hide Execute, Wrap32, RowSum;
    MvmvaIsTheAffineMap(b, r, false, mx, v, 3, lm, m, w, ZERO32, i, Entry(m, i, j));
  }

  /** The zero vector gives the translation. */
  lemma ZeroVectorGivesTranslation(b: Build, r: Regs, mx: nat, v: nat, cv: nat, lm: bool, m: Mat, t: V32, i: nat)
    requires Chosen(r, mx, v, cv, m, V16(0, 0, 0), t) && i < 3
    ensures WideAt(Execute(b, MVMVA(true, mx, v, cv, lm), r).d.mac, i) == WideAt(t, i)
  {
    RowSumOfThree(m, V16(0, 0, 0), i);
    hide Execute, RowSum;
    MvmvaIsTheAffineMap(b, r, true, mx, v, cv, lm, m, V16(0, 0, 0), t, i, WideAt(t, i));
  }

  /** x + y == z + t in 32-bit arithmetic. */
  predicate Balanced(x: int, y: int, z: int, t: int) { (x + y - z - t) % 0x1_0000_0000 == 0 }

  lemma WrappedSum(x: int, y: int, z: int, t: int)
    requires x + y == z + t
    ensures Balanced(Wrap32(x), Wrap32(y), Wrap32(z), Wrap32(t))
  {
    var k := WrapsOf(z) + WrapsOf(t) - WrapsOf(x) - WrapsOf(y);
    hide Wrap32;
    assert Wrap32(x) + Wrap32(y) - Wrap32(z) - Wrap32(t) == k * 0x1_0000_0000;
  }

  function WrapsOf(x: int): (k: int)
    ensures Wrap32(x) == x - k * 0x1_0000_0000
  {
    (x + 0x80000000) / 0x1_0000_0000
  }

  /** V0 put into the registers. */
  function WithV(r: Regs, v: V16): Regs { r.(d := r.d.(v0 := v)) }

  /** MAC(i) after the unshifted map of V0 = `v`. */
  function Unshifted(b: Build, r: Regs, mx: nat, cv: nat, lm: bool, v: V16, i: nat): s32
  {
    WideAt(Execute(b, MVMVA(false, mx, 0, cv, lm), WithV(r, v)).d.mac, i)
  }

  lemma UnshiftedIsWrapped(b: Build, r: Regs, mx: nat, cv: nat, lm: bool, m: Mat, t: V32, v: V16, i: nat)
    requires Chosen(r, mx, 0, cv, m, r.d.v0, t) && i < 3
    ensures Unshifted(b, r, mx, cv, lm, v, i) == Wrap32(Row(m, t, v, i))
  {
    hide Wrap32, Execute, RowSum;
    MvmvaIsTheAffineMap(b, WithV(r, v), false, mx, 0, cv, lm, m, v, t, i, Row(m, t, v, i));
  }

  /** Unshifted, the map is affine in the vector, in the arithmetic of the 32-bit registers. */
  lemma MvmvaIsAffine(b: Build, r: Regs, mx: nat, cv: nat, lm: bool, m: Mat, t: V32, u: V16, v: V16, w: V16, i: nat)
    requires Chosen(r, mx, 0, cv, m, r.d.v0, t) && i < 3
    requires w.x == u.x + v.x && w.y == u.y + v.y && w.z == u.z + v.z
    ensures Balanced(Unshifted(b, r, mx, cv, lm, u, i), Unshifted(b, r, mx, cv, lm, v, i),
                     Unshifted(b, r, mx, cv, lm, w, i), Unshifted(b, r, mx, cv, lm, V16(0, 0, 0), i))
  {
    var o := V16(0, 0, 0);
    RowsBalance(m, t, u, v, w, i);
    UnshiftedIsWrapped(b, r, mx, cv, lm, m, t, u, i);
    UnshiftedIsWrapped(b, r, mx, cv, lm, m, t, v, i);
    UnshiftedIsWrapped(b, r, mx, cv, lm, m, t, w, i);
    UnshiftedIsWrapped(b, r, mx, cv, lm, m, t, o, i);
    hide *;
    WrappedSum(Row(m, t, u, i), Row(m, t, v, i), Row(m, t, w, i), Row(m, t, o, i));
  }

  /** Row `i` of the affine map. */
  function Row(m: Mat, t: V32, v: V16, i: nat): int { 4096 * WideAt(t, i) + RowSum(m, v, i, 3) }

  lemma RowsBalance(m: Mat, t: V32, u: V16, v: V16, w: V16, i: nat)
    requires i < 3 && w.x == u.x + v.x && w.y == u.y + v.y && w.z == u.z + v.z
    ensures Row(m, t, u, i) + Row(m, t, v, i) == Row(m, t, w, i) + Row(m, t, V16(0, 0, 0), i)
  {
    SumOfRows(m, u, v, w, i);
    ZeroRow(m, i);
    hide RowSum;
  }

  lemma Distributes(a: int, x: int, y: int)
    ensures a * (x + y) == a * x + a * y
  {
  }

  lemma ZeroRow(m: Mat, i: nat)
    ensures RowSum(m, V16(0, 0, 0), i, 3) == 0
  {
    RowSumOfThree(m, V16(0, 0, 0), i);
  }

  lemma SumOfRows(m: Mat, u: V16, v: V16, w: V16, i: nat)
    requires i < 3 && w.x == u.x + v.x && w.y == u.y + v.y && w.z == u.z + v.z
    ensures RowSum(m, w, i, 3) == RowSum(m, u, i, 3) + RowSum(m, v, i, 3)
  {
    RowSumOfThree(m, u, i);
    RowSumOfThree(m, v, i);
    RowSumOfThree(m, w, i);
    hide RowSum, Entry;
    Distributes(Entry(m, i, 0), u.x, v.x);
    Distributes(Entry(m, i, 1), u.y, v.y);
    Distributes(Entry(m, i, 2), u.z, v.z);
  }

  // ----- perspective -----

  /** A screen coordinate: the sum, if it fits 32 bits, over 65536 and held to the screen. */
  predicate OnScreen(sum: int, s: int)
  {
    -0x80000000 <= sum < 0x80000000 ==> Clamped(sum / 0x10000, -0x400, 0x3ff, s)
  }

  /** RTPS is MVMVA of rotation, V0 and translation; the depth is its third component, the position what the
      quotient of screen distance and depth makes of the other two, and IR0 what it makes of the cueing. */
  lemma RtpsProjects(b: Build, r: Regs, q: int)
    requires var z := Execute(b, RTPS, r).d.sz3; Clamped(b.divide(r.c.h, z), 0, 0x1ffff, q)
    ensures var d, p := Execute(b, RTPS, r).d, Execute(b, MVMVA(true, 0, 0, 0, false), r).d;
      d.mac == p.mac && d.ir == p.ir && Clamped(d.mac.z, 0, 0xffff, d.sz3) &&
      OnScreen(r.c.ofx + d.ir.x * q, d.sxy2.x) && OnScreen(r.c.ofy + d.ir.y * q, d.sxy2.y) &&
      d.mac0 == Wrap32(r.c.dqb + r.c.dqa * q) && Clamped(d.mac0 / 4096, 0, 0x1000, d.ir0)
    ensures var d := Execute(b, RTPS, r).d;
      d.sz0 == r.d.sz1 && d.sz1 == r.d.sz2 && d.sz2 == r.d.sz3 && d.sxy0 == r.d.sxy1 && d.sxy1 == r.d.sxy2
  {
    hide Affine, Saturated, Wide.Shifted, LimDBits, LimEBits, F, LimG1Bits, LimG2Bits, LimHBits, Kept;
    var p := Project(b, r.c, r.d.v0);
    assert q == p.quotient;
    ScreenFits(b, r.c.ofx + p.vec.ir.x * q);
    ScreenFits(b, r.c.ofy + p.vec.ir.y * q);
    hide Wrap32, ScreenCoordinate;
  }

  lemma ScreenFits(b: Build, sum: int)
    ensures OnScreen(sum, LimG(ScreenCoordinate(b, sum)))
  {
  }

  // ----- light -----

  /** The colour FIFO takes MAC / 16, each channel held to a byte, and the code of RGB. */
  predicate Pushed(d: Data, e: Data)
  {
    e.rgb0 == d.rgb1 && e.rgb1 == d.rgb2 && e.rgb2.code == d.rgb.code && Clamped(e.mac.x / 16, 0, 0xff, e.rgb2.r) &&
    Clamped(e.mac.y / 16, 0, 0xff, e.rgb2.g) && Clamped(e.mac.z / 16, 0, 0xff, e.rgb2.b)
  }

  /** Light colour matrix times IR, plus the background. */
  const LIGHTCOLOR := MVMVA(true, 2, 3, 1, true)

  /** Light matrix times V0. */
  const LIGHTNORMAL := MVMVA(true, 1, 0, 3, true)

  lemma LightIsAProduct(b: Build, r: Regs)
    ensures var l, d := LightColor(r.c, r.d.ir), Execute(b, LIGHTCOLOR, r).d; l.mac == d.mac && l.ir == d.ir
    ensures var l, d := LightNormal(r.c, r.d.v0), Execute(b, LIGHTNORMAL, r).d; l.mac == d.mac && l.ir == d.ir
  {
    hide Dot, Wrap32, LimBs, LimBsBits, Kept, A1, A2, A3;
  }

  lemma PushesFifo(d: Data, m: V32, ir: V16)
    ensures var e := PushColor(d.(mac := m, ir := ir), m); Pushed(d, e) && e.mac == m && e.ir == ir
  {
  }

  /** NCS lights V0: two products in turn, the second on what the first left in IR. */
  lemma NcsIsTwoProducts(b: Build, r: Regs)
    ensures var d, l := Execute(b, NCS, r).d, Execute(b, LIGHTCOLOR, Execute(b, LIGHTNORMAL, r)).d;
      d.mac == l.mac && d.ir == l.ir && Pushed(r.d, d)
  {
    var first := Execute(b, LIGHTNORMAL, r);
    LightIsAProduct(b, r);
    LightIsAProduct(b, first);
    NcsPushesLight(b, r);
    MvmvaKeepsControl(b, r);
    var l := Lit(r.c, r.d.v0);
    var k := LightColor(r.c, LightNormal(r.c, r.d.v0).ir);
    assert l.mac == k.mac && l.ir == k.ir;
    PushesFifo(r.d, l.mac, l.ir);
    hide *;
  }

  lemma MvmvaKeepsControl(b: Build, r: Regs)
    ensures Execute(b, LIGHTNORMAL, r).c == r.c
  {
    hide Affine, Saturated;
  }

  lemma NcsPushesLight(b: Build, r: Regs)
    ensures var l := Lit(r.c, r.d.v0); Execute(b, NCS, r).d == PushColor(r.d.(mac := l.mac, ir := l.ir), l.mac)
  {
    hide Lit, PushColor, PushColorBits, LimBsBits;
  }

  /** One channel of a tint: a colour byte times an IR, over 256. */
  predicate IsTint(c: u8, ir: s16, m: int) { 256 * m <= c * ir < 256 * (m + 1) }

  predicate Tints(col: Color, l: V16, m: V32)
  {
    IsTint(col.r, l.x, m.x) && IsTint(col.g, l.y, m.y) && IsTint(col.b, l.z, m.z)
  }

  /** NCCS tints RGB with the light of NCS; CC with the product of IR. */
  lemma NccsTintsTheLight(b: Build, r: Regs)
    ensures var d := Execute(b, NCCS, r).d;
      Tints(r.d.rgb, Execute(b, NCS, r).d.ir, d.mac) && d.ir == V16(d.mac.x, d.mac.y, d.mac.z) && Pushed(r.d, d)
  {
    var t := Tint(r.d.rgb, Lit(r.c, r.d.v0).ir);
    TintIsTint(r.d.rgb, Lit(r.c, r.d.v0).ir);
    PushesFifo(r.d, t, V16(t.x, t.y, t.z));
    NcsPushesLight(b, r);
    var l := Lit(r.c, r.d.v0);
    PushesFifo(r.d, l.mac, l.ir);
    hide Lit, PushColor, Pushed, PushColorBits, LimBsBits, Kept, Tint, Tints;
  }

  lemma TintIsTint(col: Color, ir: V16)
    ensures Tints(col, ir, Tint(col, ir))
  {
  }

  lemma CcTintsTheProduct(b: Build, r: Regs)
    ensures var d := Execute(b, CC, r).d;
      Tints(r.d.rgb, Execute(b, LIGHTCOLOR, r).d.ir, d.mac) && d.ir == V16(d.mac.x, d.mac.y, d.mac.z) && Pushed(r.d, d)
  {
    var l := LightColor(r.c, r.d.ir);
    LightIsAProduct(b, r);
    var t := Tint(r.d.rgb, l.ir);
    TintIsTint(r.d.rgb, l.ir);
    PushesFifo(r.d, t, LimBs(t, true));
    LightIsNotNegative(r.c, r.d.ir);
    TintOfLight(r.d.rgb, l.ir);
    hide LightColor, PushColor, Pushed, PushColorBits, LimBsBits, Kept, Tint, Tints, LimBs;
  }

  lemma LightIsNotNegative(c: Control, ir: V16)
    ensures var l := LightColor(c, ir).ir; l.x >= 0 && l.y >= 0 && l.z >= 0
  {
    hide Affine, Wrap32;
  }

  lemma TintOfLight(col: Color, ir: V16)
    requires ir.x >= 0 && ir.y >= 0 && ir.z >= 0
    ensures var t := Tint(col, ir); LimBs(t, true) == V16(t.x, t.y, t.z)
  {
    ChannelOfLight(col.r, ir.x);
    ChannelOfLight(col.g, ir.y);
    ChannelOfLight(col.b, ir.z);
    hide MulByte;
  }

  lemma ChannelOfLight(c: u8, x: s16)
    requires x >= 0
    ensures 0 <= MulByte(c, x) / 256 <= 0x7fff
  {
    assert c * x >= 0;
  }

  // ----- blending towards the far colour -----

  /** `m` is (base + ir0 * far) shifted, where far is held to 16 bits first. */
  ghost predicate IsBlend(base: int, ir0: s16, far: int, sf: bool, m: int)
  {
    forall f: s16 :: Clamped(Wrap32(far), -0x8000, 0x7fff, f) ==> Shifted(base + ir0 * f, sf, m)
  }

  lemma BlendIsBlend(base: int, ir0: s16, far: int, sf: bool)
    requires -0x10000000 <= base <= 0x10000000
    ensures IsBlend(base, ir0, far, sf, ShrSf(Blend(base, ir0, far), sf))
  {
    var f := LimB(Wrap32(far), false);
    assert Blend(base, ir0, far) == base + ir0 * f;
    hide Wrap32, Blend;
    assert forall g: s16 :: Clamped(Wrap32(far), -0x8000, 0x7fff, g) ==> g == f;
  }

  /** With IR0 zero a blend is its base, and with IR0 one (4096) it is base and far together, unless far is
      out of range: the two ends of depth cueing. */
  lemma EndsOfBlend(base: int, ir0: s16, far: int, m: int)
    requires IsBlend(base, ir0, far, true, m)
    ensures ir0 == 0 ==> m == base / 4096
    ensures ir0 == 4096 && -0x8000 <= far <= 0x7fff ==> m == base / 4096 + far
  {
    var f := LimB(Wrap32(far), false);
    assert Clamped(Wrap32(far), -0x8000, 0x7fff, f);
    hide Wrap32, Clamped;
  }

  /** A lit colour blended towards the far colour: base and difference of one channel. */
  ghost predicate IsLitBlend(c: u8, l: s16, ir0: s16, fc: s32, m: int)
  {
    forall t: int :: IsTint(c, l, t) ==> IsBlend(16 * c * l, ir0, fc - t, true, m)
  }

  ghost predicate LitBlends(r: Regs, l: V16, m: V32)
  {
    IsLitBlend(r.d.rgb.r, l.x, r.d.ir0, r.c.fc.x, m.x) && IsLitBlend(r.d.rgb.g, l.y, r.d.ir0, r.c.fc.y, m.y) &&
    IsLitBlend(r.d.rgb.b, l.z, r.d.ir0, r.c.fc.z, m.z)
  }

  predicate Held(m: V32, lm: bool, ir: V16)
  {
    var lo := if lm then 0 else -0x8000;
    Clamped(m.x, lo, 0x7fff, ir.x) && Clamped(m.y, lo, 0x7fff, ir.y) && Clamped(m.z, lo, 0x7fff, ir.z)
  }

  lemma LimBsHolds(m: V32, lm: bool)
    ensures Held(m, lm, LimBs(m, lm))
  {
    hide Lim;
  }

  lemma CueLitBlends(r: Regs, l: V16)
    ensures LitBlends(r, l, CueLit(r.d.rgb, r.d.ir0, r.c, l).0)
  {
    var t := Tint(r.d.rgb, l);
    LitChannel(r.d.rgb.r, l.x, r.d.ir0, r.c.fc.x);
    LitChannel(r.d.rgb.g, l.y, r.d.ir0, r.c.fc.y);
    LitChannel(r.d.rgb.b, l.z, r.d.ir0, r.c.fc.z);
    hide Blend, IsLitBlend, MulByte, BlendBits;
  }

  lemma LitChannel(c: u8, l: s16, ir0: s16, fc: s32)
    ensures IsLitBlend(c, l, ir0, fc, Blend(MulByte(c, l) * 16, ir0, fc - MulByte(c, l) / 256) / 4096)
  {
    var t := MulByte(c, l) / 256;
    BlendIsBlend(MulByte(c, l) * 16, ir0, fc - t, true);
    assert 16 * c * l == MulByte(c, l) * 16;
    hide Blend, IsBlend;
  }

  /** NCDS blends RGB tinted by the light of NCS towards the far colour; CDP by the product of IR. */
  lemma NcdsCuesTheLight(b: Build, r: Regs)
    ensures var d := Execute(b, NCDS, r).d;
      LitBlends(r, Execute(b, NCS, r).d.ir, d.mac) && Held(d.mac, true, d.ir) && Pushed(r.d, d)
  {
    var l := Lit(r.c, r.d.v0).ir;
    var m := CueLit(r.d.rgb, r.d.ir0, r.c, l).0;
    CueLitBlends(r, l);
    LimBsHolds(m, true);
    PushesFifo(r.d, m, LimBs(m, true));
    PushesFifo(r.d, Lit(r.c, r.d.v0).mac, l);
    hide Lit, PushColor, Pushed, PushColorBits, LimBsBits, Kept, CueLit, LimBs, Held, LitBlends;
  }

  lemma CdpCuesTheProduct(b: Build, r: Regs)
    ensures var d := Execute(b, CDP, r).d;
      LitBlends(r, Execute(b, LIGHTCOLOR, r).d.ir, d.mac) && Held(d.mac, true, d.ir) && Pushed(r.d, d)
  {
    LightIsAProduct(b, r);
    var l := LightColor(r.c, r.d.ir).ir;
    var m := CueLit(r.d.rgb, r.d.ir0, r.c, l).0;
    CueLitBlends(r, l);
    LimBsHolds(m, true);
    PushesFifo(r.d, m, LimBs(m, true));
    hide LightColor, PushColor, Pushed, PushColorBits, LimBsBits, Kept, CueLit, LimBs, Held, LitBlends;
  }

  /** Each channel of `m` is a blend. */
  ghost predicate Blends(base: Wide, ir0: s16, far: Wide, sf: bool, m: V32)
  {
    IsBlend(base.x, ir0, far.x, sf, m.x) && IsBlend(base.y, ir0, far.y, sf, m.y) && IsBlend(base.z, ir0, far.z, sf, m.z)
  }

  /** DPCS blends RGB itself, and the difference is shifted if the sum is not. */
  lemma DpcsCuesTheColor(b: Build, r: Regs, sf: bool)
    ensures var d, k, c, fc := Execute(b, DPCS(sf), r).d, if sf then 1 else 4096, r.d.rgb, r.c.fc;
      Blends(Wide(0x10000 * c.r, 0x10000 * c.g, 0x10000 * c.b), r.d.ir0,
             Wide((fc.x - 16 * c.r) * k, (fc.y - 16 * c.g) * k, (fc.z - 16 * c.b) * k), true, d.mac) &&
      Held(d.mac, false, d.ir) && Pushed(r.d, d)
  {
    var far := FarFrom(r.d.rgb, r.c.fc);
    var f := if sf then far else Wide(far.x * 4096, far.y * 4096, far.z * 4096);
    var m := CuePlain(r.d.rgb, r.d.ir0, f);
    PlainBlends(r.d.rgb, r.d.ir0, f);
    LimBsHolds(m, false);
    PushesFifo(r.d, m, LimBs(m, false));
    hide PushColor, Pushed, PushColorBits, LimBsBits, Kept, LimBs, Held, Blends, CuePlain, BlendBits;
  }

  lemma PlainBlends(c: Color, ir0: s16, far: Wide)
    ensures Blends(Wide(0x10000 * c.r, 0x10000 * c.g, 0x10000 * c.b), ir0, far, true, CuePlain(c, ir0, far))
  {
    BlendIsBlend(c.r * 0x10000, ir0, far.x, true);
    BlendIsBlend(c.g * 0x10000, ir0, far.y, true);
    BlendIsBlend(c.b * 0x10000, ir0, far.z, true);
    hide Blend, IsBlend;
  }

  /** INTPL blends IR. */
  lemma IntplBlendsIr(b: Build, r: Regs, sf: bool, lm: bool)
    ensures var d, i, fc := Execute(b, INTPL(sf, lm), r).d, r.d.ir, r.c.fc;
      Blends(Wide(4096 * i.x, 4096 * i.y, 4096 * i.z), r.d.ir0, Wide(fc.x - i.x, fc.y - i.y, fc.z - i.z), sf, d.mac) &&
      Held(d.mac, lm, d.ir) && Pushed(r.d, d)
  {
    var m := IntplMac(r.d, r.c.fc, sf);
    IntplBlends(r.d, r.c.fc, sf);
    LimBsHolds(m, lm);
    PushesFifo(r.d, m, LimBs(m, lm));
    hide PushColor, Pushed, PushColorBits, LimBsBits, Kept, LimBs, Held, Blends, IntplMac, BlendBits;
  }

  lemma IntplBlends(d: Data, fc: V32, sf: bool)
    ensures var i := d.ir;
      Blends(Wide(4096 * i.x, 4096 * i.y, 4096 * i.z), d.ir0, Wide(fc.x - i.x, fc.y - i.y, fc.z - i.z), sf,
             IntplMac(d, fc, sf))
  {
    BlendIsBlend(d.ir.x * 4096, d.ir0, fc.x - d.ir.x, sf);
    BlendIsBlend(d.ir.y * 4096, d.ir0, fc.y - d.ir.y, sf);
    BlendIsBlend(d.ir.z * 4096, d.ir0, fc.z - d.ir.z, sf);
    hide Blend, IsBlend, ShrSf;
  }

  /** DCPL blends RGB tinted by IR. */
  lemma DcplBlendsTheTint(b: Build, r: Regs, lm: bool, t: V32)
    requires Tints(r.d.rgb, r.d.ir, t)
    ensures var d, fc := Execute(b, DCPL(lm), r).d, r.c.fc;
      Blends(Wide(4096 * t.x, 4096 * t.y, 4096 * t.z), r.d.ir0, Wide(fc.x - t.x, fc.y - t.y, fc.z - t.z), true,
             d.mac) &&
      Held(d.mac, lm, d.ir) && Pushed(r.d, d)
  {
    var m := DcplMac(r.d, r.c.fc);
    TintIsUnique(r.d.rgb, r.d.ir, t);
    DcplBlends(r.d, r.c.fc);
    LimBsHolds(m, lm);
    PushesFifo(r.d, m, LimBs(m, lm));
    hide PushColor, Pushed, PushColorBits, LimBsBits, Kept, LimBs, Held, Blends, DcplMac, FirstChannelBits, Tints;
  }

  lemma TintIsUnique(col: Color, ir: V16, t: V32)
    requires Tints(col, ir, t)
    ensures t == Tint(col, ir)
  {
    TintIsTint(col, ir);
    hide Tint;
  }

  lemma DcplBlends(d: Data, fc: V32)
    ensures var t := Tint(d.rgb, d.ir);
      Blends(Wide(4096 * t.x, 4096 * t.y, 4096 * t.z), d.ir0, Wide(fc.x - t.x, fc.y - t.y, fc.z - t.z), true,
             DcplMac(d, fc))
  {
    var t := Tint(d.rgb, d.ir);
    TintedBlend(t.x, d.ir0, fc.x - t.x);
    TintedBlend(t.y, d.ir0, fc.y - t.y);
    TintedBlend(t.z, d.ir0, fc.z - t.z);
    hide Blend, IsBlend, Shr12, Tint;
  }

  lemma TintedBlend(t: int, ir0: s16, far: int)
    ensures IsBlend(4096 * t, ir0, far, true, t + Shr12(Blend(0, ir0, far)))
  {
    BlendIsBlend(0, ir0, far, true);
    hide Wrap32, Blend, Clamped;
  }

  // ----- the remaining products -----

  /** The rotation matrix replaced by a diagonal one. */
  function WithDiagonal(r: Regs, x: s16, y: s16, z: s16): Regs
  {
    r.(c := r.c.(rot := Mat(x, 0, 0, 0, y, 0, 0, 0, z)))
  }

  lemma DiagonalProduct(v: V16, x: s16, y: s16, z: s16)
    ensures Affine(Mat(x, 0, 0, 0, y, 0, 0, 0, z), ZERO32, v) == Wide(Mul(x, v.x), Mul(y, v.y), Mul(z, v.z))
  {
    assert Mul(0, v.x) == Mul(0, v.y) == Mul(0, v.z) == 0;
    hide Mul;
  }

  lemma ProductFits(v: V16, x: s16, y: s16, z: s16, sf: bool)
    ensures Wide(Mul(x, v.x), Mul(y, v.y), Mul(z, v.z)).Shifted(sf).ToMac() ==
      V32(ShrSf(Mul(x, v.x), sf), ShrSf(Mul(y, v.y), sf), ShrSf(Mul(z, v.z), sf))
    ensures Wide(Mul(x, v.x), Mul(y, v.y), Mul(z, v.z)).Shifted(sf).Bits() == {}
  {
    hide Mul, Wrap32;
  }

  function GpfMac(d: Data, sf: bool): V32
  {
    V32(ShrSf(Mul(d.ir0, d.ir.x), sf), ShrSf(Mul(d.ir0, d.ir.y), sf), ShrSf(Mul(d.ir0, d.ir.z), sf))
  }

  /** GPF is the product of IR with a diagonal matrix of IR0 three times. */
  lemma GpfIsAProduct(b: Build, r: Regs, sf: bool)
    ensures var d, i0 := Execute(b, GPF(sf), r).d, r.d.ir0;
      var p := Execute(b, MVMVA(sf, 0, 3, 3, false), WithDiagonal(r, i0, i0, i0)).d;
      d.mac == p.mac && d.ir == p.ir && Pushed(r.d, d)
  {
    var i0 := r.d.ir0;
    DiagonalProduct(r.d.ir, i0, i0, i0);
    ProductFits(r.d.ir, i0, i0, i0, sf);
    var m := GpfMac(r.d, sf);
    PushesFifo(r.d, m, LimBs(m, false));
    hide Pushed, PushColor, LimBs, LimBsBits, Kept, PushColorBits, Wide.Bits, Mul, Affine, ShrSf, Wide.Shifted,
      Wide.ToMac;
  }

  /** SQR is the product of IR with a diagonal matrix of IR itself. */
  lemma SqrIsAProduct(b: Build, r: Regs, sf: bool, lm: bool)
    ensures var i := r.d.ir;
      Execute(b, SQR(sf, lm), r).d == Execute(b, MVMVA(sf, 0, 3, 3, lm), WithDiagonal(r, i.x, i.y, i.z)).d
  {
    var i := r.d.ir;
    DiagonalProduct(i, i.x, i.y, i.z);
    ProductFits(i, i.x, i.y, i.z, sf);
    hide LimBs, LimBsBits, Kept, Wide.Bits, Mul, Affine, ShrSf, Wide.Shifted, Wide.ToMac;
  }

  /** GPL adds the MAC of GPF to MAC, in the arithmetic of the 32-bit registers. */
  lemma GplAddsGpf(b: Build, r: Regs, sf: bool)
    ensures var d, g := Execute(b, GPL(sf), r).d, Execute(b, GPF(sf), r).d;
      Balanced(r.d.mac.x, g.mac.x, d.mac.x, 0) && Balanced(r.d.mac.y, g.mac.y, d.mac.y, 0) &&
      Balanced(r.d.mac.z, g.mac.z, d.mac.z, 0) && Held(d.mac, false, d.ir) && Pushed(r.d, d)
  {
    var g, w := GpfMac(r.d, sf), SumWithGpf(r.d, sf);
    GplSum(r.d, sf);
    LimBsHolds(w.ToMac(), false);
    PushesFifo(r.d, w.ToMac(), LimBs(w.ToMac(), false));
    PushesFifo(r.d, g, LimBs(g, false));
    SumIsBalanced(r.d.mac.x, g.x);
    SumIsBalanced(r.d.mac.y, g.y);
    SumIsBalanced(r.d.mac.z, g.z);
    hide Pushed, PushColor, LimBs, LimBsBits, Kept, PushColorBits, Wide.Bits, Mul, ShrSf, Wrap32, Balanced,
      Wide.Shifted;
  }

  function SumWithGpf(d: Data, sf: bool): Wide
  {
    var g := GpfMac(d, sf);
    Wide(d.mac.x + g.x, d.mac.y + g.y, d.mac.z + g.z)
  }

  lemma GplSum(d: Data, sf: bool)
    ensures var p, k := Scaled(d), if sf then 4096 else 1;
      Wide(d.mac.x * k + p.x, d.mac.y * k + p.y, d.mac.z * k + p.z).Shifted(sf) == SumWithGpf(d, sf)
  {
    hide Mul;
  }

  lemma SumIsBalanced(x: int, y: int)
    ensures Balanced(x, y, Wrap32(x + y), 0)
  {
    var k := WrapsOf(x + y);
    hide Wrap32;
    assert x + y - Wrap32(x + y) - 0 == k * 0x1_0000_0000;
  }

  /** OP leaves a vector at right angles to IR and to the diagonal of the rotation matrix, as long as their
      lengths and the angle between them make it, and oriented by the right hand: of the first two axes it
      leaves the third. */
  lemma OuterProductIsACrossProduct(b: Build, r: Regs, lm: bool)
    ensures var d, a, v := Execute(b, OuterProduct(false, lm), r).d, r.c.rot, r.d.ir; var m := d.mac;
      a.m11 * m.x + a.m22 * m.y + a.m33 * m.z == 0 && v.x * m.x + v.y * m.y + v.z * m.z == 0 &&
      m.x * m.x + m.y * m.y + m.z * m.z ==
        (a.m11 * a.m11 + a.m22 * a.m22 + a.m33 * a.m33) * (v.x * v.x + v.y * v.y + v.z * v.z) -
        (a.m11 * v.x + a.m22 * v.y + a.m33 * v.z) * (a.m11 * v.x + a.m22 * v.y + a.m33 * v.z) &&
      (a.m11 > 0 && a.m22 == 0 && v.y > 0 ==> m.z > 0) && Held(m, lm, d.ir)
  {
    var a, v := r.c.rot, r.d.ir;
    LimBsHolds(Cross(r.c, v), lm);
    CrossProduct(a.m11, a.m22, a.m33, v.x, v.y, v.z);
    hide LimBs, LimBsBits, Kept;
    assert Execute(b, OuterProduct(false, lm), r).d.mac == Cross(r.c, v);
    assert Cross(r.c, v) == V32(a.m22 * v.z - a.m33 * v.y, a.m33 * v.x - a.m11 * v.z, a.m11 * v.y - a.m22 * v.x);
    hide *;
  }

  lemma CrossProduct(a: int, b: int, c: int, x: int, y: int, z: int)
    ensures var p, q, s := b * z - c * y, c * x - a * z, a * y - b * x;
      a * p + b * q + c * s == 0 && x * p + y * q + z * s == 0 &&
      p * p + q * q + s * s ==
        (a * a + b * b + c * c) * (x * x + y * y + z * z) - (a * x + b * y + c * z) * (a * x + b * y + c * z) &&
      (a > 0 && b == 0 && y > 0 ==> s > 0)
  {
    RightAngles(a, b, c, x, y, z);
    LengthOfCross(a, b, c, x, y, z);
    if a > 0 && b == 0 && y > 0 { assert a * y > 0; }
  }

  lemma RightAngles(a: int, b: int, c: int, x: int, y: int, z: int)
    ensures a * (b * z - c * y) + b * (c * x - a * z) + c * (a * y - b * x) == 0
    ensures x * (b * z - c * y) + y * (c * x - a * z) + z * (a * y - b * x) == 0
  {
  }

  lemma LengthOfCross(a: int, b: int, c: int, x: int, y: int, z: int)
    ensures var p, q, s := b * z - c * y, c * x - a * z, a * y - b * x;
      p * p + q * q + s * s ==
        (a * a + b * b + c * c) * (x * x + y * y + z * z) - (a * x + b * y + c * z) * (a * x + b * y + c * z)
  {
    Exchange(b, z, c, y);
    Exchange(c, x, a, z);
    Exchange(a, y, b, x);
    SquareOfDifference(b * z, c * y);
    SquareOfDifference(c * x, a * z);
    SquareOfDifference(a * y, b * x);
    SquareOfSum(a * x, b * y, c * z);
    SquaresMultiply(a, x, y, z);
    SquaresMultiply(b, x, y, z);
    SquaresMultiply(c, x, y, z);
    var l := x * x + y * y + z * z;
    assert (a * a + b * b + c * c) * l == a * a * l + b * b * l + c * c * l;
  }

  lemma Exchange(a: int, x: int, b: int, y: int)
    ensures (a * x) * (b * y) == (a * y) * (b * x)
  {
    assert (a * x) * (b * y) == a * (x * b) * y == a * y * (b * x);
  }

  lemma SquareOfDifference(u: int, v: int)
    ensures (u - v) * (u - v) == u * u - 2 * (u * v) + v * v
  {
  }

  lemma SquareOfSum(u: int, v: int, w: int)
    ensures (u + v + w) * (u + v + w) == u * u + v * v + w * w + 2 * (u * v) + 2 * (v * w) + 2 * (u * w)
  {
  }

  lemma SquaresMultiply(a: int, x: int, y: int, z: int)
    ensures a * a * (x * x + y * y + z * z) == (a * x) * (a * x) + (a * y) * (a * y) + (a * z) * (a * z)
  {
    Exchange(a, x, a, x);
  }

  // ----- areas and depths -----

  function WithCorners(r: Regs, p: XY, q: XY, s: XY): Regs { r.(d := r.d.(sxy0 := p, sxy1 := q, sxy2 := s)) }

  function Area(b: Build, r: Regs, p: XY, q: XY, s: XY): s32 { Execute(b, NCLIP, WithCorners(r, p, q, s)).d.mac0 }

  /** Twice the area of a triangle, with its orientation. */
  function TwiceArea(p: XY, q: XY, s: XY): int { (q.x - p.x) * (s.y - p.y) - (s.x - p.x) * (q.y - p.y) }

  lemma NclipIsTwiceTheArea(b: Build, r: Regs, p: XY, q: XY, s: XY)
    ensures Area(b, r, p, q, s) == Wrap32(TwiceArea(p, q, s))
  {
    hide Wrap32, F;
    assert p.x * (q.y - s.y) + q.x * (s.y - p.y) + s.x * (p.y - q.y) == TwiceArea(p, q, s);
  }

  /** NCLIP does not change when the corners move round, changes sign when two are exchanged, and is zero when
      two coincide. */
  lemma NclipIsAnOrientedArea(b: Build, r: Regs, p: XY, q: XY, s: XY)
    ensures Area(b, r, p, q, s) == Area(b, r, q, s, p) && Area(b, r, p, p, s) == 0
    ensures Balanced(Area(b, r, p, q, s), Area(b, r, q, p, s), 0, 0)
  {
    NclipIsTwiceTheArea(b, r, p, q, s);
    NclipIsTwiceTheArea(b, r, q, s, p);
    NclipIsTwiceTheArea(b, r, q, p, s);
    NclipIsTwiceTheArea(b, r, p, p, s);
    assert TwiceArea(p, q, s) == TwiceArea(q, s, p) == -TwiceArea(q, p, s) && TwiceArea(p, p, s) == 0;
    WrappedSum(TwiceArea(p, q, s), TwiceArea(q, p, s), 0, 0);
    hide *;
    assert Wrap32(0) == 0;
  }

  /** AVSZ3 and AVSZ4 scale the sum of the last depths. */
  lemma AverageScalesTheDepths(b: Build, r: Regs)
    ensures var d := Execute(b, AVSZ3, r).d;
      d.mac0 == Wrap32(r.c.zsf3 * (r.d.sz1 + r.d.sz2 + r.d.sz3)) && Clamped(d.mac0 / 4096, 0, 0xffff, d.otz)
    ensures var d := Execute(b, AVSZ4, r).d;
      d.mac0 == Wrap32(r.c.zsf4 * (r.d.sz0 + r.d.sz1 + r.d.sz2 + r.d.sz3)) && Clamped(d.mac0 / 4096, 0, 0xffff, d.otz)
  {
    hide Wrap32, F, LimDBits, Kept;
  }

  // ----- FLAG -----

  /** What FLAG says of MVMVA: bit 30 - i that sum i is too large, 27 - i that it is too small for 32 bits, and
      24 - i that MAC did not fit into IR. */
  lemma MvmvaFlagTells(b: Build, r: Regs, sf: bool, mx: nat, v: nat, cv: nat, lm: bool, m: Mat, w: V16, t: V32,
      i: nat, x: int)
    requires !b.flagless && Chosen(r, mx, v, cv, m, w, t) && i < 3 && Shifted(Row(m, t, w, i), sf, x)
    ensures var e := Execute(b, MVMVA(sf, mx, v, cv, lm), r);
      (30 - i in e.flag <==> x > 0x7fffffff) && (27 - i in e.flag <==> x < -0x80000000) &&
      (24 - i in e.flag <==> WideAt(e.d.mac, i) != At(e.d.ir, i))
  {
    MvmvaVector(b, r, sf, mx, v, cv, lm, m, w, t);
    AffineAt(m, t, w, i);
    hide Execute, Affine, Row, Chosen, Saturated;
    var a := Affine(m, t, w).Shifted(sf);
    assert WideSum(a, i) == x;
    SaturatedFlag(a, lm, i);
  }

  lemma SaturatedFlag(w: Wide, lm: bool, i: nat)
    requires i < 3
    ensures var s := Saturated(w, lm); var x := WideSum(w, i);
      (30 - i in s.bits <==> x > 0x7fffffff) && (27 - i in s.bits <==> x < -0x80000000) &&
      (24 - i in s.bits <==> WideAt(s.mac, i) != At(s.ir, i))
  {
    SumFlag(w, i);
    IrFlag(w.ToMac(), lm, i);
    hide Wide.ToMac, Wide.Bits, LimBs, LimBsBits;
  }

  lemma SumFlag(w: Wide, i: nat)
    requires i < 3
    ensures var x := WideSum(w, i);
      (30 - i in w.Bits() <==> x > 0x7fffffff) && (27 - i in w.Bits() <==> x < -0x80000000) && 24 - i !in w.Bits()
  {
  }

  lemma IrFlag(m: V32, lm: bool, i: nat)
    requires i < 3
    ensures var s := LimBsBits(m, lm);
      30 - i !in s && 27 - i !in s && (24 - i in s <==> WideAt(m, i) != At(LimBs(m, lm), i))
  {
    hide Lim;
  }

  /** Bit 31 sums up the errors.  That a MAC sum is too large, bits 28 to 30, is not one of them here. */
  predicate SummedUp(x: Bits)
  {
    31 in x <==> (13 in x || 14 in x || 15 in x || 16 in x || 17 in x || 18 in x || 23 in x || 24 in x || 25 in x ||
                  26 in x || 27 in x)
  }

  lemma UnionIsSummedUp(x: Bits, y: Bits)
    requires SummedUp(x) && SummedUp(y)
    ensures SummedUp(x + y)
  {
  }

  lemma SumsAreSummedUp(w: Wide, x: int)
    ensures SummedUp(w.Bits()) && SummedUp(F(x)) && SummedUp(LimDBits(x)) && SummedUp(LimHBits(x))
  {
    UnionIsSummedUp(A1(w.x), A2(w.y));
    UnionIsSummedUp(A1(w.x) + A2(w.y), A3(w.z));
  }

  lemma ScreenIsSummedUp(x: int, e: nat)
    ensures SummedUp(LimG1Bits(x)) && SummedUp(LimG2Bits(x)) && SummedUp(LimEBits(e))
  {
  }

  lemma VectorIsSummedUp(m: V32, lm: bool)
    ensures SummedUp(LimBsBits(m, lm)) && SummedUp(PushColorBits(m)) && SummedUp(LimB1Bits(m.x, lm)) &&
      SummedUp(LimB1Bits(m.y, lm)) && SummedUp(LimB1Bits(m.z, lm))
  {
    UnionIsSummedUp(LimB1Bits(m.x, lm), LimB2Bits(m.y, lm));
    UnionIsSummedUp(LimB1Bits(m.x, lm) + LimB2Bits(m.y, lm), LimB3Bits(m.z, lm));
  }

  lemma BlendIsSummedUp(far: Wide)
    ensures SummedUp(BlendBits(far)) && SummedUp(FirstChannelBits(far))
  {
    var s := far.ToMac();
    SumsAreSummedUp(far, 0);
    VectorIsSummedUp(s, false);
    hide SummedUp, Wide.Bits, LimB1Bits, LimBsBits;
    UnionIsSummedUp(far.Bits(), LimBsBits(s, false));
    UnionIsSummedUp(far.Bits(), LimB1Bits(s.x, false));
    UnionIsSummedUp(far.Bits() + LimB1Bits(s.x, false), LimB1Bits(s.y, false));
    UnionIsSummedUp(far.Bits() + LimB1Bits(s.x, false) + LimB1Bits(s.y, false), LimB1Bits(s.z, false));
  }

  lemma ProjectionIsSummedUp(b: Build, c: Control, v: V16)
    ensures SummedUp(Project(b, c, v).bits) && SummedUp(Cue(c, Project(b, c, v).quotient).2)
  {
    var w := Affine(c.rot, c.tr, v).Shifted(true);
    var vec := Saturated(w, false);
    var sz := LimD(vec.mac.z);
    var e := b.divide(c.h, sz);
    var q := LimE(e);
    var x, y := c.ofx + vec.ir.x * q, c.ofy + vec.ir.y * q;
    SumsAreSummedUp(w, x);
    SumsAreSummedUp(w, y);
    SumsAreSummedUp(w, vec.mac.z);
    VectorIsSummedUp(vec.mac, false);
    ScreenIsSummedUp(ScreenCoordinate(b, x), e);
    ScreenIsSummedUp(ScreenCoordinate(b, y), e);
    var d := c.dqb + c.dqa * q;
    SumsAreSummedUp(w, d);
    SumsAreSummedUp(w, Shr12(Wrap32(d)));
    hide Affine, Wrap32, ScreenCoordinate, Wide.Bits, F, LimDBits, LimHBits, LimG1Bits, LimG2Bits, LimEBits, LimBsBits;
  }

  lemma LightIsSummedUp(c: Control, v: V16, ir: V16, rgb: Color, ir0: s16)
    ensures SummedUp(Lit(c, v).bits) && SummedUp(LightColor(c, ir).bits) && SummedUp(CueLit(rgb, ir0, c, ir).1)
  {
    var first := LightNormal(c, v);
    VectorIsSummedUp(first.mac, true);
    SumsAreSummedUp(Affine(c.lcol, c.bk, first.ir).Shifted(true), 0);
    SumsAreSummedUp(Affine(c.lcol, c.bk, ir).Shifted(true), 0);
    var t := Tint(rgb, ir);
    BlendIsSummedUp(Wide(c.fc.x - t.x, c.fc.y - t.y, c.fc.z - t.z));
    hide Affine, Wrap32, Wide.Bits, LimBsBits, BlendBits, Blend, Tint, MulByte;
  }

  lemma ScreenOperationsSumUp(b: Build, r: Regs)
    ensures SummedUp(Execute(b, RTPS, r).flag) && SummedUp(Execute(b, RTPT, r).flag)
  {
    ProjectionIsSummedUp(b, r.c, r.d.v0);
    ProjectionIsSummedUp(b, r.c, r.d.v1);
    ProjectionIsSummedUp(b, r.c, r.d.v2);
    hide Project, Cue;
  }

  lemma NclipSumsUp(b: Build, r: Regs)
    ensures SummedUp(Nclip(b, r).flag)
  {
    hide Wrap32, F, SummedUp, MulDifference;
    var p, q, s := r.d.sxy0, r.d.sxy1, r.d.sxy2;
    SumsAreSummedUp(Wide(0, 0, 0), p.x * (q.y - s.y) + MulDifference(q.x, s.y, p.y) + MulDifference(s.x, p.y, q.y));
    EmptyIsSummedUp();
  }

  lemma MvmvaSumsUp(b: Build, r: Regs, sf: bool, mx: nat, v: nat, cv: nat, lm: bool)
    ensures SummedUp(Mvmva(b, r, sf, mx, v, cv, lm).flag)
  {
    hide Affine, Matrix, Translation, Operand, Wide.Shifted, Saturated, SummedUp;
    SaturatedIsSummedUp(Affine(Matrix(r.c, mx), Translation(r.c, cv), Operand(r.d, v)).Shifted(sf), lm);
    EmptyIsSummedUp();
  }

  lemma SquareAndCrossSumUp(b: Build, r: Regs, sf: bool, lm: bool)
    ensures SummedUp(Sqr(b, r, sf, lm).flag) && SummedUp(Outer(b, r, sf, lm).flag)
  {
    hide Mul, Cross, LimBs, LimBsBits, SummedUp, ShrSf;
    VectorIsSummedUp(Sqr(b, r, sf, lm).d.mac, lm);
    VectorIsSummedUp(Outer(b, r, sf, lm).d.mac, lm);
    EmptyIsSummedUp();
  }

  lemma EmptyIsSummedUp()
    ensures SummedUp({})
  {
  }

  lemma AverageSumsUp(b: Build, r: Regs, scale: s16, sum: s32)
    ensures SummedUp(Average(b, r, scale, sum).flag)
  {
    SumsAreSummedUp(Wide(0, 0, 0), scale * sum);
    SumsAreSummedUp(Wide(0, 0, 0), Shr12(Wrap32(scale * sum)));
    hide F, LimDBits, Wrap32;
  }

  lemma ResultSumsUp(b: Build, r: Regs, m: V32, ir: V16, bits: Bits)
    requires SummedUp(bits)
    ensures SummedUp(Colored(b, r, m, ir, bits).flag)
  {
    VectorIsSummedUp(m, false);
    UnionIsSummedUp(bits, PushColorBits(m));
    hide PushColor, PushColorBits;
  }

  /** NCS and NCCS saturate the light and push it, or a tint. */
  lemma LitResults(b: Build, r: Regs)
    ensures var l := Lit(r.c, r.d.v0); var t := Tint(r.d.rgb, l.ir); var bits := l.bits + LimBsBits(l.mac, true);
      Ncs(b, r) == Colored(b, r, l.mac, l.ir, bits) && Nccs(b, r) == Colored(b, r, t, V16(t.x, t.y, t.z), bits)
  {
    hide Lit, Tint, Colored, LimBsBits;
  }

  lemma NcsSumsUp(b: Build, r: Regs)
    ensures SummedUp(Ncs(b, r).flag) && SummedUp(Nccs(b, r).flag)
  {
    hide Lit, LimBsBits, Colored, SummedUp, Ncs, Nccs;
    var l := Lit(r.c, r.d.v0);
    var t := Tint(r.d.rgb, l.ir);
    LitResults(b, r);
    LightIsSummedUp(r.c, r.d.v0, l.ir, r.d.rgb, r.d.ir0);
    VectorIsSummedUp(l.mac, true);
    UnionIsSummedUp(l.bits, LimBsBits(l.mac, true));
    ResultSumsUp(b, r, l.mac, l.ir, l.bits + LimBsBits(l.mac, true));
    ResultSumsUp(b, r, t, V16(t.x, t.y, t.z), l.bits + LimBsBits(l.mac, true));
  }

  /** NCDS and CDP saturate the light, blend it and saturate the result. */
  lemma CuedResults(b: Build, r: Regs)
    ensures var l := Lit(r.c, r.d.v0); var (m, bits) := CueLit(r.d.rgb, r.d.ir0, r.c, l.ir);
      Ncds(b, r) == Colored(b, r, m, LimBs(m, true), l.bits + LimBsBits(l.mac, true) + bits + LimBsBits(m, true))
    ensures var l := LightColor(r.c, r.d.ir); var (m, bits) := CueLit(r.d.rgb, r.d.ir0, r.c, l.ir);
      Cdp(b, r) == Colored(b, r, m, LimBs(m, true), l.bits + LimBsBits(l.mac, true) + bits + LimBsBits(m, true))
    ensures var l := LightColor(r.c, r.d.ir); var t := Tint(r.d.rgb, l.ir);
      Cc(b, r) == Colored(b, r, t, LimBs(t, true), l.bits + LimBsBits(l.mac, true) + LimBsBits(t, true))
  {
    hide Lit, LightColor, Tint, CueLit, Colored, LimBs, LimBsBits;
  }

  /** Light, blended or not. */
  lemma CuedSumsUp(b: Build, r: Regs, l: Vector)
    requires SummedUp(l.bits)
    ensures var (m, bits) := CueLit(r.d.rgb, r.d.ir0, r.c, l.ir);
      SummedUp(Colored(b, r, m, LimBs(m, true), l.bits + LimBsBits(l.mac, true) + bits + LimBsBits(m, true)).flag)
    ensures var t := Tint(r.d.rgb, l.ir);
      SummedUp(Colored(b, r, t, LimBs(t, true), l.bits + LimBsBits(l.mac, true) + LimBsBits(t, true)).flag)
  {
    hide *;
    var (m, bits) := CueLit(r.d.rgb, r.d.ir0, r.c, l.ir);
    var t := Tint(r.d.rgb, l.ir);
    LightIsSummedUp(r.c, r.d.v0, l.ir, r.d.rgb, r.d.ir0);
    VectorIsSummedUp(l.mac, true);
    VectorIsSummedUp(m, true);
    VectorIsSummedUp(t, true);
    var x := l.bits + LimBsBits(l.mac, true);
    UnionIsSummedUp(l.bits, LimBsBits(l.mac, true));
    UnionIsSummedUp(x, bits);
    UnionIsSummedUp(x + bits, LimBsBits(m, true));
    UnionIsSummedUp(x, LimBsBits(t, true));
    ResultSumsUp(b, r, m, LimBs(m, true), x + bits + LimBsBits(m, true));
    ResultSumsUp(b, r, t, LimBs(t, true), x + LimBsBits(t, true));
  }

  lemma ColorsSumUp(b: Build, r: Regs)
    ensures SummedUp(Ncds(b, r).flag) && SummedUp(Cdp(b, r).flag) && SummedUp(Cc(b, r).flag)
  {
    hide *;
    CuedResults(b, r);
    LightIsSummedUp(r.c, r.d.v0, r.d.ir, r.d.rgb, r.d.ir0);
    CuedSumsUp(b, r, Lit(r.c, r.d.v0));
    CuedSumsUp(b, r, LightColor(r.c, r.d.ir));
  }

  lemma BlendOperationsSumUp(b: Build, r: Regs, sf: bool, lm: bool)
    ensures SummedUp(Dcpl(b, r, lm).flag) && SummedUp(Intpl(b, r, sf, lm).flag) && SummedUp(Dpcs(b, r, sf).flag)
  {
    var far := FarFrom(r.d.rgb, r.c.fc);
    var far' := if sf then far else Wide(far.x * 4096, far.y * 4096, far.z * 4096);
    var m, n, p := DcplMac(r.d, r.c.fc), IntplMac(r.d, r.c.fc, sf), CuePlain(r.d.rgb, r.d.ir0, far');
    BlendIsSummedUp(FarFromTint(r.d, r.c.fc));
    BlendIsSummedUp(FarFromIr(r.d, r.c.fc));
    BlendIsSummedUp(far');
    VectorIsSummedUp(m, lm);
    VectorIsSummedUp(n, lm);
    VectorIsSummedUp(p, false);
    hide *;
    UnionIsSummedUp(FirstChannelBits(FarFromTint(r.d, r.c.fc)), LimBsBits(m, lm));
    UnionIsSummedUp(BlendBits(FarFromIr(r.d, r.c.fc)), LimBsBits(n, lm));
    UnionIsSummedUp(BlendBits(far'), LimBsBits(p, false));
    ResultSumsUp(b, r, m, LimBs(m, lm), FirstChannelBits(FarFromTint(r.d, r.c.fc)) + LimBsBits(m, lm));
    ResultSumsUp(b, r, n, LimBs(n, lm), BlendBits(FarFromIr(r.d, r.c.fc)) + LimBsBits(n, lm));
    ResultSumsUp(b, r, p, LimBs(p, false), BlendBits(far') + LimBsBits(p, false));
    BlendedResults(b, r, sf, lm);
  }

  lemma BlendedResults(b: Build, r: Regs, sf: bool, lm: bool)
    ensures var m := DcplMac(r.d, r.c.fc);
      Dcpl(b, r, lm) == Colored(b, r, m, LimBs(m, lm), FirstChannelBits(FarFromTint(r.d, r.c.fc)) + LimBsBits(m, lm))
    ensures var n := IntplMac(r.d, r.c.fc, sf);
      Intpl(b, r, sf, lm) == Colored(b, r, n, LimBs(n, lm), BlendBits(FarFromIr(r.d, r.c.fc)) + LimBsBits(n, lm))
    ensures var far := FarFrom(r.d.rgb, r.c.fc);
      var far' := if sf then far else Wide(far.x * 4096, far.y * 4096, far.z * 4096);
      var p := CuePlain(r.d.rgb, r.d.ir0, far');
      Dpcs(b, r, sf) == Colored(b, r, p, LimBs(p, false), BlendBits(far') + LimBsBits(p, false))
  {
    hide Colored, DcplMac, IntplMac, CuePlain, FirstChannelBits, BlendBits, LimBs, LimBsBits, FarFromTint, FarFromIr;
  }

  lemma GpfSumsUp(b: Build, r: Regs, sf: bool)
    ensures SummedUp(Gpf(b, r, sf).flag)
  {
    var g := GpfMac(r.d, sf);
    VectorIsSummedUp(g, false);
    assert Gpf(b, r, sf) == Colored(b, r, g, LimBs(g, false), LimBsBits(g, false)) by {
      hide Colored, LimBs, LimBsBits, Mul, ShrSf;
    }
    hide *;
    ResultSumsUp(b, r, g, LimBs(g, false), LimBsBits(g, false));
  }

  lemma GplSumsUp(b: Build, r: Regs, sf: bool)
    ensures SummedUp(Gpl(b, r, sf).flag)
  {
    GplSum(r.d, sf);
    var s := Saturated(SumWithGpf(r.d, sf), false);
    SaturatedIsSummedUp(SumWithGpf(r.d, sf), false);
    assert Gpl(b, r, sf) == Colored(b, r, s.mac, s.ir, s.bits) by {
      hide Colored, Saturated, SumWithGpf, Mul, Wide.Shifted;
    }
    hide *;
    ResultSumsUp(b, r, s.mac, s.ir, s.bits);
  }

  lemma SaturatedIsSummedUp(w: Wide, lm: bool)
    ensures SummedUp(Saturated(w, lm).bits)
  {
    SumsAreSummedUp(w, 0);
    VectorIsSummedUp(w.ToMac(), lm);
    hide Wide.Bits, LimBsBits, Wide.ToMac;
  }

  /** The bits of three colours are those of each. */
  lemma ThreeAreSummedUp(m0: V32, m1: V32, m2: V32, lm: bool)
    ensures SummedUp(PushThreeBits(m0, m1, m2)) && SummedUp(LitBits(m0, m1, m2)) && SummedUp(LimBsBits(m2, lm))
  {
    VectorIsSummedUp(m0, true);
    VectorIsSummedUp(m1, true);
    VectorIsSummedUp(m2, true);
    VectorIsSummedUp(m2, lm);
    hide PushColorBits, LimBsBits;
  }

  lemma FusedLightSumsUp(b: Build, r: Regs)
    ensures SummedUp(Nct(b, r).flag) && SummedUp(Ncct(b, r).flag)
  {
    var l0, l1, l2 := Lit(r.c, r.d.v0), Lit(r.c, r.d.v1), Lit(r.c, r.d.v2);
    LightIsSummedUp(r.c, r.d.v0, l0.ir, r.d.rgb, r.d.ir0);
    LightIsSummedUp(r.c, r.d.v1, l1.ir, r.d.rgb, r.d.ir0);
    LightIsSummedUp(r.c, r.d.v2, l2.ir, r.d.rgb, r.d.ir0);
    ThreeAreSummedUp(l0.mac, l1.mac, l2.mac, true);
    ThreeAreSummedUp(Tint(r.d.rgb, l0.ir), Tint(r.d.rgb, l1.ir), Tint(r.d.rgb, l2.ir), true);
    hide Lit, CueLit, Tint, PushThree, PushThreeBits, LitBits, LimBsBits;
  }

  lemma NcdtSumsUp(b: Build, r: Regs)
    ensures SummedUp(Ncdt(b, r).flag)
  {
    var l0, l1, l2 := Lit(r.c, r.d.v0), Lit(r.c, r.d.v1), Lit(r.c, r.d.v2);
    LightIsSummedUp(r.c, r.d.v0, l0.ir, r.d.rgb, r.d.ir0);
    LightIsSummedUp(r.c, r.d.v1, l1.ir, r.d.rgb, r.d.ir0);
    LightIsSummedUp(r.c, r.d.v2, l2.ir, r.d.rgb, r.d.ir0);
    ThreeAreSummedUp(l0.mac, l1.mac, l2.mac, true);
    var m0, m1 := CueLit(r.d.rgb, r.d.ir0, r.c, l0.ir).0, CueLit(r.d.rgb, r.d.ir0, r.c, l1.ir).0;
    ThreeAreSummedUp(m0, m1, CueLit(r.d.rgb, r.d.ir0, r.c, l2.ir).0, true);
    hide Lit, CueLit, PushThree, PushThreeBits, LitBits, LimBs, LimBsBits;
  }

  lemma DpctSumsUp(b: Build, r: Regs)
    ensures SummedUp(Dpct(b, r).flag)
  {
    var f0, f1, f2 := FarFrom(r.d.rgb0, r.c.fc), FarFrom(r.d.rgb1, r.c.fc), FarFrom(r.d.rgb2, r.c.fc);
    BlendIsSummedUp(f0);
    BlendIsSummedUp(f1);
    BlendIsSummedUp(f2);
    ThreeAreSummedUp(CuePlain(r.d.rgb0, r.d.ir0, f0), CuePlain(r.d.rgb1, r.d.ir0, f1), CuePlain(r.d.rgb2, r.d.ir0, f2),
      false);
    hide FarFrom, CuePlain, PushThree, PushThreeBits, FirstChannelBits, LimBs, LimBsBits;
  }

  /** After every operation bit 31 of FLAG is set if and only if one of the errors it sums up is. */
  lemma ErrorsAreSummedUp(b: Build, op: Op, r: Regs)
    ensures SummedUp(Execute(b, op, r).flag)
  {
    hide Rtps, Rtpt, Nclip, Average, Ncs, Nct, Nccs, Ncct, Ncds, Ncdt, Cc, Cdp, Mvmva, Sqr, Outer, Intpl, Dcpl, Gpf,
      Gpl, Dpcs, Dpct, SummedUp;
    match op
    case RTPS => ScreenOperationsSumUp(b, r);
    case RTPT => ScreenOperationsSumUp(b, r);
    case NCLIP => NclipSumsUp(b, r);
    case AVSZ3 => AverageSumsUp(b, r, r.c.zsf3, r.d.sz1 + r.d.sz2 + r.d.sz3);
    case AVSZ4 => AverageSumsUp(b, r, r.c.zsf4, r.d.sz0 + r.d.sz1 + r.d.sz2 + r.d.sz3);
    case MVMVA(sf, mx, v, cv, lm) => MvmvaSumsUp(b, r, sf, mx, v, cv, lm);
    case SQR(sf, lm) => SquareAndCrossSumUp(b, r, sf, lm);
    case OuterProduct(sf, lm) => SquareAndCrossSumUp(b, r, sf, lm);
    case NCS => NcsSumsUp(b, r);
    case NCCS => NcsSumsUp(b, r);
    case NCDS => ColorsSumUp(b, r);
    case CC => ColorsSumUp(b, r);
    case CDP => ColorsSumUp(b, r);
    case NCT => FusedLightSumsUp(b, r);
    case NCCT => FusedLightSumsUp(b, r);
    case NCDT => NcdtSumsUp(b, r);
    case DPCT => DpctSumsUp(b, r);
    case DCPL(lm) => BlendOperationsSumUp(b, r, true, lm);
    case INTPL(sf, lm) => BlendOperationsSumUp(b, r, sf, lm);
    case GPF(sf) => GpfSumsUp(b, r, sf);
    case GPL(sf) => GplSumsUp(b, r, sf);
    case DPCS(sf) => BlendOperationsSumUp(b, r, sf, false);
  }

  // ----- FLAG of perspective and colours -----

  /** RTPS with quotient `q`, sums `x` and `y` and cueing `w`. */
  predicate Projects(b: Build, r: Regs, q: int, x: int, y: int, w: int)
  {
    var d := Execute(b, RTPS, r).d;
    Clamped(b.divide(r.c.h, d.sz3), 0, 0x1ffff, q) && x == r.c.ofx + d.ir.x * q && y == r.c.ofy + d.ir.y * q &&
    w == r.c.dqb + r.c.dqa * q
  }

  lemma RtpsParts(b: Build, r: Regs, q: int, x: int, y: int, w: int)
    requires !b.flagless && Projects(b, r, q, x, y, w)
    ensures var v := Saturated(Affine(r.c.rot, r.c.tr, r.d.v0).Shifted(true), false);
      var d, e := Execute(b, RTPS, r).d, b.divide(r.c.h, LimD(v.mac.z));
      d.mac == v.mac && d.sz3 == LimD(v.mac.z) && q == LimE(e) && d.sxy2.x == LimG(Wrap32(x) / 0x10000) &&
      d.sxy2.y == LimG(Wrap32(y) / 0x10000) && d.mac0 == Wrap32(w) && d.ir0 == LimH(Shr12(Wrap32(w))) &&
      Execute(b, RTPS, r).flag == v.bits + LimDBits(v.mac.z) + LimEBits(e) + F(x) + LimG1Bits(Wrap32(x) / 0x10000) +
        F(y) + LimG2Bits(Wrap32(y) / 0x10000) + (F(w) + LimHBits(Shr12(Wrap32(w))))
  {
    hide Affine, Saturated, Wide.Shifted, LimDBits, LimEBits, F, LimG1Bits, LimG2Bits, LimHBits, Wrap32;
  }

  /** What FLAG says of RTPS besides MVMVA: the depth, the quotient, the sums and IR0 that did not fit. */
  lemma RtpsFlagTells(b: Build, r: Regs, q: int, x: int, y: int, w: int)
    requires !b.flagless && Projects(b, r, q, x, y, w)
    ensures var d, flag := Execute(b, RTPS, r).d, Execute(b, RTPS, r).flag;
      (18 in flag <==> d.mac.z != d.sz3) && (17 in flag <==> b.divide(r.c.h, d.sz3) != q) &&
      (16 in flag <==> x > 0x7fffffff || y > 0x7fffffff || w > 0x7fffffff) &&
      (15 in flag <==> x < -0x80000000 || y < -0x80000000 || w < -0x80000000) &&
      (14 in flag <==> Wrap32(x) / 0x10000 != d.sxy2.x) && (13 in flag <==> Wrap32(y) / 0x10000 != d.sxy2.y) &&
      (12 in flag <==> d.mac0 / 4096 != d.ir0)
  {
    hide *;
    RtpsParts(b, r, q, x, y, w);
    var a := Affine(r.c.rot, r.c.tr, r.d.v0).Shifted(true);
    var v := Saturated(a, false);
    VectorBits(a, false);
    DepthBits(v.mac.z, b.divide(r.c.h, LimD(v.mac.z)));
    SumBits(x);
    SumBits(y);
    SumBits(w);
    PlaceBits(Wrap32(x) / 0x10000, Wrap32(y) / 0x10000);
    CueBits(Wrap32(w));
    var d := Execute(b, RTPS, r).d;
    UnionTells(v.bits, d.mac.z != d.sz3, b.divide(r.c.h, d.sz3) != q, F(x), Wrap32(x) / 0x10000 != d.sxy2.x, F(y),
      Wrap32(y) / 0x10000 != d.sxy2.y, F(w), d.mac0 / 4096 != d.ir0);
  }

  /** Each piece has its own bits. */
  lemma UnionTells(v: Bits, z: bool, e: bool, x: Bits, g: bool, y: Bits, h: bool, w: Bits, i: bool)
    requires forall k :: k in v ==> k == 31 || 22 <= k <= 30
    requires x <= {31, 16, 15} && y <= {31, 16, 15} && w <= {31, 16, 15}
    ensures var flag := v + (if z then {31, 18} else {}) + (if e then {31, 17} else {}) + x +
        (if g then {31, 14} else {}) + y + (if h then {31, 13} else {}) + (w + if i then {12} else {});
      (18 in flag <==> z) && (17 in flag <==> e) && (16 in flag <==> 16 in x || 16 in y || 16 in w) &&
      (15 in flag <==> 15 in x || 15 in y || 15 in w) && (14 in flag <==> g) && (13 in flag <==> h) &&
      (12 in flag <==> i)
  {
  }

  lemma VectorBits(w: Wide, lm: bool)
    ensures forall k :: k in Saturated(w, lm).bits ==> k == 31 || 22 <= k <= 30
  {
    hide Wrap32;
  }

  lemma DepthBits(z: int, e: nat)
    ensures LimDBits(z) == if z != LimD(z) then {31, 18} else {}
    ensures LimEBits(e) == if e != LimE(e) then {31, 17} else {}
  {
  }

  lemma SumBits(x: int)
    ensures F(x) <= {31, 16, 15} && (16 in F(x) <==> x > 0x7fffffff) && (15 in F(x) <==> x < -0x80000000)
  {
  }

  lemma PlaceBits(s: int, t: int)
    ensures LimG1Bits(s) == if s != LimG(s) then {31, 14} else {}
    ensures LimG2Bits(t) == if t != LimG(t) then {31, 13} else {}
  {
  }

  lemma CueBits(m: int)
    ensures LimHBits(Shr12(m)) == if m / 4096 != LimH(Shr12(m)) then {12} else {}
  {
  }

  /** None of the bits that only a colour raises. */
  predicate Uncolored(x: Bits) { 19 !in x && 20 !in x && 21 !in x }

  /** The bits 21, 20 and 19 say that red, green and blue were not MAC / 16. */
  predicate ColorsTold(e: Regs)
  {
    (21 in e.flag <==> e.d.mac.x / 16 != e.d.rgb2.r) && (20 in e.flag <==> e.d.mac.y / 16 != e.d.rgb2.g) &&
    (19 in e.flag <==> e.d.mac.z / 16 != e.d.rgb2.b)
  }

  lemma PushTells(b: Build, r: Regs, m: V32, ir: V16, bits: Bits)
    requires !b.flagless && Uncolored(bits)
    ensures ColorsTold(Colored(b, r, m, ir, bits))
  {
  }

  lemma PiecesAreUncolored()
    ensures forall w: Wide :: Uncolored(w.Bits())
    ensures forall m: V32, lm: bool :: Uncolored(LimBsBits(m, lm))
  {
  }

  lemma BlendsAreUncolored(far: Wide)
    ensures Uncolored(BlendBits(far)) && Uncolored(FirstChannelBits(far))
  {
    PiecesAreUncolored();
    hide Wide.Bits, LimBsBits, Wide.ToMac;
  }

  lemma LightIsUncolored(c: Control, v: V16, ir: V16, rgb: Color, ir0: s16)
    ensures Uncolored(Lit(c, v).bits) && Uncolored(LightColor(c, ir).bits) && Uncolored(CueLit(rgb, ir0, c, ir).1)
  {
    PiecesAreUncolored();
    var t := Tint(rgb, ir);
    BlendsAreUncolored(Wide(c.fc.x - t.x, c.fc.y - t.y, c.fc.z - t.z));
    hide Affine, Wrap32, Wide.Bits, LimBsBits, BlendBits, Blend, Tint, MulByte, Wide.ToMac, Wide.Shifted, LimBs;
  }

  lemma LitTellsColors(b: Build, r: Regs)
    requires !b.flagless
    ensures ColorsTold(Ncs(b, r)) && ColorsTold(Nccs(b, r))
  {
    hide Lit, LimBsBits, Colored, ColorsTold, Ncs, Nccs;
    var l := Lit(r.c, r.d.v0);
    var t := Tint(r.d.rgb, l.ir);
    LitResults(b, r);
    LightIsUncolored(r.c, r.d.v0, l.ir, r.d.rgb, r.d.ir0);
    PiecesAreUncolored();
    PushTells(b, r, l.mac, l.ir, l.bits + LimBsBits(l.mac, true));
    PushTells(b, r, t, V16(t.x, t.y, t.z), l.bits + LimBsBits(l.mac, true));
  }

  lemma CuedTellsColors(b: Build, r: Regs, l: Vector)
    requires !b.flagless && Uncolored(l.bits)
    ensures var (m, bits) := CueLit(r.d.rgb, r.d.ir0, r.c, l.ir);
      ColorsTold(Colored(b, r, m, LimBs(m, true), l.bits + LimBsBits(l.mac, true) + bits + LimBsBits(m, true)))
    ensures var t := Tint(r.d.rgb, l.ir);
      ColorsTold(Colored(b, r, t, LimBs(t, true), l.bits + LimBsBits(l.mac, true) + LimBsBits(t, true)))
  {
    hide CueLit, Tint, LimBs, LimBsBits, Colored, ColorsTold;
    var (m, bits) := CueLit(r.d.rgb, r.d.ir0, r.c, l.ir);
    var t := Tint(r.d.rgb, l.ir);
    LightIsUncolored(r.c, r.d.v0, l.ir, r.d.rgb, r.d.ir0);
    PiecesAreUncolored();
    PushTells(b, r, m, LimBs(m, true), l.bits + LimBsBits(l.mac, true) + bits + LimBsBits(m, true));
    PushTells(b, r, t, LimBs(t, true), l.bits + LimBsBits(l.mac, true) + LimBsBits(t, true));
  }

  lemma ColorsAreTold(b: Build, r: Regs)
    requires !b.flagless
    ensures ColorsTold(Ncds(b, r)) && ColorsTold(Cdp(b, r)) && ColorsTold(Cc(b, r))
  {
    hide *;
    CuedResults(b, r);
    LightIsUncolored(r.c, r.d.v0, r.d.ir, r.d.rgb, r.d.ir0);
    CuedTellsColors(b, r, Lit(r.c, r.d.v0));
    CuedTellsColors(b, r, LightColor(r.c, r.d.ir));
  }

  lemma BlendsAreTold(b: Build, r: Regs, sf: bool, lm: bool)
    requires !b.flagless
    ensures ColorsTold(Dcpl(b, r, lm)) && ColorsTold(Intpl(b, r, sf, lm)) && ColorsTold(Dpcs(b, r, sf))
  {
    hide Dcpl, Intpl, Dpcs, DcplMac, IntplMac, CuePlain, FarFrom, FarFromTint, FarFromIr, LimBs, LimBsBits, BlendBits,
      FirstChannelBits, Colored, ColorsTold;
    var far := FarFrom(r.d.rgb, r.c.fc);
    var far' := if sf then far else Wide(far.x * 4096, far.y * 4096, far.z * 4096);
    var m, n, p := DcplMac(r.d, r.c.fc), IntplMac(r.d, r.c.fc, sf), CuePlain(r.d.rgb, r.d.ir0, far');
    PiecesAreUncolored();
    BlendsAreUncolored(FarFromTint(r.d, r.c.fc));
    BlendsAreUncolored(FarFromIr(r.d, r.c.fc));
    BlendsAreUncolored(far');
    BlendedResults(b, r, sf, lm);
    PushTells(b, r, m, LimBs(m, lm), FirstChannelBits(FarFromTint(r.d, r.c.fc)) + LimBsBits(m, lm));
    PushTells(b, r, n, LimBs(n, lm), BlendBits(FarFromIr(r.d, r.c.fc)) + LimBsBits(n, lm));
    PushTells(b, r, p, LimBs(p, false), BlendBits(far') + LimBsBits(p, false));
  }

  lemma GpfAndGplAreTold(b: Build, r: Regs, sf: bool)
    requires !b.flagless
    ensures ColorsTold(Gpf(b, r, sf)) && ColorsTold(Gpl(b, r, sf))
  {
    var g, w := GpfMac(r.d, sf), SumWithGpf(r.d, sf);
    var s := Saturated(w, false);
    assert Gpf(b, r, sf) == Colored(b, r, g, LimBs(g, false), LimBsBits(g, false)) by {
      hide Colored, LimBs, LimBsBits, Mul, ShrSf;
    }
    GplSum(r.d, sf);
    assert Gpl(b, r, sf) == Colored(b, r, s.mac, s.ir, s.bits) by {
      hide Colored, Saturated, SumWithGpf, Mul, Wide.Shifted;
    }
    VectorBits(w, false);
    PiecesAreUncolored();
    hide Gpf, Gpl, Saturated, GpfMac, SumWithGpf, Colored, ColorsTold, LimBs, LimBsBits;
    PushTells(b, r, g, LimBs(g, false), LimBsBits(g, false));
    PushTells(b, r, s.mac, s.ir, s.bits);
  }

  /** What FLAG says of areas and depths: MAC0 too large or too small, and the depth that did not fit. */
  lemma AreaFlagTells(b: Build, r: Regs, p: XY, q: XY, s: XY)
    requires !b.flagless
    ensures var flag, x := Execute(b, NCLIP, WithCorners(r, p, q, s)).flag, TwiceArea(p, q, s);
      (16 in flag <==> x > 0x7fffffff) && (15 in flag <==> x < -0x80000000)
  {
    hide Wrap32, F;
    assert p.x * (q.y - s.y) + q.x * (s.y - p.y) + s.x * (p.y - q.y) == TwiceArea(p, q, s);
    SumBits(TwiceArea(p, q, s));
  }

  lemma AverageFlagTells(b: Build, r: Regs, scale: s16, sum: s32)
    requires !b.flagless
    ensures var e, x := Average(b, r, scale, sum), scale * sum;
      (16 in e.flag <==> x > 0x7fffffff) && (15 in e.flag <==> x < -0x80000000) &&
      (18 in e.flag <==> e.d.mac0 / 4096 != e.d.otz)
  {
    hide Wrap32, F, LimDBits;
    SumBits(scale * sum);
    DepthBits(Shr12(Wrap32(scale * sum)), 0);
  }

  /** What FLAG says of the colour that a single operation pushes. */
  lemma ColorFlagTells(b: Build, op: Op, r: Regs)
    requires !b.flagless
    requires op.NCS? || op.NCCS? || op.NCDS? || op.CC? || op.CDP? || op.DCPL? || op.INTPL? || op.DPCS? || op.GPF? ||
      op.GPL?
    ensures ColorsTold(Execute(b, op, r))
  {
    hide Rtps, Rtpt, Nclip, Average, Ncs, Nct, Nccs, Ncct, Ncds, Ncdt, Cc, Cdp, Mvmva, Sqr, Outer, Intpl, Dcpl, Gpf,
      Gpl, Dpcs, Dpct, ColorsTold;
    match op
    case NCS => LitTellsColors(b, r);
    case NCCS => LitTellsColors(b, r);
    case NCDS => ColorsAreTold(b, r);
    case CC => ColorsAreTold(b, r);
    case CDP => ColorsAreTold(b, r);
    case DCPL(lm) => BlendsAreTold(b, r, true, lm);
    case INTPL(sf, lm) => BlendsAreTold(b, r, sf, lm);
    case DPCS(sf) => BlendsAreTold(b, r, sf, false);
    case GPF(sf) => GpfAndGplAreTold(b, r, sf);
    case GPL(sf) => GpfAndGplAreTold(b, r, sf);
  }
}
