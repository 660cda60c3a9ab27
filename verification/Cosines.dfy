/** What the 8-point butterfly computes (libpcsxcore/mdec.c:60-63, 103-151, 233-263): the inverse cosine
    transform of coefficients that carry the AAN prescale, in 12-bit fixed point and up to rounding.

    `Weights` is the table of the transform.  Its entries are tied to the cosines of the multiples of
    pi/16 by nothing but the addition theorem, and the prescale factors likewise.
  */
module Cosines {
  import opened Common
  import opened Idct
  import opened RunLength
  import opened MdecDma

  /** 4096 * cos((2i+1)k pi/16) / cos(k pi/16) for k from 0 to 7, rounded to within one. */
  function Weights(i: int): Line
  {
    if i == 0 then Line(4096, 4096, 4096, 4096, 4096, 4096, 4096, 4096)
    else if i == 1 then Line(4096, 3472, 1697, -961, -4096, -7231, -9889, -11664)
    else if i == 2 then Line(4096, 2321, -1697, -4832, -4096, 1438, 9889, 17457)
    else if i == 3 then Line(4096, 814, -4096, -2736, 4096, 6130, -4096, -20592)
    else if i == 4 then Line(4096, -814, -4096, 2736, 4096, -6130, -4096, 20592)
    else if i == 5 then Line(4096, -2321, -1697, 4832, -4096, -1438, 9889, -17457)
    else if i == 6 then Line(4096, -3472, 1697, 961, -4096, 7231, -9889, 11664)
    else Line(4096, -4096, 4096, -4096, 4096, -4096, 4096, -4096)
  }

  function Inner(w: Line, p: Line): int
  {
    w.e0 * p.e0 + w.e1 * p.e1 + w.e2 * p.e2 + w.e3 * p.e3 + w.e4 * p.e4 + w.e5 * p.e5 + w.e6 * p.e6 + w.e7 * p.e7
  }

  /** The most that the roundings of one pass, and of both, make up. */
  const ROUNDING := 2 * 4095
  const ROUNDINGS := ROUNDING * (46656 + 4096)

  predicate Within(x: int, y: int, d: int) { -d <= x - y <= d }

  // ----- one pass -----

  /** The butterfly is the weighted sum, up to the rounding of its multiplications. */
  lemma ButterflyIsTheTransform(p: Line, i: int)
    requires 0 <= i < 8
    ensures Within(4096 * Butterfly(p).At(i), Inner(Weights(i), p), ROUNDING)
  {
    assert FIX_1_082392200 == 4433 && FIX_1_414213562 == 5793 && FIX_1_847759065 == 7568 && FIX_2_613125930 == 10703;
  }

  /** Even coefficients alone give a line that is its own mirror image: exactly. */
  lemma EvenIsMirrored(p: Line)
    requires p.e1 == p.e3 == p.e5 == p.e7 == 0
    ensures var t := Butterfly(p); t.e7 == t.e0 && t.e6 == t.e1 && t.e5 == t.e2 && t.e4 == t.e3
  {
  }

  /** And odd ones a line that is the negative of its mirror image. */
  lemma OddIsMirrored(p: Line)
    requires p.e0 == p.e2 == p.e4 == p.e6 == 0
    ensures var t := Butterfly(p); t.e7 == -t.e0 && t.e6 == -t.e1 && t.e5 == -t.e2 && t.e4 == -t.e3
  {
  }

  lemma ButterflyIsMirrored(p: Line, i: int)
    requires 0 <= i < 8
    ensures p.e1 == p.e3 == p.e5 == p.e7 == 0 ==> Butterfly(p).At(7 - i) == Butterfly(p).At(i)
    ensures p.e0 == p.e2 == p.e4 == p.e6 == 0 ==> Butterfly(p).At(7 - i) == -Butterfly(p).At(i)
  {
    hide Butterfly;
    if p.e1 == p.e3 == p.e5 == p.e7 == 0 { EvenIsMirrored(p); }
    if p.e0 == p.e2 == p.e4 == p.e6 == 0 { OddIsMirrored(p); }
  }

  // ----- both passes -----

  /** The two-dimensional sum for place (r, c). */
  function Sum(b: seq<int>, r: int, c: int): int
    requires |b| == DSIZE2
  {
    Inner(Weights(c), Line(Inner(Weights(r), Column(b, 0)), Inner(Weights(r), Column(b, 1)),
                           Inner(Weights(r), Column(b, 2)), Inner(Weights(r), Column(b, 3)),
                           Inner(Weights(r), Column(b, 4)), Inner(Weights(r), Column(b, 5)),
                           Inner(Weights(r), Column(b, 6)), Inner(Weights(r), Column(b, 7))))
  }

  predicate AllWithin(t: Line, s: Line, d: int)
  {
    Within(4096 * t.e0, s.e0, d) && Within(4096 * t.e1, s.e1, d) && Within(4096 * t.e2, s.e2, d) &&
    Within(4096 * t.e3, s.e3, d) && Within(4096 * t.e4, s.e4, d) && Within(4096 * t.e5, s.e5, d) &&
    Within(4096 * t.e6, s.e6, d) && Within(4096 * t.e7, s.e7, d)
  }

  /** Errors of the first pass are weighted by the second. */
  lemma ErrorsAreWeighted(t: Line, s: Line, c: int)
    requires 0 <= c < 8 && AllWithin(t, s, ROUNDING)
    ensures Within(4096 * Inner(Weights(c), t), Inner(Weights(c), s), ROUNDING * 46656)
  {
  }

  lemma FirstPassAt(b: seq<int>, r: int, c: int)
    requires |b| == DSIZE2 && 0 <= r < 8 && 0 <= c < 8
    ensures Within(4096 * ColumnPass(Butterfly, b)[8 * r + c], Inner(Weights(r), Column(b, c)), ROUNDING)
  {
    ButterflyIsTheTransform(Column(b, c), r);
    hide Butterfly, Column, Weights, Inner;
    assert (8 * r + c) % 8 == c && (8 * r + c) / 8 == r;
  }

  /** The transform that `Idct` computes in place is the two-dimensional inverse cosine transform of the
      prescaled coefficients, for every block, to within 25 (of 1024 to a colour level). */
  lemma DenseIdctIsTheTransform(b: seq<int>, r: int, c: int)
    requires |b| == DSIZE2 && 0 <= r < 8 && 0 <= c < 8
    ensures Within(4096 * 4096 * DenseIdct(b)[8 * r + c], Sum(b, r, c), ROUNDINGS)
  {
    hide Butterfly, ColumnPass, Weights, Inner, Column;
    var t := ColumnPass(Butterfly, b);
    FirstPassAt(b, r, 0); FirstPassAt(b, r, 1); FirstPassAt(b, r, 2); FirstPassAt(b, r, 3);
    FirstPassAt(b, r, 4); FirstPassAt(b, r, 5); FirstPassAt(b, r, 6); FirstPassAt(b, r, 7);
    var s := Line(Inner(Weights(r), Column(b, 0)), Inner(Weights(r), Column(b, 1)), Inner(Weights(r), Column(b, 2)),
      Inner(Weights(r), Column(b, 3)), Inner(Weights(r), Column(b, 4)), Inner(Weights(r), Column(b, 5)),
      Inner(Weights(r), Column(b, 6)), Inner(Weights(r), Column(b, 7)));
    assert AllWithin(Row(t, r), s, ROUNDING);
    ErrorsAreWeighted(Row(t, r), s, c);
    ButterflyIsTheTransform(Row(t, r), c);
    assert (8 * r + c) % 8 == c && (8 * r + c) / 8 == r;
    assert DenseIdct(b)[8 * r + c] == Butterfly(Row(t, r)).At(c);
  }

  predicate Vanishes(b: seq<int>, c: int)
    requires |b| == DSIZE2
  {
    forall j :: 0 <= j < DSIZE2 && j % 8 == c ==> b[j] == 0
  }

  /** A block with even columns only decodes to a picture that is its own mirror image, and one with odd
      columns only to its negative. */
  lemma DenseIdctIsMirrored(b: seq<int>, r: int, c: int)
    requires |b| == DSIZE2 && 0 <= r < 8 && 0 <= c < 8
    ensures Vanishes(b, 1) && Vanishes(b, 3) && Vanishes(b, 5) && Vanishes(b, 7) ==>
      DenseIdct(b)[8 * r + (7 - c)] == DenseIdct(b)[8 * r + c]
    ensures Vanishes(b, 0) && Vanishes(b, 2) && Vanishes(b, 4) && Vanishes(b, 6) ==>
      DenseIdct(b)[8 * r + (7 - c)] == -DenseIdct(b)[8 * r + c]
  {
    hide Butterfly, ColumnPass, Vanishes;
    var t := ColumnPass(Butterfly, b);
    PlaceOf(r, c);
    PlaceOf(r, 7 - c);
    ButterflyIsMirrored(Row(t, r), c);
    if Vanishes(b, 1) && Vanishes(b, 3) && Vanishes(b, 5) && Vanishes(b, 7) {
      EmptyColumn(b, r, 1);
      EmptyColumn(b, r, 3);
      EmptyColumn(b, r, 5);
      EmptyColumn(b, r, 7);
    }
    if Vanishes(b, 0) && Vanishes(b, 2) && Vanishes(b, 4) && Vanishes(b, 6) {
      EmptyColumn(b, r, 0);
      EmptyColumn(b, r, 2);
      EmptyColumn(b, r, 4);
      EmptyColumn(b, r, 6);
    }
  }

  /** A block with even rows only is mirrored top to bottom. */
  lemma DenseIdctIsMirroredDown(b: seq<int>, r: int, c: int)
    requires |b| == DSIZE2 && 0 <= r < 8 && 0 <= c < 8
    requires forall j :: 0 <= j < DSIZE2 && j / 8 % 2 == 1 ==> b[j] == 0
    ensures DenseIdct(b)[8 * (7 - r) + c] == DenseIdct(b)[8 * r + c]
  {
    hide Butterfly, ColumnPass, Row;
    PlaceOf(r, c);
    PlaceOf(7 - r, c);
    MirroredRows(b, r);
  }

  lemma PlaceOf(r: int, c: int)
    requires 0 <= r < 8 && 0 <= c < 8
    ensures (8 * r + c) % 8 == c && (8 * r + c) / 8 == r
  {
  }

  lemma EmptyColumn(b: seq<int>, r: int, c: int)
    requires |b| == DSIZE2 && 0 <= r < 8 && 0 <= c < 8 && Vanishes(b, c)
    ensures ColumnPass(Butterfly, b)[8 * r + c] == 0
  {
    ButterflySpreadsDc();
    PlaceOf(r, c);
    FlatColumn(Butterfly, b, 8 * r + c);
  }

  lemma MirroredAt(b: seq<int>, r: int, k: int)
    requires |b| == DSIZE2 && 0 <= r < 8 && 0 <= k < 8
    requires forall j :: 0 <= j < DSIZE2 && j / 8 % 2 == 1 ==> b[j] == 0
    ensures ColumnPass(Butterfly, b)[8 * (7 - r) + k] == ColumnPass(Butterfly, b)[8 * r + k]
  {
    hide Butterfly;
    PlaceOf(r, k);
    PlaceOf(7 - r, k);
    ButterflyIsMirrored(Column(b, k), r);
  }

  lemma MirroredRows(b: seq<int>, r: int)
    requires |b| == DSIZE2 && 0 <= r < 8
    requires forall j :: 0 <= j < DSIZE2 && j / 8 % 2 == 1 ==> b[j] == 0
    ensures var t := ColumnPass(Butterfly, b); Row(t, 7 - r) == Row(t, r)
  {
    hide ColumnPass;
    MirroredAt(b, r, 0); MirroredAt(b, r, 1); MirroredAt(b, r, 2); MirroredAt(b, r, 3);
    MirroredAt(b, r, 4); MirroredAt(b, r, 5); MirroredAt(b, r, 6); MirroredAt(b, r, 7);
  }

  // ----- the table and the cosines -----

  /** `c(n)` is the cosine of n * pi/16: the addition theorem, a quarter turn, and the sign before it. */
  ghost predicate IsCosine(c: int -> real)
  {
    c(0) == 1.0 && c(8) == 0.0 && (forall n :: 0 < n < 8 ==> c(n) > 0.0) &&
    forall m, n :: Adds(c, m, n)
  }

  predicate Adds(c: int -> real, m: int, n: int) { 2.0 * c(m) * c(n) == c(m + n) + c(m - n) }

  lemma Symmetries(c: int -> real, n: int)
    requires IsCosine(c)
    ensures c(-n) == c(n) && c(16 - n) == -c(n) && c(n + 16) == -c(n)
  {
    assert Adds(c, 0, n) && Adds(c, 8, 8 - n) && Adds(c, 8, n + 8);
  }

  lemma Positive(x: real, y: real)
    requires x > 0.0 && y > 0.0
    ensures x * y > 0.0
  {
  }

  /** A positive number lies between those whose squares enclose its square. */
  lemma Root(x: real, lo: real, hi: real)
    requires x > 0.0 && 0.0 <= lo && 0.0 <= hi && lo * lo <= x * x <= hi * hi
    ensures lo <= x <= hi
  {
    assert lo * lo - x * x == (lo - x) * (lo + x);
    assert x * x - hi * hi == (x - hi) * (x + hi);
    if x < lo { Positive(lo - x, lo + x); }
    if hi < x { Positive(x - hi, x + hi); }
  }

  /** Half an angle: with an enclosure of the cosine of 2n, one of that of n. */
  lemma Half(c: int -> real, n: int, lo: real, hi: real)
    requires IsCosine(c) && 0 < n < 8 && 0.0 <= lo && 0.0 <= hi
    requires 2.0 * lo * lo <= 1.0 + c(2 * n) <= 2.0 * hi * hi
    ensures lo <= c(n) <= hi
  {
    assert Adds(c, n, n);
    Root(c(n), lo, hi);
  }

  /** The cosines to nine places. */
  ghost predicate Enclosed(c: int -> real)
  {
    0.9807852803 <= c(1) <= 0.9807852806 &&
    0.9238795324 <= c(2) <= 0.9238795327 &&
    0.8314696122 <= c(3) <= 0.8314696125 &&
    0.7071067810 <= c(4) <= 0.7071067813 &&
    0.5555702329 <= c(5) <= 0.5555702332 &&
    0.3826834322 <= c(6) <= 0.3826834325 &&
    0.1950903215 <= c(7) <= 0.1950903225
  }

  lemma CosinesAreEnclosed(c: int -> real)
    requires IsCosine(c)
    ensures Enclosed(c)
  {
    Symmetries(c, 2); Symmetries(c, 4); Symmetries(c, 6);
    Half(c, 4, 0.7071067810, 0.7071067813);
    Half(c, 2, 0.9238795324, 0.9238795327);
    Half(c, 6, 0.3826834322, 0.3826834325);
    Half(c, 1, 0.9807852803, 0.9807852806);
    Half(c, 3, 0.8314696122, 0.8314696125);
    Half(c, 5, 0.5555702329, 0.5555702332);
    Half(c, 7, 0.1950903215, 0.1950903225);
  }

  /** The cosine of any multiple, by one of the first quarter turn. */
  lemma Folded(c: int -> real, n: int)
    requires IsCosine(c) && 0 <= n < 128
    ensures var m := n % 32;
      c(n) == if m <= 8 then c(m) else if m <= 16 then -c(16 - m) else if m <= 24 then -c(m - 16) else c(32 - m)
    decreases n
  {
    hide IsCosine;
    if n >= 32 {
      Folded(c, n - 32);
      Symmetries(c, n - 16);
      Symmetries(c, n - 32);
    } else if n > 16 {
      Symmetries(c, n - 16);
      Symmetries(c, 32 - n);
    } else if n > 8 {
      Symmetries(c, n);
    }
  }

  predicate Near(w: int, d: real, x: real) { -d <= w as real * d - 4096.0 * x <= d }

  lemma Row0(c: int -> real, k: int)
    requires IsCosine(c) && 0 <= k < 8
    ensures Near(Weights(0).At(k), c(k), c(k))
  {
    CosinesAreEnclosed(c);
    hide IsCosine;
  }

  lemma Row1(c: int -> real, k: int)
    requires IsCosine(c) && 0 <= k < 8
    ensures Near(Weights(1).At(k), c(k), c(3 * k))
  {
    CosinesAreEnclosed(c);
    assert c(0) == 1.0 && c(8) == 0.0;
    Folded(c, 9); Folded(c, 12); Folded(c, 15); Folded(c, 18); Folded(c, 21);
    hide IsCosine;
  }

  lemma Row2(c: int -> real, k: int)
    requires IsCosine(c) && 0 <= k < 8
    ensures Near(Weights(2).At(k), c(k), c(5 * k))
  {
    CosinesAreEnclosed(c);
    assert c(0) == 1.0 && c(8) == 0.0;
    Folded(c, 10); Folded(c, 15); Folded(c, 20); Folded(c, 25); Folded(c, 30);
    Folded(c, 35);
    hide IsCosine;
  }

  lemma Row3(c: int -> real, k: int)
    requires IsCosine(c) && 0 <= k < 8
    ensures Near(Weights(3).At(k), c(k), c(7 * k))
  {
    CosinesAreEnclosed(c);
    assert c(0) == 1.0 && c(8) == 0.0;
    Folded(c, 14); Folded(c, 21); Folded(c, 28); Folded(c, 35); Folded(c, 42);
    Folded(c, 49);
    hide IsCosine;
  }

  lemma Row4(c: int -> real, k: int)
    requires IsCosine(c) && 0 <= k < 8
    ensures Near(Weights(4).At(k), c(k), c(9 * k))
  {
    CosinesAreEnclosed(c);
    assert c(0) == 1.0 && c(8) == 0.0;
    Folded(c, 9); Folded(c, 18); Folded(c, 27); Folded(c, 36); Folded(c, 45);
    Folded(c, 54); Folded(c, 63);
    hide IsCosine;
  }

  lemma Row5(c: int -> real, k: int)
    requires IsCosine(c) && 0 <= k < 8
    ensures Near(Weights(5).At(k), c(k), c(11 * k))
  {
    CosinesAreEnclosed(c);
    assert c(0) == 1.0 && c(8) == 0.0;
    Folded(c, 11); Folded(c, 22); Folded(c, 33); Folded(c, 44); Folded(c, 55);
    Folded(c, 66); Folded(c, 77);
    hide IsCosine;
  }

  lemma Row6(c: int -> real, k: int)
    requires IsCosine(c) && 0 <= k < 8
    ensures Near(Weights(6).At(k), c(k), c(13 * k))
  {
    CosinesAreEnclosed(c);
    assert c(0) == 1.0 && c(8) == 0.0;
    Folded(c, 13); Folded(c, 26); Folded(c, 39); Folded(c, 52); Folded(c, 65);
    Folded(c, 78); Folded(c, 91);
    hide IsCosine;
  }

  lemma Row7(c: int -> real, k: int)
    requires IsCosine(c) && 0 <= k < 8
    ensures Near(Weights(7).At(k), c(k), c(15 * k))
  {
    CosinesAreEnclosed(c);
    assert c(0) == 1.0 && c(8) == 0.0;
    Folded(c, 15); Folded(c, 30); Folded(c, 45); Folded(c, 60); Folded(c, 75);
    Folded(c, 90); Folded(c, 105);
    hide IsCosine;
  }

  /** Entry (i, k) of the table is 4096 cos((2i+1)k pi/16) / cos(k pi/16), to within one. */
  lemma WeightsAreCosines(c: int -> real, i: int, k: int)
    requires IsCosine(c) && 0 <= i < 8 && 0 <= k < 8
    ensures Near(Weights(i).At(k), c(k), c((2 * i + 1) * k))
  {
    hide Near, Weights;
    if i == 0 {
      Row0(c, k);
    } else if i == 1 {
      Row1(c, k);
    } else if i == 2 {
      Row2(c, k);
    } else if i == 3 {
      Row3(c, k);
    } else if i == 4 {
      Row4(c, k);
    } else if i == 5 {
      Row5(c, k);
    } else if i == 6 {
      Row6(c, k);
    } else {
      Row7(c, k);
    }
  }

  // ----- the prescale -----

  /** The factor that coefficients of row or column `k` carry. */
  ghost function Prescale(c: int -> real, k: int): real { if k == 0 then 1.0 else 2.0 * c(4) * c(k) }

  /** Two such factors multiplied, by the addition theorem. */
  ghost function Scale(c: int -> real, j: int, k: int): real
  {
    if j == 0 && k == 0 then 1.0
    else if j == 0 then c(4 + k) + c(4 - k)
    else if k == 0 then c(4 + j) + c(4 - j)
    else c(j + k) + c(j - k)
  }

  lemma PrescalesMultiply(c: int -> real, j: int, k: int)
    requires IsCosine(c) && 0 <= j < 8 && 0 <= k < 8
    ensures Prescale(c, j) * Prescale(c, k) == Scale(c, j, k)
  {
    assert c(0) == 1.0 && c(8) == 0.0 && Adds(c, 4, 4) && Adds(c, 4, k) && Adds(c, 4, j) && Adds(c, j, k);
    hide IsCosine;
    if j > 0 && k > 0 {
      var h, x, y := c(4), c(j), c(k);
      assert (2.0 * h * x) * (2.0 * h * y) == (2.0 * h * h) * (2.0 * x * y);
    }
  }

  /** The cosines that sums and differences of two rows lead to. */
  lemma NearbyCosines(c: int -> real)
    requires IsCosine(c)
    ensures Enclosed(c) && c(0) == 1.0 && c(8) == 0.0
    ensures c(9) == -c(7) && c(10) == -c(6) && c(11) == -c(5) && c(12) == -c(4) && c(13) == -c(3) && c(14) == -c(2)
    ensures c(-1) == c(1) && c(-2) == c(2) && c(-3) == c(3) && c(-4) == c(4) && c(-5) == c(5) && c(-6) == c(6)
  {
    CosinesAreEnclosed(c);
    assert c(0) == 1.0 && c(8) == 0.0;
    hide Enclosed;
    Symmetries(c, 1); Symmetries(c, 2); Symmetries(c, 3); Symmetries(c, 4); Symmetries(c, 5); Symmetries(c, 6);
    Symmetries(c, 7);
  }

  predicate NearScale(s: int, x: real) { -1.0 <= s as real - 1048576.0 * x <= 1.0 }

  lemma ScaleRow0(c: int -> real, k: int)
    requires IsCosine(c) && 0 <= k < 8
    ensures NearScale(Lookup(AANSCALES, 0 + k), Scale(c, 0, k))
  {
    NearbyCosines(c);
    hide IsCosine;
  }

  lemma ScaleRow1(c: int -> real, k: int)
    requires IsCosine(c) && 0 <= k < 8
    ensures NearScale(Lookup(AANSCALES, 8 + k), Scale(c, 1, k))
  {
    NearbyCosines(c);
    PlaceOf(1, k);
    hide IsCosine;
  }

  lemma ScaleRow2(c: int -> real, k: int)
    requires IsCosine(c) && 0 <= k < 8
    ensures NearScale(Lookup(AANSCALES, 16 + k), Scale(c, 2, k))
  {
    NearbyCosines(c);
    PlaceOf(2, k);
    hide IsCosine;
  }

  lemma ScaleRow3(c: int -> real, k: int)
    requires IsCosine(c) && 0 <= k < 8
    ensures NearScale(Lookup(AANSCALES, 24 + k), Scale(c, 3, k))
  {
    NearbyCosines(c);
    PlaceOf(3, k);
    hide IsCosine;
  }

  lemma ScaleRow4(c: int -> real, k: int)
    requires IsCosine(c) && 0 <= k < 8
    ensures NearScale(Lookup(AANSCALES, 32 + k), Scale(c, 4, k))
  {
    NearbyCosines(c);
    PlaceOf(4, k);
    hide IsCosine;
  }

  lemma ScaleRow5(c: int -> real, k: int)
    requires IsCosine(c) && 0 <= k < 8
    ensures NearScale(Lookup(AANSCALES, 40 + k), Scale(c, 5, k))
  {
    NearbyCosines(c);
    PlaceOf(5, k);
    hide IsCosine;
  }

  lemma ScaleRow6(c: int -> real, k: int)
    requires IsCosine(c) && 0 <= k < 8
    ensures NearScale(Lookup(AANSCALES, 48 + k), Scale(c, 6, k))
  {
    NearbyCosines(c);
    PlaceOf(6, k);
    hide IsCosine;
  }

  lemma ScaleRow7(c: int -> real, k: int)
    requires IsCosine(c) && 0 <= k < 8
    ensures NearScale(Lookup(AANSCALES, 56 + k), Scale(c, 7, k))
  {
    NearbyCosines(c);
    PlaceOf(7, k);
    hide IsCosine;
  }

  lemma ScaleRows(c: int -> real, j: int, k: int)
    requires IsCosine(c) && 0 <= j < 8 && 0 <= k < 8
    ensures NearScale(Lookup(AANSCALES, 8 * j + k), Scale(c, j, k))
  {
    hide NearScale, Lookup, Scale;
    match j
    case 0 => ScaleRow0(c, k);
    case 1 => ScaleRow1(c, k);
    case 2 => ScaleRow2(c, k);
    case 3 => ScaleRow3(c, k);
    case 4 => ScaleRow4(c, k);
    case 5 => ScaleRow5(c, k);
    case 6 => ScaleRow6(c, k);
    case 7 => ScaleRow7(c, k);
  }

  /** The prescale factors are those of the rows and columns multiplied, to 20 bits. */
  lemma ScalesArePrescales(c: int -> real, j: int, k: int)
    requires IsCosine(c) && 0 <= j < 8 && 0 <= k < 8
    ensures NearScale(Lookup(AANSCALES, 8 * j + k), Prescale(c, j) * Prescale(c, k))
  {
    ScaleRows(c, j, k);
    PrescalesMultiply(c, j, k);
    hide NearScale, Prescale, Lookup, Scale;
  }

  /** The factor that the coefficient at raster position `p` carries. */
  ghost function PlaceScale(c: int -> real, p: int): real { Scale(c, p / 8, p % 8) }

  lemma PlaceIsScaled(c: int -> real, p: int)
    requires IsCosine(c) && 0 <= p < 64
    ensures NearScale(Lookup(AANSCALES, p), PlaceScale(c, p))
  {
    hide IsCosine, Scale, NearScale, Lookup;
    var j, k := p / 8, p % 8;
    ScaleRows(c, j, k);
    assert Lookup(AANSCALES, 8 * j + k) == Lookup(AANSCALES, p);
  }

  /** `w` is `x` in 16-bit fixed point. */
  predicate FixedPoint(w: int, x: real) { -0.6 <= w as real - 65536.0 * x <= 0.6 }

  /** `t` is `q` times the factor of zig-zag place `n`. */
  ghost predicate IsPrescaled(c: int -> real, n: nat, q: Byte, t: int)
    requires n < 64
  {
    exists w :: FixedPoint(w, PlaceScale(c, Zscan(n))) && t == q * w
  }

  /** An uploaded table: entry `n` is the byte at place `n` of the upload, low byte of a halfword first,
      times the factor of its zig-zag place. */
  lemma TableIsPrescaled(c: int -> real, mem: Stream, adr: nat, n: nat, lo: Byte, hi: Byte)
    requires IsCosine(c) && n < 64 && mem((adr + n) / 2) == lo + 256 * hi
    ensures IsPrescaled(c, n, if (adr + n) % 2 == 0 then lo else hi, IqTable(mem, adr)[n])
  {
    PlaceIsScaled(c, Zscan(n));
    TableEntry(mem, adr, n, lo, hi);
    hide PlaceScale, IsCosine, Zscan, Lookup, IqTable;
    assert FixedPoint((Lookup(AANSCALES, Zscan(n)) + 8) / 16, PlaceScale(c, Zscan(n)));
  }

  lemma TableEntry(mem: Stream, adr: nat, n: nat, lo: Byte, hi: Byte)
    requires n < 64 && mem((adr + n) / 2) == lo + 256 * hi
    ensures IqTable(mem, adr)[n] ==
      (if (adr + n) % 2 == 0 then lo else hi) * ((Lookup(AANSCALES, Zscan(n)) + 8) / 16)
  {
    hide Lookup, Zscan;
    assert (lo + 256 * hi) % 256 == lo && (lo + 256 * hi) / 256 == hi;
  }

  /** Command 4 uploads the luma table and the chroma table behind it. */
  lemma TablesAreUploaded(c: int -> real, s: State, mem: Stream, adr: nat, bcr: nat, n: nat, lo: Byte, hi: Byte,
      lo': Byte, hi': Byte)
    requires IsCosine(c) && n < 64 && s.reg0 / 0x1000_0000 % 16 == 4
    requires mem((adr + n) / 2) == lo + 256 * hi && mem((adr + 64 + n) / 2) == lo' + 256 * hi'
    ensures var d := AfterDma0(s, mem, Request(adr, bcr, 0x0100_0201));
      IsPrescaled(c, n, if (adr + n) % 2 == 0 then lo else hi, d.iqY[n]) &&
      IsPrescaled(c, n, if (adr + n) % 2 == 0 then lo' else hi', d.iqUv[n])
  {
    TableIsPrescaled(c, mem, adr, n, lo, hi);
    TableIsPrescaled(c, mem, adr + 64, n, lo', hi');
    UploadTakesTables(s, mem, adr, bcr);
    hide *;
    assert (adr + 64 + n) % 2 == (adr + n) % 2;
  }

  lemma UploadTakesTables(s: State, mem: Stream, adr: nat, bcr: nat)
    requires s.reg0 / 0x1000_0000 % 16 == 4
    ensures var d := AfterDma0(s, mem, Request(adr, bcr, 0x0100_0201));
      d.iqY == IqTable(mem, adr) && d.iqUv == IqTable(mem, adr + 64)
  {
    hide IqTable;
  }
}
