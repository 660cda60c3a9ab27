/** The inverse DCT of the motion decoder (libpcsxcore/mdec.c:84-202).

    The C routine skips work: a column whose mask bit is clear is only filled with its first
    entry, and a block with nothing but a DC coefficient is filled at once.  `Idct` below is
    that routine, working in place; `DenseIdct` is the transform it must equal, which applies
    the 8-point butterfly to all eight columns and then to all eight rows.

    Skipping is sound for every 8-point transform that spreads a lone DC entry over its line,
    so the passes take the transform as a parameter and `Butterfly` is supplied at the end.
    C `int` is an unbounded `int` here and `>>` is division rounding down.
  */
module Idct {
  const DSIZE := 8
  const DSIZE2 := 64

  /** The multipliers, 12-bit fixed point: SCALER(c, 12) of a 24-bit constant. */
  const FIX_1_082392200 := (18159528 + 2048) / 4096
  const FIX_1_414213562 := (23726566 + 2048) / 4096
  const FIX_1_847759065 := (31000253 + 2048) / 4096
  const FIX_2_613125930 := (43840978 + 2048) / 4096

  /** One row or one column of a block. */
  datatype Line = Line(e0: int, e1: int, e2: int, e3: int, e4: int, e5: int, e6: int, e7: int) {
    function At(k: int): int
    {
      if k == 0 then e0 else if k == 1 then e1 else if k == 2 then e2 else if k == 3 then e3
      else if k == 4 then e4 else if k == 5 then e5 else if k == 6 then e6 else e7
    }
  }

  function Dc(d: int): Line { Line(d, 0, 0, 0, 0, 0, 0, 0) }

  function Flat(d: int): Line { Line(d, d, d, d, d, d, d, d) }

  type Transform = Line -> Line

  ghost predicate SpreadsDc(f: Transform)
  {
    forall d :: f(Dc(d)) == Flat(d)
  }

  function Scale12(x: int): int { x / 4096 }

  /** The 8-point butterfly that both passes apply. */
  function Butterfly(p: Line): Line
  {
    var s04 := p.e0 + p.e4;
    var d04 := p.e0 - p.e4;
    var s26 := p.e2 + p.e6;
    var d26 := Scale12((p.e2 - p.e6) * FIX_1_414213562) - s26;
    var tmp0 := s04 + s26;
    var tmp3 := s04 - s26;
    var tmp1 := d04 + d26;
    var tmp2 := d04 - d26;
    var z13 := p.e3 + p.e5;
    var z10 := p.e3 - p.e5;
    var z11 := p.e1 + p.e7;
    var z12 := p.e1 - p.e7;
    var tmp7 := z11 + z13;
    var z5 := (z12 - z10) * FIX_1_847759065;
    var tmp6 := Scale12(z10 * FIX_2_613125930 + z5) - tmp7;
    var tmp5 := Scale12((z11 - z13) * FIX_1_414213562) - tmp6;
    var tmp4 := Scale12(z12 * FIX_1_082392200 - z5) + tmp5;
    Line(tmp0 + tmp7, tmp1 + tmp6, tmp2 + tmp5, tmp3 - tmp4,
         tmp3 + tmp4, tmp2 - tmp5, tmp1 - tmp6, tmp0 - tmp7)
  }

  lemma ButterflySpreadsDc()
    ensures SpreadsDc(Butterfly)
  {
    forall d ensures Butterfly(Dc(d)) == Flat(d) {
      assert 0 * FIX_1_414213562 == 0 && 0 * FIX_1_847759065 == 0;
    }
  }

  // ----- the dense transform -----

  function Column(b: seq<int>, c: int): Line
    requires |b| == DSIZE2 && 0 <= c < DSIZE
  {
    Line(b[c], b[c + 8], b[c + 16], b[c + 24], b[c + 32], b[c + 40], b[c + 48], b[c + 56])
  }

  function Row(b: seq<int>, r: int): Line
    requires |b| == DSIZE2 && 0 <= r < DSIZE
  {
    Line(b[8 * r], b[8 * r + 1], b[8 * r + 2], b[8 * r + 3], b[8 * r + 4], b[8 * r + 5], b[8 * r + 6], b[8 * r + 7])
  }

  function ColumnPass(f: Transform, b: seq<int>): (t: seq<int>)
    requires |b| == DSIZE2
    ensures |t| == DSIZE2
  {
    seq(DSIZE2, j requires 0 <= j < DSIZE2 => f(Column(b, j % 8)).At(j / 8))
  }

  function RowPass(f: Transform, b: seq<int>): (t: seq<int>)
    requires |b| == DSIZE2
    ensures |t| == DSIZE2
  {
    seq(DSIZE2, j requires 0 <= j < DSIZE2 => f(Row(b, j / 8)).At(j % 8))
  }

  function Dense(f: Transform, b: seq<int>): (t: seq<int>)
    requires |b| == DSIZE2
  {
    RowPass(f, ColumnPass(f, b))
  }

  function DenseIdct(b: seq<int>): (t: seq<int>)
    requires |b| == DSIZE2
  {
    Dense(Butterfly, b)
  }

  // ----- when skipping is allowed -----

  /** What `used_col` says about a block: -1, or the mask of its columns. */
  datatype UsedColumns = DcOnly | Columns(mask: set<nat>)

  /** What rl2blk promises about the mask it passes (mdec.c:297-302): rows 1-7 of an unmarked
      column are zero, and -1 means that every coefficient but DC is zero. */
  ghost predicate Describes(used: UsedColumns, b: seq<int>)
    requires |b| == DSIZE2
  {
    match used
    case DcOnly => forall j :: 1 <= j < DSIZE2 ==> b[j] == 0
    case Columns(mask) => forall j :: 8 <= j < DSIZE2 && j % 8 !in mask ==> b[j] == 0
  }

  /** A column with nothing below row 0 comes out of the column pass constant. */
  lemma FlatColumn(f: Transform, b: seq<int>, j: int)
    requires SpreadsDc(f) && |b| == DSIZE2 && 0 <= j < DSIZE2
    requires forall k :: 8 <= k < DSIZE2 && k % 8 == j % 8 ==> b[k] == 0
    ensures ColumnPass(f, b)[j] == b[j % 8]
  {
    assert Column(b, j % 8) == Dc(b[j % 8]);
  }

  /** If only column 0 is nonzero, the row pass copies it along each row. */
  lemma FirstColumnSpreads(f: Transform, t: seq<int>, j: int)
    requires SpreadsDc(f) && |t| == DSIZE2 && 0 <= j < DSIZE2
    requires forall i :: 0 <= i < DSIZE2 && i % 8 != 0 ==> t[i] == 0
    ensures RowPass(f, t)[j] == t[j - j % 8]
  {
    var r := j / 8;
    assert Row(t, r) == Dc(t[8 * r]);
  }

  /** A block with only its DC coefficient decodes to that value everywhere. */
  lemma DenseOfDc(f: Transform, b: seq<int>, j: int)
    requires SpreadsDc(f) && |b| == DSIZE2 && 0 <= j < DSIZE2
    requires forall i :: 1 <= i < DSIZE2 ==> b[i] == 0
    ensures Dense(f, b)[j] == b[0]
  {
    var t := ColumnPass(f, b);
    forall i | 0 <= i < DSIZE2
      ensures t[i] == if i % 8 == 0 then b[0] else 0
    {
      FlatColumn(f, b, i);
    }
    FirstColumnSpreads(f, t, j);
  }

  // ----- the routine -----

  /** The stretch of the macroblock buffer that holds the block starting at `at`. */
  ghost function Block(blk: array<int>, at: nat): seq<int>
    requires at + DSIZE2 <= blk.Length
    reads blk
  {
    blk[at..at + DSIZE2]
  }

  /** Nothing outside the block at `at` differs from `was`. */
  ghost predicate SameOutside(now: seq<int>, was: seq<int>, at: nat)
  {
    |now| == |was| && forall i :: 0 <= i < |now| && !(at <= i < at + DSIZE2) ==> now[i] == was[i]
  }

  method FillColumn(blk: array<int>, p: nat, val: int)
    requires p + 56 < blk.Length
    modifies blk
    ensures forall i :: 0 <= i < blk.Length ==>
      blk[i] == if p <= i <= p + 56 && (i - p) % 8 == 0 then val else old(blk[i])
  {
    blk[p], blk[p + 8], blk[p + 16], blk[p + 24] := val, val, val, val;
    blk[p + 32], blk[p + 40], blk[p + 48], blk[p + 56] := val, val, val, val;
  }

  method FillRow(blk: array<int>, p: nat, val: int)
    requires p + 7 < blk.Length
    modifies blk
    ensures forall i :: 0 <= i < blk.Length ==> blk[i] == if p <= i < p + 8 then val else old(blk[i])
  {
    blk[p], blk[p + 1], blk[p + 2], blk[p + 3] := val, val, val, val;
    blk[p + 4], blk[p + 5], blk[p + 6], blk[p + 7] := val, val, val, val;
  }

  /** Writes a line down the column whose top entry is `p`. */
  method PutColumn(blk: array<int>, p: nat, t: Line)
    requires p + 56 < blk.Length
    modifies blk
    ensures forall i :: 0 <= i < blk.Length ==>
      blk[i] == if p <= i <= p + 56 && (i - p) % 8 == 0 then t.At((i - p) / 8) else old(blk[i])
  {
    blk[p], blk[p + 56], blk[p + 8], blk[p + 48] := t.e0, t.e7, t.e1, t.e6;
    blk[p + 16], blk[p + 40], blk[p + 32], blk[p + 24] := t.e2, t.e5, t.e4, t.e3;
  }

  /** Writes a line along the row whose first entry is `p`. */
  method PutRow(blk: array<int>, p: nat, t: Line)
    requires p + 7 < blk.Length
    modifies blk
    ensures forall i :: 0 <= i < blk.Length ==> blk[i] == if p <= i < p + 8 then t.At(i - p) else old(blk[i])
  {
    blk[p], blk[p + 7], blk[p + 1], blk[p + 6] := t.e0, t.e7, t.e1, t.e6;
    blk[p + 2], blk[p + 5], blk[p + 4], blk[p + 3] := t.e2, t.e5, t.e4, t.e3;
  }

  /** One column of the column loop, when its mask bit is set; the column still holds what `b` holds. */
  method TransformColumn(f: Transform, blk: array<int>, at: nat, i: nat, ghost b: seq<int>)
    requires at + DSIZE2 <= blk.Length && i < DSIZE && |b| == DSIZE2
    requires forall j :: 0 <= j < DSIZE2 && j % 8 == i ==> blk[at..][j] == b[j]
    modifies blk
    ensures forall k :: 0 <= k < blk.Length ==>
      blk[k] == if at <= k < at + DSIZE2 && (k - at) % 8 == i then ColumnPass(f, b)[k - at] else old(blk[k])
  {
    var p := at + i;
    assert blk[at..][i] == blk[p] && blk[at..][i + 8] == blk[p + 8] && blk[at..][i + 16] == blk[p + 16] &&
      blk[at..][i + 24] == blk[p + 24];
    assert blk[at..][i + 32] == blk[p + 32] && blk[at..][i + 40] == blk[p + 40] &&
      blk[at..][i + 48] == blk[p + 48] && blk[at..][i + 56] == blk[p + 56];
    var line := Line(blk[p], blk[p + 8], blk[p + 16], blk[p + 24], blk[p + 32], blk[p + 40], blk[p + 48], blk[p + 56]);
    assert line == Column(b, i);
    PutColumn(blk, p, f(line));
  }

  lemma InRow(i: int)
    ensures forall j :: 8 * i <= j < 8 * i + 8 ==> j / 8 == i && j % 8 == j - 8 * i
  {
  }

  /** Row `i` of the row pass. */
  lemma RowAt(f: Transform, b: seq<int>, i: nat)
    requires |b| == DSIZE2 && i < DSIZE
    ensures forall j :: 8 * i <= j < 8 * i + 8 ==> RowPass(f, b)[j] == f(Row(b, i)).At(j - 8 * i)
  {
    InRow(i);
  }

  /** One row of the row loop; the row still holds what `b` holds. */
  method TransformRow(f: Transform, blk: array<int>, at: nat, i: nat, ghost b: seq<int>)
    requires at + DSIZE2 <= blk.Length && i < DSIZE && |b| == DSIZE2
    requires forall k :: 8 * i <= k < 8 * i + 8 ==> blk[at..][k] == b[k]
    modifies blk
    ensures forall k :: 0 <= k < blk.Length ==>
      blk[k] == if at + 8 * i <= k < at + 8 * i + 8 then RowPass(f, b)[k - at] else old(blk[k])
  {
    var p := at + 8 * i;
    assert blk[at..][8 * i] == blk[p] && blk[at..][8 * i + 1] == blk[p + 1] && blk[at..][8 * i + 2] == blk[p + 2] &&
      blk[at..][8 * i + 3] == blk[p + 3];
    assert blk[at..][8 * i + 4] == blk[p + 4] && blk[at..][8 * i + 5] == blk[p + 5] &&
      blk[at..][8 * i + 6] == blk[p + 6] && blk[at..][8 * i + 7] == blk[p + 7];
    var line := Line(blk[p], blk[p + 1], blk[p + 2], blk[p + 3], blk[p + 4], blk[p + 5], blk[p + 6], blk[p + 7]);
    assert line == Row(b, i);
    RowAt(f, b, i);
    hide RowPass;
    PutRow(blk, p, f(line));
  }

  /** A column whose mask bit is clear: its top entry goes down the whole column, and a column that is
      not zero is added to the mask. */
  method SpreadColumn(f: Transform, blk: array<int>, at: nat, i: nat, used: set<nat>, ghost b: seq<int>)
      returns (marked: set<nat>)
    requires SpreadsDc(f) && at + DSIZE2 <= blk.Length && i < DSIZE && |b| == DSIZE2 && i !in used
    requires forall k :: at <= k < at + DSIZE2 && (k - at) % 8 == i ==> blk[k] == b[k - at]
    requires forall j :: 8 <= j < DSIZE2 && j % 8 == i ==> b[j] == 0
    modifies blk
    ensures forall k :: 0 <= k < blk.Length ==>
      blk[k] == if at <= k < at + DSIZE2 && (k - at) % 8 == i then ColumnPass(f, b)[k - at] else old(blk[k])
    ensures marked == used || marked == used + {i}
    ensures i !in marked ==> forall k :: at <= k < at + DSIZE2 && (k - at) % 8 == i ==> blk[k] == 0
  {
    var p := at + i;
    marked := used;
    forall j | 0 <= j < DSIZE2 && j % 8 == i ensures ColumnPass(f, b)[j] == b[i] {
      FlatColumn(f, b, j);
    }
    hide ColumnPass;
    assert blk[p] == b[i];
    if blk[p] != 0 {
      FillColumn(blk, p, blk[p]);
      marked := marked + {i};
    }
  }

  /** The column loop (mdec.c:97-160): returns the mask with the columns it filled added. */
  method ColumnLoop(f: Transform, blk: array<int>, at: nat, used: set<nat>) returns (marked: set<nat>)
    requires SpreadsDc(f) && at + DSIZE2 <= blk.Length
    requires Describes(Columns(used), Block(blk, at))
    modifies blk
    ensures Block(blk, at) == ColumnPass(f, old(Block(blk, at)))
    ensures SameOutside(blk[..], old(blk[..]), at)
    ensures forall k :: at <= k < at + DSIZE2 && (k - at) % 8 !in marked ==> blk[k] == 0
  {
    hide ColumnPass, SpreadsDc;
    marked := used;
    ghost var b := Block(blk, at);
    ghost var t := ColumnPass(f, b);
    for i := 0 to DSIZE
      invariant SameOutside(blk[..], old(blk[..]), at)
      invariant forall k :: at <= k < at + DSIZE2 ==> blk[k] == if (k - at) % 8 < i then t[k - at] else b[k - at]
      invariant forall c :: i <= c < DSIZE ==> (c in marked <==> c in used)
      invariant forall k :: at <= k < at + DSIZE2 && (k - at) % 8 < i && (k - at) % 8 !in marked ==> blk[k] == 0
    {
      if i !in marked {
        marked := SpreadColumn(f, blk, at, i, marked, b);
      } else {
        TransformColumn(f, blk, at, i, b);
      }
    }
  }

  /** The row loop (mdec.c:168-200). */
  method RowLoop(f: Transform, blk: array<int>, at: nat)
    requires at + DSIZE2 <= blk.Length
    modifies blk
    ensures Block(blk, at) == RowPass(f, old(Block(blk, at)))
    ensures SameOutside(blk[..], old(blk[..]), at)
  {
    ghost var b := Block(blk, at);
    ghost var t := RowPass(f, b);
    for i := 0 to DSIZE
      invariant SameOutside(blk[..], old(blk[..]), at)
      invariant forall k :: at <= k < at + DSIZE2 ==> blk[k] == if k - at < 8 * i then t[k - at] else b[k - at]
    {
      TransformRow(f, blk, at, i, b);
    }
  }

  /** The short row loop, taken when only column 0 is in use (mdec.c:163-166). */
  method FillRows(blk: array<int>, at: nat)
    requires at + DSIZE2 <= blk.Length
    modifies blk
    ensures forall k :: at <= k < at + DSIZE2 ==> blk[k] == old(blk[k - (k - at) % 8])
    ensures SameOutside(blk[..], old(blk[..]), at)
  {
    for i := 0 to DSIZE
      invariant SameOutside(blk[..], old(blk[..]), at)
      invariant forall k :: at <= k < at + DSIZE2 ==>
        blk[k] == if k - at < 8 * i then old(blk[k - (k - at) % 8]) else old(blk[k])
    {
      InRow(i);
      FillRow(blk, at + DSIZE * i, blk[at + DSIZE * i]);
    }
  }

  /** The shortcut for a block with nothing but DC (mdec.c:91-95). */
  method FillBlock(blk: array<int>, at: nat)
    requires at + DSIZE2 <= blk.Length
    modifies blk
    ensures forall k :: at <= k < at + DSIZE2 ==> blk[k] == old(blk[at])
    ensures SameOutside(blk[..], old(blk[..]), at)
  {
    var v := blk[at];
    for i := 0 to DSIZE2
      invariant forall k :: at <= k < at + i ==> blk[k] == v
      invariant SameOutside(blk[..], old(blk[..]), at)
    {
      blk[at + i] := v;
    }
  }

  method SkippingTransform(f: Transform, blk: array<int>, at: nat, used: UsedColumns)
    requires SpreadsDc(f) && at + DSIZE2 <= blk.Length
    requires Describes(used, Block(blk, at))
    modifies blk
    ensures Block(blk, at) == Dense(f, old(Block(blk, at)))
    ensures SameOutside(blk[..], old(blk[..]), at)
  {
    ghost var b := Block(blk, at);
    if used.DcOnly? {
      FillBlock(blk, at);
      forall j | 0 <= j < DSIZE2 ensures Dense(f, b)[j] == b[0] {
        DenseOfDc(f, b, j);
      }
      return;
    }
    var marked := ColumnLoop(f, blk, at, used.mask);
    if marked == {0} {
      ghost var t := Block(blk, at);
      FillRows(blk, at);
      forall j | 0 <= j < DSIZE2 ensures RowPass(f, t)[j] == t[j - j % 8] {
        FirstColumnSpreads(f, t, j);
      }
    } else {
      RowLoop(f, blk, at);
    }
  }

  /** idct: for every mask that describes the block, the skipping routine is the dense transform. */
  method Idct(blk: array<int>, at: nat, used: UsedColumns)
    requires at + DSIZE2 <= blk.Length
    requires Describes(used, Block(blk, at))
    modifies blk
    ensures Block(blk, at) == DenseIdct(old(Block(blk, at)))
    ensures SameOutside(blk[..], old(blk[..]), at)
  {
    ButterflySpreadsDc();
    SkippingTransform(Butterfly, blk, at, used);
  }
}
