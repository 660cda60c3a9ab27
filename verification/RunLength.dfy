/** The run-length decoder of the motion decoder (libpcsxcore/mdec.c:233-310).

    The coded stream is the emulated memory, read as halfwords; it is a total function here, so
    reading past the end of a transfer is reading whatever follows.
  */
module RunLength {
  import opened Idct

  type Halfword = h: int | 0 <= h < 0x10000

  type Stream = nat -> Halfword

  /** A dequantisation table: one entry per zig-zag position. */
  type Table = t: seq<int> | |t| == DSIZE2 witness seq(DSIZE2, _ => 0)

  const MDEC_END_OF_DATA: Halfword := 0xfe00

  function RleRun(h: Halfword): nat { h / 1024 }

  /** The low ten bits, sign-extended. */
  function RleVal(h: Halfword): int
  {
    if h % 1024 < 512 then h % 1024 else h % 1024 - 1024
  }

  /** SCALER(x, 12) and SCALER(x, 9): shifts with rounding. */
  function Scaler12(x: int): int { (x + 2048) / 4096 }

  function Scaler9(x: int): int { (x + 256) / 512 }

  // ----- the zig-zag order -----

  /** The table zscan, eight entries a row. */
  const ZSCAN: seq<seq<nat>> := [
    [0, 1, 8, 16, 9, 2, 3, 10],
    [17, 24, 32, 25, 18, 11, 4, 5],
    [12, 19, 26, 33, 40, 48, 41, 34],
    [27, 20, 13, 6, 7, 14, 21, 28],
    [35, 42, 49, 56, 57, 50, 43, 36],
    [29, 22, 15, 23, 30, 37, 44, 51],
    [58, 59, 52, 45, 38, 31, 39, 46],
    [53, 60, 61, 54, 47, 55, 62, 63]
  ]

  /** The inverse table: the zig-zag position of each raster position. */
  const POSITION: seq<seq<nat>> := [
    [0, 1, 5, 6, 14, 15, 27, 28],
    [2, 4, 7, 13, 16, 26, 29, 42],
    [3, 8, 12, 17, 25, 30, 41, 43],
    [9, 11, 18, 24, 31, 40, 44, 53],
    [10, 19, 23, 32, 39, 45, 52, 54],
    [20, 22, 33, 38, 46, 51, 55, 60],
    [21, 34, 37, 47, 50, 56, 59, 61],
    [35, 36, 48, 49, 57, 58, 62, 63]
  ]

  function Lookup(rows: seq<seq<nat>>, k: nat): nat
    requires |rows| == 8 && (forall i :: 0 <= i < 8 ==> |rows[i]| == 8) && k < DSIZE2
  {
    rows[k / 8][k % 8]
  }

  /** One step of the walk along the anti-diagonals (ITU-T T.81, A.3.6), on raster positions. */
  function NextInZigzag(p: nat): nat
    requires p < 63
  {
    var r, c := p / 8, p % 8;
    if (r + c) % 2 == 0 then
      if c == 7 then p + 8 else if r == 0 then p + 1 else p - 7
    else
      if r == 7 then p + 1 else if c == 0 then p + 8 else p + 7
  }

  lemma FirstHalfFollowsWalk(k: nat)
    requires k < 32
    ensures Lookup(ZSCAN, k) < 63 && Lookup(ZSCAN, k + 1) == NextInZigzag(Lookup(ZSCAN, k))
    ensures Lookup(POSITION, Lookup(ZSCAN, k)) == k
  {
    match k
    case 0 => case 1 => case 2 => case 3 => case 4 => case 5 => case 6 => case 7 =>
    case 8 => case 9 => case 10 => case 11 => case 12 => case 13 => case 14 => case 15 =>
    case 16 => case 17 => case 18 => case 19 => case 20 => case 21 => case 22 => case 23 =>
    case 24 => case 25 => case 26 => case 27 => case 28 => case 29 => case 30 => case 31 =>
  }

  lemma SecondHalfFollowsWalk(k: nat)
    requires 32 <= k < 63
    ensures Lookup(ZSCAN, k) < 63 && Lookup(ZSCAN, k + 1) == NextInZigzag(Lookup(ZSCAN, k))
    ensures Lookup(POSITION, Lookup(ZSCAN, k)) == k
  {
    match k
    case 32 => case 33 => case 34 => case 35 => case 36 => case 37 => case 38 => case 39 =>
    case 40 => case 41 => case 42 => case 43 => case 44 => case 45 => case 46 => case 47 =>
    case 48 => case 49 => case 50 => case 51 => case 52 => case 53 => case 54 => case 55 =>
    case 56 => case 57 => case 58 => case 59 => case 60 => case 61 => case 62 =>
  }

  function Zscan(k: nat): (p: nat)
    requires k < DSIZE2
    ensures p < DSIZE2
  {
    if k < 32 then FirstHalfFollowsWalk(k); Lookup(ZSCAN, k)
    else if k < 63 then SecondHalfFollowsWalk(k); Lookup(ZSCAN, k)
    else Lookup(ZSCAN, 63)
  }

  /** The table is the diagonal walk from the DC corner to the opposite one, and visits no place twice. */
  lemma ZscanIsTheZigzagWalk(k: nat)
    requires k < DSIZE2
    ensures Zscan(0) == 0 && Zscan(63) == 63
    ensures k < 63 ==> Zscan(k) < 63 && Zscan(k + 1) == NextInZigzag(Zscan(k))
    ensures forall j :: 0 <= j < DSIZE2 && Zscan(j) == Zscan(k) ==> j == k
  {
    assert Lookup(ZSCAN, 0) == 0 && Lookup(ZSCAN, 63) == 63 && Lookup(POSITION, 63) == 63;
    forall j | 0 <= j < 63
      ensures Lookup(POSITION, Zscan(j)) == j && Zscan(j) < 63 && Zscan(j + 1) == NextInZigzag(Zscan(j))
    {
      if j < 32 { FirstHalfFollowsWalk(j); } else { SecondHalfFollowsWalk(j); }
    }
  }

  // ----- one block -----

  /** What decoding the AC codes of a block leaves: the coefficients, the mask of columns in use
      below row 0, the last zig-zag position and the place in the stream. */
  datatype Decoded = Decoded(coeffs: seq<int>, mask: set<nat>, k: nat, pos: nat)

  function Dequantise(h: Halfword, k: nat, scale: nat, table: Table): int
    requires k < DSIZE2
  {
    Scaler12(RleVal(h) * table[k] * scale)
  }

  function MarkColumn(p: nat, mask: set<nat>): set<nat>
  {
    if p > 7 then mask + {p % 8} else mask
  }

  /** The AC loop of rl2blk (mdec.c:281-296), from zig-zag position `k` at `pos`. */
  function DecodeAc(s: Stream, pos: nat, k: nat, scale: nat, table: Table, coeffs: seq<int>,
      mask: set<nat>): (d: Decoded)
    requires k < DSIZE2 && |coeffs| == DSIZE2
    ensures |d.coeffs| == DSIZE2
    ensures pos < d.pos <= pos + DSIZE2 - k
    decreases DSIZE2 - k
  {
    var h := s(pos);
    var k' := k + RleRun(h) + 1;
    if h == MDEC_END_OF_DATA then Decoded(coeffs, mask, k, pos + 1)
    else if k' > 63 then Decoded(coeffs, mask, k', pos + 1)
    else DecodeAc(s, pos + 1, k', scale, table, coeffs[Zscan(k') := Dequantise(h, k', scale, table)],
      MarkColumn(Zscan(k'), mask))
  }

  /** One coded block: the header halfword holds the quantiser scale and the DC value. */
  function DecodeBlock(s: Stream, pos: nat, table: Table): (d: Decoded)
    ensures |d.coeffs| == DSIZE2
    ensures pos + 2 <= d.pos <= pos + 65
  {
    var h := s(pos);
    var dc := seq(DSIZE2, _ => 0)[0 := Scaler9(table[0] * RleVal(h))];
    DecodeAc(s, pos + 1, 0, RleRun(h), table, dc, {})
  }

  function MaskOf(d: Decoded): UsedColumns
  {
    if d.k == 0 then DcOnly else Columns(d.mask)
  }

  /** The mask passed to idct describes the block: a clear column is zero below row 0, and -1 is
      passed only when every AC coefficient is zero. */
  lemma {:induction false} MaskIsSound(s: Stream, pos: nat, k: nat, scale: nat, table: Table, coeffs: seq<int>,
      mask: set<nat>)
    requires k < DSIZE2 && |coeffs| == DSIZE2
    requires Describes(Columns(mask), coeffs)
    ensures var d := DecodeAc(s, pos, k, scale, table, coeffs, mask);
      Describes(Columns(d.mask), d.coeffs) && d.k >= k && (d.k == k ==> d.coeffs == coeffs)
    decreases DSIZE2 - k
  {
    var h := s(pos);
    var k' := k + RleRun(h) + 1;
    if h != MDEC_END_OF_DATA && k' <= 63 {
      MaskIsSound(s, pos + 1, k', scale, table, coeffs[Zscan(k') := Dequantise(h, k', scale, table)],
        MarkColumn(Zscan(k'), mask));
    }
  }

  lemma BlockMaskIsSound(s: Stream, pos: nat, table: Table)
    ensures var d := DecodeBlock(s, pos, table); Describes(MaskOf(d), d.coeffs)
  {
    var h := s(pos);
    var dc := seq(DSIZE2, _ => 0)[0 := Scaler9(table[0] * RleVal(h))];
    MaskIsSound(s, pos + 1, 0, RleRun(h), table, dc, {});
  }

  // ----- what the codes of a block mean -----

  /** A code of a block: the zig-zag position it stands for and the halfword that carries it. */
  datatype Code = Code(index: nat, word: Halfword)

  /** The codes of a block, read off without decoding them. */
  function Codes(s: Stream, pos: nat, k: nat): (c: seq<Code>)
    requires k < DSIZE2
    ensures forall i :: 0 <= i < |c| ==> k < c[i].index < DSIZE2
    ensures forall i, j :: 0 <= i < j < |c| ==> c[i].index < c[j].index
    decreases DSIZE2 - k
  {
    var h := s(pos);
    var k' := k + RleRun(h) + 1;
    if h == MDEC_END_OF_DATA || k' > 63 then [] else [Code(k', h)] + Codes(s, pos + 1, k')
  }

  datatype Option<T> = None | Some(value: T)

  /** The halfword of the code that stands for zig-zag position `n`, if the block has one. */
  function WordFor(c: seq<Code>, n: nat): (w: Option<Halfword>)
    ensures w.None? <==> forall i :: 0 <= i < |c| ==> c[i].index != n
    ensures w.Some? ==> Code(n, w.value) in c
  {
    if c == [] then None
    else if c[0].index == n then Some(c[0].word)
    else
      var w := WordFor(c[1..], n);
      assert w.None? ==> forall i :: 1 <= i < |c| ==> c[i] == c[1..][i - 1];
      w
  }

  /** Every code sets the coefficient at its own zig-zag place, dequantised there, and a place no
      code stands for keeps what it held. */
  lemma {:induction false} CodesSetCoefficients(s: Stream, pos: nat, k: nat, scale: nat, table: Table,
      coeffs: seq<int>, mask: set<nat>, n: nat)
    requires k < DSIZE2 && |coeffs| == DSIZE2 && n < DSIZE2
    ensures DecodeAc(s, pos, k, scale, table, coeffs, mask).coeffs[Zscan(n)] ==
      match WordFor(Codes(s, pos, k), n)
      case None => coeffs[Zscan(n)]
      case Some(h) => Dequantise(h, n, scale, table)
    decreases DSIZE2 - k
  {
    hide Zscan, Dequantise, MarkColumn;
    var h := s(pos);
    var k' := k + RleRun(h) + 1;
    if h != MDEC_END_OF_DATA && k' <= 63 {
      var next := coeffs[Zscan(k') := Dequantise(h, k', scale, table)];
      var rest := Codes(s, pos + 1, k');
      CodesSetCoefficients(s, pos + 1, k', scale, table, next, MarkColumn(Zscan(k'), mask), n);
      ZscanIsTheZigzagWalk(k');
      assert ([Code(k', h)] + rest)[1..] == rest;
      assert n == k' ==> WordFor(rest, n) == None;
    }
  }

  // ----- the bits of a code -----

  /** The halfword holds a run in its upper six bits and a signed level in its lower ten. */
  predicate Carries(h: Halfword, run: int, level: int)
  {
    0 <= run < 64 && -512 <= level < 512 && h == 1024 * run + if level >= 0 then level else level + 1024
  }

  /** `q` is the quotient of `x` by `d`, rounded to the nearest. */
  predicate Rounded(q: int, x: int, d: int) { d * q <= x + d / 2 < d * (q + 1) }

  lemma CodeCarries(h: Halfword, run: int, level: int)
    ensures Carries(h, run, level) <==> run == RleRun(h) && level == RleVal(h)
  {
  }

  /** The codes are the halfwords from `pos` on up to the end code or to a run that leaves the block, and each
      stands one place further than its run from the one before. */
  ghost predicate FollowsStream(c: seq<Code>, s: Stream, pos: nat, k: nat)
    decreases |c|
  {
    if c == [] then s(pos) == 0xfe00 || forall run, level :: Carries(s(pos), run, level) ==> k + run + 1 > 63
    else
      c[0].word == s(pos) && s(pos) != 0xfe00 && c[0].index <= 63 &&
      (forall run, level :: Carries(s(pos), run, level) ==> c[0].index == k + run + 1) &&
      FollowsStream(c[1..], s, pos + 1, c[0].index)
  }

  lemma {:induction false} CodesFollowStream(s: Stream, pos: nat, k: nat)
    requires k < DSIZE2
    ensures FollowsStream(Codes(s, pos, k), s, pos, k)
    decreases DSIZE2 - k
  {
    var h := s(pos);
    forall run, level | Carries(h, run, level)
      ensures run == RleRun(h)
    {
      CodeCarries(h, run, level);
    }
    CodeCarries(h, RleRun(h), RleVal(h));
    hide Carries, RleVal;
    var k' := k + RleRun(h) + 1;
    if h != MDEC_END_OF_DATA && k' <= 63 {
      CodesFollowStream(s, pos + 1, k');
      assert ([Code(k', h)] + Codes(s, pos + 1, k'))[1..] == Codes(s, pos + 1, k');
    }
  }

  /** A block takes its header, its codes and one halfword more. */
  lemma {:induction false} BlockTakesItsCodes(s: Stream, pos: nat, k: nat, scale: nat, table: Table,
      coeffs: seq<int>, mask: set<nat>)
    requires k < DSIZE2 && |coeffs| == DSIZE2
    ensures DecodeAc(s, pos, k, scale, table, coeffs, mask).pos == pos + |Codes(s, pos, k)| + 1
    decreases DSIZE2 - k
  {
    hide Zscan, Dequantise, MarkColumn;
    var h := s(pos);
    var k' := k + RleRun(h) + 1;
    if h != MDEC_END_OF_DATA && k' <= 63 {
      BlockTakesItsCodes(s, pos + 1, k', scale, table, coeffs[Zscan(k') := Dequantise(h, k', scale, table)],
        MarkColumn(Zscan(k'), mask));
    }
  }

  /** The coefficients of a block in the bits of its halfwords: the header's level makes the DC entry, a code's
      level with its table entry and the header's quantiser scale the entry at its zig-zag place; other
      entries are zero. */
  lemma CoefficientsOfBlock(s: Stream, pos: nat, table: Table, scale: int, dc: int, n: nat, run: int, level: int)
    requires 0 < n < DSIZE2 && Carries(s(pos), scale, dc)
    ensures var b := DecodeBlock(s, pos, table).coeffs;
      Rounded(b[0], table[0] * dc, 512) &&
      match WordFor(Codes(s, pos + 1, 0), n)
      case None => b[Zscan(n)] == 0
      case Some(h) => Carries(h, run, level) ==> Rounded(b[Zscan(n)], level * table[n] * scale, 4096)
  {
    hide Zscan, Codes, WordFor, DecodeAc;
    var h := s(pos);
    var start := seq(DSIZE2, _ => 0)[0 := Scaler9(table[0] * RleVal(h))];
    CodeCarries(h, scale, dc);
    CodesSetCoefficients(s, pos + 1, 0, RleRun(h), table, start, {}, 0);
    CodesSetCoefficients(s, pos + 1, 0, RleRun(h), table, start, {}, n);
    ZscanIsTheZigzagWalk(n);
    ZscanIsTheZigzagWalk(0);
    var codes := Codes(s, pos + 1, 0);
    assert WordFor(codes, 0) == None;
    if WordFor(codes, n).Some? { CodeCarries(WordFor(codes, n).value, run, level); }
  }

  // ----- a macroblock -----

  /** The first `n` blocks of the macroblock at `pos`, densely transformed, and where they end.
      Blocks 0 and 1 are Cr and Cb, the rest luma. */
  function Blocks(s: Stream, pos: nat, y: Table, uv: Table, n: nat): (r: (seq<int>, nat))
    ensures |r.0| == DSIZE2 * n
    ensures pos + 2 * n <= r.1 <= pos + 65 * n
  {
    if n == 0 then ([], pos)
    else
      var before := Blocks(s, pos, y, uv, n - 1);
      var d := DecodeBlock(s, before.1, if n - 1 < 2 then uv else y);
      (before.0 + DenseIdct(d.coeffs), d.pos)
  }

  /** A decoded macroblock, and the place of the next one: between 12 and 390 halfwords on. */
  function Macroblock(s: Stream, pos: nat, y: Table, uv: Table): (r: (seq<int>, nat))
    ensures |r.0| == 384
    ensures pos + 12 <= r.1 <= pos + 390
  {
    Blocks(s, pos, y, uv, 6)
  }

  lemma EndOfBlock(s: Stream, pos: nat, table: Table)
    ensures DecodeBlock(s, pos, table).pos == pos + 2 + |Codes(s, pos + 1, 0)|
  {
    hide DecodeAc, Codes;
    var h := s(pos);
    BlockTakesItsCodes(s, pos + 1, 0, RleRun(h), table, seq(DSIZE2, _ => 0)[0 := Scaler9(table[0] * RleVal(h))], {});
  }

  lemma {:induction false} EndsAgree(s: Stream, pos: nat, y: Table, uv: Table, y': Table, uv': Table, n: nat)
    ensures Blocks(s, pos, y, uv, n).1 == Blocks(s, pos, y', uv', n).1
  {
    hide DecodeBlock, DenseIdct, Codes;
    if n > 0 {
      EndsAgree(s, pos, y, uv, y', uv', n - 1);
      var p := Blocks(s, pos, y, uv, n - 1).1;
      EndOfBlock(s, p, y);
      EndOfBlock(s, p, uv);
      EndOfBlock(s, p, y');
      EndOfBlock(s, p, uv');
    }
  }

  /** The first two blocks of a macroblock are decoded with the chroma table, and the other four with the luma
      table; where the blocks are does not depend on the tables. */
  lemma {:induction false} TablesOfBlocks(s: Stream, pos: nat, y: Table, uv: Table, other: Table, n: nat)
    ensures n <= 2 ==> Blocks(s, pos, y, uv, n) == Blocks(s, pos, other, uv, n)
    ensures n >= 2 ==> Blocks(s, pos, y, uv, n).0[128..] == Blocks(s, pos, y, other, n).0[128..]
    ensures n >= 2 ==> Blocks(s, pos, y, uv, n).0[..128] == Blocks(s, pos, other, uv, n).0[..128]
  {
    hide DecodeBlock, DenseIdct;
    EndsAgree(s, pos, y, uv, y, other, n);
    EndsAgree(s, pos, y, uv, other, uv, n);
    if n > 0 {
      TablesOfBlocks(s, pos, y, uv, other, n - 1);
      EndsAgree(s, pos, y, uv, y, other, n - 1);
      EndsAgree(s, pos, y, uv, other, uv, n - 1);
    }
  }

  /** The AC loop in place; the block at `at` starts as the reference's coefficients do. */
  method DecodeAcInPlace(blk: array<int>, at: nat, s: Stream, start: nat, scale: nat, table: Table)
      returns (pos: nat, used: UsedColumns)
    requires at + DSIZE2 <= blk.Length
    modifies blk
    ensures var d := DecodeAc(s, start, 0, scale, table, old(Block(blk, at)), {});
      Block(blk, at) == d.coeffs && pos == d.pos && used == MaskOf(d)
    ensures SameOutside(blk[..], old(blk[..]), at)
  {
    pos := start;
    var k, mask := 0, {};
    ghost var d := DecodeAc(s, start, 0, scale, table, Block(blk, at), {});
    while true
      invariant k < DSIZE2
      invariant DecodeAc(s, pos, k, scale, table, Block(blk, at), mask) == d
      invariant SameOutside(blk[..], old(blk[..]), at)
      decreases DSIZE2 - k
    {
      var h := s(pos);
      pos := pos + 1;
      if h == MDEC_END_OF_DATA { break; }
      k := k + RleRun(h) + 1;
      if k > 63 { break; }
      ghost var was := Block(blk, at);
      blk[at + Zscan(k)] := Dequantise(h, k, scale, table);
      assert Block(blk, at) == was[Zscan(k) := Dequantise(h, k, scale, table)];
      mask := MarkColumn(Zscan(k), mask);
    }
    used := if k == 0 then DcOnly else Columns(mask);
  }

  /** One turn of the block loop (mdec.c:273-305), on a block that has been cleared. */
  method BlockInPlace(blk: array<int>, at: nat, s: Stream, start: nat, table: Table) returns (pos: nat)
    requires at + DSIZE2 <= blk.Length
    requires forall j :: at <= j < at + DSIZE2 ==> blk[j] == 0
    modifies blk
    ensures Block(blk, at) == DenseIdct(DecodeBlock(s, start, table).coeffs)
    ensures pos == DecodeBlock(s, start, table).pos
    ensures SameOutside(blk[..], old(blk[..]), at)
  {
    hide Scaler9, DenseIdct, DecodeAc;
    var h := s(start);
    blk[at] := Scaler9(table[0] * RleVal(h));
    assert Block(blk, at) == seq(DSIZE2, _ => 0)[0 := Scaler9(table[0] * RleVal(h))];
    var used;
    BlockMaskIsSound(s, start, table);
    pos, used := DecodeAcInPlace(blk, at, s, start + 1, RleRun(h), table);
    Idct.Idct(blk, at, used);
  }

  /** rl2blk: decodes the six blocks of a macroblock into `blk` and returns where it stopped. */
  method Rl2Blk(blk: array<int>, s: Stream, start: nat, iqY: Table, iqUv: Table) returns (pos: nat)
    requires blk.Length == 384
    modifies blk
    ensures (blk[..], pos) == Macroblock(s, start, iqY, iqUv)
  {
    hide DenseIdct, DecodeBlock;
    forall i | 0 <= i < 384 { blk[i] := 0; }
    pos := start;
    for i := 0 to 6
      invariant (blk[..DSIZE2 * i], pos) == Blocks(s, start, iqY, iqUv, i)
      invariant forall j :: DSIZE2 * i <= j < 384 ==> blk[j] == 0
    {
      ghost var done := blk[..DSIZE2 * i];
      var table := if i < 2 then iqUv else iqY;
      pos := BlockInPlace(blk, DSIZE2 * i, s, pos, table);
      assert blk[..DSIZE2 * i] == done;
      assert blk[..DSIZE2 * (i + 1)] == done + Block(blk, DSIZE2 * i);
    }
    assert blk[..] == blk[..384];
  }
}
