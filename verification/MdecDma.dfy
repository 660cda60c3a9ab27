/** The transfers of the motion decoder (libpcsxcore/mdec.c:467-669).

    Output leaves in DMA transfers whose sizes need not be multiples of a macroblock; the rest of
    a block that was cut waits in `blockBuffer` for the next transfer.  `Transfer` says what a
    transfer delivers without mentioning the buffer, and `ChunkingIsInvisible` is the point: any
    sequence of transfers delivers what one transfer of the total size would.
  */
module MdecDma {
  import opened Common
  import opened Idct
  import opened RunLength
  import opened PixelOutput

  // ----- the output of a coded stream -----

  /** Everything the output depends on besides the place in the stream. */
  datatype Setup = Setup(mem: Stream, iqY: Table, iqUv: Table, depth: Depth)

  /** The bytes of the macroblock coded at `pos`. */
  function FrameOf(c: Setup, pos: nat): (f: seq<Byte>)
    ensures |f| == c.depth.BlockBytes()
  {
    Frame(c.depth, RunLength.Macroblock(c.mem, pos, c.iqY, c.iqUv).0)
  }

  function Next(c: Setup, pos: nat): nat
  {
    RunLength.Macroblock(c.mem, pos, c.iqY, c.iqUv).1
  }

  /** `n` macroblocks in bytes, and the macroblocks that `size` bytes reach into. */
  function Bytes(d: Depth, n: nat): nat { if d.Bits15? then 512 * n else 768 * n }

  function Reach(d: Depth, size: nat): nat { if d.Bits15? then (size + 511) / 512 else (size + 767) / 768 }

  /** Where the stream stands after `n` macroblocks, and their bytes. */
  function Position(c: Setup, pos: nat, n: nat): nat
    decreases n
  {
    if n == 0 then pos else Position(c, Next(c, pos), n - 1)
  }

  function Frames(c: Setup, pos: nat, n: nat): (f: seq<Byte>)
    ensures |f| == Bytes(c.depth, n)
    decreases n
  {
    if n == 0 then [] else FrameOf(c, pos) + Frames(c, Next(c, pos), n - 1)
  }

  lemma {:induction false} FramesConcatenate(c: Setup, pos: nat, m: nat, n: nat)
    ensures Position(c, pos, m + n) == Position(c, Position(c, pos, m), n)
    ensures Frames(c, pos, m + n) == Frames(c, pos, m) + Frames(c, Position(c, pos, m), n)
    decreases m
  {
    hide FrameOf, Next;
    if m == 0 {
      assert Frames(c, pos, 0) + Frames(c, pos, n) == Frames(c, pos, n);
    } else {
      FramesConcatenate(c, Next(c, pos), m - 1, n);
    }
  }

  lemma FramesSnoc(c: Setup, pos: nat, n: nat)
    ensures Position(c, pos, n + 1) == Next(c, Position(c, pos, n))
    ensures Frames(c, pos, n + 1) == Frames(c, pos, n) + FrameOf(c, Position(c, pos, n))
  {
    hide FrameOf, Next;
    var p := Position(c, pos, n);
    FramesConcatenate(c, pos, n, 1);
    assert Frames(c, Next(c, p), 0) == [] && FrameOf(c, p) + [] == FrameOf(c, p);
    assert Position(c, Next(c, p), 0) == Next(c, p);
  }

  /** The bytes of a cut block that are still to be delivered, and the next macroblock. */
  datatype Output = Output(leftover: seq<Byte>, pos: nat)

  /** A transfer of `size` bytes: what it delivers and what it leaves. */
  function Transfer(c: Setup, o: Output, size: nat): (r: (seq<Byte>, Output))
    requires |o.leftover| <= size
    ensures |r.0| == size
    ensures |r.1.leftover| < c.depth.BlockBytes()
  {
    var n := Reach(c.depth, size - |o.leftover|);
    var all := o.leftover + Frames(c, o.pos, n);
    (all[..size], Output(all[size..], Position(c, o.pos, n)))
  }

  /** A transfer block by block: `n` whole blocks after the leftover and, unless that is all, the
      start of one more. */
  lemma TransferByBlocks(c: Setup, o: Output, size: nat, n: nat)
    requires 0 <= size - |o.leftover| - Bytes(c.depth, n) < c.depth.BlockBytes()
    ensures var rest, p, sent := size - |o.leftover| - Bytes(c.depth, n), Position(c, o.pos, n),
      o.leftover + Frames(c, o.pos, n);
      Transfer(c, o, size) ==
      if rest == 0 then (sent, Output([], p))
      else (sent + FrameOf(c, p)[..rest], Output(FrameOf(c, p)[rest..], Next(c, p)))
  {
    hide FrameOf, Next, Frames, Position;
    var rest, p, sent := size - |o.leftover| - Bytes(c.depth, n), Position(c, o.pos, n),
      o.leftover + Frames(c, o.pos, n);
    if rest == 0 {
      assert Reach(c.depth, size - |o.leftover|) == n;
      assert sent[..size] == sent && sent[size..] == [];
    } else {
      assert Reach(c.depth, size - |o.leftover|) == n + 1;
      FramesSnoc(c, o.pos, n);
      var f := FrameOf(c, p);
      assert o.leftover + (Frames(c, o.pos, n) + f) == sent + f;
      assert (sent + f)[..size] == sent + f[..rest];
      assert (sent + f)[size..] == f[rest..];
    }
  }

  /** Two transfers deliver what one transfer of both sizes does, and leave the same. */
  lemma TransfersJoin(c: Setup, o: Output, first: nat, second: nat)
    requires |o.leftover| <= first
    requires |Transfer(c, o, first).1.leftover| <= second
    ensures var (b1, o1) := Transfer(c, o, first);
      var (b2, o2) := Transfer(c, o1, second);
      Transfer(c, o, first + second) == (b1 + b2, o2)
  {
    hide Frames, Position;
    var (b1, o1) := Transfer(c, o, first);
    var (b2, o2) := Transfer(c, o1, second);
    var n1 := Reach(c.depth, first - |o.leftover|);
    var n2 := Reach(c.depth, second - |o1.leftover|);
    assert Reach(c.depth, first + second - |o.leftover|) == n1 + n2;
    FramesConcatenate(c, o.pos, n1, n2);
    var all := o.leftover + Frames(c, o.pos, n1 + n2);
    var all2 := o1.leftover + Frames(c, o1.pos, n2);
    assert all == b1 + all2;
    assert all[..first + second] == b1 + all2[..second];
    assert all[first + second..] == all2[second..];
  }

  // ----- runs of transfers -----

  function Sum(sizes: seq<nat>): nat
  {
    if sizes == [] then 0 else sizes[0] + Sum(sizes[1..])
  }

  /** Each transfer takes at least the leftover it finds (smaller ones are marked TODO, mdec.c:572). */
  predicate TakesLeftovers(c: Setup, o: Output, sizes: seq<nat>)
    decreases sizes
  {
    sizes == [] || (|o.leftover| <= sizes[0] && TakesLeftovers(c, Transfer(c, o, sizes[0]).1, sizes[1..]))
  }

  /** What a run of transfers delivers altogether and leaves. */
  function Run(c: Setup, o: Output, sizes: seq<nat>): (seq<Byte>, Output)
    requires TakesLeftovers(c, o, sizes)
    decreases sizes
  {
    if sizes == [] then ([], o)
    else
      var (b, o1) := Transfer(c, o, sizes[0]);
      var (rest, o2) := Run(c, o1, sizes[1..]);
      (b + rest, o2)
  }

  /** A run with at least one transfer is one transfer of its total size. */
  lemma {:induction false} RunIsOneTransfer(c: Setup, o: Output, sizes: seq<nat>)
    requires sizes != [] && TakesLeftovers(c, o, sizes)
    ensures |o.leftover| <= Sum(sizes)
    ensures Run(c, o, sizes) == Transfer(c, o, Sum(sizes))
    decreases sizes
  {
    hide Transfer;
    var (b, o1) := Transfer(c, o, sizes[0]);
    if |sizes| == 1 {
      assert sizes[1..] == [] && Sum(sizes) == sizes[0];
      assert b + [] == b;
    } else {
      RunIsOneTransfer(c, o1, sizes[1..]);
      TransfersJoin(c, o, sizes[0], Sum(sizes[1..]));
    }
  }

  /** How the output is cut into transfers cannot be seen: not in the bytes delivered, not in the
      place of the input, not in what is left over. */
  lemma ChunkingIsInvisible(c: Setup, o: Output, sizes: seq<nat>, sizes': seq<nat>)
    requires sizes != [] && TakesLeftovers(c, o, sizes)
    requires sizes' != [] && TakesLeftovers(c, o, sizes')
    requires Sum(sizes) == Sum(sizes')
    ensures Run(c, o, sizes) == Run(c, o, sizes')
  {
    RunIsOneTransfer(c, o, sizes);
    RunIsOneTransfer(c, o, sizes');
  }

  /** With nothing left over, a transfer delivers the prefix of the decoded stream. */
  lemma TransferDeliversPrefix(c: Setup, pos: nat, size: nat, n: nat)
    requires Bytes(c.depth, n) >= size
    ensures Transfer(c, Output([], pos), size).0 == Frames(c, pos, n)[..size]
    ensures Transfer(c, Output([], pos), size).1.pos == Position(c, pos, Reach(c.depth, size))
  {
    hide Frames, Position;
    var r := Reach(c.depth, size);
    FramesConcatenate(c, pos, r, n - r);
    assert [] + Frames(c, pos, r) == Frames(c, pos, r);
  }

  /** From a fresh start the bytes delivered are the prefix of the decoded picture stream, and the
      input has advanced by exactly the macroblocks that prefix reaches into. */
  lemma RunDeliversPrefix(c: Setup, pos: nat, sizes: seq<nat>, n: nat)
    requires TakesLeftovers(c, Output([], pos), sizes)
    requires Bytes(c.depth, n) >= Sum(sizes)
    ensures var (b, o) := Run(c, Output([], pos), sizes);
      b == Frames(c, pos, n)[..Sum(sizes)] && o.pos == Position(c, pos, Reach(c.depth, Sum(sizes)))
  {
    hide Transfer, Frames;
    if sizes != [] {
      RunIsOneTransfer(c, Output([], pos), sizes);
      TransferDeliversPrefix(c, pos, Sum(sizes), n);
    }
  }

  // ----- the quantisation upload -----

  /** The prescale factors of the AAN transform, by raster position. */
  const AANSCALES: seq<seq<nat>> := [
    [1048576, 1454417, 1370031, 1232995, 1048576, 823861, 567485, 289301],
    [1454417, 2017334, 1900287, 1710213, 1454417, 1142728, 787125, 401273],
    [1370031, 1900287, 1790031, 1610986, 1370031, 1076426, 741455, 377991],
    [1232995, 1710213, 1610986, 1449849, 1232995, 968758, 667292, 340183],
    [1048576, 1454417, 1370031, 1232995, 1048576, 823861, 567485, 289301],
    [823861, 1142728, 1076426, 968758, 823861, 647303, 445870, 227303],
    [567485, 787125, 741455, 667292, 567485, 445870, 307121, 156569],
    [289301, 401273, 377991, 340183, 289301, 227303, 156569, 79818]
  ]

  /** A byte of the memory that the coded stream is read from. */
  function MemByte(mem: Stream, adr: nat): Byte
  {
    if adr % 2 == 0 then mem(adr / 2) % 0x100 else mem(adr / 2) / 0x100
  }

  /** iqtab_init: a byte per zig-zag position, prescaled (SCALER(x, 4)). */
  function IqTable(mem: Stream, adr: nat): Table
  {
    seq(64, i requires 0 <= i < 64 => MemByte(mem, adr + i) * ((Lookup(AANSCALES, Zscan(i)) + 8) / 16))
  }

  // ----- the device -----

  const DMA1_START := 0x01000200
  const DMA0_START := 0x01000201

  datatype Request = Request(adr: nat, bcr: nat, chcr: nat)

  /** The transfer size of a block-count register, in bytes (words times four). */
  function SizeOf(bcr: nat): (n: nat)
    ensures n % 4 == 0
  {
    (bcr / 0x10000) * (bcr % 0x10000) * 4
  }

  function DepthOf(reg0: nat): Depth
  {
    if reg0 / 0x08000000 % 2 == 1 then Bits15(reg0 / 0x02000000 % 2 == 1) else Bits24
  }

  /** The state of the device as a value, with the emulated memory it writes to.  A pending request
      with address 0 counts as none, as in the source. */
  datatype State = State(reg0: nat, busy: bool, stp: bool, rl: nat, rlEnd: nat, leftover: seq<Byte>,
                         pending: Request, iqY: Table, iqUv: Table, ram: seq<Byte>)

  function SetupOf(s: State, mem: Stream): Setup { Setup(mem, s.iqY, s.iqUv, DepthOf(s.reg0)) }

  /** The decoder can serve the request now: there is room for it, and it takes the leftover. */
  predicate CanServe(s: State, r: Request)
  {
    r.chcr == DMA1_START && s.busy ==> |s.leftover| <= SizeOf(r.bcr) && r.adr + SizeOf(r.bcr) <= |s.ram|
  }

  /** psxDma1: served when the decoder is busy, remembered otherwise. */
  function AfterDma1(s: State, mem: Stream, r: Request): State
    requires CanServe(s, r)
  {
    if r.chcr != DMA1_START then s
    else if !s.busy then s.(pending := r)
    else
      var (bytes, o) := Transfer(SetupOf(s, mem), Output(s.leftover, s.rl), SizeOf(r.bcr));
      s.(leftover := o.leftover, rl := o.pos, ram := s.ram[..r.adr] + bytes + s.ram[r.adr + |bytes|..])
  }

  /** The state in which the decode command has been accepted (mdec.c:480-486). */
  function Accepting(s: State, r: Request): State
  {
    s.(stp := true, busy := true, rl := r.adr / 2, rlEnd := r.adr / 2 + SizeOf(r.bcr) / 4 * 2)
  }

  /** The command in the command register. */
  function Command(reg0: nat): nat { reg0 / 0x10000000 % 16 }

  predicate StartsDecoding(s: State, r: Request)
  {
    r.chcr == DMA0_START && Command(s.reg0) == 3
  }

  /** psxDma0: a nonempty decode command serves the pending request; command 4 loads the tables. */
  function AfterDma0(s: State, mem: Stream, r: Request): State
    requires StartsDecoding(s, r) && SizeOf(r.bcr) > 0 && s.pending.adr != 0 ==> CanServe(Accepting(s, r), s.pending)
  {
    if r.chcr != DMA0_START then s
    else if Command(s.reg0) == 3 then
      var a := Accepting(s, r);
      if SizeOf(r.bcr) == 0 then a
      else
        var b := if s.pending.adr != 0 then AfterDma1(a, mem, s.pending) else a;
        b.(pending := b.pending.(adr := 0))
    else if Command(s.reg0) == 4 then s.(stp := true, iqY := IqTable(mem, r.adr), iqUv := IqTable(mem, r.adr + 64))
    else s.(stp := true)
  }

  /** mdec1Interrupt: the decoder falls idle at the end of its data or at an end code. */
  function AfterOutputInterrupt(s: State, mem: Stream): State
  {
    if s.rl >= s.rlEnd || mem(s.rl) == MDEC_END_OF_DATA then s.(stp := false, busy := false) else s
  }

  /** A request made before the decode command has the effect of one made after it: neither order
      can be told from the other by memory, input or leftover. */
  lemma EarlyRequestIsServed(s: State, mem: Stream, decode: Request, out: Request)
    requires !s.busy && s.pending.adr == 0 && out.adr != 0
    requires StartsDecoding(s, decode) && SizeOf(decode.bcr) > 0 && out.chcr == DMA1_START
    requires CanServe(Accepting(s, decode), out)
    ensures var early := AfterDma0(AfterDma1(s, mem, out), mem, decode);
      var late := AfterDma1(AfterDma0(s, mem, decode), mem, out);
      early.(pending := late.pending) == late && early.pending.adr == late.pending.adr == 0
  {
    hide Transfer;
  }

  /** A block-count register of `hi` blocks of `lo` words stands for 4 * hi * lo bytes. */
  lemma SizeOfBlocks(hi: nat, lo: nat)
    requires lo < 0x10000
    ensures SizeOf(0x10000 * hi + lo) == 4 * hi * lo
  {
    assert (0x10000 * hi + lo) / 0x10000 == hi && (0x10000 * hi + lo) % 0x10000 == lo;
  }

  /** A decode command followed by an output request: the target takes the first bytes of the macroblocks coded
      at the source, decoded with the tables and in the format of the command register (bit 27 set for 15 bits
      a pixel, bit 25 then its mask bit), and the rest of memory stays. */
  lemma PictureArrives(s: State, mem: Stream, from: nat, hi: nat, lo: nat, to: nat, hi': nat, lo': nat, n: nat)
    requires s.leftover == [] && s.pending.adr == 0 && s.reg0 / 0x1000_0000 % 16 == 3
    requires lo < 0x10000 && lo' < 0x10000 && hi > 0 && lo > 0 && to + 4 * hi' * lo' <= |s.ram|
    ensures CanServe(Accepting(s, Request(from, 0x10000 * hi + lo, 0x0100_0201)),
                     Request(to, 0x10000 * hi' + lo', 0x0100_0200))
    ensures var a := AfterDma0(s, mem, Request(from, 0x10000 * hi + lo, 0x0100_0201));
      var d := AfterDma1(a, mem, Request(to, 0x10000 * hi' + lo', 0x0100_0200));
      var size := 4 * hi' * lo';
      var depth := if s.reg0 / 0x800_0000 % 2 == 1 then Bits15(s.reg0 / 0x200_0000 % 2 == 1) else Bits24;
      var c := Setup(mem, s.iqY, s.iqUv, depth);
      Bytes(depth, n) >= size ==>
        d.ram == s.ram[..to] + Frames(c, from / 2, n)[..size] + s.ram[to + size..] && d.busy && d.stp
  {
    SizeOfBlocks(hi', lo');
    DecodingStarts(s, mem, from, hi, lo);
    hide AfterDma0, Accepting, Transfer, SizeOf, Frames;
    var size := 4 * hi' * lo';
    var c := SetupOf(s, mem);
    if Bytes(c.depth, n) >= size { TransferDeliversPrefix(c, from / 2, size, n); }
  }

  /** A decode command of `hi` blocks of `lo` words, from a device with nothing pending. */
  lemma DecodingStarts(s: State, mem: Stream, from: nat, hi: nat, lo: nat)
    requires s.pending.adr == 0 && s.reg0 / 0x1000_0000 % 16 == 3 && lo < 0x10000 && hi > 0 && lo > 0
    ensures var r := Request(from, 0x10000 * hi + lo, 0x0100_0201);
      Accepting(s, r) == s.(stp := true, busy := true, rl := from / 2, rlEnd := from / 2 + 2 * hi * lo) &&
      AfterDma0(s, mem, r) == Accepting(s, r)
  {
    SizeOfBlocks(hi, lo);
    Positive(hi, lo);
    hide SizeOf;
    assert 4 * hi * lo / 4 * 2 == 2 * hi * lo by { Quarter(hi * lo); }
  }

  lemma Quarter(x: nat)
    ensures 4 * x / 4 == x
  {
  }

  /** The interrupt after that output: the decoder falls idle if and only if the input it has read reaches the
      end of the command's data, two halfwords a word, or stands at an end code. */
  lemma DecodingEnds(s: State, mem: Stream, from: nat, hi: nat, lo: nat, to: nat, hi': nat, lo': nat)
    requires s.leftover == [] && s.pending.adr == 0 && s.reg0 / 0x1000_0000 % 16 == 3
    requires lo < 0x10000 && lo' < 0x10000 && hi > 0 && lo > 0 && to + 4 * hi' * lo' <= |s.ram|
    requires CanServe(Accepting(s, Request(from, 0x10000 * hi + lo, 0x0100_0201)),
                      Request(to, 0x10000 * hi' + lo', 0x0100_0200))
    ensures var a := AfterDma0(s, mem, Request(from, 0x10000 * hi + lo, 0x0100_0201));
      var d := AfterDma1(a, mem, Request(to, 0x10000 * hi' + lo', 0x0100_0200));
      var c := SetupOf(s, mem);
      var read := Position(c, from / 2, Reach(c.depth, 4 * hi' * lo'));
      AfterOutputInterrupt(d, mem).busy <==> read < from / 2 + 2 * hi * lo && mem(read) != 0xfe00
  {
    SizeOfBlocks(hi', lo');
    DecodingStarts(s, mem, from, hi, lo);
    hide AfterDma0, Accepting, Transfer, SizeOf, Frames, Position, Reach;
    var c, size := SetupOf(s, mem), 4 * hi' * lo';
    TransferEndsAt(c, from / 2, size);
  }

  lemma TransferEndsAt(c: Setup, pos: nat, size: nat)
    ensures Transfer(c, Output([], pos), size).1.pos == Position(c, pos, Reach(c.depth, size))
  {
    hide Frames, Position;
  }

  lemma Positive(x: nat, y: nat)
    requires x > 0 && y > 0
    ensures 4 * x * y > 0
  {
  }

  /** The device shows no seam either: while it is busy, two requests for adjoining stretches of
      memory leave it, and memory, as one request for both stretches does. */
  lemma RequestsJoin(s: State, mem: Stream, first: Request, second: Request, both: Request)
    requires s.busy && first.chcr == second.chcr == both.chcr == DMA1_START
    requires second.adr == first.adr + SizeOf(first.bcr) && both.adr == first.adr
    requires SizeOf(both.bcr) == SizeOf(first.bcr) + SizeOf(second.bcr) && both.adr + SizeOf(both.bcr) <= |s.ram|
    requires CanServe(s, first) && CanServe(AfterDma1(s, mem, first), second)
    ensures CanServe(s, both)
    ensures AfterDma1(AfterDma1(s, mem, first), mem, second) == AfterDma1(s, mem, both)
  {
    var n1, n2 := SizeOf(first.bcr), SizeOf(second.bcr);
    hide Transfer, SizeOf;
    var c, o := SetupOf(s, mem), Output(s.leftover, s.rl);
    TransfersJoin(c, o, n1, n2);
    var (b1, o1) := Transfer(c, o, n1);
    var (b2, o2) := Transfer(c, o1, n2);
    assert AfterDma1(AfterDma1(s, mem, first), mem, second).ram ==
      s.ram[..first.adr] + b1 + b2 + s.ram[second.adr + n2..];
  }

  /** Memory after the whole blocks and the start of one more have gone into it. */
  lemma CutIsAdded(was: seq<Byte>, between: seq<Byte>, now: seq<Byte>, adr: nat, image: nat, rest: nat,
      sent: seq<Byte>, cut: seq<Byte>)
    requires adr <= image && image + rest <= |was| && |sent| == image - adr && |cut| == rest
    requires between == was[..adr] + sent + was[image..]
    requires now == between[..image] + cut + between[image + rest..]
    ensures now == was[..adr] + (sent + cut) + was[image + rest..]
  {
    assert between[..image] == was[..adr] + sent;
    assert between[image + rest..] == was[image..][rest..] == was[image + rest..];
  }

  class Mdec {
    var reg0: nat
    var busy: bool
    var stp: bool
    var rl: nat
    var rlEnd: nat
    var blockBuffer: array<Byte>
    var bufferPos: nat              // 0 stands for the null pointer
    var pending: Request
    var iqY: Table
    var iqUv: Table
    const mem: Stream
    const ram: array<Byte>

    ghost predicate Valid()
      reads this, blockBuffer, ram
    {
      blockBuffer.Length == 768 && blockBuffer != ram && bufferPos < DepthOf(reg0).BlockBytes()
    }

    ghost function Leftover(): seq<Byte>
      requires Valid()
      reads this, blockBuffer, ram
    {
      if bufferPos == 0 then [] else blockBuffer[bufferPos..DepthOf(reg0).BlockBytes()]
    }

    ghost function Abs(): State
      requires Valid()
      reads this, blockBuffer, ram
    {
      State(reg0, busy, stp, rl, rlEnd, Leftover(), pending, iqY, iqUv, ram[..])
    }

    /** mdecInit. */
    constructor (mem: Stream, ram: array<Byte>)
      ensures Valid() && fresh(blockBuffer) && this.mem == mem && this.ram == ram
      ensures !busy && !stp && Leftover() == [] && pending.adr == 0
    {
      this.mem, this.ram := mem, ram;
      blockBuffer := new Byte[768];
      reg0, busy, stp, rl, rlEnd, bufferPos, pending := 0, false, false, 0x80000, 0, 0, Request(0, 0, 0);
      iqY, iqUv := seq(64, _ => 0), seq(64, _ => 0);
    }

    /** memcpy */
    method Copy(to: array<Byte>, at: nat, from: array<Byte>, start: nat, n: nat)
      requires to != from && at + n <= to.Length && start + n <= from.Length
      modifies to
      ensures to[..] == old(to[..at]) + from[start..start + n] + old(to[at + n..])
    {
      forall i | 0 <= i < n { to[at + i] := from[start + i]; }
      assert forall i :: at <= i < at + n ==> to[i] == from[start + (i - at)];
    }

    /** Decodes the macroblock at `rl` into `image`. */
    method DecodeTo(image: array<Byte>, at: nat, d: Depth)
      requires image != blockBuffer ==> image == ram
      requires at + d.BlockBytes() <= image.Length
      modifies `rl, image
      ensures image[..] ==
        old(image[..at]) + FrameOf(Setup(mem, iqY, iqUv, d), old(rl)) + old(image[at + d.BlockBytes()..])
      ensures rl == Next(Setup(mem, iqY, iqUv, d), old(rl))
    {
      hide Frame, RunLength.Macroblock;
      var blk := new int[384];
      rl := Rl2Blk(blk, mem, rl, iqY, iqUv);
      ghost var written := Yuv2Rgb(blk, image, at, d);
      ghost var f := FrameOf(Setup(mem, iqY, iqUv, d), old(rl));
      assert image[at..at + d.BlockBytes()] == f;
      assert forall i :: at <= i < at + d.BlockBytes() ==> image[i] == f[i - at];
    }

    /** The whole blocks of a transfer, straight into memory (mdec.c:579-584): `n` of them. */
    method StoreWholeBlocks(at: nat, size: nat, d: Depth) returns (image: nat, rest: nat, ghost n: nat)
      requires at + size <= ram.Length && ram != blockBuffer
      modifies `rl, ram
      ensures rest == size - Bytes(d, n) && rest < d.BlockBytes() && image == at + Bytes(d, n)
      ensures var c := Setup(mem, iqY, iqUv, d);
        ram[..] == old(ram[..at]) + Frames(c, old(rl), n) + old(ram[image..]) && rl == Position(c, old(rl), n)
    {
      hide FrameOf, Next;
      ghost var c := Setup(mem, iqY, iqUv, d);
      image, rest, n := at, size, 0;
      assert ram[..] == ram[..at] + [] + ram[at..];
      while rest >= d.BlockBytes()
        invariant rest == size - Bytes(d, n) && image == at + Bytes(d, n) && Bytes(d, n) <= size
        invariant ram[..] == old(ram[..at]) + Frames(c, old(rl), n) + old(ram[image..])
        invariant rl == Position(c, old(rl), n)
        decreases rest
      {
        ghost var was := ram[..];
        DecodeTo(ram, image, d);
        FramesSnoc(c, old(rl), n);
        assert was[..image] == old(ram[..at]) + Frames(c, old(rl), n);
        assert was[image + d.BlockBytes()..] == old(ram[image + d.BlockBytes()..]);
        image, rest, n := image + d.BlockBytes(), rest - d.BlockBytes(), n + 1;
      }
    }

    /** The rest of a cut block goes first (mdec.c:570-577). */
    method DrainLeftover(adr: nat, size: nat) returns (image: nat, rest: nat)
      requires Valid() && |Leftover()| <= size && adr + size <= ram.Length
      modifies `bufferPos, ram
      ensures image == adr + |old(Leftover())| && rest == size - |old(Leftover())| && bufferPos == 0
      ensures ram[..] == old(ram[..adr]) + old(Leftover()) + old(ram[image..])
    {
      image, rest := adr, size;
      if bufferPos != 0 {
        var n := DepthOf(reg0).BlockBytes() - bufferPos;
        Copy(ram, image, blockBuffer, bufferPos, n);
        image, rest := image + n, rest - n;
        bufferPos := 0;
      } else {
        assert ram[..] == ram[..adr] + [] + ram[adr..];
      }
    }

    /** A block of which only the first `size` bytes are wanted now (mdec.c:586-591). */
    method CutBlock(image: nat, size: nat, d: Depth)
      requires 0 < size < d.BlockBytes() && image + size <= ram.Length
      requires blockBuffer.Length == 768 && blockBuffer != ram
      modifies `bufferPos, `rl, ram, blockBuffer
      ensures var c := Setup(mem, iqY, iqUv, d); var f := FrameOf(c, old(rl));
        rl == Next(c, old(rl)) && bufferPos == size && blockBuffer[..d.BlockBytes()] == f &&
        ram[..] == old(ram[..image]) + f[..size] + old(ram[image + size..])
    {
      ghost var f := FrameOf(Setup(mem, iqY, iqUv, d), rl);
      hide FrameOf, Next;
      DecodeTo(blockBuffer, 0, d);
      assert blockBuffer[..d.BlockBytes()] == f;
      assert blockBuffer[..size] == f[..size];
      Copy(ram, image, blockBuffer, 0, size);
      bufferPos := size;
    }

    /** psxDma1. */
    method Dma1(adr: nat, bcr: nat, chcr: nat)
      requires Valid() && CanServe(Abs(), Request(adr, bcr, chcr))
      modifies this, ram, blockBuffer
      ensures Valid() && blockBuffer == old(blockBuffer)
      ensures Abs() == AfterDma1(old(Abs()), mem, Request(adr, bcr, chcr))
    {
      if chcr != DMA1_START { return; }
      var size := SizeOf(bcr);
      if !busy {
        pending := Request(adr, bcr, chcr);
        return;
      }
      Serve(adr, size);
    }

    /** Everything up to the block that the transfer cuts. */
    method SendWhole(adr: nat, size: nat) returns (image: nat, rest: nat, ghost n: nat)
      requires Valid() && |Leftover()| <= size && adr + size <= ram.Length
      modifies `bufferPos, `rl, ram
      ensures bufferPos == 0 && rest == size - |old(Leftover())| - Bytes(DepthOf(reg0), n) &&
        rest < DepthOf(reg0).BlockBytes()
      ensures image == adr + size - rest
      ensures var c := Setup(mem, iqY, iqUv, DepthOf(reg0));
        rl == Position(c, old(rl), n) &&
        ram[..] == old(ram[..adr]) + (old(Leftover()) + Frames(c, old(rl), n)) + old(ram[image..])
    {
      hide Frames, Position;
      ghost var was, leftover := ram[..], Leftover();
      image, rest := DrainLeftover(adr, size);
      ghost var start := image;
      image, rest, n := StoreWholeBlocks(image, rest, DepthOf(reg0));
    }

    /** psxDma1 while the decoder is busy. */
    method Serve(adr: nat, size: nat)
      requires Valid() && |Leftover()| <= size && adr + size <= ram.Length
      modifies `bufferPos, `rl, ram, blockBuffer
      ensures Valid()
      ensures var (bytes, o) := Transfer(Setup(mem, iqY, iqUv, DepthOf(reg0)), Output(old(Leftover()), old(rl)), size);
        Leftover() == o.leftover && rl == o.pos && ram[..] == old(ram[..adr]) + bytes + old(ram[adr + size..])
    {
      hide FrameOf, Next, Frames, Position, Transfer, DepthOf;
      var d := DepthOf(reg0);
      ghost var c, o, was := Setup(mem, iqY, iqUv, d), Output(Leftover(), rl), ram[..];
      var image, rest;
      ghost var n;
      image, rest, n := SendWhole(adr, size);
      TransferByBlocks(c, o, size, n);
      assert ram[..adr] == was[..adr];
      if rest != 0 {
        ghost var f, sent, between := FrameOf(c, rl), o.leftover + Frames(c, o.pos, n), ram[..];
        CutBlock(image, rest, d);
        CutIsAdded(was, between, ram[..], adr, image, rest, sent, f[..rest]);
      }
    }

    /** iqtab_init. */
    method LoadTable(adr: nat) returns (t: Table)
      ensures t == IqTable(mem, adr)
    {
      hide Lookup;
      var entries: seq<int> := [];
      for i := 0 to 64
        invariant entries == IqTable(mem, adr)[..i]
      {
        entries := entries + [MemByte(mem, adr + i) * ((Lookup(AANSCALES, Zscan(i)) + 8) / 16)];
      }
      assert IqTable(mem, adr)[..64] == IqTable(mem, adr);
      t := entries;
    }

    /** psxDma0. */
    method Dma0(adr: nat, bcr: nat, chcr: nat)
      requires Valid()
      requires var s, r := Abs(), Request(adr, bcr, chcr);
        StartsDecoding(s, r) && SizeOf(bcr) > 0 && s.pending.adr != 0 ==> CanServe(Accepting(s, r), s.pending)
      modifies this, ram, blockBuffer
      ensures Valid() && blockBuffer == old(blockBuffer)
      ensures Abs() == AfterDma0(old(Abs()), mem, Request(adr, bcr, chcr))
    {
      hide Transfer, IqTable, SizeOf, Command, DepthOf;
      if chcr != DMA0_START { return; }
      stp := true;
      var size := SizeOf(bcr) / 4;
      if Command(reg0) == 3 {
        rl := adr / 2;
        busy := true;
        rlEnd := rl + size * 2;
        if rlEnd <= rl { return; }
        if pending.adr != 0 {
          Dma1(pending.adr, pending.bcr, pending.chcr);
        }
        pending := pending.(adr := 0);
      } else if Command(reg0) == 4 {
        iqY := LoadTable(adr);
        iqUv := LoadTable(adr + 64);
      }
    }

    /** mdec1Interrupt. */
    method OutputInterrupt()
      requires Valid()
      modifies `busy, `stp
      ensures Valid() && Abs() == AfterOutputInterrupt(old(Abs()), mem)
    {
      if rl >= rlEnd || mem(rl) == MDEC_END_OF_DATA {
        stp, busy := false, false;
      }
    }

    /** mdecWrite1: the reset bit forgets the command, the pending request and the cut block. */
    method Write1(data: nat)
      requires Valid()
      modifies this
      ensures Valid() && blockBuffer == old(blockBuffer)
      ensures if data / 0x80000000 % 2 == 0 then Abs() == old(Abs())
        else
          var s := old(Abs());
          Abs() == s.(reg0 := 0, busy := false, stp := false, leftover := [], pending := s.pending.(adr := 0))
    {
      if data / 0x80000000 % 2 == 1 {
        reg0, busy, stp, bufferPos := 0, false, false, 0;
        pending := pending.(adr := 0);
      }
    }
  }
}
