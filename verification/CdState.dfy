/** The state of the CD-ROM controller (libpcsxcore/cdrom.c, cdrom.h:50-121) and what it asks of its
    surroundings.  No title-specific code is modelled.
  */
module CdState {
  import opened Common

  /** A sector as the emulated program sees it (DATA_SIZE bytes). */
  type Sector = d: seq<Byte> | |d| == 2340 witness seq(2340, _ => 0)

  /** The fixed sizes of the C arrays, and the ranges of small fields. */
  type Bytes16 = s: seq<Byte> | |s| == 16 witness seq(16, _ => 0)
  type Bytes8 = s: seq<Byte> | |s| == 8 witness seq(8, _ => 0)
  type Bytes4 = s: seq<Byte> | |s| == 4 witness seq(4, _ => 0)
  type Bytes2 = s: seq<Byte> | |s| == 2 witness seq(2, _ => 0)
  type Stat = s: nat | s < 8

  /** The four scheduled events of the controller. */
  datatype Event = CDR | CDREAD | CDRPLAY | CDRLID

  datatype Drive = STANDBY | LID_OPEN | RESCAN_CD | PREPARE_CD | STOPPED

  /** StatP, bit by bit; the other bits are never set. */
  datatype StatP = StatP(play: bool, seek: bool, read: bool, shell: bool, rotating: bool) {
    function ToByte(): Byte
    {
      (if play then 0x80 else 0) + (if seek then 0x40 else 0) + (if read then 0x20 else 0) +
      (if shell then 0x10 else 0) + (if rotating then 0x02 else 0)
    }
  }

  const STATUS_ERROR := 1

  /** Values of Stat. */
  const NoIntr := 0
  const DataReady := 1
  const Complete := 2
  const Acknowledge := 3
  const DataEnd := 4
  const DiskError := 5

  /** Error codes. */
  const ERROR_NOTREADY := 0x80
  const ERROR_INVALIDCMD := 0x40
  const ERROR_INVALIDARG := 0x20

  /** A disc position; each field is one byte. */
  datatype Msf = Msf(m: Byte, s: Byte, f: Byte)

  function Abs(p: Msf): nat { (p.m * 60 + p.s) * 75 + p.f }

  predicate ValidMsf(p: Msf) { p.s < 60 && p.f < 75 }

  /** The next sector, as cdrReadInterrupt and cdrPlayInterrupt step to it. */
  function Advance(p: Msf): Msf
  {
    var f := (p.f + 1) % 0x100;
    if f != 75 then Msf(p.m, p.s, f)
    else
      var s := (p.s + 1) % 0x100;
      if s != 60 then Msf(p.m, s, 0) else Msf((p.m + 1) % 0x100, 0, 0)
  }

  function ToBcd(p: Msf): Msf { Msf(Itob(p.m), Itob(p.s), Itob(p.f)) }

  /** Bit `k` of a byte. */
  predicate Bit(b: Byte, k: nat)
    requires k < 8
  {
    var p := if k == 0 then 1 else if k == 1 then 2 else if k == 2 then 4 else if k == 3 then 8
      else if k == 4 then 16 else if k == 5 then 32 else if k == 6 then 64 else 128;
    b / p % 2 == 1
  }

  /** Stat & ~rt; Stat has three bits. */
  function Cleared(stat: Stat, rt: Byte): (s: Stat)
    ensures s <= stat
  {
    (if stat % 2 == 1 && !Bit(rt, 0) then 1 else 0) + (if stat / 2 % 2 == 1 && !Bit(rt, 1) then 2 else 0) +
    (if stat / 4 == 1 && !Bit(rt, 2) then 4 else 0)
  }

  /** What the sub-channel says of the head: the bytes of a position report, the track, and whether it
      has just changed. */
  datatype SubQ = SubQ(bytes: Bytes8, curTrack: nat, trackChanged: bool)

  /** What the controller can find out during a step: the status of the lid (if it can be had), the
      kind of disc, the clock and the read time, the track list, the sectors, and the effects of patches.
      `subqAt` is the effect of reading (true) or generating the sub-channel data of a position on what
      was known before; CheckSBI, the buffer's own data and generate_subq are not interpreted. */
  datatype Env = Env(
    shellOpen: bool, statusKnown: bool, discType: nat, cycle: nat, delay: nat,
    tn: Bytes2, tnKnown: bool, td: Byte -> Msf, tdKnown: Byte -> bool,
    subqAt: (bool, Msf, SubQ) -> SubQ,
    readable: Msf -> bool, disc: Msf -> Sector,
    license: Sector -> Sector, ppf: (Msf, Sector) -> Sector,
    xaEnabled: bool, xaDecodes: Sector -> bool,
    licensed: bool, region: Bytes4)

  /** Find_CurTrack from track `k` on: the first whose successor starts at least two seconds after `pos`,
      and the start that was looked up last. */
  function TrackFrom(env: Env, k: nat, n: Byte, pos: nat, td: Msf): (nat, Msf)
    decreases n - k
  {
    if k >= n then (k, td)
    else
      var t := if env.tdKnown(k + 1) then env.td(k + 1) else td;
      if Abs(t) - pos >= 150 then (k, t) else TrackFrom(env, k + 1, n, pos, t)
  }

  /** The response: what is raised, its bytes, and how far it has been read. */
  datatype Reply = Reply(stat: Stat, result: Bytes16, resultC: nat, resultP: nat, resultReady: bool)

  /** The work in progress, and the events scheduled for it. */
  datatype Work = Work(irq: nat, irqRepeated: bool, eCycle: nat, busy: bool, reading: bool, play: bool,
                       seeked: bool, drive: Drive, statP: StatP, events: set<Event>)

  /** Where the head is and what was read there. */
  datatype Head = Head(setlocPending: bool, setSector: Msf, setSectorPlay: Msf, setSectorEnd: Msf,
                       prev: Msf, readError: bool, buffer: Sector, transfer: Sector)

  /** The remaining registers. */
  datatype Misc = Misc(bank: nat, reg2: Byte, signalled: bool, param: Bytes8, paramC: nat, readed: bool,
                       mode: Byte, muted: bool, file: Byte, channel: Byte, firstSector: int,
                       fastForward: nat, fastBackward: nat, curTrack: nat, trackChanged: bool,
                       subq: Bytes8, resultTN: Bytes2, resultTD: Msf)

  /** The controller: the struct `cdr` in four groups. */
  datatype Cdr = Cdr(reply: Reply, work: Work, head: Head, misc: Misc)
  {
    function StatPByte(): Byte { work.statP.ToByte() }

    /** CDR_INT and its siblings. */
    function Scheduling(e: Event): Cdr { this.(work := work.(events := work.events + {e})) }

    function Raising(stat: Stat): Cdr { this.(reply := reply.(stat := stat)) }

    /** SetResultSize, and the bytes stored in front; the rest of the buffer stays. */
    function Replying(size: nat, bytes: seq<Byte>): Cdr
      requires |bytes| <= 16
    {
      this.(reply := Reply(reply.stat, bytes + reply.result[|bytes|..], size, 0, true))
    }

    /** setIrq: the processor is signalled if the response is enabled in Reg2. */
    function Signalling(): (r: Cdr)
      ensures r.reply == reply && r.work == work && r.head == head && r.misc.bank == misc.bank
    {
      this.(misc := misc.(signalled := misc.signalled || Cleared(reply.stat, misc.reg2) != reply.stat))
    }

    /** StopReading. */
    function ReadingStopped(): (r: Cdr)
      ensures r.reply == reply && r.head == head && r.misc == misc
    {
      var e := if work.reading then work.events - {CDREAD} else work.events;
      this.(work := work.(reading := false, events := e, statP := work.statP.(read := false, seek := false)))
    }

    /** StopCdda. */
    function CddaStopped(): (r: Cdr)
      ensures r.reply == reply && r.head == head
    {
      if work.play then
        this.(work := work.(play := false, statP := work.statP.(play := false)),
          misc := misc.(fastForward := 0, fastBackward := 0))
      else this
    }

    /** AddIrqQueue: a repeated command is remembered as such, any other replaces the pending one. */
    function Queueing(q: nat, delay: nat): (r: Cdr)
      ensures r.reply == reply && r.head == head && r.misc == misc
    {
      var w := if work.irq != 0 && (q == work.irq || q + 0x100 == work.irq) then work.(irqRepeated := true)
        else work.(irq := q, eCycle := delay);
      this.(work := w).Scheduling(CDR)
    }

    /** ReadTrack: reads the sector at `p` unless it was the last one read; after a failure the buffer
        is as it was, but the position counts as read all the same. */
    function TrackRead(env: Env, p: Msf): (r: Cdr)
      ensures r.reply == reply && r.work == work && r.misc.bank == misc.bank && r.misc.mode == misc.mode
    {
      var t := ToBcd(p);
      if head.prev == t then this
      else
        var b := if env.readable(t) then env.disc(t) else head.buffer;
        this.(head := head.(readError := !env.readable(t), buffer := b, prev := t)).Located(env, true, p)
    }

    /** The sub-channel data of a position. */
    function Located(env: Env, read: bool, p: Msf): (r: Cdr)
      ensures r.reply == reply && r.work == work && r.head == head
      ensures r.misc.bank == misc.bank && r.misc.mode == misc.mode
    {
      var q := env.subqAt(read, p, SubQ(misc.subq, misc.curTrack, misc.trackChanged));
      this.(misc := misc.(subq := q.bytes, curTrack := q.curTrack, trackChanged := q.trackChanged))
    }

    /** Find_CurTrack at the head; ResultTD is overwritten on the way. */
    function TrackFound(env: Env): (r: Cdr)
      ensures r.reply == reply && r.work == work && r.head == head
      ensures r.misc == misc.(curTrack := r.misc.curTrack, resultTD := r.misc.resultTD)
    {
      var (k, td) := TrackFrom(env, 1, misc.resultTN[1], Abs(head.setSectorPlay), misc.resultTD);
      this.(misc := misc.(curTrack := k, resultTD := td))
    }

    /** A pending Setloc takes effect. */
    function SetlocTaken(): (r: Cdr)
      ensures r.reply == reply && r.work == work && r.misc == misc
    {
      if head.setlocPending then this.(head := head.(setSectorPlay := head.setSector, setlocPending := false)) else this
    }

    /** Find_CurTrack at the head, then ReadTrack there. */
    function FoundAndRead(env: Env): (r: Cdr)
      ensures r.reply == reply && r.work == work
    {
      var c := TrackFound(env).TrackRead(env, head.setSectorPlay);
      c.(misc := c.misc.(trackChanged := false))
    }
  }
}
