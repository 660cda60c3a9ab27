/** What each step of the CD-ROM controller does to its state (libpcsxcore/cdrom.c:360-429, 553-1197,
    1280-1444, 1482-1513, 2229-2390, 2456-2517, 2589-2593): the four event handlers and the register writes,
    as functions.  A handler runs on a state from which its event has been removed.
  */
module CdSteps {
  import opened Common
  import opened CdState

  /** Second halves of two-part commands are queued under the command's number plus this. */
  const SECOND := 0x100

  // ----- the commands -----

  /** The effect of a command: the state, whether it may answer while the drive is not ready, and
      whether it spins up a stopped drive. */
  datatype Effect = Effect(c: Cdr, noBusyError: bool, startRotating: bool)

  /** The response common to all commands: one byte, StatP, acknowledged. */
  function DefaultReply(c: Cdr): Cdr
  {
    c.Replying(1, [c.StatPByte()]).Raising(Acknowledge)
  }

  function ErrorReply(c: Cdr, error: Byte): Cdr
  {
    c.Replying(2, [c.StatPByte() + STATUS_ERROR, error]).Raising(DiskError)
  }

  /** The first byte of the response set to StatP again. */
  function StatPFirst(c: Cdr): (r: Cdr)
    ensures r.work == c.work && r.head == c.head && r.misc == c.misc
  {
    c.(reply := c.reply.(result := c.reply.result[0 := c.StatPByte()]))
  }

  function WithStatP(c: Cdr, p: StatP): Cdr { c.(work := c.work.(statP := p)) }

  /** The track that CdlPlay names, if it names one. */
  function TrackChosen(c: Cdr, env: Env): (r: Cdr)
    ensures r.reply == c.reply && r.work == c.work
  {
    if c.misc.paramC == 0 || c.misc.param[0] == 0 then c
    else
      var track := Btoi(c.misc.param[0]);
      var current := if track <= c.misc.resultTN[1] then track else c.misc.curTrack;
      var n := current % 0x100;
      if env.tdKnown(n) then
        c.(misc := c.misc.(curTrack := current, resultTD := env.td(n)), head := c.head.(setSectorPlay := env.td(n)))
      else c.(misc := c.misc.(curTrack := current))
  }

  /** CdlPlay, also reached from a read command on an audio track in CDDA mode. */
  function Play(c: Cdr, env: Env): Cdr
  {
    var c0 := c.CddaStopped();
    var c1 := c0.(work := c0.work.(seeked := true)).SetlocTaken();
    var c2 := TrackChosen(c1, env).FoundAndRead(env);
    var c3 := StatPFirst(WithStatP(c2, c2.work.statP.(seek := false)));
    c3.(work := c3.work.(play := true, statP := c3.work.statP.(play := true))).Scheduling(CDRPLAY)
  }

  /** The transfer buffer takes the header of the sector read. */
  function HeaderTaken(h: Head): Head { h.(transfer := h.buffer[..8] + h.transfer[8..]) }

  /** A read of data begins: the sector at the head is read ahead. */
  function DataRead(c: Cdr, env: Env): Cdr
  {
    var c0 := c.(work := c.work.(reading := true), misc := c.misc.(firstSector := 1));
    var c1 := c0.TrackRead(env, c.head.setSectorPlay);
    var p := c1.work.statP.(seek := !c1.work.seeked, read := c1.work.seeked);
    StatPFirst(c1.(head := HeaderTaken(c1.head), work := c1.work.(statP := p)).Scheduling(CDREAD))
  }

  /** CdlReadN, CdlReadS: on an audio track in CDDA mode they play. */
  function Read(c: Cdr, env: Env): Cdr
  {
    var d := c.SetlocTaken().TrackFound(env);
    if Bit(d.misc.mode, 0) && d.misc.curTrack > 1 then Play(d, env) else DataRead(d, env)
  }

  /** A drive that plays goes back to the start of the track. */
  function AtTrackStart(c: Cdr, env: Env): (r: Cdr)
    ensures r.reply == c.reply && r.work == c.work
  {
    var n := c.misc.curTrack % 0x100;
    var t := if env.tdKnown(n) then env.td(n) else c.misc.resultTD;
    if c.work.play then c.(misc := c.misc.(resultTD := t), head := c.head.(setSectorPlay := t)) else c
  }

  function Stop(c: Cdr, env: Env): Cdr
  {
    var c2 := AtTrackStart(c, env).CddaStopped().ReadingStopped();
    c2.(work := c2.work.(drive := STOPPED)).Queueing(8 + SECOND, env.delay)
  }

  function Seek(c: Cdr): Cdr
  {
    var c1 := c.CddaStopped().ReadingStopped();
    c1.(work := c1.work.(seeked := false, statP := c1.work.statP.(seek := true))).Scheduling(CDRPLAY)
  }

  function GetLocP(c: Cdr): Cdr
  {
    var q := c.misc.subq;
    c.Replying(8, if !c.work.play && !c.work.reading then q[1 := 0] else q)
  }

  function GetTN(c: Cdr, env: Env): Cdr
  {
    if !env.tnKnown then c.Replying(3, [c.StatPByte() + STATUS_ERROR]).Raising(DiskError)
    else c.Replying(3, [c.StatPByte(), Itob(env.tn[0]), Itob(env.tn[1])]).(misc := c.misc.(resultTN := env.tn))
  }

  function GetTD(c: Cdr, env: Env): Cdr
  {
    var track := Btoi(c.misc.param[0]);
    if !env.tdKnown(track) then c.Replying(4, [c.StatPByte() + STATUS_ERROR]).Raising(DiskError)
    else
      var t := env.td(track);
      c.Replying(4, [c.StatPByte(), Itob(t.m), Itob(t.s), Itob(t.f)]).(misc := c.misc.(resultTD := t))
  }

  function Test(c: Cdr): Cdr
  {
    var p := c.misc.param[0];
    if p == 0x20 then c.Replying(4, [0x98, 0x06, 0x10, 0xC3])
    else if p == 0x22 then c.Replying(8, [0x66, 0x6F, 0x72, 0x20])
    else if p == 0x23 || p == 0x24 then c.Replying(8, [0x43, 0x58, 0x44, 0x32])
    else c
  }

  /** The answer of CdlID: what kind of disc it is, and for which region. */
  function Identify(c: Cdr, env: Env): Cdr
  {
    var kind: Byte :=
      if !env.statusKnown || env.discType == 0 || env.discType == 0xff then 0xc0
      else (if env.discType == 2 then 0x10 else 0) + (if env.licensed then 0 else 0x80);
    var missing := if kind >= 0x80 then 8 else 0;
    c.Replying(8, [c.StatPByte() + missing, kind, 0, 0] + env.region).Raising(Complete)
  }

  /** The speed of CdlForward and CdlBackward. */
  function Faster(speed: nat): nat { if speed == 0 then 2 else speed + 1 }

  /** The commands that only answer (cdrom.c:712-721, 778-795, 868-924, 996-1012, 1083-1086). */
  function Answering(cmd: nat, c: Cdr, env: Env): Effect
  {
    var m := c.misc;
    if cmd == 1 then                                                                            // Nop
      Effect(if c.work.drive != LID_OPEN then WithStatP(c, c.work.statP.(shell := false)) else c, true, false)
    else if cmd == 4 then                                                                       // Forward
      Effect(c.Raising(Complete).(misc := m.(fastForward := Faster(m.fastForward), fastBackward := 0)), false, false)
    else if cmd == 5 then                                                                       // Backward
      Effect(c.Raising(Complete).(misc := m.(fastBackward := Faster(m.fastBackward), fastForward := 0)), false, false)
    else if cmd == 11 then Effect(c.(misc := m.(muted := true)), false, false)                  // Mute
    else if cmd == 12 then Effect(c.(misc := m.(muted := false)), false, false)                 // Demute
    else if cmd == 13 then Effect(c.(misc := m.(file := m.param[0], channel := m.param[1])), false, false)  // Setfilter
    else if cmd == 14 then Effect(c, true, false)                                               // Setmode
    else if cmd == 15 then                                                                      // Getmode
      Effect(c.Replying(6, [c.StatPByte(), m.mode, m.file, m.channel, 0, 0]), true, false)
    else if cmd == 16 then Effect(c.Replying(8, c.head.transfer[..8]), false, false)            // GetlocL
    else if cmd == 17 then Effect(GetLocP(c), false, false)
    else if cmd == 19 then Effect(GetTN(c, env), false, false)
    else if cmd == 20 then Effect(GetTD(c, env), false, false)
    else if cmd == 25 then Effect(Test(c), true, false)
    else if cmd == 0 || cmd == 2 || cmd == 29 then Effect(c, false, false)                      // Sync, Setloc, GetQ
    else Effect(ErrorReply(c, ERROR_INVALIDCMD), false, false)
  }

  /** The commands with a second half, which is queued. */
  function TwoPart(cmd: nat, c: Cdr, env: Env): Effect
  {
    var q := c.Queueing(cmd + SECOND, env.delay);
    if cmd == 7 && c.work.drive != STOPPED then Effect(ErrorReply(c, ERROR_INVALIDARG), false, false)  // Standby
    else if cmd == 9 then Effect(q.(work := q.work.(busy := true)), false, false)               // Pause
    else Effect(q, cmd == 10 || cmd == 30, cmd != 26)                                     // Init, ReadT, ID, ReadToc
  }

  /** The commands that move the head or the drive. */
  function Moving(cmd: nat, c: Cdr, env: Env): Effect
  {
    if cmd == 3 then Effect(Play(c, env), false, true)
    else if cmd == 8 then Effect(Stop(c, env), false, false)
    else if cmd == 21 || cmd == 22 then Effect(Seek(c), false, true)
    else if cmd == 28 then                                                                      // Reset
      var w := c.work.(drive := RESCAN_CD, statP := c.work.statP.(shell := true));
      Effect(c.(work := w).Scheduling(CDRLID), true, true)
    else Effect(Read(c, env), false, true)                                                      // ReadN, ReadS
  }

  /** The second halves. */
  function SecondHalf(cmd: nat, c: Cdr, env: Env): Effect
  {
    var p := c.work.statP;
    if cmd == 8 then Effect(StatPFirst(WithStatP(c, p.(rotating := false))).Raising(Complete), false, false)
    else if cmd == 9 then Effect(StatPFirst(WithStatP(c, p.(read := false))).Raising(Complete), false, false)
    else if cmd == 26 then Effect(Identify(c, env), false, false)
    else Effect(c.Raising(Complete), cmd == 30, false)
  }

  predicate HasSecondHalf(cmd: nat)
  {
    cmd == 7 || cmd == 8 || cmd == 9 || cmd == 10 || cmd == 18 || cmd == 26 || cmd == 30
  }

  predicate Moves(cmd: nat) { cmd == 3 || cmd == 6 || cmd == 8 || cmd == 21 || cmd == 22 || cmd == 27 || cmd == 28 }

  /** The command switch (cdrom.c:711-1147), on the state that already holds the default response. */
  function Command(cmd: nat, c: Cdr, env: Env): Effect
  {
    if Moves(cmd) then Moving(cmd, c, env)
    else if HasSecondHalf(cmd) then TwoPart(cmd, c, env)
    else if cmd >= SECOND && HasSecondHalf(cmd - SECOND) then SecondHalf(cmd - SECOND, c, env)
    else Answering(cmd, c, env)
  }

  predicate NotReady(d: Drive) { d == LID_OPEN || d == RESCAN_CD || d == PREPARE_CD }

  /** The end of cdrInterrupt: a stopped drive spins up, and a drive that is not ready turns the
      response into an error. */
  function Settled(e: Effect): Cdr
  {
    var w := e.c.work;
    var spun := w.(drive := STANDBY, statP := w.statP.(rotating := true));
    var c := if w.drive == STOPPED && e.startRotating then e.c.(work := spun) else e.c;
    if !e.noBusyError && NotReady(c.work.drive) then ErrorReply(c, ERROR_NOTREADY) else c
  }

  /** setIrq, and the parameters are used up. */
  function Finished(c: Cdr): Cdr
  {
    var s := c.Signalling();
    s.(misc := s.misc.(paramC := 0))
  }

  /** The state in which a command runs: the busy bit and the queue are cleared, the default response given. */
  function CommandStarts(c: Cdr): Cdr
  {
    DefaultReply(c.(work := c.work.(busy := false, irqRepeated := false, irq := 0)))
  }

  /** cdrInterrupt. */
  function OnCdr(c: Cdr, env: Env): Cdr
  {
    if c.reply.stat != NoIntr then c.Scheduling(CDR)
    else if c.work.irqRepeated && c.work.eCycle > env.cycle then
      Finished(DefaultReply(c.(work := c.work.(busy := false, irqRepeated := false))).Scheduling(CDR))
    else
      Finished(Settled(Command(c.work.irq, CommandStarts(c), env)))
  }

  // ----- reading -----

  predicate LicenseSector(p: Msf) { p == Msf(0, 2, 4) }

  /** The audio part of a sector (cdrom.c:1362-1382). */
  function AudioTaken(m: Misc, t: Sector, env: Env): Misc
  {
    if m.muted || !Bit(m.mode, 6) || !env.xaEnabled || m.firstSector == -1 then m
    else
      var n := if m.firstSector == 1 && !Bit(m.mode, 3) then m.(file := t[4], channel := t[5]) else m;
      if Bit(t[6], 2) && t[5] == n.channel && t[4] == n.file then
        n.(firstSector := if env.xaDecodes(t) then 0 else -1)
      else n
  }

  /** The start of a served read event. */
  function ReadStarts(c: Cdr): Cdr
  {
    var w := c.work.(statP := c.work.statP.(read := true, rotating := true, seek := false), seeked := true);
    c.(work := w).Replying(1, [w.statP.ToByte()])
  }

  /** The sector in the buffer handed over: the license text and the patches are applied. */
  function HandedOver(h: Head, env: Env): Head
  {
    var b := if LicenseSector(h.setSectorPlay) then env.license(h.buffer) else h.buffer;
    h.(buffer := b, transfer := env.ppf(h.prev, b))
  }

  /** A sector that is not for the audio decoder raises DataReady. */
  function DataRaised(c: Cdr): Cdr
  {
    if !Bit(c.misc.mode, 6) || !Bit(c.head.transfer[6], 2) then c.Raising(DataReady).Signalling() else c
  }

  /** The error response of a read: the transfer buffer is wiped. */
  function ReadFailed(c: Cdr): Cdr
  {
    c.(head := c.head.(transfer := seq(2340, _ => 0)),
       reply := c.reply.(stat := DiskError,
         result := c.reply.result[0 := c.StatPByte() + STATUS_ERROR])).Scheduling(CDREAD)
  }

  /** A served read event: the sector at the head is handed over, the head moves on, and the next
      sector is read ahead. */
  function Served(c: Cdr, env: Env): Cdr
  {
    var c1 := ReadStarts(c).TrackRead(env, c.head.setSectorPlay);
    if c1.head.readError then ReadFailed(c1)
    else
      var h := HandedOver(c1.head, env);
      var m := AudioTaken(c1.misc, h.transfer, env).(readed := false);
      var c2 := c1.(head := h.(setSectorPlay := Advance(h.setSectorPlay)), misc := m).Scheduling(CDREAD);
      DataRaised(c2).TrackRead(env, c2.head.setSectorPlay)
  }

  predicate CanServe(c: Cdr) { c.work.reading && c.work.irq == 0 && c.reply.stat == NoIntr }

  /** cdrReadInterrupt: it waits while a command or a response is pending. */
  function OnRead(c: Cdr, env: Env): Cdr
  {
    if !c.work.reading then c
    else if c.work.irq != 0 || c.reply.stat != NoIntr then c.Scheduling(CDREAD)
    else Served(c, env)
  }

  // ----- seeking and playing -----

  /** The position report: relative or absolute time, by turns. */
  function Report(c: Cdr): seq<Byte>
  {
    var q := c.misc.subq;
    var at := if Bit(q[7], 4) then [q[2], if q[3] < 0x80 then q[3] + 0x80 else q[3], q[4]] else [q[5], q[6], q[7]];
    [c.StatPByte(), q[0], q[1]] + at + [0, 0]
  }

  /** cdrPlayInterrupt_Autopause. */
  function Autopause(c: Cdr): Cdr
  {
    if Bit(c.misc.mode, 1) && c.misc.trackChanged then c.Raising(DataEnd).Signalling().CddaStopped()
    else if Bit(c.misc.mode, 2) then c.Replying(8, Report(c)).Raising(DataReady).Signalling()
    else c
  }

  function SeekShown(c: Cdr): (r: Cdr)
    ensures r.work.irq == c.work.irq
  {
    var p := c.work.statP.(rotating := true, seek := false);
    c.(work := c.work.(statP := p, seeked := true)).Replying(1, [p.ToByte()])
  }

  /** The response of a seek; it is raised unless a command is pending. */
  function SeekReported(c: Cdr): Cdr
  {
    var c1 := SeekShown(c);
    if c1.work.irq == 0 then c1.Raising(Complete).Signalling() else c1
  }

  /** The first part of cdrPlayInterrupt: a pending seek ends. */
  function SeekEnded(c: Cdr, env: Env): Cdr
  {
    SeekReported(c).SetlocTaken().FoundAndRead(env)
  }

  /** The play position has reached the end of the disc. */
  function EndChecked(c: Cdr): Cdr
  {
    if c.head.setSectorPlay == c.head.setSectorEnd then
      var d := c.CddaStopped();
      d.(misc := d.misc.(trackChanged := true))
    else c
  }

  function Paused(c: Cdr): Cdr
  {
    if c.work.irq == 0 && c.reply.stat == NoIntr && (Bit(c.misc.mode, 1) || Bit(c.misc.mode, 2)) then Autopause(c)
    else c
  }

  /** The second part: the play position moves on. */
  function PlayedOn(c: Cdr, env: Env): Cdr
  {
    if !c.work.play then c
    else
      var d := Paused(EndChecked(c));
      if !d.work.play then d
      else
        var p := Advance(d.head.setSectorPlay);
        d.(head := d.head.(setSectorPlay := p)).Scheduling(CDRPLAY).Located(env, false, p)
  }

  /** cdrPlayInterrupt. */
  function OnPlay(c: Cdr, env: Env): Cdr
  {
    if c.work.seeked then PlayedOn(c, env)
    else if c.reply.stat != NoIntr then c.Scheduling(CDRPLAY)
    else PlayedOn(SeekEnded(c, env), env)
  }

  // ----- the lid -----

  /** The lid as cdrLidSeekInterrupt sees it; unknown counts as closed. */
  predicate LidClosed(env: Env) { !env.statusKnown || !env.shellOpen }

  /** The drive with its lid open waits for the lid, in three stages. */
  function LidWaits(c: Cdr, env: Env): Cdr
  {
    var p := c.work.statP;
    if !p.shell then
      var r := c.ReadingStopped();
      WithStatP(r, r.work.statP.(shell := true))
    else if p.rotating then WithStatP(c, p.(rotating := false))
    else if LidClosed(env) then c.(work := c.work.(drive := RESCAN_CD))
    else c
  }

  function LidOpens(c: Cdr): Cdr
  {
    var d := c.CddaStopped();
    d.(work := d.work.(drive := LID_OPEN))
  }

  /** cdrLidSeekInterrupt. */
  function OnLid(c: Cdr, env: Env): Cdr
  {
    var w, p := c.work, c.work.statP;
    match w.drive
    case LID_OPEN => LidWaits(c, env).Scheduling(CDRLID)
    case RESCAN_CD => c.(work := w.(statP := p.(rotating := true), drive := PREPARE_CD)).Scheduling(CDRLID)
    case PREPARE_CD => c.(work := w.(statP := p.(seek := true), drive := STANDBY)).Scheduling(CDRLID)
    case _ =>
      var d := WithStatP(c, p.(seek := false));
      if LidClosed(env) then d else LidOpens(d).Scheduling(CDRLID)
  }

  /** getCdInfo. */
  function InfoTaken(c: Cdr, env: Env): Cdr
  {
    c.(misc := c.misc.(resultTN := if env.tnKnown then env.tn else c.misc.resultTN),
      head := c.head.(setSectorEnd := env.td(0)))
  }

  // ----- registers -----

  function Distance(a: nat, b: nat): nat { if a >= b then a - b else b - a }

  /** The part of cdrWrite1 after the command is queued (cdrom.c:2236-2290). */
  function CommandNoted(c: Cdr, cmd: Byte): Cdr
  {
    if cmd == 2 then
      var p := Msf(Btoi(c.misc.param[0]), Btoi(c.misc.param[1]), Btoi(c.misc.param[2]));
      c.(work := c.work.(seeked := c.work.seeked && Distance(Abs(c.head.setSectorPlay), Abs(p)) <= 16),
         head := c.head.(setSector := p, setlocPending := true))
    else if cmd == 6 || cmd == 27 || cmd == 9 then c.CddaStopped().ReadingStopped()
    else if cmd == 28 || cmd == 10 then c.(work := c.work.(seeked := true)).CddaStopped().ReadingStopped()
    else if cmd == 14 then
      var d := c.(misc := c.misc.(mode := c.misc.param[0]));
      if !Bit(d.misc.mode, 0) then d.CddaStopped() else d
    else c
  }

  /** A command is queued, and the busy bit is set. */
  function CommandQueued(c: Cdr, cmd: Byte): (r: Cdr)
    ensures r.head == c.head && r.misc == c.misc
  {
    c.(reply := c.reply.(resultReady := false), work := c.work.(busy := true)).Queueing(cmd, 0x800)
  }

  /** cdrWrite1: in bank 0 a command. */
  function OnWrite1(c: Cdr, rt: Byte): Cdr
  {
    if c.misc.bank != 0 then c
    else CommandNoted(CommandQueued(c, rt), rt)
  }

  /** cdrWrite2: a parameter, or the interrupt mask. */
  function OnWrite2(c: Cdr, rt: Byte): Cdr
  {
    var m := c.misc;
    if m.bank == 0 && m.paramC < 8 then c.(misc := m.(param := m.param[m.paramC := rt], paramC := m.paramC + 1))
    else if m.bank == 1 then c.(misc := m.(reg2 := rt)).Signalling()
    else c
  }

  /** cdrWrite3: the start of a transfer, or the acknowledge write. */
  function OnWrite3(c: Cdr, rt: Byte): Cdr
  {
    var m := c.misc;
    if m.bank == 0 then (if rt >= 0x80 && !m.readed then c.(misc := m.(readed := true)) else c)
    else if m.bank == 1 then
      c.Raising(Cleared(c.reply.stat, rt)).(misc := m.(paramC := if Bit(rt, 6) then 0 else m.paramC))
    else c
  }

  /** cdrRead1: the response is read byte by byte and not changed. */
  function OnRead1(c: Cdr): Cdr
  {
    var p := (c.reply.resultP + 1) % 0x100;
    c.(reply := c.reply.(resultP := p, resultReady := c.reply.resultReady && p != c.reply.resultC))
  }

  /** cdrReset: the controller starts anew; the plugin's sector buffer and the event queue stay. */
  function OnReset(c: Cdr, env: Env): Cdr
  {
    var zero := Msf(0, 0, 0);
    InfoTaken(Cdr(
      Reply(NoIntr, seq(16, _ => 0), 0, 0, false),
      Work(0, false, 0, false, false, false, false, STANDBY, StatP(false, false, false, false, true), c.work.events),
      Head(false, zero, zero, zero, zero, false, c.head.buffer, seq(2340, _ => 0)),
      Misc(0, 0x1f, c.misc.signalled, seq(8, _ => 0), 0, false, 0, false, 1, 1, 0, 0, 0, 1, false,
           seq(8, _ => 0), seq(2, _ => 0), zero)), env)
  }

  // ----- all steps -----

  /** Everything that can happen to the controller.  `LidMoved` is LidInterrupt; `ReadSoon` is the
      rescheduling of CDREAD by a DMA transfer (cdrom.c:2456-2466). */
  datatype Action =
    | Happen(e: Event) | SelectBank(rt: Byte) | Write1(rt: Byte) | Write2(rt: Byte) | Write3(rt: Byte)
    | Read1 | LidMoved | ReadSoon | Reset

  /** The program gives a command. */
  predicate IsCommand(c: Cdr, a: Action) { a.Write1? && c.misc.bank == 0 }

  function Handle(c: Cdr, e: Event, env: Env): Cdr
  {
    match e
    case CDR => OnCdr(c, env)
    case CDREAD => OnRead(c, env)
    case CDRPLAY => OnPlay(c, env)
    case CDRLID => OnLid(c, env)
  }

  /** An event is dispatched only when it is scheduled, and is removed first (r3000a.c:128-187). */
  function Step(c: Cdr, a: Action, env: Env): Cdr
  {
    match a
    case Happen(e) =>
      if e in c.work.events then Handle(c.(work := c.work.(events := c.work.events - {e})), e, env) else c
    case SelectBank(rt) => c.(misc := c.misc.(bank := rt % 4))
    case Write1(rt) => OnWrite1(c, rt)
    case Write2(rt) => OnWrite2(c, rt)
    case Write3(rt) => OnWrite3(c, rt)
    case Read1 => OnRead1(c)
    case LidMoved => OnLid(InfoTaken(c, env).CddaStopped(), env)
    case ReadSoon => c.Scheduling(CDREAD)
    case Reset => OnReset(c, env)
  }
}
