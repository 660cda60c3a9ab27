/** Streaming reads (libpcsxcore/cdrom.c:494-522, 1280-1444): although the controller reads each sector
    ahead of time and skips reads of the sector it read last, a program that lets it stream gets
    consecutive sectors.
  */
module CdStreaming {
  import opened Common
  import opened CdState
  import opened CdSteps
  import opened CdSafety

  // ----- positions -----

  const LASTBCD := 160 * 60 * 75     // minutes beyond 159 have no BCD byte

  function FromAbs(n: nat): Msf
    requires n < LASTBCD
  {
    Msf(n / 4500, n / 75 % 60, n % 75)
  }

  lemma AbsIsInverse(p: Msf)
    requires ValidMsf(p) && Abs(p) < LASTBCD
    ensures FromAbs(Abs(p)) == p
  {
    assert Abs(p) / 75 == p.m * 60 + p.s && Abs(p) % 75 == p.f;
    assert (p.m * 60 + p.s) % 60 == p.s && Abs(p) / 4500 == p.m;
  }

  lemma FromAbsIsValid(n: nat)
    requires n < LASTBCD
    ensures ValidMsf(FromAbs(n)) && Abs(FromAbs(n)) == n
  {
    assert n / 75 / 60 == n / 4500;
  }

  lemma AdvanceAddsOne(p: Msf)
    requires ValidMsf(p) && p.m < 160
    ensures ValidMsf(Advance(p)) && Abs(Advance(p)) == Abs(p) + 1
  {
    if p.f < 74 {
      assert Advance(p) == Msf(p.m, p.s, p.f + 1);
    } else if p.s < 59 {
      assert Advance(p) == Msf(p.m, p.s + 1, 0);
    } else {
      assert Advance(p) == Msf(p.m + 1, 0, 0);
    }
  }

  /** The byte-wise step is the step to the next sector number. */
  lemma AdvanceIsTheNextSector(n: nat)
    requires n + 1 < LASTBCD
    ensures Advance(FromAbs(n)) == FromAbs(n + 1)
  {
    FromAbsIsValid(n);
    AdvanceAddsOne(FromAbs(n));
    AbsIsInverse(Advance(FromAbs(n)));
  }

  lemma ItobIsInjective(i: Byte, j: Byte)
    requires i < 160 && j < 160 && Itob(i) == Itob(j)
    ensures i == j
  {
    BcdRoundTrip(i);
    BcdRoundTrip(j);
  }

  /** No other position has the BCD form of the license sector. */
  lemma LicenseSectorInBcd(p: Msf)
    requires ValidMsf(p) && Abs(p) < LASTBCD
    ensures ToBcd(p) == Msf(0, 2, 4) <==> LicenseSector(p)
  {
    assert Itob(0) == 0 && Itob(2) == 2 && Itob(4) == 4;
    hide Itob;
    if ToBcd(p) == Msf(0, 2, 4) {
      ItobIsInjective(p.m, 0);
      ItobIsInjective(p.s, 2);
      ItobIsInjective(p.f, 4);
    }
  }

  // ----- the cache -----

  /** The sector buffer holds the sector read last, as the disc has it, unless that read failed or the
      sector was patched. */
  predicate CacheHolds(h: Head, disc: Msf -> Sector)
  {
    h.readError || h.buffer == disc(h.prev) || h.prev == Msf(0, 2, 4)
  }

  /** The cache does not deceive a read at the head: it holds, or the head is elsewhere. */
  predicate CacheFits(h: Head, disc: Msf -> Sector)
  {
    CacheHolds(h, disc) || h.prev != ToBcd(h.setSectorPlay)
  }

  /** Nothing but reading is going on: no command is pending, nothing plays, and a seek that is still
      pending has no new place to go to. */
  predicate OnlyReads(c: Cdr) { c.work.irq == 0 && !c.work.play && (c.work.seeked || !c.head.setlocPending) }

  /** The step serves a read. */
  predicate Serves(c: Cdr, a: Action) { a == Happen(CDREAD) && CDREAD in c.work.events && CanServe(c) }

  /** What the program must get for a position: the sector of the disc, patched. */
  function Delivered(p: Msf, disc: Msf -> Sector, ppf: (Msf, Sector) -> Sector): Sector
  {
    ppf(ToBcd(p), disc(ToBcd(p)))
  }

  /** The surroundings during a run: one disc and one set of patches.  What can be read may change. */
  ghost predicate OneDisc(env: Env, disc: Msf -> Sector, ppf: (Msf, Sector) -> Sector)
  {
    env.disc == disc && env.ppf == ppf
  }

  /** The last read failed, and it was of the sector at the head. */
  predicate FailedAtHead(h: Head) { h.readError && h.prev == ToBcd(h.setSectorPlay) }

  /** One served read: it fails and the head stays, or it hands over the sector at the head and moves on.
      It does not leave a failure behind if the sector read ahead is readable. */
  lemma ServedDelivers(c: Cdr, env: Env, disc: Msf -> Sector, ppf: (Msf, Sector) -> Sector)
    requires OneDisc(env, disc, ppf) && CacheFits(c.head, disc)
    requires ValidMsf(c.head.setSectorPlay) && Abs(c.head.setSectorPlay) < LASTBCD
    requires OnlyReads(c) && CanServe(c)
    ensures var d := Served(c, env); var p := c.head.setSectorPlay;
      OnlyReads(d) && CacheFits(d.head, disc) &&
      if d.reply.stat == DiskError then d.head.setSectorPlay == p
      else
        d.head.setSectorPlay == Advance(p) &&
        (!LicenseSector(p) ==> d.head.transfer == Delivered(p, disc, ppf)) &&
        (env.readable(ToBcd(Advance(p))) ==> !FailedAtHead(d.head))
  {
    hide AudioTaken, Cleared, Bit, Advance, Itob, Cdr.Located;
    var p := c.head.setSectorPlay;
    LicenseSectorInBcd(p);
    var c1 := ReadStarts(c).TrackRead(env, p);
    assert c1.head.prev == ToBcd(p) && c1.head.setSectorPlay == p;
    if c1.head.readError { return; }
    assert !LicenseSector(p) ==> c1.head.buffer == disc(ToBcd(p));
    var h := HandedOver(c1.head, env);
    assert !LicenseSector(p) ==> h.buffer == disc(ToBcd(p)) && h.transfer == Delivered(p, disc, ppf);
    var m := AudioTaken(c1.misc, h.transfer, env).(readed := false);
    var c2 := c1.(head := h.(setSectorPlay := Advance(h.setSectorPlay)), misc := m).Scheduling(CDREAD);
    var c3 := DataRaised(c2);
    assert c3.head == c2.head && c3.work == c2.work && c3.reply.stat != DiskError;
    var d := c3.TrackRead(env, Advance(p));
    assert Served(c, env) == d;
  }

  // ----- the other steps -----

  lemma IdleCommandIsHarmless(c: Cdr, env: Env)
    requires OnlyReads(c)
    ensures var d := OnCdr(c, env); OnlyReads(d) && d.head == c.head
  {
    hide Cleared;
    if c.reply.stat != NoIntr { return; }
    if c.work.irqRepeated && c.work.eCycle > env.cycle { return; }
    var e := Command(c.work.irq, CommandStarts(c), env);
    assert e == Effect(CommandStarts(c), false, false);
    var f := Settled(e);
    assert f.head == c.head && OnlyReads(f);
  }

  lemma LidIsHarmless(c: Cdr, env: Env)
    requires OnlyReads(c)
    ensures var d := OnLid(c, env); OnlyReads(d) && d.head == c.head
  {
    match c.work.drive
    case LID_OPEN =>
      if !c.work.statP.shell { return; }
      if c.work.statP.rotating { return; }
      if LidClosed(env) { return; }
    case RESCAN_CD => return;
    case PREPARE_CD => return;
    case _ => if LidClosed(env) { return; }
  }

  /** The end of a pending seek reads the sector at the head, if it is not the one read last. */
  lemma SeekIsARead(c: Cdr, env: Env)
    requires OnlyReads(c)
    ensures var d, t := OnPlay(c, env), ToBcd(c.head.setSectorPlay);
      OnlyReads(d) && d.head.setSectorPlay == c.head.setSectorPlay &&
      (d.head == c.head ||
       (d.head.prev == t && d.head.readError == !env.readable(t) &&
         (env.readable(t) ==> d.head.buffer == env.disc(t)) &&
        c.head.prev != t))
  {
    hide Cleared, Itob, Cdr.Located, Cdr.TrackFound;
    if c.work.seeked || c.reply.stat != NoIntr { return; }
    var d := SeekReported(c);
    assert d.head == c.head && d.work.irq == 0 && !d.work.play && d.work.seeked;
    assert OnPlay(c, env) == PlayedOn(d.FoundAndRead(env), env) == d.FoundAndRead(env);
  }

  /** Every step that neither serves a read, nor is a command, nor resets: the head stays, and the only
      thing it can do to the cache is the read at the end of a seek. */
  lemma OtherStepsAreHarmless(c: Cdr, a: Action, env: Env)
    requires OnlyReads(c) && !Serves(c, a) && !IsCommand(c, a) && !a.Reset?
    ensures var d, t := Step(c, a, env), ToBcd(c.head.setSectorPlay);
      OnlyReads(d) && d.head.setSectorPlay == c.head.setSectorPlay &&
      ((d.head.prev == c.head.prev && d.head.buffer == c.head.buffer && d.head.readError == c.head.readError) ||
       (d.head.prev == t && d.head.readError == !env.readable(t) &&
         (env.readable(t) ==> d.head.buffer == env.disc(t)) &&
        c.head.prev != t))
  {
    hide OnCdr, OnPlay, OnLid, Served, Cleared, Bit, Itob;
    match a
    case Happen(e) =>
      var d := c.(work := c.work.(events := c.work.events - {e}));
      IdleCommandIsHarmless(d, env);
      LidIsHarmless(d, env);
      SeekIsARead(d, env);
      if e == CDR || e == CDRLID || e == CDREAD || e == CDRPLAY { return; }
    case LidMoved => LidIsHarmless(InfoTaken(c, env).CddaStopped(), env);
    case Write1(_) => return;
    case Write2(_) => return;
    case Write3(_) => return;
    case _ => return;
  }

  // ----- the cache over whole runs -----

  /** The cache holds, or the sector read last is 0:0:0, which is what a reset takes it for. */
  predicate CacheRight(h: Head, disc: Msf -> Sector) { CacheHolds(h, disc) || h.prev == Msf(0, 0, 0) }

  lemma TrackReadKeepsCache(c: Cdr, env: Env, p: Msf, disc: Msf -> Sector)
    requires env.disc == disc && CacheRight(c.head, disc)
    ensures var h := c.TrackRead(env, p).head;
      CacheRight(h, disc) && h.prev == ToBcd(p) && h.setSectorPlay == c.head.setSectorPlay
    ensures CacheRight(c.FoundAndRead(env).head, disc)
  {
    hide ToBcd, Cdr.Located, Cdr.TrackFound;
  }

  lemma MovingKeepsCache(cmd: nat, c: Cdr, env: Env, disc: Msf -> Sector)
    requires env.disc == disc && CacheRight(c.head, disc)
    ensures CacheRight(Moving(cmd, c, env).c.head, disc)
  {
    hide Cdr.TrackRead, Cdr.FoundAndRead, StatPFirst, Cdr.Located, Bit, Play, DataRead, Cdr.TrackFound;
    if cmd == 3 {
      PlayKeepsCache(c, env, disc);
    } else if cmd == 8 {
    } else if cmd != 21 && cmd != 22 && cmd != 28 {
      var d := c.SetlocTaken().TrackFound(env);
      PlayKeepsCache(d, env, disc);
      DataReadKeepsCache(d, env, disc);
    }
  }

  lemma PlayKeepsCache(c: Cdr, env: Env, disc: Msf -> Sector)
    requires env.disc == disc && CacheRight(c.head, disc)
    ensures CacheRight(Play(c, env).head, disc)
  {
    hide Cdr.FoundAndRead, StatPFirst;
    var c0 := c.CddaStopped();
    var c1 := c0.(work := c0.work.(seeked := true)).SetlocTaken();
    TrackReadKeepsCache(TrackChosen(c1, env), env, c.head.setSectorPlay, disc);
  }

  lemma DataReadKeepsCache(c: Cdr, env: Env, disc: Msf -> Sector)
    requires env.disc == disc && CacheRight(c.head, disc)
    ensures CacheRight(DataRead(c, env).head, disc)
  {
    hide Cdr.TrackRead, StatPFirst;
    var c0 := c.(work := c.work.(reading := true), misc := c.misc.(firstSector := 1));
    TrackReadKeepsCache(c0, env, c.head.setSectorPlay, disc);
  }

  /** The other commands leave the head alone. */
  lemma OthersKeepHead(cmd: nat, c: Cdr, env: Env)
    ensures Answering(cmd, c, env).c.head == TwoPart(cmd, c, env).c.head == SecondHalf(cmd, c, env).c.head == c.head
  {
    hide Bit;
  }

  lemma CdrKeepsCache(c: Cdr, env: Env, disc: Msf -> Sector)
    requires env.disc == disc && CacheRight(c.head, disc)
    ensures CacheRight(OnCdr(c, env).head, disc)
  {
    hide Moving, Answering, TwoPart, SecondHalf, CacheRight;
    var b := CommandStarts(c);
    MovingKeepsCache(c.work.irq, b, env, disc);
    OthersKeepHead(c.work.irq, b, env);
    if c.work.irq >= SECOND { OthersKeepHead(c.work.irq - SECOND, b, env); }
    var e := Command(c.work.irq, b, env);
    assert CacheRight(e.c.head, disc);
    assert Settled(e).head == e.c.head;
  }

  lemma ServedKeepsCache(c: Cdr, env: Env, disc: Msf -> Sector)
    requires env.disc == disc && CacheRight(c.head, disc)
    ensures CacheRight(Served(c, env).head, disc)
  {
    hide AudioTaken, Cleared, Bit, Advance, Cdr.Located, Cdr.TrackRead;
    var p := c.head.setSectorPlay;
    var c1 := ReadStarts(c).TrackRead(env, p);
    TrackReadKeepsCache(ReadStarts(c), env, p, disc);
    assert c1.head.prev == ToBcd(p) && c1.head.setSectorPlay == p;
    if c1.head.readError { return; }
    var h := HandedOver(c1.head, env);
    assert LicenseSector(p) ==> h.prev == Msf(0, 2, 4);
    var m := AudioTaken(c1.misc, h.transfer, env).(readed := false);
    var c2 := c1.(head := h.(setSectorPlay := Advance(h.setSectorPlay)), misc := m).Scheduling(CDREAD);
    assert DataRaised(c2).head == c2.head;
    TrackReadKeepsCache(DataRaised(c2), env, c2.head.setSectorPlay, disc);
  }

  lemma OnPlayKeepsCache(c: Cdr, env: Env, disc: Msf -> Sector)
    requires env.disc == disc && CacheRight(c.head, disc)
    ensures CacheRight(OnPlay(c, env).head, disc)
  {
    hide PlayedOn, Cdr.FoundAndRead;
    PlayedOnKeepsCache(c, env, disc);
    var b := SeekReported(c).SetlocTaken();
    TrackReadKeepsCache(b, env, b.head.setSectorPlay, disc);
    PlayedOnKeepsCache(SeekEnded(c, env), env, disc);
  }

  lemma PlayedOnKeepsCache(c: Cdr, env: Env, disc: Msf -> Sector)
    requires CacheRight(c.head, disc)
    ensures CacheRight(PlayedOn(c, env).head, disc)
  {
    hide Bit, Report, Advance;
  }

  lemma OtherActionsKeepHead(c: Cdr, rt: Byte, env: Env)
    ensures OnLid(c, env).head == c.head && OnWrite2(c, rt).head == OnWrite3(c, rt).head == c.head
    ensures var h := OnWrite1(c, rt).head;
      h.prev == c.head.prev && h.buffer == c.head.buffer && h.readError == c.head.readError
  {
    hide Bit, Cleared;
  }

  /** Whatever is commanded, no step makes the cache wrong; a reset may, about 0:0:0 alone. */
  lemma StepKeepsCache(c: Cdr, a: Action, env: Env, disc: Msf -> Sector)
    requires env.disc == disc && (a.Reset? || CacheRight(c.head, disc))
    ensures CacheRight(Step(c, a, env).head, disc)
  {
    hide OnCdr, OnPlay, OnLid, Served, OnWrite1, OnWrite2, OnWrite3;
    match a
    case Happen(e) =>
      var d := c.(work := c.work.(events := c.work.events - {e}));
      CdrKeepsCache(d, env, disc);
      ServedKeepsCache(d, env, disc);
      OnPlayKeepsCache(d, env, disc);
      OtherActionsKeepHead(d, 0, env);
      if e == CDR || e == CDRLID || e == CDREAD || e == CDRPLAY { return; }
    case LidMoved => OtherActionsKeepHead(InfoTaken(c, env).CddaStopped(), 0, env);
    case Write1(rt) => OtherActionsKeepHead(c, rt, env);
    case Write2(rt) => OtherActionsKeepHead(c, rt, env);
    case Write3(rt) => OtherActionsKeepHead(c, rt, env);
    case _ =>
  }

  /** About 0:0:0 it is right after a reset exactly if the buffer, which a reset leaves, holds that sector. */
  lemma ResetLeavesBuffer(c: Cdr, env: Env, disc: Msf -> Sector)
    ensures var h := Step(c, Reset, env).head;
      h.buffer == c.head.buffer && (CacheHolds(h, disc) <==> c.head.buffer == disc(Msf(0, 0, 0)))
  {
  }

  /** One disc and one set of patches all along. */
  ghost predicate OneDiscRun(run: Run, disc: Msf -> Sector, ppf: (Msf, Sector) -> Sector)
  {
    forall k :: 0 <= k < |run| ==> OneDisc(run[k].1, disc, ppf)
  }

  /** From every reset on and over every run with one disc, commands, errors and further resets included, a
      read anywhere but at 0:0:0 is not deceived by the cache. */
  lemma {:induction false} CacheIsRight(c: Cdr, run: Run, disc: Msf -> Sector, ppf: (Msf, Sector) -> Sector)
    requires run != [] && run[0].0.Reset? && OneDiscRun(run, disc, ppf)
    ensures CacheRight(After(c, run).head, disc)
    ensures ToBcd(After(c, run).head.setSectorPlay) != Msf(0, 0, 0) ==> CacheFits(After(c, run).head, disc)
    decreases |run|
  {
    hide Step, CacheHolds, ToBcd;
    var shorter := run[..|run| - 1];
    var (a, env) := run[|run| - 1];
    assert OneDisc(env, disc, ppf);
    if shorter != [] { CacheIsRight(c, shorter, disc, ppf); }
    StepKeepsCache(After(c, shorter), a, env, disc);
  }

  // ----- how a stream starts -----

  /** A read command is pending, and is accepted on a data track. */
  predicate ReadAccepted(c: Cdr, env: Env)
  {
    c.reply.stat == NoIntr && (c.work.irq == 6 || c.work.irq == 27) && !c.work.play &&
    !(c.work.irqRepeated && c.work.eCycle > env.cycle) &&
    (Bit(c.misc.mode, 0) ==> CommandStarts(c).SetlocTaken().TrackFound(env).misc.curTrack <= 1)
  }

  /** Where the head is to go. */
  function Target(h: Head): Msf { if h.setlocPending then h.setSector else h.setSectorPlay }

  /** A read command, accepted on a data track, sets out on a stream from where the head is to go,
      whether the seek there is over or still pending.  The cache deceives it exactly if it is wrong about
      that very sector, and its first read is to fail exactly if the sector fails now or failed last. */
  lemma ReadCommandStartsStream(c: Cdr, env: Env, disc: Msf -> Sector)
    requires ReadAccepted(c, env) && env.disc == disc
    ensures var d, p := OnCdr(c, env), Target(c.head);
      OnlyReads(d) && d.work.reading && CDREAD in d.work.events && d.head.setSectorPlay == p &&
      (CacheFits(d.head, disc) <==> CacheHolds(c.head, disc) || c.head.prev != ToBcd(p)) &&
      (FailedAtHead(d.head) <==> if c.head.prev == ToBcd(p) then c.head.readError else !env.readable(ToBcd(p)))
  {
    hide Cleared, Itob, Cdr.Located, StatPFirst, Cdr.TrackFound, Bit;
    var b := CommandStarts(c);
    var e := Command(c.work.irq, b, env);
    assert e == Effect(Read(b, env), false, true);
    var t := b.SetlocTaken().TrackFound(env);
    assert Read(b, env) == DataRead(t, env);
    var f := Settled(e);
    assert f.head == e.c.head;
    assert OnCdr(c, env).head == f.head && OnCdr(c, env).work == f.work;
  }

  // ----- whole runs -----

  /** The step serves a read and hands a sector over. */
  predicate Delivers(c: Cdr, a: Action, env: Env) { Serves(c, a) && Step(c, a, env).reply.stat != DiskError }

  /** The sectors handed over along a run, in order. */
  function Deliveries(c: Cdr, run: Run): seq<Sector>
  {
    if run == [] then []
    else
      var (a, env) := run[|run| - 1];
      var before := After(c, run[..|run| - 1]);
      Deliveries(c, run[..|run| - 1]) + if Delivers(before, a, env) then [Step(before, a, env).head.transfer] else []
  }

  /** A run without commands or resets. */
  predicate Uncommanded(c: Cdr, run: Run)
  {
    run == [] || (
      var a := run[|run| - 1].0;
      Uncommanded(c, run[..|run| - 1]) && !IsCommand(After(c, run[..|run| - 1]), a) && !a.Reset?)
  }

  /** Along such a run, however its steps interleave, whatever can be read and even if a seek is still
      pending when it starts, the sectors handed over are consecutive, from the one at the head on, and the
      head ends at the next. */
  lemma {:induction false} StreamIsConsecutive(c: Cdr, run: Run, disc: Msf -> Sector, ppf: (Msf, Sector) -> Sector)
    requires OnlyReads(c) && CacheFits(c.head, disc) && ValidMsf(c.head.setSectorPlay)
    requires Uncommanded(c, run) && OneDiscRun(run, disc, ppf)
    requires Abs(c.head.setSectorPlay) + |Deliveries(c, run)| < LASTBCD
    ensures var d := After(c, run); var n := |Deliveries(c, run)|;
      OnlyReads(d) && CacheFits(d.head, disc) &&
      d.head.setSectorPlay == FromAbs(Abs(c.head.setSectorPlay) + n) && ValidMsf(d.head.setSectorPlay)
    ensures forall k :: 0 <= k < |Deliveries(c, run)| ==>
      var p := FromAbs(Abs(c.head.setSectorPlay) + k);
      LicenseSector(p) || Deliveries(c, run)[k] == Delivered(p, disc, ppf)
  {
    hide Step, CacheFits, OnlyReads, Delivers, IsCommand, ToBcd, Advance, FromAbs, ValidMsf, Abs, LicenseSector,
      OneDisc, Delivered;
    var s := Abs(c.head.setSectorPlay);
    AbsIsInverse(c.head.setSectorPlay);
    if run != [] {
      var (a, env) := run[|run| - 1];
      var shorter := run[..|run| - 1];
      StreamIsConsecutive(c, shorter, disc, ppf);
      var n := |Deliveries(c, shorter)|;
      FromAbsIsValid(s + n);
      OneStep(After(c, shorter), a, env, disc, ppf);
      if Delivers(After(c, shorter), a, env) {
        AdvanceIsTheNextSector(s + n);
        FromAbsIsValid(s + n + 1);
      }
    }
  }

  /** One step of such a run. */
  lemma OneStep(c: Cdr, a: Action, env: Env, disc: Msf -> Sector, ppf: (Msf, Sector) -> Sector)
    requires OnlyReads(c) && CacheFits(c.head, disc)
    requires ValidMsf(c.head.setSectorPlay) && Abs(c.head.setSectorPlay) < LASTBCD
    requires OneDisc(env, disc, ppf) && !IsCommand(c, a) && !a.Reset?
    ensures var d := Step(c, a, env); var p := c.head.setSectorPlay;
      OnlyReads(d) && CacheFits(d.head, disc) &&
      d.head.setSectorPlay == (if Delivers(c, a, env) then Advance(p) else p) &&
      (Delivers(c, a, env) && !LicenseSector(p) ==> d.head.transfer == Delivered(p, disc, ppf))
  {
    hide Served, OnCdr, OnPlay, OnLid, OnWrite1, OnWrite2, OnWrite3, Advance, ToBcd;
    if Serves(c, a) {
      ServedDelivers(c.(work := c.work.(events := c.work.events - {CDREAD})), env, disc, ppf);
    } else {
      OtherStepsAreHarmless(c, a, env);
    }
  }

  /** After a reset, whatever happened since: a read command accepted on a data track anywhere but at 0:0:0
      makes the sectors from there on come, one after the other, until the next command. */
  lemma ReadCommandDelivers(c: Cdr, before: Run, env: Env, run: Run, disc: Msf -> Sector, ppf: (Msf, Sector) -> Sector)
    requires before != [] && before[0].0.Reset? && OneDiscRun(before, disc, ppf) && OneDisc(env, disc, ppf)
    requires ReadAccepted(After(c, before), env) && CDR in After(c, before).work.events
    requires var p := Target(After(c, before).head); ValidMsf(p) && p != Msf(0, 0, 0)
    requires var d := Step(After(c, before), Happen(CDR), env);
      Uncommanded(d, run) && OneDiscRun(run, disc, ppf) &&
      Abs(Target(After(c, before).head)) + |Deliveries(d, run)| < LASTBCD
    ensures var got := Deliveries(Step(After(c, before), Happen(CDR), env), run);
      forall k :: 0 <= k < |got| ==>
        var p := FromAbs(Abs(Target(After(c, before).head)) + k);
        LicenseSector(p) || got[k] == Delivered(p, disc, ppf)
  {
    hide Step, ReadAccepted, Target, Delivered, FromAbs, CacheRight, CacheFits, OnlyReads, LicenseSector;
    CacheIsRight(c, before, disc, ppf);
    ReadStepStartsStream(After(c, before), env, disc);
    StreamIsConsecutive(Step(After(c, before), Happen(CDR), env), run, disc, ppf);
  }

  lemma ReadStepStartsStream(c: Cdr, env: Env, disc: Msf -> Sector)
    requires ReadAccepted(c, env) && CDR in c.work.events && env.disc == disc && CacheRight(c.head, disc)
    requires ValidMsf(Target(c.head)) && Abs(Target(c.head)) < LASTBCD && Target(c.head) != Msf(0, 0, 0)
    ensures var d := Step(c, Happen(CDR), env);
      OnlyReads(d) && CacheFits(d.head, disc) && d.head.setSectorPlay == Target(c.head)
  {
    var b := c.(work := c.work.(events := c.work.events - {CDR}));
    assert ReadAccepted(b, env) by {
      hide Bit, Cdr.TrackFound;
      assert CommandStarts(b).SetlocTaken().head == CommandStarts(c).SetlocTaken().head;
      assert CommandStarts(b).SetlocTaken().misc == CommandStarts(c).SetlocTaken().misc;
      TrackFoundAlike(CommandStarts(b).SetlocTaken(), CommandStarts(c).SetlocTaken(), env);
    }
    hide OnCdr, ReadAccepted, OnlyReads, CacheHolds, ToBcd;
    ReadCommandStartsStream(b, env, disc);
    AfterZero(Target(c.head));
  }

  lemma TrackFoundAlike(b: Cdr, c: Cdr, env: Env)
    requires b.head == c.head && b.misc == c.misc
    ensures b.TrackFound(env).misc == c.TrackFound(env).misc
  {
  }

  lemma AfterZero(p: Msf)
    requires ValidMsf(p) && p.m < 160 && p != Msf(0, 0, 0)
    ensures ToBcd(p) != Msf(0, 0, 0)
  {
    assert Itob(0) == 0;
    hide Itob;
    if ToBcd(p) == Msf(0, 0, 0) {
      ItobIsInjective(p.m, 0);
      ItobIsInjective(p.s, 0);
      ItobIsInjective(p.f, 0);
    }
  }

  /** The reads served along a run. */
  function Reads(c: Cdr, run: Run): nat
  {
    if run == [] then 0
    else
      Reads(c, run[..|run| - 1]) + if Serves(After(c, run[..|run| - 1]), run[|run| - 1].0) then 1 else 0
  }

  /** The sectors `s` to `last` - 1 can be read all along the run. */
  predicate Readable(run: Run, s: nat, last: nat)
    requires last <= LASTBCD
  {
    forall k, q :: 0 <= k < |run| && s <= q < last ==> run[k].1.readable(ToBcd(FromAbs(q)))
  }

  /** If the sectors that the reads of such a run ask for can be read, every one of them is handed over;
      whether the sector behind the last can be read ahead does not matter. */
  lemma NoReadFails(c: Cdr, run: Run, disc: Msf -> Sector, ppf: (Msf, Sector) -> Sector)
    requires OnlyReads(c) && CacheFits(c.head, disc) && ValidMsf(c.head.setSectorPlay) && !FailedAtHead(c.head)
    requires Uncommanded(c, run) && OneDiscRun(run, disc, ppf)
    requires var s := Abs(c.head.setSectorPlay); s + Reads(c, run) < LASTBCD && Readable(run, s, s + Reads(c, run))
    ensures |Deliveries(c, run)| == Reads(c, run)
  {
    NoReadFailsBefore(c, run, disc, ppf, Abs(c.head.setSectorPlay) + Reads(c, run));
  }

  lemma {:induction false} NoReadFailsBefore(c: Cdr, run: Run, disc: Msf -> Sector, ppf: (Msf, Sector) -> Sector,
                                             last: nat)
    requires OnlyReads(c) && CacheFits(c.head, disc) && ValidMsf(c.head.setSectorPlay) && !FailedAtHead(c.head)
    requires Uncommanded(c, run) && OneDiscRun(run, disc, ppf)
    requires var s := Abs(c.head.setSectorPlay);
      s + Reads(c, run) <= last < LASTBCD && Readable(run, s, last)
    ensures |Deliveries(c, run)| == Reads(c, run)
    ensures Abs(c.head.setSectorPlay) + Reads(c, run) < last ==> !FailedAtHead(After(c, run).head)
  {
    hide Step, CacheFits, OnlyReads, IsCommand, Advance, FromAbs, ValidMsf, Abs, OneDisc, FailedAtHead, Serves;
    if run != [] {
      var s := Abs(c.head.setSectorPlay);
      var (a, env) := run[|run| - 1];
      var shorter := run[..|run| - 1];
      assert Readable(shorter, s, last);
      NoReadFailsBefore(c, shorter, disc, ppf, last);
      StreamIsConsecutive(c, shorter, disc, ppf);
      var n := Reads(c, shorter);
      FromAbsIsValid(s + n);
      if s + n < last {
        AdvanceIsTheNextSector(s + n);
        assert env.readable(ToBcd(FromAbs(s + n)));
        assert s + n + 1 < last ==> env.readable(ToBcd(FromAbs(s + n + 1)));
        OneStepDoesNotFail(After(c, shorter), a, env, disc, ppf);
      }
    }
  }

  lemma OneStepDoesNotFail(c: Cdr, a: Action, env: Env, disc: Msf -> Sector, ppf: (Msf, Sector) -> Sector)
    requires OnlyReads(c) && CacheFits(c.head, disc) && !FailedAtHead(c.head)
    requires ValidMsf(c.head.setSectorPlay) && Abs(c.head.setSectorPlay) < LASTBCD
    requires OneDisc(env, disc, ppf) && !IsCommand(c, a) && !a.Reset? && env.readable(ToBcd(c.head.setSectorPlay))
    ensures var d := Step(c, a, env);
      (Serves(c, a) ==> Delivers(c, a, env)) &&
      (!Serves(c, a) || env.readable(ToBcd(Advance(c.head.setSectorPlay))) ==> !FailedAtHead(d.head))
  {
    hide Served, OnCdr, OnPlay, OnLid, OnWrite1, OnWrite2, OnWrite3, Advance, ToBcd;
    if Serves(c, a) {
      var d := c.(work := c.work.(events := c.work.events - {CDREAD}));
      ServedDelivers(d, env, disc, ppf);
      ServedFailsExactly(d, env);
    } else {
      OtherStepsAreHarmless(c, a, env);
    }
  }

  // ----- read errors -----

  /** Whether a served read fails can be told beforehand: if the sector at the head is the one read last,
      by how that went; otherwise by whether it can be read now. */
  lemma ServedFailsExactly(c: Cdr, env: Env)
    requires CanServe(c)
    ensures var t := ToBcd(c.head.setSectorPlay);
      Served(c, env).reply.stat == DiskError <==> if c.head.prev == t then c.head.readError else !env.readable(t)
  {
    hide AudioTaken, Cleared, Bit, Advance, Itob, HandedOver, Cdr.Located, Cdr.Signalling;
    var c1 := ReadStarts(c).TrackRead(env, c.head.setSectorPlay);
    if c1.head.readError { return; }
  }

  /** The sector at the head was tried and could not be read, and nothing else is going on. */
  predicate FailsAtHead(c: Cdr) { OnlyReads(c) && FailedAtHead(c.head) }

  /** A served read that fails leaves the controller so. */
  lemma FailureIsRemembered(c: Cdr, env: Env)
    requires CanServe(c) && OnlyReads(c) && Served(c, env).reply.stat == DiskError
    ensures var d := Served(c, env);
      FailsAtHead(d) && d.head.setSectorPlay == c.head.setSectorPlay && CDREAD in d.work.events
  {
    ServedFailsExactly(c, env);
    hide AudioTaken, Cleared, Bit, Advance, Itob, HandedOver, Cdr.Located, Cdr.Signalling;
    assert ReadStarts(c).TrackRead(env, c.head.setSectorPlay).head.readError;
  }

  /** From then on, over every run without commands or resets, the state stays so and every served read
      fails, even where the sector has become readable. */
  lemma {:induction false} ReadErrorIsFinal(c: Cdr, run: Run)
    requires FailsAtHead(c) && Uncommanded(c, run)
    ensures FailsAtHead(After(c, run)) && After(c, run).head.setSectorPlay == c.head.setSectorPlay
    ensures run != [] && Serves(After(c, run[..|run| - 1]), run[|run| - 1].0) ==> After(c, run).reply.stat == DiskError
  {
    hide Step, Serves, IsCommand, FailsAtHead;
    if run != [] {
      ReadErrorIsFinal(c, run[..|run| - 1]);
      StillFails(After(c, run[..|run| - 1]), run[|run| - 1].0, run[|run| - 1].1);
    }
  }

  lemma StillFails(c: Cdr, a: Action, env: Env)
    requires FailsAtHead(c) && !IsCommand(c, a) && !a.Reset?
    ensures var d := Step(c, a, env);
      FailsAtHead(d) && d.head.setSectorPlay == c.head.setSectorPlay && (Serves(c, a) ==> d.reply.stat == DiskError)
  {
    hide Served, OnCdr, OnPlay, OnLid, OnWrite1, OnWrite2, OnWrite3, ToBcd;
    if Serves(c, a) {
      var d := c.(work := c.work.(events := c.work.events - {CDREAD}));
      ServedFailsExactly(d, env);
      FailureIsRemembered(d, env);
    } else {
      OtherStepsAreHarmless(c, a, env);
    }
  }
}
