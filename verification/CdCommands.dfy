/** What commands do for the program that gives them (libpcsxcore/cdrom.c:360-1197, 2229-2390): Setloc over
    the registers decides which sector a read hands over, the answers carry what they are asked for, and
    playing starts where it should.
  */
module CdCommands {
  import opened Common
  import opened CdState
  import opened CdSteps
  import opened CdSafety
  import opened CdStreaming

  // ----- BCD -----

  predicate IsBcd(b: Byte) { b / 16 < 10 && b % 16 < 10 }

  lemma BcdBack(b: Byte)
    requires IsBcd(b)
    ensures Itob(Btoi(b)) == b && Btoi(b) == b / 16 * 10 + b % 16 && Btoi(b) < 100
  {
    var q, r := b / 16, b % 16;
    assert (10 * q + r) / 10 == q && (10 * q + r) % 10 == r;
  }

  /** A time of a disc as the program writes it: three BCD bytes, seconds below 60 and frames below 75. */
  predicate IsBcdTime(t: Msf) { IsBcd(t.m) && IsBcd(t.s) && t.s < 0x60 && IsBcd(t.f) && t.f < 0x75 }

  /** The number of its sector, digit by digit. */
  function Sectors(t: Msf): nat
  {
    ((t.m / 16 * 10 + t.m % 16) * 60 + (t.s / 16 * 10 + t.s % 16)) * 75 + (t.f / 16 * 10 + t.f % 16)
  }

  // ----- Setloc -----

  /** The program writes three parameters and the command. */
  function SetlocRun(t: Msf, e: Env): Run { [(Write2(t.m), e), (Write2(t.s), e), (Write2(t.f), e), (Write1(2), e)] }

  function Setloc(c: Cdr, t: Msf, e: Env): Cdr { After(c, SetlocRun(t, e)) }

  lemma AfterOne(c: Cdr, run: Run, a: Action, e: Env)
    ensures After(c, run + [(a, e)]) == Step(After(c, run), a, e)
  {
    hide Step;
    assert (run + [(a, e)])[..|run|] == run;
  }

  lemma SetlocInSteps(c: Cdr, t: Msf, e: Env)
    ensures Setloc(c, t, e) ==
      Step(Step(Step(Step(c, Write2(t.m), e), Write2(t.s), e), Write2(t.f), e), Write1(2), e)
  {
    hide Step;
    var r1: Run := [] + [(Write2(t.m), e)];
    var r2 := r1 + [(Write2(t.s), e)];
    var r3 := r2 + [(Write2(t.f), e)];
    AfterOne(c, [], Write2(t.m), e);
    AfterOne(c, r1, Write2(t.s), e);
    AfterOne(c, r2, Write2(t.f), e);
    AfterOne(c, r3, Write1(2), e);
    assert SetlocRun(t, e) == r3 + [(Write1(2), e)];
  }

  lemma ParametersAreStored(c: Cdr, t: Msf, e: Env)
    requires c.misc.bank == 0 && c.misc.paramC == 0
    ensures var d := Step(Step(Step(c, Write2(t.m), e), Write2(t.s), e), Write2(t.f), e);
      d.misc.param[0] == t.m && d.misc.param[1] == t.s && d.misc.param[2] == t.f && d.misc.bank == 0 &&
      d.head == c.head && d.work == c.work
  {
  }

  lemma SetlocIsNoted(c: Cdr, e: Env, p: Msf)
    requires c.misc.bank == 0 && p == Msf(Btoi(c.misc.param[0]), Btoi(c.misc.param[1]), Btoi(c.misc.param[2]))
    ensures var d := Step(c, Write1(2), e);
      d.head == c.head.(setlocPending := true, setSector := p) &&
      (d.work.seeked <==> c.work.seeked && -16 <= Abs(c.head.setSectorPlay) - Abs(p) <= 16)
  {
    hide Btoi, Bit, Abs;
    assert CommandQueued(c, 2).work.seeked == c.work.seeked;
    hide CommandQueued;
  }

  /** The time is where the head is to go, and a seek is pending if one was or the way is more than 16 sectors. */
  lemma SetlocSendsTheHead(c: Cdr, t: Msf, e: Env)
    requires c.misc.bank == 0 && c.misc.paramC == 0 && IsBcdTime(t)
    ensures var d := Setloc(c, t, e);
      ToBcd(Target(d.head)) == t && ValidMsf(Target(d.head)) && Abs(Target(d.head)) == Sectors(t) &&
      d.head == c.head.(setlocPending := true, setSector := d.head.setSector) &&
      (d.work.seeked <==> c.work.seeked && -16 <= Abs(c.head.setSectorPlay) - Sectors(t) <= 16)
  {
    var p := Msf(Btoi(t.m), Btoi(t.s), Btoi(t.f));
    TimeIsBack(t, p);
    SetlocInSteps(c, t, e);
    ParametersAreStored(c, t, e);
    SetlocIsNoted(Step(Step(Step(c, Write2(t.m), e), Write2(t.s), e), Write2(t.f), e), e, p);
    hide Setloc, Step, Btoi, ToBcd, Abs, Sectors, ValidMsf;
  }

  lemma BcdIsBounded(b: Byte, hi: nat, lo: nat)
    requires IsBcd(b) && b < hi * 16 + lo && lo < 10
    ensures Btoi(b) < hi * 10 + lo
  {
  }

  lemma TimeIsBack(t: Msf, p: Msf)
    requires IsBcdTime(t) && p == Msf(Btoi(t.m), Btoi(t.s), Btoi(t.f))
    ensures ToBcd(p) == t && ValidMsf(p) && Abs(p) == Sectors(t)
  {
    BcdBack(t.m);
    BcdBack(t.s);
    BcdBack(t.f);
    BcdIsBounded(t.s, 6, 0);
    BcdIsBounded(t.f, 7, 5);
    SectorsOf(t);
    hide Itob, Btoi, IsBcd, Sectors;
  }

  lemma SectorsOf(t: Msf)
    requires IsBcd(t.m) && IsBcd(t.s) && IsBcd(t.f)
    ensures Sectors(t) == (Btoi(t.m) * 60 + Btoi(t.s)) * 75 + Btoi(t.f)
  {
    BcdBack(t.m);
    BcdBack(t.s);
    BcdBack(t.f);
    hide Btoi, IsBcd;
  }

  // ----- from Setloc to the sectors handed over -----

  lemma ReadingKeepsSetSector(c: Cdr, env: Env, p: Msf)
    ensures c.TrackRead(env, p).head.setSector == c.FoundAndRead(env).head.setSector == c.head.setSector
    ensures c.TrackRead(env, p).head.setSectorPlay == c.FoundAndRead(env).head.setSectorPlay == c.head.setSectorPlay
  {
    hide ToBcd, Cdr.Located, Cdr.TrackFound;
  }

  lemma PlayCommandKeepsSetSector(c: Cdr, env: Env)
    ensures Play(c, env).head.setSector == c.head.setSector
  {
    var c0 := c.CddaStopped();
    var c1 := c0.(work := c0.work.(seeked := true)).SetlocTaken();
    ReadingKeepsSetSector(TrackChosen(c1, env), env, c.head.setSectorPlay);
    hide Cdr.FoundAndRead, StatPFirst;
  }

  lemma MovingKeepsSetSector(cmd: nat, c: Cdr, env: Env)
    ensures Moving(cmd, c, env).c.head.setSector == c.head.setSector
  {
    var d := c.SetlocTaken().TrackFound(env);
    PlayCommandKeepsSetSector(c, env);
    PlayCommandKeepsSetSector(d, env);
    var c0 := d.(work := d.work.(reading := true), misc := d.misc.(firstSector := 1));
    ReadingKeepsSetSector(c0, env, d.head.setSectorPlay);
    hide StatPFirst, Cdr.Located, Bit, Cdr.TrackFound, Cdr.TrackRead, Cdr.FoundAndRead, Play;
    if cmd == 3 { return; }
    if cmd == 8 { return; }
    if cmd == 21 || cmd == 22 || cmd == 28 { return; }
  }

  lemma CdrKeepsSetSector(c: Cdr, env: Env)
    ensures OnCdr(c, env).head.setSector == c.head.setSector
  {
    hide Moving, Answering, TwoPart, SecondHalf;
    var b := CommandStarts(c);
    MovingKeepsSetSector(c.work.irq, b, env);
    OthersKeepHead(c.work.irq, b, env);
    if c.work.irq >= SECOND { OthersKeepHead(c.work.irq - SECOND, b, env); }
    var e := Command(c.work.irq, b, env);
    assert Settled(e).head == e.c.head;
  }

  lemma ServedKeepsSetSector(c: Cdr, env: Env)
    ensures Served(c, env).head.setSector == c.head.setSector
  {
    hide AudioTaken, Cleared, Bit, Advance, Cdr.Located, ToBcd;
    var c1 := ReadStarts(c).TrackRead(env, c.head.setSectorPlay);
    if c1.head.readError { return; }
    var h := HandedOver(c1.head, env);
    var m := AudioTaken(c1.misc, h.transfer, env).(readed := false);
    var c2 := c1.(head := h.(setSectorPlay := Advance(h.setSectorPlay)), misc := m).Scheduling(CDREAD);
    assert DataRaised(c2).head == c2.head;
  }

  lemma PlayKeepsSetSector(c: Cdr, env: Env)
    ensures OnPlay(c, env).head.setSector == c.head.setSector
  {
    var b := SeekReported(c).SetlocTaken();
    ReadingKeepsSetSector(b, env, b.head.setSectorPlay);
    PlayedOnKeepsSetSector(c, env);
    PlayedOnKeepsSetSector(SeekEnded(c, env), env);
    hide PlayedOn, Cdr.FoundAndRead;
  }

  lemma PlayedOnKeepsSetSector(c: Cdr, env: Env)
    ensures PlayedOn(c, env).head.setSector == c.head.setSector
  {
    hide Bit, Report, Advance;
  }

  lemma WriteKeepsSetSector(c: Cdr, rt: Byte)
    requires rt != 2 || c.misc.bank != 0
    ensures OnWrite1(c, rt).head.setSector == c.head.setSector
  {
    hide Bit;
  }

  /** The position that Setloc gave changes only with the next Setloc, or a reset. */
  lemma StepKeepsSetSector(c: Cdr, a: Action, env: Env)
    requires !a.Reset? && !(IsCommand(c, a) && a.rt == 2)
    ensures Step(c, a, env).head.setSector == c.head.setSector
  {
    hide OnCdr, OnPlay, OnLid, Served, OnWrite1, OnWrite2, OnWrite3;
    match a
    case Happen(e) =>
      var d := c.(work := c.work.(events := c.work.events - {e}));
      CdrKeepsSetSector(d, env);
      ServedKeepsSetSector(d, env);
      PlayKeepsSetSector(d, env);
      OtherActionsKeepHead(d, 0, env);
      if e == CDR || e == CDRLID || e == CDREAD || e == CDRPLAY { return; }
    case LidMoved => OtherActionsKeepHead(InfoTaken(c, env).CddaStopped(), 0, env);
    case Write1(rt) => WriteKeepsSetSector(c, rt);
    case Write2(rt) => OtherActionsKeepHead(c, rt, env);
    case Write3(rt) => OtherActionsKeepHead(c, rt, env);
    case _ =>
  }

  /** A run without Setloc and resets. */
  predicate NoSetloc(c: Cdr, run: Run)
  {
    run == [] || (
      var a, before := run[|run| - 1].0, After(c, run[..|run| - 1]);
      NoSetloc(c, run[..|run| - 1]) && !a.Reset? && !(IsCommand(before, a) && a.rt == 2))
  }

  lemma {:induction false} RunKeepsSetSector(c: Cdr, run: Run)
    requires NoSetloc(c, run)
    ensures After(c, run).head.setSector == c.head.setSector
  {
    hide Step;
    if run != [] {
      RunKeepsSetSector(c, run[..|run| - 1]);
      StepKeepsSetSector(After(c, run[..|run| - 1]), run[|run| - 1].0, run[|run| - 1].1);
    }
  }

  lemma {:induction false} AfterBoth(c: Cdr, r: Run, q: Run)
    ensures After(c, r + q) == After(After(c, r), q)
    decreases |q|
  {
    hide Step;
    if q == [] {
      assert r + q == r;
    } else {
      AfterBoth(c, r, q[..|q| - 1]);
      assert (r + q)[..|r + q| - 1] == r + q[..|q| - 1];
    }
  }

  /** As long as a Setloc has not taken effect and no other has followed, the head is to go where it said. */
  lemma PendingSetlocIsTheTarget(c: Cdr, t: Msf, e: Env, tail: Run)
    requires c.misc.bank == 0 && c.misc.paramC == 0 && IsBcdTime(t)
    requires NoSetloc(Setloc(c, t, e), tail) && After(Setloc(c, t, e), tail).head.setlocPending
    ensures var p := Target(After(c, SetlocRun(t, e) + tail).head);
      ToBcd(p) == t && ValidMsf(p) && Abs(p) == Sectors(t)
  {
    SetlocSendsTheHead(c, t, e);
    RunKeepsSetSector(Setloc(c, t, e), tail);
    AfterBoth(c, SetlocRun(t, e), tail);
    hide Step, After, SetlocRun, ToBcd, ValidMsf, Abs, Sectors, NoSetloc;
  }

  /** From every reset, over every run with one disc: three BCD bytes written as parameters of Setloc, a read
      command on a data track before another Setloc, and no further command; then the sectors handed over are
      the one at the time written and those behind it. */
  lemma SetlocAndReadDeliver(c: Cdr, before: Run, t: Msf, e: Env, tail: Run, env: Env, run: Run,
      disc: Msf -> Sector, ppf: (Msf, Sector) -> Sector)
    requires before != [] && before[0].0.Reset? && IsBcdTime(t) && t != Msf(0, 0, 0)
    requires OneDiscRun(before, disc, ppf) && OneDisc(e, disc, ppf) && OneDiscRun(tail, disc, ppf)
    requires After(c, before).misc.bank == 0 && After(c, before).misc.paramC == 0
    requires var s := Setloc(After(c, before), t, e);
      NoSetloc(s, tail) && After(s, tail).head.setlocPending && ReadAccepted(After(s, tail), env) &&
      CDR in After(s, tail).work.events && OneDisc(env, disc, ppf)
    requires var d := Step(After(Setloc(After(c, before), t, e), tail), Happen(CDR), env);
      Uncommanded(d, run) && OneDiscRun(run, disc, ppf) && Sectors(t) + |Deliveries(d, run)| < LASTBCD
    ensures AreFrom(t, Deliveries(Step(After(Setloc(After(c, before), t, e), tail), Happen(CDR), env), run), disc, ppf)
  {
    var all := before + (SetlocRun(t, e) + tail);
    SetlocInRun(c, before, t, e, tail, disc, ppf);
    hide *;
    StreamFromTime(c, all, t, env, run, disc, ppf);
  }

  /** The sectors are those from the time on, patched. */
  ghost predicate AreFrom(t: Msf, got: seq<Sector>, disc: Msf -> Sector, ppf: (Msf, Sector) -> Sector)
    requires Sectors(t) + |got| < LASTBCD
  {
    (got != [] ==> t == Msf(0, 2, 4) || got[0] == ppf(t, disc(t))) &&
    forall k :: 0 <= k < |got| ==>
      var p := FromAbs(Sectors(t) + k); LicenseSector(p) || got[k] == Delivered(p, disc, ppf)
  }

  lemma StreamFromTime(c: Cdr, all: Run, t: Msf, env: Env, run: Run, disc: Msf -> Sector, ppf: (Msf, Sector) -> Sector)
    requires all != [] && all[0].0.Reset? && IsBcdTime(t) && OneDiscRun(all, disc, ppf) && OneDisc(env, disc, ppf)
    requires ReadAccepted(After(c, all), env) && CDR in After(c, all).work.events
    requires var p := Target(After(c, all).head);
      ToBcd(p) == t && ValidMsf(p) && Abs(p) == Sectors(t) && p != Msf(0, 0, 0)
    requires var d := Step(After(c, all), Happen(CDR), env);
      Uncommanded(d, run) && OneDiscRun(run, disc, ppf) && Sectors(t) + |Deliveries(d, run)| < LASTBCD
    ensures AreFrom(t, Deliveries(Step(After(c, all), Happen(CDR), env), run), disc, ppf)
  {
    hide *;
    FirstOf(t);
    ReadCommandDelivers(c, all, env, run, disc, ppf);
    FirstDelivered(t, Deliveries(Step(After(c, all), Happen(CDR), env), run), disc, ppf);
  }

  lemma FirstDelivered(t: Msf, got: seq<Sector>, disc: Msf -> Sector, ppf: (Msf, Sector) -> Sector)
    requires Sectors(t) + |got| < LASTBCD && ToBcd(FromAbs(Sectors(t))) == t
    requires LicenseSector(FromAbs(Sectors(t))) ==> t == Msf(0, 2, 4)
    requires forall k :: 0 <= k < |got| ==>
      var p := FromAbs(Sectors(t) + k); LicenseSector(p) || got[k] == Delivered(p, disc, ppf)
    ensures AreFrom(t, got, disc, ppf)
  {
    hide ToBcd, FromAbs, Sectors, LicenseSector;
    if got != [] { assert Sectors(t) + 0 == Sectors(t); }
  }

  lemma SetlocInRun(c: Cdr, before: Run, t: Msf, e: Env, tail: Run, disc: Msf -> Sector, ppf: (Msf, Sector) -> Sector)
    requires before != [] && before[0].0.Reset? && IsBcdTime(t) && t != Msf(0, 0, 0)
    requires OneDiscRun(before, disc, ppf) && OneDisc(e, disc, ppf) && OneDiscRun(tail, disc, ppf)
    requires After(c, before).misc.bank == 0 && After(c, before).misc.paramC == 0
    requires var s := Setloc(After(c, before), t, e); NoSetloc(s, tail) && After(s, tail).head.setlocPending
    ensures var all := before + (SetlocRun(t, e) + tail);
      all != [] && all[0].0.Reset? && OneDiscRun(all, disc, ppf) &&
      After(c, all) == After(Setloc(After(c, before), t, e), tail)
    ensures var p := Target(After(Setloc(After(c, before), t, e), tail).head);
      ToBcd(p) == t && ValidMsf(p) && Abs(p) == Sectors(t) && p != Msf(0, 0, 0)
  {
    hide *;
    var b := After(c, before);
    PendingSetlocIsTheTarget(b, t, e, tail);
    AfterBoth(b, SetlocRun(t, e), tail);
    AfterBoth(c, before, SetlocRun(t, e) + tail);
    ZeroInBcd();
    SetlocIs(b, t, e);
    RunsJoin(before, t, e, tail, disc, ppf);
  }

  lemma SetlocIs(c: Cdr, t: Msf, e: Env)
    ensures Setloc(c, t, e) == After(c, SetlocRun(t, e))
  {
    hide After, SetlocRun;
  }

  lemma ZeroInBcd()
    ensures ToBcd(Msf(0, 0, 0)) == Msf(0, 0, 0)
  {
  }

  lemma RunsJoin(before: Run, t: Msf, e: Env, tail: Run, disc: Msf -> Sector, ppf: (Msf, Sector) -> Sector)
    requires before != [] && OneDiscRun(before, disc, ppf) && OneDisc(e, disc, ppf) && OneDiscRun(tail, disc, ppf)
    ensures var all := before + (SetlocRun(t, e) + tail);
      all != [] && all[0] == before[0] && OneDiscRun(all, disc, ppf)
  {
    hide OneDisc;
    var q := SetlocRun(t, e);
    assert forall k :: 0 <= k < 4 ==> q[k].1 == e;
    assert OneDiscRun(q, disc, ppf);
    OneDiscJoins(q, tail, disc, ppf);
    OneDiscJoins(before, q + tail, disc, ppf);
  }

  lemma OneDiscJoins(r: Run, q: Run, disc: Msf -> Sector, ppf: (Msf, Sector) -> Sector)
    requires OneDiscRun(r, disc, ppf) && OneDiscRun(q, disc, ppf)
    ensures OneDiscRun(r + q, disc, ppf)
  {
    hide OneDisc;
    forall k | 0 <= k < |r + q|
      ensures OneDisc((r + q)[k].1, disc, ppf)
    {
      if k >= |r| { assert (r + q)[k] == q[k - |r|]; }
    }
  }

  /** The sector of a time is the time's. */
  lemma FirstOf(t: Msf)
    requires IsBcdTime(t)
    ensures Sectors(t) < LASTBCD && ToBcd(FromAbs(Sectors(t))) == t
    ensures LicenseSector(FromAbs(Sectors(t))) ==> t == Msf(0, 2, 4)
  {
    var p := Msf(Btoi(t.m), Btoi(t.s), Btoi(t.f));
    BcdBack(t.m);
    TimeIsBack(t, p);
    AbsIsInverse(p);
    LicenseSectorInBcd(p);
    hide ToBcd, Btoi, Sectors, FromAbs;
  }

  // ----- answers -----

  /** Bit `k` of the status byte, by its value. */
  predicate Has(b: Byte, value: nat)
    requires value > 0
  {
    b / value % 2 == 1
  }

  /** The status byte shows each part of StatP in its own bit, and nothing else. */
  lemma StatusBits(p: StatP)
    ensures var b := p.ToByte();
      (Has(b, 0x80) <==> p.play) && (Has(b, 0x40) <==> p.seek) && (Has(b, 0x20) <==> p.read) &&
      (Has(b, 0x10) <==> p.shell) && (Has(b, 2) <==> p.rotating) && !Has(b, 8) && !Has(b, 4) && !Has(b, 1)
  {
    var b := p.ToByte();
    var upper, lower := (if p.play then 8 else 0) + (if p.seek then 4 else 0), (if p.read then 2 else 0);
    var h, l := upper + lower + (if p.shell then 1 else 0), if p.rotating then 2 else 0;
    assert b == 16 * h + l;
    assert b / 0x80 == h / 8 && b / 0x40 == h / 4 && b / 0x20 == h / 2 && b / 0x10 == h;
    assert b / 8 == 2 * h && b / 4 == 4 * h && b / 2 == 8 * h + l / 2;
  }

  /** Command `cmd` is pending and runs now. */
  predicate Runs(c: Cdr, cmd: nat, env: Env)
  {
    c.reply.stat == NoIntr && c.work.irq == cmd && !(c.work.irqRepeated && c.work.eCycle > env.cycle)
  }

  /** The drive answers with the status byte and more. */
  predicate Answered(c: Cdr, d: Cdr, stat: nat, bytes: seq<Byte>)
    requires |bytes| < 16
  {
    d.reply.stat == stat && d.reply.result[0] == c.StatPByte() && d.reply.result[1..|bytes| + 1] == bytes &&
    d.reply.resultP == 0 && d.reply.resultReady
  }

  lemma AnswerIsKept(c: Cdr, cmd: nat, env: Env)
    requires Runs(c, cmd, env) && !NotReady(c.work.drive) && !Moves(cmd) && !HasSecondHalf(cmd) && cmd < SECOND
    ensures OnCdr(c, env).reply == Answering(cmd, CommandStarts(c), env).c.reply
  {
    AnsweringIsNoWork(cmd, CommandStarts(c), env);
    hide Answering;
    var e := Answering(cmd, CommandStarts(c), env);
    assert Command(cmd, CommandStarts(c), env) == e;
    assert e.c.work.drive == c.work.drive;
    assert Settled(e).reply == e.c.reply;
  }

  /** GetTN answers the first and the last track in BCD. */
  lemma TracksAreReported(c: Cdr, env: Env)
    requires Runs(c, 19, env) && !NotReady(c.work.drive) && env.tnKnown
    ensures Answered(c, OnCdr(c, env), Acknowledge, [Itob(env.tn[0]), Itob(env.tn[1])])
  {
    AnswerIsKept(c, 19, env);
    hide OnCdr, Itob, StatP.ToByte;
  }

  /** GetTD answers the start of the track asked for in BCD. */
  lemma TrackStartIsReported(c: Cdr, env: Env)
    requires Runs(c, 20, env) && !NotReady(c.work.drive) && env.tdKnown(Btoi(c.misc.param[0]))
    ensures var t := ToBcd(env.td(Btoi(c.misc.param[0])));
      Answered(c, OnCdr(c, env), Acknowledge, [t.m, t.s, t.f])
  {
    AnswerIsKept(c, 20, env);
    hide OnCdr, Itob, Btoi, StatP.ToByte;
  }

  /** GetlocL answers the header of the sector handed over last. */
  lemma HeaderIsReported(c: Cdr, env: Env)
    requires Runs(c, 16, env) && !NotReady(c.work.drive)
    ensures var d := OnCdr(c, env); d.reply.stat == Acknowledge && d.reply.result[..8] == c.head.transfer[..8]
  {
    AnswerIsKept(c, 16, env);
    hide OnCdr, StatP.ToByte;
  }

  /** Nop answers the status with the shell bit as it stood, and clears that bit unless the lid is open. */
  lemma NopReportsAndClears(c: Cdr, env: Env)
    requires Runs(c, 1, env)
    ensures var d := OnCdr(c, env);
      Answered(c, d, Acknowledge, []) && d.work.statP.shell == (c.work.statP.shell && c.work.drive == LID_OPEN)
  {
    hide StatP.ToByte;
    var b := CommandStarts(c);
    var e := Command(1, b, env);
    assert e.noBusyError && Settled(e) == e.c;
  }

  /** A command that does not exist is answered with an error, and so is every answering command while the drive
      is not ready, but for Nop, Setmode, Getmode and Test. */
  lemma ErrorsAreReported(c: Cdr, cmd: nat, env: Env)
    requires Runs(c, cmd, env) && !Moves(cmd) && !HasSecondHalf(cmd) && cmd < SECOND
    ensures NotReady(c.work.drive) && cmd !in {1, 14, 15, 25} ==>
      ErrorIs(OnCdr(c, env), 0x80)
    ensures !NotReady(c.work.drive) && cmd > 30 ==> ErrorIs(OnCdr(c, env), 0x40)
  {
    if NotReady(c.work.drive) && cmd !in {1, 14, 15, 25} { AnswerIsRefused(c, cmd, env); }
    if !NotReady(c.work.drive) && cmd > 30 {
      AnswerIsKept(c, cmd, env);
      ErrorReplyIsError(CommandStarts(c), ERROR_INVALIDCMD);
      hide OnCdr, ErrorReply, ErrorIs, CommandStarts;
    }
  }

  lemma AnswerIsRefused(c: Cdr, cmd: nat, env: Env)
    requires Runs(c, cmd, env) && !Moves(cmd) && !HasSecondHalf(cmd) && cmd < SECOND
    requires NotReady(c.work.drive) && cmd !in {1, 14, 15, 25}
    ensures ErrorIs(OnCdr(c, env), 0x80)
  {
    NotExempt(cmd, CommandStarts(c), env);
    AnsweringIsNoWork(cmd, CommandStarts(c), env);
    var e := Answering(cmd, CommandStarts(c), env);
    ErrorReplyIsError(e.c, ERROR_NOTREADY);
    hide Answering, ErrorReply, ErrorIs;
    assert Command(cmd, CommandStarts(c), env) == e;
    assert OnCdr(c, env).reply == ErrorReply(e.c, ERROR_NOTREADY).reply;
    SameReplyIsError(OnCdr(c, env), ErrorReply(e.c, ERROR_NOTREADY), 0x80);
  }

  lemma SameReplyIsError(c: Cdr, d: Cdr, code: Byte)
    requires c.reply == d.reply
    ensures ErrorIs(c, code) <==> ErrorIs(d, code)
  {
  }

  lemma ErrorReplyIsError(c: Cdr, code: Byte)
    ensures ErrorIs(ErrorReply(c, code), code)
  {
    StatusBits(c.work.statP);
    hide StatP.ToByte;
  }

  predicate ErrorIs(d: Cdr, code: Byte)
  {
    d.reply.stat == DiskError && d.reply.resultC == 2 && Has(d.reply.result[0], 1) && d.reply.result[1] == code
  }

  lemma NotExempt(cmd: nat, c: Cdr, env: Env)
    requires cmd !in {1, 14, 15, 25}
    ensures !Answering(cmd, c, env).noBusyError
  {
    hide ErrorReply, GetLocP, GetTN, GetTD, Test;
  }

  // ----- commands in two halves -----

  /** The second half of a command is queued, with its event. */
  predicate Queued(d: Cdr, cmd: nat) { d.work.irq == cmd + 0x100 && CDR in d.work.events }

  /** The commands that answer at once and again when they are done: Standby, Stop, Pause, Init, ReadT, ID and
      ReadToc. */
  predicate TwoHalves(cmd: nat) { cmd in {7, 8, 9, 10, 18, 26, 30} }

  /** The first half is acknowledged with the status and queues the second; a stopped drive starts to turn,
      but for Stop, Pause and ID. */
  lemma FirstHalfAnswers(c: Cdr, cmd: nat, env: Env)
    requires Runs(c, cmd, env) && TwoHalves(cmd) && !NotReady(c.work.drive) && (cmd == 7 ==> c.work.drive == STOPPED)
    ensures var d := OnCdr(c, env);
      Answered(c, d, Acknowledge, []) && Queued(d, cmd) &&
      (d.work.drive == if cmd == 8 then STOPPED
        else if c.work.drive == STOPPED && cmd !in {9, 26} then STANDBY else c.work.drive)
  {
    hide StatP.ToByte, Cleared, Bit, Cdr.Queueing;
    var b := CommandStarts(c);
    var e := Command(cmd, b, env);
    QueueingIs(b, cmd + 0x100, env.delay);
    if cmd == 8 {
      StopIs(b, env);
      assert e == Effect(Stop(b, env), false, false);
      hide Stop;
    } else {
      assert e.c.reply == b.reply && e.c.work.irq == cmd + 0x100 && e.c.work.drive == c.work.drive;
      assert CDR in e.c.work.events;
    }
    assert OnCdr(c, env) == Finished(Settled(e));
  }

  lemma QueueingIs(c: Cdr, q: nat, delay: nat)
    requires c.work.irq == 0
    ensures c.Queueing(q, delay).work == c.work.(irq := q, eCycle := delay, events := c.work.events + {CDR})
  {
  }

  lemma StopIs(c: Cdr, env: Env)
    requires c.work.irq == 0
    ensures var d := Stop(c, env);
      d.reply == c.reply && d.work.irq == 0x108 && CDR in d.work.events && d.work.drive == STOPPED && !d.work.reading &&
      !d.work.play
  {
  }

  /** The second half completes the command: the motor stands still after Stop, and nothing is read after
      Pause, as the status says. */
  lemma SecondHalfCompletes(c: Cdr, cmd: nat, env: Env)
    requires Runs(c, cmd + 0x100, env) && TwoHalves(cmd) && cmd != 26 && !NotReady(c.work.drive)
    ensures var d := OnCdr(c, env);
      d.reply.stat == Complete && d.work.irq == 0 && Answered(d, d, Complete, []) &&
      d.work.statP == (if cmd == 8 then c.work.statP.(rotating := false)
        else if cmd == 9 then c.work.statP.(read := false) else c.work.statP)
  {
    hide StatP.ToByte, Cleared, Bit;
    var e := SecondHalf(cmd, CommandStarts(c), env);
    assert Command(cmd + 0x100, CommandStarts(c), env) == e;
    assert Settled(e) == e.c;
  }

  /** Reading and playing stop when a read, Pause, Init or Reset is given, before it runs. */
  lemma GivingStopsReading(c: Cdr, rt: Byte, env: Env)
    requires c.misc.bank == 0 && rt in {6, 27, 9, 10, 28}
    ensures var d := Step(c, Write1(rt), env);
      !d.work.reading && !d.work.play && !d.work.statP.read && d.head == c.head &&
      (c.work.reading ==> CDREAD !in d.work.events) && CDR in d.work.events && d.work.busy
  {
    hide Bit, CommandQueued, Cdr.CddaStopped, Cdr.ReadingStopped;
    var q := CommandQueued(c, rt);
    QueuedIs(c, rt);
    BothStop(q);
    BothStop(q.(work := q.work.(seeked := true)));
    assert Step(c, Write1(rt), env) == if rt == 28 || rt == 10
      then q.(work := q.work.(seeked := true)).CddaStopped().ReadingStopped()
      else q.CddaStopped().ReadingStopped();
  }

  lemma QueuedIs(c: Cdr, rt: Byte)
    ensures var q := CommandQueued(c, rt); q.work.reading == c.work.reading && CDR in q.work.events && q.work.busy
  {
  }

  lemma BothStop(c: Cdr)
    ensures var d := c.CddaStopped().ReadingStopped();
      !d.work.reading && !d.work.play && !d.work.statP.read && d.head == c.head && d.work.busy == c.work.busy &&
      (c.work.reading ==> CDREAD !in d.work.events) && (CDR in c.work.events ==> CDR in d.work.events)
  {
  }

  /** Setmode takes its parameter, Mute and Demute switch the sound. */
  lemma ModesAreTaken(c: Cdr, env: Env)
    ensures c.misc.bank == 0 ==> Step(c, Write1(14), env).misc.mode == c.misc.param[0]
    ensures Runs(c, 11, env) && !NotReady(c.work.drive) ==> OnCdr(c, env).misc.muted
    ensures Runs(c, 12, env) && !NotReady(c.work.drive) ==> !OnCdr(c, env).misc.muted
  {
    hide Bit, StatP.ToByte, Cleared;
    if Runs(c, 11, env) || Runs(c, 12, env) {
      var e := Command(c.work.irq, CommandStarts(c), env);
      assert !NotReady(c.work.drive) ==> Settled(e) == e.c;
    }
  }

  /** A pending seek ends at its target, is reported as complete with the motor on, and the head is there. */
  lemma SeekEndsThere(c: Cdr, env: Env)
    requires !c.work.seeked && !c.work.play && c.work.irq == 0 && c.reply.stat == NoIntr
    ensures var d := OnPlay(c, env);
      d.work.seeked && d.reply.stat == Complete && d.work.statP.rotating && !d.work.statP.seek &&
      Answered(d, d, Complete, []) && d.head.setSectorPlay == Target(c.head) && !d.head.setlocPending
  {
    hide StatP.ToByte, Cdr.FoundAndRead, Cleared, Bit;
    var b := SeekReported(c).SetlocTaken();
    ReadingKeepsSetSector(b, env, b.head.setSectorPlay);
    FoundKeepsPending(b, env);
    assert OnPlay(c, env) == b.FoundAndRead(env);
  }

  lemma FoundKeepsPending(c: Cdr, env: Env)
    ensures c.FoundAndRead(env).head.setlocPending == c.head.setlocPending
  {
    hide ToBcd, Cdr.Located, Cdr.TrackFound;
  }

  // ----- playing -----

  /** CdlPlay with a track parameter goes to the start of that track; without, to the target of Setloc. */
  lemma PlayGoesThere(c: Cdr, env: Env)
    requires Runs(c, 3, env)
    ensures var d, n := OnCdr(c, env), Btoi(c.misc.param[0]);
      d.work.play && d.work.seeked && CDRPLAY in d.work.events &&
      (c.misc.paramC == 0 || c.misc.param[0] == 0 ==> d.head.setSectorPlay == Target(c.head)) &&
      (c.misc.paramC > 0 && c.misc.param[0] > 0 && n <= c.misc.resultTN[1] && env.tdKnown(n) ==>
        d.head.setSectorPlay == env.td(n))
  {
    hide Bit, Cleared, Btoi, Itob, Cdr.Located, Cdr.TrackFound, StatP.ToByte;
    var b := CommandStarts(c);
    PlayHead(b, env);
    hide Play;
    var e := Command(3, b, env);
    assert e == Effect(Play(b, env), false, true);
    assert Settled(e).head == e.c.head && Settled(e).work.play == e.c.work.play;
  }

  lemma PlayHead(c: Cdr, env: Env)
    ensures var d, n := Play(c, env), Btoi(c.misc.param[0]);
      d.work.play && d.work.seeked && CDRPLAY in d.work.events &&
      (c.misc.paramC == 0 || c.misc.param[0] == 0 ==> d.head.setSectorPlay == Target(c.head)) &&
      (c.misc.paramC > 0 && c.misc.param[0] > 0 && n <= c.misc.resultTN[1] && env.tdKnown(n) ==>
        d.head.setSectorPlay == env.td(n))
  {
    var c0 := c.CddaStopped();
    var c1 := c0.(work := c0.work.(seeked := true)).SetlocTaken();
    StoppingKeepsParameters(c);
    ChosenHead(c1, env);
    ReadingKeepsSetSector(TrackChosen(c1, env), env, c.head.setSectorPlay);
    hide Btoi, Cdr.FoundAndRead, StatPFirst, TrackChosen, Cdr.CddaStopped;
  }

  lemma StoppingKeepsParameters(c: Cdr)
    ensures var m := c.CddaStopped().misc;
      m.param == c.misc.param && m.paramC == c.misc.paramC && m.resultTN == c.misc.resultTN
  {
  }

  lemma ChosenHead(c: Cdr, env: Env)
    ensures var p, n := TrackChosen(c, env).head.setSectorPlay, Btoi(c.misc.param[0]);
      (c.misc.paramC == 0 || c.misc.param[0] == 0 ==> p == c.head.setSectorPlay) &&
      (c.misc.paramC > 0 && c.misc.param[0] > 0 && n <= c.misc.resultTN[1] && env.tdKnown(n) ==> p == env.td(n))
  {
    hide Btoi;
  }

  /** While nothing else goes on, a play event moves the head on by one sector and schedules the next, until
      the head stands at the end of the disc. */
  lemma PlayingAdvances(c: Cdr, env: Env)
    requires c.work.play && c.work.seeked && !Bit(c.misc.mode, 1) && !Bit(c.misc.mode, 2)
    ensures var d := OnPlay(c, env);
      if c.head.setSectorPlay == c.head.setSectorEnd then !d.work.play && d.head.setSectorPlay == c.head.setSectorPlay
      else d.work.play && d.head.setSectorPlay == Advance(c.head.setSectorPlay) && CDRPLAY in d.work.events
  {
    hide Advance, Cdr.Located, Bit, Autopause;
  }

  /** The acknowledge write takes the bits written out of the response, and no others. */
  lemma AcknowledgeTakesBits(c: Cdr, rt: Byte, e: Env)
    requires c.misc.bank == 1
    ensures var d := Step(c, Write3(rt), e).reply.stat;
      (Has(d, 1) <==> Has(c.reply.stat, 1) && !Has(rt, 1)) && (Has(d, 2) <==> Has(c.reply.stat, 2) && !Has(rt, 2)) &&
      (Has(d, 4) <==> Has(c.reply.stat, 4) && !Has(rt, 4))
  {
  }

  // ----- sectors and the audio decoder -----

  /** A sector handed over is announced to the program, unless the mode sends it to the audio decoder. */
  lemma SectorIsAnnounced(c: Cdr, env: Env)
    requires CanServe(c)
    ensures var d := Served(c, env);
      d.reply.stat == DiskError ||
      d.reply.stat == (if Has(c.misc.mode, 0x40) && Has(d.head.transfer[6], 4) then NoIntr else DataReady)
  {
    hide AudioTaken, Cleared, Advance, Itob, Cdr.Located, Cdr.Signalling;
    var c1 := ReadStarts(c).TrackRead(env, c.head.setSectorPlay);
    if c1.head.readError { return; }
    var h := HandedOver(c1.head, env);
    AudioKeepsMode(c1.misc, h.transfer, env);
    var m := AudioTaken(c1.misc, h.transfer, env).(readed := false);
    var c2 := c1.(head := h.(setSectorPlay := Advance(h.setSectorPlay)), misc := m).Scheduling(CDREAD);
    assert Served(c, env).head.transfer == h.transfer;
  }

  lemma AudioKeepsMode(m: Misc, t: Sector, env: Env)
    ensures AudioTaken(m, t, env).mode == m.mode
  {
    hide Bit;
  }
}
