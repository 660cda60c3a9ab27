/** The drive after its lid was opened (libpcsxcore/cdrom.c:360-429): with the lid closed again five lid
    events make it ready, whatever happens in between, except in exactly two situations: a read goes on
    that the controller does not know it has to stop, or a seek is pending that sets the disc turning.
  */
module CdLid {
  import opened Common
  import opened CdState
  import opened CdSteps
  import opened CdSafety

  /** How many lid events are left until the drive is ready, if nothing interferes. */
  function Rank(w: Work): nat
  {
    match w.drive
    case LID_OPEN => if !w.statP.shell then 5 else if w.statP.rotating then 4 else 3
    case RESCAN_CD => 2
    case PREPARE_CD => 1
    case _ => 0
  }

  /** A read goes on although the lid is open, because the shell bit still stands from an earlier opening. */
  predicate ReadsOn(w: Work) { w.drive == LID_OPEN && w.reading && w.statP.shell }

  /** A seek has yet to end; at its end the disc turns. */
  predicate SeekPending(w: Work) { !w.seeked && CDRPLAY in w.events }

  /** No command is pending that moves the head or the drive, and no such read goes on.  Commands that only
      answer may be pending, and both halves of the two-part commands but Stop. */
  predicate Calm(w: Work) { !Moves(w.irq) && !ReadsOn(w) }

  /** How many lid events are left at most: a pending seek can cost one, once, unless the disc is at rest
      and the controller has yet to notice the open lid. */
  function Due(w: Work): (n: nat)
    ensures n <= 6
  {
    Rank(w) + if SeekPending(w) && w.drive == LID_OPEN && (w.statP.shell || w.statP.rotating) then 1 else 0
  }

  /** A lid event takes one off (more where the disc is not turning anyway). */
  lemma LidEventLowersRank(c: Cdr, env: Env)
    requires LidClosed(env)
    ensures var d := OnLid(c, env);
      Rank(d.work) <= (if Rank(c.work) == 0 then 0 else Rank(c.work) - 1) &&
      Due(d.work) <= (if Due(c.work) == 0 then 0 else Due(c.work) - 1) &&
      (Calm(c.work) ==> Calm(d.work)) && (Rank(c.work) > 0 ==> CDRLID in d.work.events)
  {
    if c.work.drive == LID_OPEN {
      hide LidWaits, LidOpens, Cdr.CddaStopped;
      WaitingLowersRank(c, env);
      assert OnLid(c, env).work == LidWaits(c, env).Scheduling(CDRLID).work;
    } else {
      ReadyingLowersRank(c, env);
    }
  }

  lemma ReadyingLowersRank(c: Cdr, env: Env)
    requires LidClosed(env) && c.work.drive != LID_OPEN
    ensures var w := OnLid(c, env).work;
      Rank(w) <= (if Rank(c.work) == 0 then 0 else Rank(c.work) - 1) && Due(c.work) == Rank(c.work) &&
      Due(w) == Rank(w) &&
      (Calm(c.work) ==> Calm(w)) && (Rank(c.work) > 0 ==> CDRLID in w.events)
  {
    hide LidWaits, LidOpens;
    match c.work.drive
    case RESCAN_CD => return;
    case PREPARE_CD => return;
    case _ => return;
  }

  lemma WaitingLowersRank(c: Cdr, env: Env)
    requires LidClosed(env) && c.work.drive == LID_OPEN
    ensures var w := LidWaits(c, env).work;
      Rank(w) <= Rank(c.work) - 1 && Due(w) <= Due(c.work) - 1 && (Calm(c.work) ==> Calm(w)) &&
      (CDRPLAY in w.events <==> CDRPLAY in c.work.events)
  {
    if !c.work.statP.shell { return; }
    if c.work.statP.rotating { return; }
  }

  /** What a pending command that moves nothing may do to the work: take the disc to rest, answer, spin
      up a stopped drive, and queue its second half. */
  predicate Quiet(w: Work, v: Work)
  {
    v.reading == w.reading && v.seeked == w.seeked && (CDRPLAY in v.events <==> CDRPLAY in w.events) &&
    (v.drive == w.drive || (w.drive == STOPPED && v.drive == STANDBY)) &&
    (w.drive == LID_OPEN ==> v.statP.shell == w.statP.shell && (v.statP.rotating ==> w.statP.rotating))
  }

  lemma QuietKeepsDue(w: Work, v: Work)
    requires Quiet(w, v) && Calm(w) && !Moves(v.irq)
    ensures Calm(v) && Due(v) <= Due(w)
  {
  }

  /** Once a command is over, nothing is pending, or the second half of a two-part command. */
  predicate Follows(cmd: nat, irq: nat) { irq == 0 || (HasSecondHalf(cmd) && irq == cmd + SECOND) }

  lemma QuietCommand(cmd: nat, c: Cdr, env: Env)
    requires !Moves(cmd) && c.work.irq == 0
    ensures var w := Settled(Command(cmd, c, env)).work; Quiet(c.work, w) && Follows(cmd, w.irq)
  {
    hide Answering, SecondHalf, TwoPart;
    var e := Command(cmd, c, env);
    if HasSecondHalf(cmd) {
      TwoPartIsQuiet(cmd, c, env);
    } else if cmd >= SECOND && HasSecondHalf(cmd - SECOND) {
      AnswersAreQuiet(cmd - SECOND, c, env);
    } else {
      AnswersAreQuiet(cmd, c, env);
    }
    SettlingIsQuiet(e);
  }

  lemma TwoPartIsQuiet(cmd: nat, c: Cdr, env: Env)
    requires HasSecondHalf(cmd) && c.work.irq == 0
    ensures var w := TwoPart(cmd, c, env).c.work;
      Quiet(c.work, w) && w.drive == c.work.drive && Follows(cmd, w.irq)
  {
    hide ErrorReply, Cdr.Queueing;
    RepliesAreNoWork(c, env);
    var q := c.Queueing(cmd + SECOND, env.delay);
    QueueingIsQuiet(c, cmd + SECOND, env.delay);
    assert TwoPart(cmd, c, env).c in {ErrorReply(c, ERROR_INVALIDARG), q, q.(work := q.work.(busy := true))};
  }

  lemma QueueingIsQuiet(c: Cdr, q: nat, delay: nat)
    requires c.work.irq == 0
    ensures c.Queueing(q, delay).work == c.work.(irq := q, eCycle := delay, events := c.work.events + {CDR})
  {
  }

  lemma AnswersAreQuiet(cmd: nat, c: Cdr, env: Env)
    requires c.work.irq == 0
    ensures var w := Answering(cmd, c, env).c.work; Quiet(c.work, w) && w.drive == c.work.drive && w.irq == 0
    ensures var w := SecondHalf(cmd, c, env).c.work; Quiet(c.work, w) && w.drive == c.work.drive && w.irq == 0
  {
    hide ErrorReply, StatPFirst, GetLocP, GetTN, GetTD, Test, Identify;
    RepliesAreNoWork(c, env);
    AnsweringIsNoWork(cmd, c, env);
    if cmd == 8 || cmd == 9 || cmd == 26 { return; }
  }

  lemma SettlingIsQuiet(e: Effect)
    ensures var w, v := e.c.work, Settled(e).work;
      v.irq == w.irq && v.reading == w.reading && v.seeked == w.seeked && v.events == w.events &&
      (v.drive == w.drive || (w.drive == STOPPED && v.drive == STANDBY)) &&
      (w.drive != STOPPED ==> v.statP == w.statP)
  {
    if e.c.work.drive == STOPPED && e.startRotating { return; }
  }

  lemma CommandKeepsDue(c: Cdr, env: Env)
    requires Calm(c.work)
    ensures var d := OnCdr(c, env); Calm(d.work) && Due(d.work) <= Due(c.work)
  {
    hide Cleared, Command, Settled;
    if c.reply.stat != NoIntr { return; }
    if c.work.irqRepeated && c.work.eCycle > env.cycle { return; }
    var b := CommandStarts(c);
    QuietCommand(c.work.irq, b, env);
    var f := Settled(Command(c.work.irq, b, env));
    assert b.work == c.work.(busy := false, irqRepeated := false, irq := 0);
    QuietKeepsDue(c.work, f.work);
    assert OnCdr(c, env).work == f.work;
  }

  lemma PlayingKeepsRank(c: Cdr, env: Env)
    requires c.work.seeked
    ensures var w := OnPlay(c, env).work;
      w.irq == c.work.irq && w.reading == c.work.reading && w.seeked && w.drive == c.work.drive &&
      w.statP.shell == c.work.statP.shell && w.statP.rotating == c.work.statP.rotating
  {
    hide EndChecked, Paused, Cdr.Located;
    if !c.work.play { return; }
    PausingIsHarmless(c);
    if !Paused(EndChecked(c)).work.play { return; }
  }

  /** The end of a seek sets the disc turning, and then there is no seek pending any more. */
  lemma SeekEndKeepsDue(c: Cdr, env: Env)
    requires Calm(c.work) && !c.work.seeked && CDRPLAY in c.work.events && c.reply.stat == NoIntr
    ensures var d := OnPlay(c.(work := c.work.(events := c.work.events - {CDRPLAY})), env);
      Calm(d.work) && Due(d.work) <= Due(c.work)
  {
    hide PlayedOn, Cdr.FoundAndRead, Cdr.SetlocTaken, Cdr.Signalling;
    var b := c.(work := c.work.(events := c.work.events - {CDRPLAY}));
    var d := SeekEnded(b, env);
    assert d.work == b.work.(seeked := true, statP := c.work.statP.(rotating := true, seek := false));
    PlayingKeepsRank(d, env);
    assert OnPlay(b, env) == PlayedOn(d, env) == OnPlay(d, env);
  }

  lemma PlayEventKeepsDue(c: Cdr, env: Env)
    requires Calm(c.work) && CDRPLAY in c.work.events
    ensures var d := OnPlay(c.(work := c.work.(events := c.work.events - {CDRPLAY})), env);
      Calm(d.work) && Due(d.work) <= Due(c.work)
  {
    var b := c.(work := c.work.(events := c.work.events - {CDRPLAY}));
    if c.work.seeked {
      hide OnPlay;
      PlayingKeepsRank(b, env);
    } else if c.reply.stat == NoIntr {
      SeekEndKeepsDue(c, env);
    } else {
      assert OnPlay(b, env) == b.Scheduling(CDRPLAY);
    }
  }

  lemma PausingIsHarmless(c: Cdr)
    ensures var w := Paused(EndChecked(c)).work;
      w.irq == c.work.irq && w.reading == c.work.reading && w.seeked == c.work.seeked && w.drive == c.work.drive &&
      w.statP.shell == c.work.statP.shell && w.statP.rotating == c.work.statP.rotating
  {
    hide Autopause, Bit, EndChecked;
    CheckingIsHarmless(c);
    AutopauseIsHarmless(EndChecked(c));
  }

  lemma CheckingIsHarmless(c: Cdr)
    ensures var w := EndChecked(c).work;
      w.irq == c.work.irq && w.reading == c.work.reading && w.seeked == c.work.seeked && w.drive == c.work.drive &&
      w.statP.shell == c.work.statP.shell && w.statP.rotating == c.work.statP.rotating
  {
    if c.work.play { return; }
  }

  lemma AutopauseIsHarmless(c: Cdr)
    ensures var w := Autopause(c).work;
      w.irq == c.work.irq && w.reading == c.work.reading && w.seeked == c.work.seeked && w.drive == c.work.drive &&
      w.statP.shell == c.work.statP.shell && w.statP.rotating == c.work.statP.rotating
  {
    hide Bit, Report, Cdr.Signalling;
    if c.work.play { return; }
  }

  lemma EventLowersDue(c: Cdr, e: Event, env: Env)
    requires Calm(c.work) && LidClosed(env) && e in c.work.events
    ensures var d := Handle(c.(work := c.work.(events := c.work.events - {e})), e, env);
      Calm(d.work) && Due(d.work) <= Due(c.work) && (e == CDRLID && Due(c.work) > 0 ==> Due(d.work) < Due(c.work))
  {
    hide OnCdr, OnPlay, OnLid, Served;
    var d := c.(work := c.work.(events := c.work.events - {e}));
    match e
    case CDR =>
      CommandKeepsDue(d, env);
      return;
    case CDRPLAY =>
      PlayEventKeepsDue(c, env);
      return;
    case CDRLID =>
      LidEventLowersRank(d, env);
      return;
    case CDREAD =>
      ServedKeepsTurning(d, env);
      return;
  }

  /** While all is calm and the lid is closed, no step but a command or a reset raises what is due, and
      a lid event lowers it. */
  lemma StepLowersDue(c: Cdr, a: Action, env: Env)
    requires Calm(c.work) && LidClosed(env) && !IsCommand(c, a) && !a.Reset?
    ensures var d := Step(c, a, env);
      Calm(d.work) && Due(d.work) <= Due(c.work) &&
      (a == Happen(CDRLID) && CDRLID in c.work.events && Due(c.work) > 0 ==> Due(d.work) < Due(c.work))
  {
    hide OnCdr, OnRead, OnPlay, OnLid, Cleared, Bit;
    match a
    case Happen(e) =>
      if e in c.work.events { EventLowersDue(c, e, env); }
    case LidMoved => LidEventLowersRank(InfoTaken(c, env).CddaStopped(), env);
    case Write1(_) => return;
    case Write2(_) => return;
    case Write3(_) => return;
    case _ => return;
  }

  /** A run with the lid closed and without commands or resets. */
  predicate LidStaysClosed(c: Cdr, run: Run)
  {
    run == [] || (
      var (a, env) := run[|run| - 1];
      LidStaysClosed(c, run[..|run| - 1]) && LidClosed(env) && !IsCommand(After(c, run[..|run| - 1]), a) && !a.Reset?)
  }

  /** The lid events that are dispatched along a run. */
  function LidEvents(c: Cdr, run: Run): nat
  {
    if run == [] then 0
    else
      var before := After(c, run[..|run| - 1]);
      LidEvents(c, run[..|run| - 1]) + if run[|run| - 1].0 == Happen(CDRLID) && CDRLID in before.work.events then 1
        else 0
  }

  /** From calm, as many lid events as are due make the drive ready, whatever else happens in between:
      five, or six if a seek is pending that turns the disc. */
  lemma {:induction false} DueLidEventsSuffice(c: Cdr, run: Run)
    requires Calm(c.work) && LidStaysClosed(c, run)
    ensures Calm(After(c, run).work)
    ensures Due(After(c, run).work) == 0 || Due(After(c, run).work) + LidEvents(c, run) <= Due(c.work)
    ensures LidEvents(c, run) >= Due(c.work) ==> !NotReady(After(c, run).work.drive)
  {
    hide Step;
    if run != [] {
      DueLidEventsSuffice(c, run[..|run| - 1]);
      StepLowersDue(After(c, run[..|run| - 1]), run[|run| - 1].0, run[|run| - 1].1);
    }
  }

  /** On its own, the drive goes from an open lid to ready in exactly five lid events if it has not
      yet noticed that the lid was open. */
  lemma FiveLidEventsAlone(c: Cdr, env: Env)
    requires c.work.drive == LID_OPEN && !c.work.statP.shell && c.work.statP.rotating && LidClosed(env)
    ensures var d1 := OnLid(c, env); var d2 := OnLid(d1, env); var d3 := OnLid(d2, env); var d4 := OnLid(d3, env);
      NotReady(d4.work.drive) && OnLid(d4, env).work.drive == STANDBY
  {
    var d1 := OnLid(c, env);
    assert d1.work.drive == LID_OPEN && d1.work.statP.shell && d1.work.statP.rotating;
    var d2 := OnLid(d1, env);
    assert d2.work.drive == LID_OPEN && d2.work.statP.shell && !d2.work.statP.rotating;
    var d3 := OnLid(d2, env);
    assert d3.work.drive == RESCAN_CD;
    var d4 := OnLid(d3, env);
    assert d4.work.drive == PREPARE_CD;
  }

  // ----- when it does not suffice -----

  /** The lid was opened once before and the program never asked for the status since, so the shell
      bit still stands; and it reads, acknowledging every sector. */
  predicate Stuck(c: Cdr)
  {
    c.work.drive == LID_OPEN && c.work.statP.shell && c.work.statP.rotating &&
    c.work.reading && c.work.irq == 0 && c.reply.stat == NoIntr && c.misc.bank == 1 &&
    CDRLID in c.work.events && CDREAD in c.work.events
  }

  /** A lid event, a read, an acknowledgement. */
  function Round(c: Cdr, env: Env): Cdr
  {
    Step(Step(Step(c, Happen(CDRLID), env), Happen(CDREAD), env), Write3(0x07), env)
  }

  /** The read sets the disc turning again before the next lid event can find it at rest. */
  lemma RoundStaysStuck(c: Cdr, env: Env)
    requires Stuck(c)
    ensures Stuck(Round(c, env))
  {
    hide Served, Cleared;
    var w := c.work;
    var d := Step(c, Happen(CDRLID), env);
    assert d.work == w.(statP := w.statP.(rotating := false), events := w.events - {CDRLID} + {CDRLID});
    assert d.reply == c.reply && d.misc == c.misc;
    var e := d.(work := d.work.(events := d.work.events - {CDREAD}));
    ServedKeepsTurning(e, env);
    var f := Step(d, Happen(CDREAD), env);
    assert f == Served(e, env);
    AcknowledgeClears(f.reply.stat);
  }

  lemma AcknowledgeClears(stat: Stat)
    ensures Cleared(stat, 0x07) == NoIntr
  {
  }

  lemma ServedKeepsTurning(c: Cdr, env: Env)
    ensures var d := Served(c, env);
      d.work == c.work.(statP := c.work.statP.(read := true, rotating := true, seek := false), seeked := true,
        events := c.work.events + {CDREAD}) &&
      d.misc.bank == c.misc.bank
  {
    hide AudioTaken, HandedOver, Bit, Cleared, Advance, Cdr.TrackRead, Cdr.Signalling;
    var c1 := ReadStarts(c).TrackRead(env, c.head.setSectorPlay);
    if c1.head.readError { return; }
    var h := HandedOver(c1.head, env);
    AudioKeepsBank(c1.misc, h.transfer, env);
    var m := AudioTaken(c1.misc, h.transfer, env).(readed := false);
    var c2 := c1.(head := h.(setSectorPlay := Advance(h.setSectorPlay)), misc := m).Scheduling(CDREAD);
    assert DataRaised(c2).work == c2.work && DataRaised(c2).misc.bank == c2.misc.bank;
  }

  lemma AudioKeepsBank(m: Misc, t: Sector, env: Env)
    ensures AudioTaken(m, t, env).bank == m.bank
  {
  }

  /** A stuck drive stays stuck over any number of rounds, each with its lid event. */
  function RoundRun(env: Env): Run { [(Happen(CDRLID), env), (Happen(CDREAD), env), (Write3(0x07), env)] }

  /** A run that ends with one more action. */
  lemma AfterOneMore(c: Cdr, run: Run, a: Action, env: Env)
    ensures After(c, run + [(a, env)]) == Step(After(c, run), a, env)
    ensures LidClosed(env) && !IsCommand(After(c, run), a) && !a.Reset? && LidStaysClosed(c, run) ==>
      LidStaysClosed(c, run + [(a, env)])
    ensures LidEvents(c, run + [(a, env)]) ==
      LidEvents(c, run) + if a == Happen(CDRLID) && CDRLID in After(c, run).work.events then 1 else 0
  {
    hide Step;
    assert (run + [(a, env)])[..|run|] == run;
  }

  lemma RoundAfterRun(c: Cdr, run: Run, env: Env)
    requires Stuck(After(c, run)) && LidStaysClosed(c, run) && LidClosed(env)
    ensures var longer := run + RoundRun(env);
      Stuck(After(c, longer)) && LidStaysClosed(c, longer) && LidEvents(c, longer) == LidEvents(c, run) + 1
  {
    hide Step;
    RoundStaysStuck(After(c, run), env);
    var r1 := run + [(Happen(CDRLID), env)];
    var r2 := r1 + [(Happen(CDREAD), env)];
    AfterOneMore(c, run, Happen(CDRLID), env);
    AfterOneMore(c, r1, Happen(CDREAD), env);
    AfterOneMore(c, r2, Write3(0x07), env);
    assert run + RoundRun(env) == r2 + [(Write3(0x07), env)];
  }

  lemma {:induction false} StuckForAnyNumberOfRounds(c: Cdr, run: Run, env: Env, n: nat) returns (longer: Run)
    requires Stuck(After(c, run)) && LidStaysClosed(c, run) && LidClosed(env)
    ensures Stuck(After(c, longer)) && LidStaysClosed(c, longer) && LidEvents(c, longer) == LidEvents(c, run) + n
  {
    longer := run;
    if n > 0 {
      longer := StuckForAnyNumberOfRounds(c, run, env, n - 1);
      RoundAfterRun(c, longer, env);
      longer := longer + RoundRun(env);
    }
  }

  /** The response, if any, is acknowledged. */
  lemma Acknowledge(c: Cdr, before: Run, env: Env) returns (run: Run)
    requires LidStaysClosed(c, before) && LidClosed(env)
    ensures var d := After(c, run); d.work == After(c, before).work && d.reply.stat == NoIntr && d.misc.bank == 1
    ensures LidStaysClosed(c, run) && LidEvents(c, run) == LidEvents(c, before)
  {
    hide Cleared, Step, After, LidStaysClosed, LidEvents;
    var r1 := before + [(SelectBank(1), env)];
    run := r1 + [(Write3(0x07), env)];
    AfterOneMore(c, before, SelectBank(1), env);
    AfterOneMore(c, r1, Write3(0x07), env);
    AcknowledgeClears(After(c, before).reply.stat);
    AcknowledgingIsNoWork(After(c, before), env);
  }

  lemma AcknowledgingIsNoWork(c: Cdr, env: Env)
    ensures var d := Step(c, SelectBank(1), env); var e := Step(d, Write3(0x07), env);
      !IsCommand(c, SelectBank(1)) && d.work == e.work == c.work && d.misc.bank == e.misc.bank == 1 &&
      e.reply.stat == Cleared(c.reply.stat, 0x07)
  {
    hide Cleared;
  }

  /** A pending command that moves nothing is run, and the read goes on. */
  lemma CommandIsRun(c: Cdr, before: Run, env: Env) returns (run: Run)
    requires LidStaysClosed(c, before) && LidClosed(env)
    requires var w := After(c, before).work; Scheduled(w) && ReadsOn(w) && w.irq != 0 && !Moves(w.irq)
    ensures var w, v := After(c, before).work, After(c, run).work;
      LidStaysClosed(c, run) && Scheduled(v) && ReadsOn(v) && Follows(w.irq, v.irq)
  {
    hide Step, After, LidStaysClosed, LidEvents;
    var r1 := Acknowledge(c, before, env);
    var d := After(c, r1);
    var late := env.(cycle := d.work.eCycle);
    run := r1 + [(Happen(CDR), late)];
    AfterOneMore(c, r1, Happen(CDR), late);
    StepKeepsScheduled(d, Happen(CDR), late);
    CommandKeepsReading(d, late);
  }

  lemma CommandKeepsReading(c: Cdr, env: Env)
    requires c.reply.stat == NoIntr && env.cycle >= c.work.eCycle && CDR in c.work.events
    requires ReadsOn(c.work) && !Moves(c.work.irq)
    ensures var w := Step(c, Happen(CDR), env).work; ReadsOn(w) && Follows(c.work.irq, w.irq)
  {
    hide Cleared, Command, Settled;
    var b := c.(work := c.work.(events := c.work.events - {CDR}));
    QuietCommand(c.work.irq, CommandStarts(b), env);
    var f := Settled(Command(c.work.irq, CommandStarts(b), env));
    assert Step(c, Happen(CDR), env).work == f.work;
  }

  /** Commands that move nothing are over after their two halves. */
  lemma CommandsAreRun(c: Cdr, env: Env) returns (run: Run)
    requires Scheduled(c.work) && ReadsOn(c.work) && !Moves(c.work.irq) && LidClosed(env)
    ensures var w := After(c, run).work; LidStaysClosed(c, run) && Scheduled(w) && ReadsOn(w) && w.irq == 0
  {
    AfterNothing(c);
    run := [];
    hide After, LidStaysClosed, ReadsOn;
    if c.work.irq != 0 { run := CommandIsRun(c, [], env); }
    if After(c, run).work.irq != 0 { run := CommandIsRun(c, run, env); }
  }

  /** A read that goes on gets stuck as soon as the command pending is over and the response is acknowledged. */
  lemma ReadingOnGetsStuck(c: Cdr, env: Env) returns (run: Run)
    requires Scheduled(c.work) && ReadsOn(c.work) && !Moves(c.work.irq) && LidClosed(env)
    ensures Stuck(After(c, run)) && LidStaysClosed(c, run)
  {
    hide Served, Cleared, After, LidStaysClosed, LidEvents;
    var r1 := CommandsAreRun(c, env);
    var r2 := Acknowledge(c, r1, env);
    var d := After(c, r2);
    var r3 := r2 + [(Happen(CDREAD), env)];
    run := r3 + [(Write3(0x07), env)];
    AfterOneMore(c, r2, Happen(CDREAD), env);
    AfterOneMore(c, r3, Write3(0x07), env);
    var e := d.(work := d.work.(events := d.work.events - {CDREAD}));
    ServedKeepsTurning(e, env);
    assert After(c, r3) == Served(e, env);
    AcknowledgeClears(Served(e, env).reply.stat);
    assert After(c, run).work == Served(e, env).work;
  }

  lemma AfterNothing(c: Cdr)
    ensures After(c, []) == c && LidStaysClosed(c, []) && LidEvents(c, []) == 0
  {
  }

  // ----- the seek -----

  /** The controller has yet to notice the open lid, the disc turns, and a seek is pending. */
  predicate SeekTurnsAgain(w: Work)
  {
    w.drive == LID_OPEN && !w.statP.shell && w.statP.rotating && SeekPending(w)
  }

  /** The seek ends after the second lid event, which has just found the disc at rest. */
  lemma SeekSpoilsFive(c: Cdr, env: Env)
    requires SeekTurnsAgain(c.work) && c.reply.stat == NoIntr && CDRLID in c.work.events && LidClosed(env)
    ensures
      var d2 := Step(Step(c, Happen(CDRLID), env), Happen(CDRLID), env);
      var d3 := Step(d2, Happen(CDRPLAY), env);
      var d4 := Step(d3, Happen(CDRLID), env);
      var d5 := Step(d4, Happen(CDRLID), env);
      CDRLID in Step(c, Happen(CDRLID), env).work.events && CDRLID in d3.work.events &&
      CDRLID in d4.work.events && CDRLID in d5.work.events &&
      Step(d5, Happen(CDRLID), env).work.drive == PREPARE_CD
  {
    hide OnPlay;
    var d1 := Step(c, Happen(CDRLID), env);
    assert d1.work.drive == LID_OPEN && d1.work.statP.shell && d1.work.statP.rotating && d1.reply == c.reply;
    assert SeekPending(d1.work) && CDRLID in d1.work.events;
    var d2 := Step(d1, Happen(CDRLID), env);
    assert d2.work == d1.work.(statP := d1.work.statP.(rotating := false), events := d2.work.events) &&
      d2.reply == c.reply;
    assert CDRPLAY in d2.work.events && CDRLID in d2.work.events;
    SeekSetsTurning(d2, env);
    var d3 := Step(d2, Happen(CDRPLAY), env);
    var d4 := Step(d3, Happen(CDRLID), env);
    assert d4.work.drive == LID_OPEN && d4.work.statP.shell && !d4.work.statP.rotating && CDRLID in d4.work.events;
    var d5 := Step(d4, Happen(CDRLID), env);
    assert d5.work.drive == RESCAN_CD && CDRLID in d5.work.events;
  }

  lemma SeekSetsTurning(c: Cdr, env: Env)
    requires SeekPending(c.work) && c.work.drive == LID_OPEN && c.reply.stat == NoIntr
    ensures var w := Step(c, Happen(CDRPLAY), env).work;
      w.drive == LID_OPEN && w.statP.shell == c.work.statP.shell && w.statP.rotating &&
      (CDRLID in c.work.events ==> CDRLID in w.events)
  {
    hide PlayedOn, Cdr.FoundAndRead, Cdr.SetlocTaken, Cdr.Signalling;
    var b := c.(work := c.work.(events := c.work.events - {CDRPLAY}));
    var d := SeekEnded(b, env);
    assert d.work == b.work.(seeked := true, statP := c.work.statP.(rotating := true, seek := false));
    PlayingKeepsRank(d, env);
    PlayingKeepsLidEvent(d, env);
    assert OnPlay(b, env) == PlayedOn(d, env) == OnPlay(d, env);
  }

  lemma PlayingKeepsLidEvent(c: Cdr, env: Env)
    requires c.work.seeked
    ensures CDRLID in c.work.events ==> CDRLID in OnPlay(c, env).work.events
  {
    hide EndChecked, Paused, Cdr.Located;
    PausingStopsAtMost(c);
    if !c.work.play { return; }
    if !Paused(EndChecked(c)).work.play { return; }
  }

  /** A run in which five lid events are not enough. */
  lemma SeekGetsInTheWay(c: Cdr, env: Env) returns (run: Run)
    requires Scheduled(c.work) && SeekTurnsAgain(c.work) && LidClosed(env)
    ensures LidStaysClosed(c, run) && LidEvents(c, run) == 5 && NotReady(After(c, run).work.drive)
  {
    hide Step, After, LidStaysClosed, LidEvents;
    AfterNothing(c);
    var r2 := Acknowledge(c, [], env);
    SeekSpoilsFive(After(c, r2), env);
    hide SeekTurnsAgain;
    AfterOneMore(c, r2, Happen(CDRLID), env);
    var r3 := r2 + [(Happen(CDRLID), env)];
    AfterOneMore(c, r3, Happen(CDRLID), env);
    var r4 := r3 + [(Happen(CDRLID), env)];
    AfterOneMore(c, r4, Happen(CDRPLAY), env);
    var r5 := r4 + [(Happen(CDRPLAY), env)];
    AfterOneMore(c, r5, Happen(CDRLID), env);
    var r6 := r5 + [(Happen(CDRLID), env)];
    AfterOneMore(c, r6, Happen(CDRLID), env);
    var r7 := r6 + [(Happen(CDRLID), env)];
    AfterOneMore(c, r7, Happen(CDRLID), env);
    run := r7 + [(Happen(CDRLID), env)];
  }

  // ----- exactly when it suffices -----

  /** Five lid events suffice, over every run with the lid closed and without commands. */
  ghost predicate FiveSuffice(c: Cdr)
  {
    forall run :: LidStaysClosed(c, run) && LidEvents(c, run) >= 5 ==> !NotReady(After(c, run).work.drive)
  }

  /** With no command pending that moves the head or the drive, five lid events always suffice exactly when
      no read goes on behind the open lid and no seek is pending that turns the disc.  Where a read goes on,
      some run keeps the drive waiting through any number of them. */
  lemma FiveSufficeExactly(c: Cdr, env: Env)
    requires Scheduled(c.work) && !Moves(c.work.irq) && LidClosed(env)
    ensures FiveSuffice(c) <==> !ReadsOn(c.work) && !SeekTurnsAgain(c.work)
  {
    hide After, LidStaysClosed, LidEvents;
    if ReadsOn(c.work) {
      var run := ReadingOnGetsStuck(c, env);
      var longer := StuckForAnyNumberOfRounds(c, run, env, 5);
      assert NotReady(After(c, longer).work.drive);
    } else if SeekTurnsAgain(c.work) {
      var run := SeekGetsInTheWay(c, env);
      assert NotReady(After(c, run).work.drive);
    } else {
      forall run | LidStaysClosed(c, run) && LidEvents(c, run) >= 5 ensures !NotReady(After(c, run).work.drive) {
        DueLidEventsSuffice(c, run);
      }
    }
  }

  // ----- both situations do arise -----

  /** No response, no command, nothing playing, the command bank selected, CDDA mode off. */
  predicate Fresh(c: Cdr)
  {
    c.reply.stat == NoIntr && c.work.irq == 0 && !c.work.irqRepeated && !c.work.play && c.misc.bank == 0 &&
    !Bit(c.misc.mode, 0)
  }

  lemma ResetIsFresh(c: Cdr, env: Env)
    ensures var d := Step(c, Reset, env);
      Fresh(d) && d.work.drive == STANDBY && !d.work.statP.shell && d.work.statP.rotating
  {
  }

  predicate LidOpen(env: Env) { env.statusKnown && env.shellOpen }

  lemma LidMovesOpen(c: Cdr, open: Env)
    requires c.work.drive == STANDBY && !c.work.play && LidOpen(open)
    ensures var d := Step(c, LidMoved, open);
      d.work == c.work.(drive := LID_OPEN, statP := c.work.statP.(seek := false), events := c.work.events + {CDRLID}) &&
      (Fresh(c) ==> Fresh(d))
  {
    hide Bit;
  }

  /** Lid events keep all but the drive, StatP and the events. */
  lemma LidEventIsFresh(c: Cdr, env: Env)
    requires Fresh(c) && LidClosed(env) && NotReady(c.work.drive)
    ensures Fresh(OnLid(c, env)) && OnLid(c, env).misc == c.misc
  {
    hide Bit, LidWaits;
    WaitingIsFresh(c, env);
    match c.work.drive
    case LID_OPEN => return;
    case RESCAN_CD => return;
    case _ => return;
  }

  lemma WaitingIsFresh(c: Cdr, env: Env)
    requires Fresh(c)
    ensures Fresh(LidWaits(c, env)) && LidWaits(c, env).misc == c.misc
  {
    hide Bit;
    if !c.work.statP.shell { return; }
    if c.work.statP.rotating { return; }
  }

  /** Opening and closing the lid once leaves the shell bit standing. */
  lemma LidCycleLeavesShell(c: Cdr, open: Env, env: Env)
    requires Fresh(c) && c.work.drive == STANDBY && !c.work.statP.shell && c.work.statP.rotating
    requires LidOpen(open) && LidClosed(env)
    ensures
      var d3 := Step(Step(Step(c, LidMoved, open), Happen(CDRLID), env), Happen(CDRLID), env);
      var d6 := Step(Step(Step(d3, Happen(CDRLID), env), Happen(CDRLID), env), Happen(CDRLID), env);
      Fresh(d6) && d6.work.drive == STANDBY && d6.work.statP.shell
  {
    LidMovesOpen(c, open);
    var d1 := Step(c, LidMoved, open);
    hide Fresh;
    OneLidEvent(d1, env);
    var d2 := Step(d1, Happen(CDRLID), env);
    assert d2.work.drive == LID_OPEN && d2.work.statP.shell && d2.work.statP.rotating;
    OneLidEvent(d2, env);
    var d3 := Step(d2, Happen(CDRLID), env);
    assert d3.work.drive == LID_OPEN && d3.work.statP.shell && !d3.work.statP.rotating;
    OneLidEvent(d3, env);
    var d4 := Step(d3, Happen(CDRLID), env);
    assert d4.work.drive == RESCAN_CD && d4.work.statP.shell;
    OneLidEvent(d4, env);
    var d5 := Step(d4, Happen(CDRLID), env);
    assert d5.work.drive == PREPARE_CD && d5.work.statP.shell;
    OneLidEvent(d5, env);
  }

  lemma OneLidEvent(c: Cdr, env: Env)
    requires Fresh(c) && LidClosed(env) && NotReady(c.work.drive) && CDRLID in c.work.events
    ensures var d := Step(c, Happen(CDRLID), env); Fresh(d) && CDRLID in d.work.events
  {
    hide OnLid, Bit;
    var b := c.(work := c.work.(events := c.work.events - {CDRLID}));
    LidEventIsFresh(b, env);
    LidEventLowersRank(b, env);
  }

  /** A command given to a drive that is ready is queued. */
  lemma CommandIsQueued(c: Cdr, cmd: Byte, env: Env)
    requires Fresh(c) && (cmd == 6 || cmd == 21)
    ensures var d := Step(c, Write1(cmd), env);
      d.reply.stat == NoIntr && d.work.irq == cmd && !d.work.irqRepeated && !d.work.play && CDR in d.work.events &&
      d.misc == c.misc && d.work.drive == c.work.drive && d.work.statP.shell == c.work.statP.shell &&
      d.work.statP.rotating == c.work.statP.rotating
  {
    hide Bit;
    if cmd == 6 { return; }
  }

  /** CdlReadN begins to read. */
  lemma ReadBegins(c: Cdr, env: Env)
    requires c.reply.stat == NoIntr && c.work.irq == 6 && !c.work.irqRepeated && !c.work.play && CDR in c.work.events
    requires c.work.drive == STANDBY && !Bit(c.misc.mode, 0)
    ensures var w := Step(c, Happen(CDR), env).work;
      w.reading && w.irq == 0 && !w.play && w.drive == STANDBY && w.statP.shell == c.work.statP.shell
  {
    hide Bit, Cleared, StatPFirst, Cdr.TrackFound, Cdr.TrackRead, Cdr.SetlocTaken, HeaderTaken, Cdr.Signalling;
    var b := CommandStarts(c.(work := c.work.(events := c.work.events - {CDR})));
    var e := Command(6, b, env);
    assert e == Effect(Read(b, env), false, true);
    var d := b.SetlocTaken().TrackFound(env);
    assert d.misc.mode == c.misc.mode;
    assert Read(b, env) == DataRead(d, env);
    assert Settled(e) == e.c;
  }

  /** CdlSeekL begins to seek. */
  lemma SeekBegins(c: Cdr, env: Env)
    requires c.reply.stat == NoIntr && c.work.irq == 21 && !c.work.irqRepeated && !c.work.play && CDR in c.work.events
    requires c.work.drive == STANDBY
    ensures var w := Step(c, Happen(CDR), env).work;
      SeekPending(w) && w.irq == 0 && !w.play && w.drive == STANDBY && w.statP.shell == c.work.statP.shell &&
      w.statP.rotating == c.work.statP.rotating
  {
    hide Bit, Cleared, Cdr.Signalling;
    var b := CommandStarts(c.(work := c.work.(events := c.work.events - {CDR})));
    var e := Command(21, b, env);
    assert e == Effect(Seek(b), false, true);
    assert Settled(e) == e.c;
  }

  /** After a reset: the lid opened and closed, a read command, the lid opened again. */
  lemma ReadsOnDoesArise(c: Cdr, open: Env, env: Env) returns (run: Run)
    requires LidOpen(open) && LidClosed(env)
    ensures var d := After(Step(c, Reset, env), run); ReadsOn(d.work) && d.work.irq == 0
  {
    var z := Step(c, Reset, env);
    ResetIsFresh(c, env);
    LidCycleLeavesShell(z, open, env);
    hide Step, After, LidStaysClosed, LidEvents, Fresh, Bit;
    AfterNothing(z);
    var r1: Run := [] + [(LidMoved, open)];
    AfterOneMore(z, [], LidMoved, open);
    var r2 := r1 + [(Happen(CDRLID), env)];
    AfterOneMore(z, r1, Happen(CDRLID), env);
    var r3 := r2 + [(Happen(CDRLID), env)];
    AfterOneMore(z, r2, Happen(CDRLID), env);
    var r4 := r3 + [(Happen(CDRLID), env)];
    AfterOneMore(z, r3, Happen(CDRLID), env);
    var r5 := r4 + [(Happen(CDRLID), env)];
    AfterOneMore(z, r4, Happen(CDRLID), env);
    var r6 := r5 + [(Happen(CDRLID), env)];
    AfterOneMore(z, r5, Happen(CDRLID), env);
    var r7 := r6 + [(Write1(6), env)];
    AfterOneMore(z, r6, Write1(6), env);
    CommandIsQueued(After(z, r6), 6, env);
    FreshMode(After(z, r6));
    var r8 := r7 + [(Happen(CDR), env)];
    AfterOneMore(z, r7, Happen(CDR), env);
    ReadBegins(After(z, r7), env);
    run := r8 + [(LidMoved, open)];
    AfterOneMore(z, r8, LidMoved, open);
    LidMovesOpen(After(z, r8), open);
  }

  lemma FreshMode(c: Cdr)
    requires Fresh(c)
    ensures !Bit(c.misc.mode, 0)
  {
  }

  /** After a reset: a seek command, and the lid opened before the seek ends. */
  lemma SeekTurnsAgainDoesArise(c: Cdr, open: Env, env: Env) returns (run: Run)
    requires LidOpen(open) && LidClosed(env)
    ensures var d := After(Step(c, Reset, env), run); SeekTurnsAgain(d.work) && d.work.irq == 0
  {
    var z := Step(c, Reset, env);
    ResetIsFresh(c, env);
    hide Step, After, LidStaysClosed, LidEvents, Fresh, Bit;
    AfterNothing(z);
    var r1: Run := [] + [(Write1(21), env)];
    AfterOneMore(z, [], Write1(21), env);
    CommandIsQueued(z, 21, env);
    var r2 := r1 + [(Happen(CDR), env)];
    AfterOneMore(z, r1, Happen(CDR), env);
    SeekBegins(After(z, r1), env);
    run := r2 + [(LidMoved, open)];
    AfterOneMore(z, r2, LidMoved, open);
    LidMovesOpen(After(z, r2), open);
  }
}
