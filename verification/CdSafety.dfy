/** What every step of the CD-ROM controller keeps, whatever the order of commands and events:
    pending work has its event scheduled, and a raised response stays until it is acknowledged.
  */
module CdSafety {
  import opened Common
  import opened CdState
  import opened CdSteps

  /** Every kind of pending work has its event: a queued or running command, a read, a play, a drive
      on its way to being ready. */
  predicate Scheduled(w: Work) { ScheduledBut(w, {}) }

  /** The same, but for events that are just being dispatched. */
  predicate ScheduledBut(w: Work, now: set<Event>)
  {
    (w.irq != 0 || w.busy ==> CDR in w.events || CDR in now) &&
    (w.reading ==> CDREAD in w.events || CDREAD in now) &&
    (w.play ==> CDRPLAY in w.events || CDRPLAY in now) &&
    (NotReady(w.drive) ==> CDRLID in w.events || CDRLID in now)
  }

  lemma PlaySchedules(c: Cdr, env: Env)
    requires ScheduledBut(c.work, {CDR}) && c.work.irq == 0 && !c.work.busy
    ensures Scheduled(Play(c, env).work) && Scheduled(Read(c, env).work)
  {
    hide Cdr.TrackRead, Cdr.SetlocTaken, Cdr.FoundAndRead, TrackChosen, StatPFirst, HeaderTaken, Bit;
  }

  lemma StopAndSeekSchedule(c: Cdr, env: Env)
    requires ScheduledBut(c.work, {CDR}) && c.work.irq == 0 && !c.work.busy
    ensures Scheduled(Stop(c, env).work) && Scheduled(Seek(c).work)
  {
    if c.work.play { return; }
  }

  /** The commands that only answer change no more than StatP in the work. */
  lemma AnsweringIsNoWork(cmd: nat, c: Cdr, env: Env)
    ensures var w := Answering(cmd, c, env).c.work; w == c.work.(statP := w.statP)
    ensures var w := SecondHalf(cmd, c, env).c.work; w == c.work.(statP := w.statP)
  {
    hide ErrorReply, StatPFirst, GetLocP, GetTN, GetTD, Test, Identify;
    RepliesAreNoWork(c, env);
  }

  lemma RepliesAreNoWork(c: Cdr, env: Env)
    ensures GetLocP(c).work == c.work && GetTN(c, env).work == c.work && GetTD(c, env).work == c.work
    ensures Test(c).work == c.work && Identify(c, env).work == c.work
    ensures ErrorReply(c, ERROR_INVALIDCMD).work == ErrorReply(c, ERROR_INVALIDARG).work == c.work
  {
  }

  lemma TwoPartSchedules(cmd: nat, c: Cdr, env: Env)
    requires ScheduledBut(c.work, {CDR}) && c.work.irq == 0 && !c.work.busy
    ensures Scheduled(TwoPart(cmd, c, env).c.work)
  {
    hide ErrorReply;
    RepliesAreNoWork(c, env);
    if cmd == 7 && c.work.drive != STOPPED { return; }
    if cmd == 9 { return; }
  }

  lemma MovingSchedules(cmd: nat, c: Cdr, env: Env)
    requires ScheduledBut(c.work, {CDR}) && c.work.irq == 0 && !c.work.busy
    ensures Scheduled(Moving(cmd, c, env).c.work)
  {
    PlaySchedules(c, env);
    StopAndSeekSchedule(c, env);
    hide Play, Read, Stop, Seek;
    if cmd == 28 { return; }
    if cmd == 3 { return; }
    if cmd == 8 { return; }
    if cmd == 21 || cmd == 22 { return; }
  }

  lemma CommandSchedules(cmd: nat, c: Cdr, env: Env)
    requires ScheduledBut(c.work, {CDR}) && c.work.irq == 0 && !c.work.busy
    ensures Scheduled(Command(cmd, c, env).c.work)
  {
    hide Moving, Answering, SecondHalf, TwoPart;
    MovingSchedules(cmd, c, env);
    TwoPartSchedules(cmd, c, env);
    if cmd >= SECOND && HasSecondHalf(cmd - SECOND) {
      AnsweringIsNoWork(cmd - SECOND, c, env);
    } else {
      AnsweringIsNoWork(cmd, c, env);
    }
  }

  lemma CdrKeepsScheduled(c: Cdr, env: Env)
    requires ScheduledBut(c.work, {CDR})
    ensures Scheduled(OnCdr(c, env).work)
  {
    hide Command, Bit, Cleared;
    CommandSchedules(c.work.irq, CommandStarts(c), env);
    if c.reply.stat != NoIntr { return; }
    if c.work.irqRepeated && c.work.eCycle > env.cycle { return; }
  }

  lemma ReadKeepsScheduled(c: Cdr, env: Env)
    requires ScheduledBut(c.work, {CDREAD})
    ensures Scheduled(OnRead(c, env).work)
  {
    hide Bit, Cleared, AudioTaken, HandedOver, Cdr.TrackRead;
    if !CanServe(c) { return; }
    if ReadStarts(c).TrackRead(env, c.head.setSectorPlay).head.readError { return; }
  }

  lemma PlayKeepsScheduled(c: Cdr, env: Env)
    requires ScheduledBut(c.work, {CDRPLAY})
    ensures Scheduled(OnPlay(c, env).work)
  {
    hide PlayedOn, Cdr.SetlocTaken, Cdr.FoundAndRead, Cdr.Signalling;
    PlayedOnKeepsScheduled(c, env);
    PlayedOnKeepsScheduled(SeekEnded(c, env), env);
    if c.work.seeked { return; }
    if c.reply.stat != NoIntr { return; }
  }

  /** All but the parts of the work that StopCdda changes. */
  predicate SameButPlay(w: Work, v: Work)
  {
    w.irq == v.irq && w.busy == v.busy && w.reading == v.reading && w.drive == v.drive && w.events == v.events
  }

  lemma StoppingStopsAtMost(c: Cdr)
    ensures SameButPlay(EndChecked(c).work, c.work) && SameButPlay(Autopause(c).work, c.work)
  {
    hide Bit, Report, Cdr.Signalling;
    if c.work.play { return; }
  }

  lemma PausingStopsAtMost(c: Cdr)
    ensures SameButPlay(Paused(EndChecked(c)).work, c.work)
  {
    hide Bit, Autopause, EndChecked;
    StoppingStopsAtMost(c);
    StoppingStopsAtMost(EndChecked(c));
  }

  lemma PlayedOnKeepsScheduled(c: Cdr, env: Env)
    requires ScheduledBut(c.work, {CDRPLAY})
    ensures Scheduled(PlayedOn(c, env).work)
  {
    hide Paused, EndChecked, Cdr.Located;
    PausingStopsAtMost(c);
    if !c.work.play { return; }
    if !Paused(EndChecked(c)).work.play { return; }
  }

  lemma LidKeepsScheduled(c: Cdr, env: Env)
    requires ScheduledBut(c.work, {CDRLID})
    ensures Scheduled(OnLid(c, env).work)
  {
    if c.work.drive == LID_OPEN { WaitingStopsAtMost(c, env); }
    hide LidWaits;
    match c.work.drive
    case LID_OPEN => return;
    case RESCAN_CD => return;
    case PREPARE_CD => return;
    case _ =>
      if LidClosed(env) { return; }
      if c.work.play { return; }
  }

  lemma WaitingStopsAtMost(c: Cdr, env: Env)
    requires c.work.drive == LID_OPEN && ScheduledBut(c.work, {CDRLID})
    ensures ScheduledBut(LidWaits(c, env).work, {CDRLID})
  {
    if !c.work.statP.shell { return; }
    if c.work.statP.rotating { return; }
  }

  lemma NotingKeepsScheduled(c: Cdr, rt: Byte)
    requires Scheduled(c.work)
    ensures Scheduled(CommandNoted(c, rt).work)
  {
    hide Bit;
    match rt
    case 2 => return; case 6 => return; case 27 => return; case 9 => return;
    case 28 => return; case 10 => return; case 14 => return;
    case _ => return;
  }

  lemma WriteKeepsScheduled(c: Cdr, rt: Byte)
    requires Scheduled(c.work)
    ensures Scheduled(OnWrite1(c, rt).work) && Scheduled(OnWrite2(c, rt).work) && Scheduled(OnWrite3(c, rt).work)
  {
    hide Bit, Cleared, CommandNoted;
    NotingKeepsScheduled(CommandQueued(c, rt), rt);
  }

  /** No step of the controller loses work. */
  lemma StepKeepsScheduled(c: Cdr, a: Action, env: Env)
    requires Scheduled(c.work)
    ensures Scheduled(Step(c, a, env).work)
  {
    hide OnCdr, OnRead, OnPlay, OnLid, OnWrite1, OnWrite2, OnWrite3;
    match a
    case Happen(e) =>
      var d := c.(work := c.work.(events := c.work.events - {e}));
      if e in c.work.events {
        match e
        case CDR => CdrKeepsScheduled(d, env);
        case CDREAD => ReadKeepsScheduled(d, env);
        case CDRPLAY => PlayKeepsScheduled(d, env);
        case CDRLID => LidKeepsScheduled(d, env);
      }
    case Write1(rt) => WriteKeepsScheduled(c, rt);
    case Write2(rt) => WriteKeepsScheduled(c, rt);
    case Write3(rt) => WriteKeepsScheduled(c, rt);
    case LidMoved => LidKeepsScheduled(InfoTaken(c, env).CddaStopped(), env);
    case _ =>
  }

  // ----- responses -----

  /** The response: what was raised, and its bytes. */
  datatype Response = Response(stat: Stat, result: Bytes16, resultC: nat)

  function ResponseOf(c: Cdr): Response { Response(c.reply.stat, c.reply.result, c.reply.resultC) }

  /** The steps that may take a response away. */
  predicate MayAcknowledge(c: Cdr, a: Action) { a.Reset? || (a.Write3? && c.misc.bank == 1) }

  /** No event handler overwrites a raised response: they wait, or have nothing to say. */
  lemma HandlersKeepResponse(c: Cdr, e: Event, env: Env)
    requires c.reply.stat != NoIntr
    ensures ResponseOf(Handle(c, e, env)) == ResponseOf(c)
  {
    hide Command, Served, SeekEnded, Autopause, Bit, Cleared, EndChecked, LidWaits, LidOpens;
    assert EndChecked(c).reply == c.reply by { EndKeepsReply(c); }
    match e
    case CDR => return;
    case CDREAD => return;
    case CDRPLAY => return;
    case CDRLID => LidKeepsReply(c, env);
  }

  lemma EndKeepsReply(c: Cdr)
    ensures EndChecked(c).reply == c.reply
  {
  }

  lemma LidKeepsReply(c: Cdr, env: Env)
    ensures OnLid(c, env).reply == c.reply
  {
    hide LidWaits, Cdr.CddaStopped;
    WaitingKeepsReply(c, env);
    match c.work.drive
    case LID_OPEN => return;
    case RESCAN_CD => return;
    case PREPARE_CD => return;
    case _ => if LidClosed(env) { return; }
  }

  lemma WaitingKeepsReply(c: Cdr, env: Env)
    ensures LidWaits(c, env).reply == c.reply
  {
    hide Cdr.ReadingStopped;
    if !c.work.statP.shell { return; }
    if c.work.statP.rotating { return; }
  }

  lemma WritesKeepResponse(c: Cdr, rt: Byte)
    ensures ResponseOf(OnWrite1(c, rt)) == ResponseOf(c) && ResponseOf(OnWrite2(c, rt)) == ResponseOf(c)
    ensures c.misc.bank != 1 ==> ResponseOf(OnWrite3(c, rt)) == ResponseOf(c)
  {
    hide Bit, Cleared, Cdr.CddaStopped, Cdr.ReadingStopped, Cdr.Queueing;
  }

  /** A raised response is overwritten by no other step. */
  lemma ResponseIsKept(c: Cdr, a: Action, env: Env)
    requires c.reply.stat != NoIntr && !MayAcknowledge(c, a)
    ensures ResponseOf(Step(c, a, env)) == ResponseOf(c)
  {
    hide Handle, OnLid, OnWrite1, OnWrite2, OnWrite3;
    match a
    case Happen(e) => HandlersKeepResponse(c.(work := c.work.(events := c.work.events - {e})), e, env);
    case Write1(rt) => WritesKeepResponse(c, rt);
    case Write2(rt) => WritesKeepResponse(c, rt);
    case Write3(rt) => WritesKeepResponse(c, rt);
    case LidMoved => LidKeepsReply(InfoTaken(c, env).CddaStopped(), env);
    case _ =>
  }

  // ----- runs -----

  /** A run: actions, each with what the surroundings are like at the time. */
  type Run = seq<(Action, Env)>

  function After(c: Cdr, run: Run): Cdr
  {
    if run == [] then c else
      var (a, env) := run[|run| - 1];
      Step(After(c, run[..|run| - 1]), a, env)
  }

  /** In every state reachable from a scheduled one, pending work is scheduled. */
  lemma {:induction false} RunKeepsScheduled(c: Cdr, run: Run)
    requires Scheduled(c.work)
    ensures Scheduled(After(c, run).work)
  {
    hide Step;
    if run != [] {
      RunKeepsScheduled(c, run[..|run| - 1]);
      StepKeepsScheduled(After(c, run[..|run| - 1]), run[|run| - 1].0, run[|run| - 1].1);
    }
  }

  /** No state on the way lets the next action acknowledge. */
  predicate Unacknowledged(c: Cdr, run: Run)
  {
    run == [] || (
      var before := After(c, run[..|run| - 1]);
      Unacknowledged(c, run[..|run| - 1]) && !MayAcknowledge(before, run[|run| - 1].0))
  }

  /** Over any run without an acknowledgement, a raised response stays exactly as it is. */
  lemma {:induction false} ResponseSurvivesRun(c: Cdr, run: Run)
    requires c.reply.stat != NoIntr && Unacknowledged(c, run)
    ensures ResponseOf(After(c, run)) == ResponseOf(c)
  {
    hide Step, MayAcknowledge;
    if run != [] {
      ResponseSurvivesRun(c, run[..|run| - 1]);
      ResponseIsKept(After(c, run[..|run| - 1]), run[|run| - 1].0, run[|run| - 1].1);
    }
  }

  /** After a reset nothing is pending but what the event queue already held. */
  lemma ResetIsScheduled(c: Cdr, env: Env)
    ensures Scheduled(Step(c, Reset, env).work)
  {
  }
}
