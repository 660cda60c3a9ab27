/** The CD-ROM controller as the source runs it: the struct `cdr` in place, with the handlers and
    register writes as methods that change it step by step (libpcsxcore/cdrom.c).  Each does what its
    function in CdSteps says.
  */
module CdMachine {
  import opened Common
  import opened CdState
  import opened CdSteps
  import opened CdSafety

  class Controller {
    var reply: Reply
    var work: Work
    var head: Head
    var misc: Misc

    /** Pending work is scheduled.  Every controller starts with a reset, and every step below keeps it. */
    ghost predicate Valid()
      reads this
    {
      Scheduled(work)
    }

    constructor (before: Cdr, env: Env)
      ensures Valid() && State() == Step(before, Reset, env)
    {
      reply, work, head, misc := before.reply, before.work, before.head, before.misc;
      new;
      ResetStruct(env);
      ResetIsScheduled(before, env);
    }

    ghost function State(): Cdr
      reads this
    {
      Cdr(reply, work, head, misc)
    }

    /** A response that was raised is still there. */
    twostate predicate ResponseKept()
      reads this
    {
      old(reply.stat) != NoIntr ==> ResponseOf(State()) == ResponseOf(old(State()))
    }

    // ----- the macros and helpers -----

    method Schedule(e: Event)
      modifies `work
      ensures State() == old(State()).Scheduling(e)
    {
      work := work.(events := work.events + {e});
    }

    /** SetResultSize, then the stores into Result that follow it. */
    method SetResult(size: nat, bytes: seq<Byte>)
      requires |bytes| <= 16
      modifies `reply
      ensures State() == old(State()).Replying(size, bytes)
    {
      reply := reply.(resultP := 0);
      reply := reply.(resultC := size);
      reply := reply.(resultReady := true);
      reply := reply.(result := bytes + reply.result[|bytes|..]);
    }

    method Raise(stat: Stat)
      modifies `reply
      ensures State() == old(State()).Raising(stat)
    {
      reply := reply.(stat := stat);
    }

    method SetIrq()
      modifies `misc
      ensures State() == old(State()).Signalling()
    {
      if Cleared(reply.stat, misc.reg2) != reply.stat {
        misc := misc.(signalled := true);
      }
    }

    method StopReading()
      modifies `work
      ensures State() == old(State()).ReadingStopped()
    {
      if work.reading {
        work := work.(reading := false);
        work := work.(events := work.events - {CDREAD});
      }
      work := work.(statP := work.statP.(read := false, seek := false));
    }

    method StopCdda()
      modifies `work, `misc
      ensures State() == old(State()).CddaStopped()
    {
      if work.play {
        work := work.(statP := work.statP.(play := false));
        work := work.(play := false);
        misc := misc.(fastForward := 0, fastBackward := 0);
      }
    }

    method AddIrqQueue(irq: nat, delay: nat)
      modifies `work
      ensures State() == old(State()).Queueing(irq, delay)
    {
      if work.irq != 0 {
        if irq == work.irq || irq + 0x100 == work.irq {
          work := work.(irqRepeated := true);
          Schedule(CDR);
          return;
        }
      }
      work := work.(irq := irq);
      work := work.(eCycle := delay);
      Schedule(CDR);
    }

    method TakeSubq(env: Env, read: bool, time: Msf)
      modifies `misc
      ensures State() == old(State()).Located(env, read, time)
    {
      var q := env.subqAt(read, time, SubQ(misc.subq, misc.curTrack, misc.trackChanged));
      misc := misc.(subq := q.bytes, curTrack := q.curTrack, trackChanged := q.trackChanged);
    }

    method ReadTrack(env: Env, time: Msf)
      modifies `head, `misc
      ensures State() == old(State()).TrackRead(env, time)
    {
      var tmp := ToBcd(time);
      if head.prev == tmp { return; }
      if env.readable(tmp) {
        head := head.(buffer := env.disc(tmp), readError := false);
      } else {
        head := head.(readError := true);
      }
      head := head.(prev := tmp);
      TakeSubq(env, true, time);
    }

    method TakeSetloc()
      modifies `head
      ensures State() == old(State()).SetlocTaken()
    {
      if head.setlocPending {
        head := head.(setSectorPlay := head.setSector);
        head := head.(setlocPending := false);
      }
    }

    method FindCurTrack(env: Env)
      modifies `misc
      ensures State() == old(State()).TrackFound(env)
    {
      var current := Abs(head.setSectorPlay);
      ghost var n, was := misc.resultTN[1], misc.resultTD;
      misc := misc.(curTrack := 1);
      while misc.curTrack < misc.resultTN[1]
        invariant misc == old(misc).(curTrack := misc.curTrack, resultTD := misc.resultTD)
        invariant TrackFrom(env, misc.curTrack, n, current, misc.resultTD) == TrackFrom(env, 1, n, current, was)
        decreases misc.resultTN[1] - misc.curTrack
      {
        if env.tdKnown(misc.curTrack + 1) {
          misc := misc.(resultTD := env.td(misc.curTrack + 1));
        }
        if Abs(misc.resultTD) - current >= 150 { break; }
        misc := misc.(curTrack := misc.curTrack + 1);
      }
    }

    /** Find_CurTrack, ReadTrack, TrackChanged = FALSE. */
    method FindAndRead(env: Env)
      modifies `head, `misc
      ensures State() == old(State()).FoundAndRead(env)
    {
      FindCurTrack(env);
      ReadTrack(env, head.setSectorPlay);
      misc := misc.(trackChanged := false);
    }

    method ShowStatP()
      modifies `reply
      ensures State() == StatPFirst(old(State()))
    {
      reply := reply.(result := reply.result[0 := work.statP.ToByte()]);
    }

    method SetError(error: Byte)
      modifies `reply
      ensures State() == ErrorReply(old(State()), error)
    {
      SetResult(2, [work.statP.ToByte() + STATUS_ERROR, error]);
      Raise(DiskError);
    }

    // ----- the commands -----

    method ChooseTrack(env: Env)
      modifies `head, `misc
      ensures State() == TrackChosen(old(State()), env)
    {
      if misc.paramC != 0 && misc.param[0] != 0 {
        var track := Btoi(misc.param[0]);
        if track <= misc.resultTN[1] {
          misc := misc.(curTrack := track);
        }
        var n := misc.curTrack % 0x100;
        if env.tdKnown(n) {
          misc := misc.(resultTD := env.td(n));
          head := head.(setSectorPlay := misc.resultTD);
        }
      }
    }

    method DoPlay(env: Env)
      modifies this
      ensures State() == Play(old(State()), env)
    {
      hide StatPFirst, TrackChosen, Cdr.SetlocTaken, Cdr.FoundAndRead, Cdr.CddaStopped, StatP.ToByte;
      StopCdda();
      if !work.seeked {
        work := work.(seeked := true);
      }
      TakeSetloc();
      ChooseTrack(env);
      FindAndRead(env);
      work := work.(statP := work.statP.(seek := false));
      ShowStatP();
      work := work.(statP := work.statP.(play := true));
      work := work.(play := true);
      Schedule(CDRPLAY);
    }

    method ReadData(env: Env)
      modifies this
      ensures State() == DataRead(old(State()), env)
    {
      hide StatPFirst, HeaderTaken, Cdr.TrackRead;
      work := work.(reading := true);
      misc := misc.(firstSector := 1);
      ReadTrack(env, head.setSectorPlay);
      head := HeaderTaken(head);
      if !work.seeked {
        work := work.(statP := work.statP.(seek := true, read := false));
      } else {
        work := work.(statP := work.statP.(read := true, seek := false));
      }
      Schedule(CDREAD);
      ShowStatP();
    }

    method DoRead(env: Env)
      modifies this
      ensures State() == Read(old(State()), env)
    {
      hide Play, DataRead, Cdr.SetlocTaken, Cdr.TrackFound, Bit;
      TakeSetloc();
      FindCurTrack(env);
      if Bit(misc.mode, 0) && misc.curTrack > 1 {
        DoPlay(env);
      } else {
        ReadData(env);
      }
    }

    method ReturnToTrackStart(env: Env)
      modifies `head, `misc
      ensures State() == AtTrackStart(old(State()), env)
    {
      if work.play {
        var n := misc.curTrack % 0x100;
        if env.tdKnown(n) {
          misc := misc.(resultTD := env.td(n));
        }
        head := head.(setSectorPlay := misc.resultTD);
      }
    }

    method DoStop(env: Env)
      modifies this
      ensures State() == Stop(old(State()), env)
    {
      hide AtTrackStart, Cdr.ReadingStopped, Cdr.CddaStopped, Cdr.Queueing;
      ReturnToTrackStart(env);
      StopCdda();
      StopReading();
      work := work.(drive := STOPPED);
      AddIrqQueue(8 + SECOND, env.delay);
    }

    method DoSeek()
      modifies this
      ensures State() == Seek(old(State()))
    {
      hide Cdr.ReadingStopped, Cdr.CddaStopped;
      StopCdda();
      StopReading();
      work := work.(statP := work.statP.(seek := true));
      Schedule(CDRPLAY);
      work := work.(seeked := false);
    }

    method DoMove(cmd: nat, env: Env) returns (noBusyError: bool, startRotating: bool)
      modifies this
      ensures Effect(State(), noBusyError, startRotating) == Moving(cmd, old(State()), env)
    {
      hide Play, Read, Stop, Seek;
      noBusyError, startRotating := false, true;
      if cmd == 3 {
        DoPlay(env);
      } else if cmd == 8 {
        DoStop(env);
        startRotating := false;
      } else if cmd == 21 || cmd == 22 {
        DoSeek();
      } else if cmd == 28 {
        work := work.(statP := work.statP.(shell := true));
        work := work.(drive := RESCAN_CD);
        Schedule(CDRLID);
        noBusyError := true;
      } else {
        DoRead(env);
      }
    }

    method DoTwoPart(cmd: nat, env: Env) returns (noBusyError: bool, startRotating: bool)
      modifies `reply, `work
      ensures Effect(State(), noBusyError, startRotating) == TwoPart(cmd, old(State()), env)
    {
      hide ErrorReply, Cdr.Queueing;
      if cmd == 7 && work.drive != STOPPED {
        SetError(ERROR_INVALIDARG);
        return false, false;
      }
      AddIrqQueue(cmd + SECOND, env.delay);
      if cmd == 9 {
        work := work.(busy := true);
        return false, false;
      }
      noBusyError := cmd == 10 || cmd == 30;
      startRotating := cmd != 26;
    }

    method DoIdentify(env: Env)
      modifies `reply
      ensures State() == Identify(old(State()), env)
    {
      var kind: Byte := 0;
      if !env.statusKnown || env.discType == 0 || env.discType == 0xff {
        kind := 0xc0;
      } else {
        if env.discType == 2 { kind := 0x10; }
        if !env.licensed { kind := kind + 0x80; }
      }
      var first := work.statP.ToByte();
      if kind >= 0x80 { first := first + 8; }
      SetResult(8, [first, kind, 0, 0] + env.region);
      Raise(Complete);
    }

    method DoSecondHalf(cmd: nat, env: Env) returns (noBusyError: bool)
      modifies `reply, `work
      ensures Effect(State(), noBusyError, false) == SecondHalf(cmd, old(State()), env)
    {
      hide StatP.ToByte, Identify;
      noBusyError := false;
      if cmd == 8 {
        work := work.(statP := work.statP.(rotating := false));
        ShowStatP();
        Raise(Complete);
      } else if cmd == 9 {
        work := work.(statP := work.statP.(read := false));
        ShowStatP();
        Raise(Complete);
      } else if cmd == 26 {
        DoIdentify(env);
      } else {
        Raise(Complete);
        noBusyError := cmd == 30;
      }
    }

    method DoGetLocP()
      modifies `reply
      ensures State() == GetLocP(old(State()))
    {
      SetResult(8, misc.subq);
      if !work.play && !work.reading {
        reply := reply.(result := reply.result[1 := 0]);
      }
    }

    method DoGetTN(env: Env)
      modifies `reply, `misc
      ensures State() == GetTN(old(State()), env)
    {
      if !env.tnKnown {
        SetResult(3, [work.statP.ToByte() + STATUS_ERROR]);
        Raise(DiskError);
      } else {
        misc := misc.(resultTN := env.tn);
        SetResult(3, [work.statP.ToByte(), Itob(misc.resultTN[0]), Itob(misc.resultTN[1])]);
      }
    }

    method DoGetTD(env: Env)
      modifies `reply, `misc
      ensures State() == GetTD(old(State()), env)
    {
      var track := Btoi(misc.param[0]);
      if !env.tdKnown(track) {
        SetResult(4, [work.statP.ToByte() + STATUS_ERROR]);
        Raise(DiskError);
      } else {
        misc := misc.(resultTD := env.td(track));
        var t := misc.resultTD;
        SetResult(4, [work.statP.ToByte(), Itob(t.m), Itob(t.s), Itob(t.f)]);
      }
    }

    method DoTest()
      modifies `reply
      ensures State() == Test(old(State()))
    {
      match misc.param[0]
      case 0x20 => SetResult(4, [0x98, 0x06, 0x10, 0xC3]);
      case 0x22 => SetResult(8, [0x66, 0x6F, 0x72, 0x20]);
      case 0x23 => SetResult(8, [0x43, 0x58, 0x44, 0x32]);
      case 0x24 => SetResult(8, [0x43, 0x58, 0x44, 0x32]);
      case _ =>
    }

    method DoAnswer(cmd: nat, env: Env) returns (noBusyError: bool)
      modifies this
      ensures Effect(State(), noBusyError, false) == Answering(cmd, old(State()), env)
    {
      hide StatP.ToByte, GetLocP, GetTN, GetTD, Test, ErrorReply;
      noBusyError := cmd == 1 || cmd == 14 || cmd == 15 || cmd == 25;
      match cmd
      case 0 =>
      case 1 => if work.drive != LID_OPEN { work := work.(statP := work.statP.(shell := false)); }
      case 2 =>
      case 4 =>
        Raise(Complete);
        misc := misc.(fastForward := Faster(misc.fastForward));
        misc := misc.(fastBackward := 0);
      case 5 =>
        Raise(Complete);
        misc := misc.(fastBackward := Faster(misc.fastBackward));
        misc := misc.(fastForward := 0);
      case 11 => misc := misc.(muted := true);
      case 12 => misc := misc.(muted := false);
      case 13 => misc := misc.(file := misc.param[0], channel := misc.param[1]);
      case 14 =>
      case 15 => SetResult(6, [work.statP.ToByte(), misc.mode, misc.file, misc.channel, 0, 0]);
      case 16 => SetResult(8, head.transfer[..8]);
      case 17 => DoGetLocP();
      case 19 => DoGetTN(env);
      case 20 => DoGetTD(env);
      case 25 => DoTest();
      case 29 =>
      case _ => SetError(ERROR_INVALIDCMD);
    }

    /** The command switch. */
    method DoCommand(cmd: nat, env: Env) returns (noBusyError: bool, startRotating: bool)
      modifies this
      ensures Effect(State(), noBusyError, startRotating) == Command(cmd, old(State()), env)
    {
      hide Moving, TwoPart, SecondHalf, Answering;
      startRotating := false;
      if Moves(cmd) {
        noBusyError, startRotating := DoMove(cmd, env);
      } else if HasSecondHalf(cmd) {
        noBusyError, startRotating := DoTwoPart(cmd, env);
      } else if cmd >= SECOND && HasSecondHalf(cmd - SECOND) {
        noBusyError := DoSecondHalf(cmd - SECOND, env);
      } else {
        noBusyError := DoAnswer(cmd, env);
      }
    }

    /** The end of cdrInterrupt (cdrom.c:1149-1169). */
    method Settle(noBusyError: bool, startRotating: bool)
      modifies `reply, `work
      ensures State() == Settled(Effect(old(State()), noBusyError, startRotating))
    {
      hide ErrorReply;
      if work.drive == STOPPED && startRotating {
        work := work.(drive := STANDBY);
        work := work.(statP := work.statP.(rotating := true));
      }
      if !noBusyError && NotReady(work.drive) {
        SetError(ERROR_NOTREADY);
      }
    }

    method Finish()
      modifies `misc
      ensures State() == Finished(old(State()))
    {
      SetIrq();
      misc := misc.(paramC := 0);
    }

    method CdrInterrupt(env: Env)
      modifies this
      ensures State() == OnCdr(old(State()), env)
    {
      hide Command, Settled, Finished, StatP.ToByte;
      var irq := work.irq;
      if reply.stat != NoIntr {
        Schedule(CDR);
        return;
      }
      work := work.(busy := false);
      SetResult(1, [work.statP.ToByte()]);
      Raise(Acknowledge);
      if work.irqRepeated {
        work := work.(irqRepeated := false);
        if work.eCycle > env.cycle {
          Schedule(CDR);
          Finish();
          return;
        }
      }
      work := work.(irq := 0);
      assert State() == CommandStarts(old(State()));
      var noBusyError, startRotating := DoCommand(irq, env);
      Settle(noBusyError, startRotating);
      Finish();
    }

    // ----- reading -----

    method TakeAudio(env: Env)
      modifies `misc
      ensures State() == old(State()).(misc := AudioTaken(old(misc), head.transfer, env))
    {
      hide Bit;
      var t := head.transfer;
      if !misc.muted && Bit(misc.mode, 6) && env.xaEnabled && misc.firstSector != -1 {
        if misc.firstSector == 1 && !Bit(misc.mode, 3) {
          misc := misc.(file := t[4]);
          misc := misc.(channel := t[5]);
        }
        if Bit(t[6], 2) && t[5] == misc.channel && t[4] == misc.file {
          misc := misc.(firstSector := if env.xaDecodes(t) then 0 else -1);
        }
      }
    }

    method StartRead()
      modifies `reply, `work
      ensures State() == ReadStarts(old(State()))
    {
      hide StatP.ToByte;
      work := work.(statP := work.statP.(read := true, rotating := true));
      work := work.(statP := work.statP.(seek := false));
      SetResult(1, [work.statP.ToByte()]);
      work := work.(seeked := true);
    }

    method FailRead()
      modifies `reply, `work, `head
      ensures State() == ReadFailed(old(State()))
    {
      head := head.(transfer := seq(2340, _ => 0));
      reply := reply.(stat := DiskError);
      reply := reply.(result := reply.result[0 := work.statP.ToByte() + STATUS_ERROR]);
      Schedule(CDREAD);
    }

    method HandOver(env: Env)
      modifies `head
      ensures State() == old(State()).(head := HandedOver(old(head), env))
    {
      if LicenseSector(head.setSectorPlay) {
        head := head.(buffer := env.license(head.buffer));
      }
      head := head.(transfer := env.ppf(head.prev, head.buffer));
    }

    /** A served read (cdrom.c:1293-1443). */
    method ServeRead(env: Env)
      modifies this
      ensures State() == Served(old(State()), env)
    {
      hide ReadStarts, ReadFailed, HandedOver, DataRaised, AudioTaken, Cdr.TrackRead, Advance;
      StartRead();
      ReadTrack(env, head.setSectorPlay);
      if head.readError {
        FailRead();
        return;
      }
      HandOver(env);
      TakeAudio(env);
      head := head.(setSectorPlay := Advance(head.setSectorPlay));
      misc := misc.(readed := false);
      Schedule(CDREAD);
      RaiseData();
      ReadTrack(env, head.setSectorPlay);
    }

    method RaiseData()
      modifies `reply, `misc
      ensures State() == DataRaised(old(State()))
    {
      hide Bit, Cdr.Signalling;
      if !Bit(misc.mode, 6) || !Bit(head.transfer[6], 2) {
        Raise(DataReady);
        SetIrq();
      }
    }

    method CdrReadInterrupt(env: Env)
      modifies this
      ensures State() == OnRead(old(State()), env)
    {
      hide Served;
      if !work.reading { return; }
      if work.irq != 0 || reply.stat != NoIntr {
        Schedule(CDREAD);
        return;
      }
      ServeRead(env);
    }

    // ----- seeking and playing -----

    method DoAutopause()
      modifies `reply, `work, `misc
      ensures State() == Autopause(old(State()))
    {
      hide Bit, Report, Cdr.Signalling;
      if Bit(misc.mode, 1) && misc.trackChanged {
        Raise(DataEnd);
        SetIrq();
        StopCdda();
      } else if Bit(misc.mode, 2) {
        ReportPosition();
        Raise(DataReady);
        SetIrq();
      }
    }

    method ReportPosition()
      modifies `reply
      ensures State() == old(State()).Replying(8, Report(old(State())))
    {
      hide Bit;
      var q := misc.subq;
      var at;
      if Bit(q[7], 4) {
        at := [q[2], if q[3] < 0x80 then q[3] + 0x80 else q[3], q[4]];
      } else {
        at := [q[5], q[6], q[7]];
      }
      SetResult(8, [work.statP.ToByte(), q[0], q[1]] + at + [0, 0]);
    }

    method ShowSeekEnd()
      modifies `reply, `work
      ensures State() == SeekShown(old(State()))
    {
      hide StatP.ToByte;
      work := work.(statP := work.statP.(rotating := true));
      work := work.(statP := work.statP.(seek := false));
      SetResult(1, [work.statP.ToByte()]);
      work := work.(seeked := true);
    }

    method ReportSeekEnd()
      modifies `reply, `work, `misc
      ensures State() == SeekReported(old(State()))
    {
      hide SeekShown, Cdr.Signalling;
      ShowSeekEnd();
      if work.irq == 0 {
        Raise(Complete);
        SetIrq();
      }
    }

    method EndSeek(env: Env)
      modifies this
      ensures State() == SeekEnded(old(State()), env)
    {
      hide SeekReported, Cdr.SetlocTaken, Cdr.FoundAndRead;
      ReportSeekEnd();
      TakeSetloc();
      FindAndRead(env);
    }

    method CheckEnd()
      modifies `work, `misc
      ensures State() == EndChecked(old(State()))
    {
      if head.setSectorPlay == head.setSectorEnd {
        StopCdda();
        misc := misc.(trackChanged := true);
      }
    }

    method PlayOn(env: Env)
      modifies this
      ensures State() == PlayedOn(old(State()), env)
    {
      hide EndChecked, Autopause, Cdr.Located, Advance, Bit;
      if !work.play { return; }
      CheckEnd();
      if work.irq == 0 && reply.stat == NoIntr && (Bit(misc.mode, 1) || Bit(misc.mode, 2)) {
        DoAutopause();
      }
      assert State() == Paused(EndChecked(old(State())));
      if !work.play { return; }
      head := head.(setSectorPlay := Advance(head.setSectorPlay));
      Schedule(CDRPLAY);
      TakeSubq(env, false, head.setSectorPlay);
    }

    method CdrPlayInterrupt(env: Env)
      modifies this
      ensures State() == OnPlay(old(State()), env)
    {
      hide SeekEnded, PlayedOn;
      if !work.seeked {
        if reply.stat != NoIntr {
          Schedule(CDRPLAY);
          return;
        }
        EndSeek(env);
      }
      PlayOn(env);
    }

    // ----- the lid -----

    method WaitForLid(env: Env)
      modifies `work
      ensures State() == LidWaits(old(State()), env)
    {
      if !work.statP.shell {
        StopReading();
        work := work.(statP := work.statP.(shell := true));
      } else if work.statP.rotating {
        work := work.(statP := work.statP.(rotating := false));
      } else if LidClosed(env) {
        work := work.(drive := RESCAN_CD);
      }
    }

    method CdrLidSeekInterrupt(env: Env)
      modifies `work, `misc
      ensures State() == OnLid(old(State()), env)
    {
      hide LidWaits;
      match work.drive
      case LID_OPEN =>
        WaitForLid(env);
        Schedule(CDRLID);
      case RESCAN_CD =>
        work := work.(statP := work.statP.(rotating := true));
        work := work.(drive := PREPARE_CD);
        Schedule(CDRLID);
      case PREPARE_CD =>
        work := work.(statP := work.statP.(seek := true));
        work := work.(drive := STANDBY);
        Schedule(CDRLID);
      case _ =>
        work := work.(statP := work.statP.(seek := false));
        if LidClosed(env) { return; }
        StopCdda();
        work := work.(drive := LID_OPEN);
        Schedule(CDRLID);
    }

    method GetCdInfo(env: Env)
      modifies `head, `misc
      ensures State() == InfoTaken(old(State()), env)
    {
      if env.tnKnown {
        misc := misc.(resultTN := env.tn);
      }
      head := head.(setSectorEnd := env.td(0));
    }

    method LidInterrupt(env: Env)
      requires Valid()
      modifies this
      ensures Valid() && ResponseKept() && State() == Step(old(State()), LidMoved, env)
    {
      hide OnLid;
      StepIsSafe(State(), LidMoved, env);
      GetCdInfo(env);
      StopCdda();
      CdrLidSeekInterrupt(env);
    }

    // ----- registers -----

    method NoteCommand(cmd: Byte)
      modifies this
      ensures State() == CommandNoted(old(State()), cmd)
    {
      hide Bit, Cdr.CddaStopped, Cdr.ReadingStopped, Btoi;
      if cmd == 2 {
        var setLoc := Msf(Btoi(misc.param[0]), Btoi(misc.param[1]), Btoi(misc.param[2]));
        if Distance(Abs(head.setSectorPlay), Abs(setLoc)) > 16 {
          work := work.(seeked := false);
        }
        head := head.(setSector := setLoc);
        head := head.(setlocPending := true);
      } else if cmd == 6 || cmd == 27 || cmd == 9 {
        StopCdda();
        StopReading();
      } else if cmd == 28 || cmd == 10 {
        work := work.(seeked := true);
        StopCdda();
        StopReading();
      } else if cmd == 14 {
        misc := misc.(mode := misc.param[0]);
        if !Bit(misc.mode, 0) {
          StopCdda();
        }
      }
    }

    method CdrWrite1(rt: Byte)
      requires Valid()
      modifies this
      ensures Valid() && ResponseKept() && State() == OnWrite1(old(State()), rt)
    {
      hide CommandNoted, Cdr.Queueing;
      WriteKeepsScheduled(State(), rt);
      WritesKeepResponse(State(), rt);
      if misc.bank != 0 { return; }
      reply := reply.(resultReady := false);
      work := work.(busy := true);
      AddIrqQueue(rt, 0x800);
      NoteCommand(rt);
    }

    method CdrWrite2(rt: Byte)
      modifies `misc
      ensures State() == OnWrite2(old(State()), rt)
    {
      if misc.bank == 0 {
        if misc.paramC < 8 {
          misc := misc.(param := misc.param[misc.paramC := rt]);
          misc := misc.(paramC := misc.paramC + 1);
        }
      } else if misc.bank == 1 {
        misc := misc.(reg2 := rt);
        SetIrq();
      }
    }

    method CdrWrite3(rt: Byte)
      modifies `reply, `misc
      ensures State() == OnWrite3(old(State()), rt)
      ensures old(misc).bank != 1 ==> ResponseKept()
    {
      if misc.bank == 0 {
        if rt >= 0x80 && !misc.readed {
          misc := misc.(readed := true);
        }
      } else if misc.bank == 1 {
        reply := reply.(stat := Cleared(reply.stat, rt));
        if Bit(rt, 6) {
          misc := misc.(paramC := 0);
        }
      }
    }

    /** The byte the program reads, and the response moved on. */
    method CdrRead1() returns (b: Byte)
      modifies `reply
      ensures State() == OnRead1(old(State())) && ResponseKept()
      ensures old(reply).resultP % 16 < old(reply).resultC ==> b == old(reply).result[old(reply).resultP % 16]
    {
      b := if reply.resultP % 16 < reply.resultC then reply.result[reply.resultP % 16] else 0;
      reply := reply.(resultP := (reply.resultP + 1) % 0x100);
      if reply.resultP == reply.resultC {
        reply := reply.(resultReady := false);
      }
    }

    method CdrWrite0(rt: Byte)
      modifies `misc
      ensures State() == old(State()).(misc := old(misc).(bank := rt % 4))
    {
      misc := misc.(bank := rt % 4);
    }

    /** cdrReset: the struct is wiped, then the fields that are not zero are set. */
    method ResetStruct(env: Env)
      modifies this
      ensures State() == OnReset(old(State()), env)
    {
      var zero := Msf(0, 0, 0);
      var stopped := StatP(false, false, false, false, false);
      reply := Reply(NoIntr, seq(16, _ => 0), 0, 0, false);
      work := Work(0, false, 0, false, false, false, false, STANDBY, stopped, work.events);
      head := Head(false, zero, zero, zero, zero, false, head.buffer, seq(2340, _ => 0));
      misc := Misc(0, 0, misc.signalled, seq(8, _ => 0), 0, false, 0, false, 0, 0, 0, 0, 0, 0, false,
        seq(8, _ => 0), seq(2, _ => 0), zero);
      misc := misc.(curTrack := 1, file := 1, channel := 1, reg2 := 0x1f);
      work := work.(statP := work.statP.(rotating := true));
      GetCdInfo(env);
    }

    method CdrReset(env: Env)
      modifies this
      ensures Valid() && State() == Step(old(State()), Reset, env)
    {
      ResetIsScheduled(State(), env);
      ResetStruct(env);
    }

    /** The dispatcher: a scheduled event is removed, then handled. */
    method Dispatch(e: Event, env: Env)
      requires Valid()
      modifies this
      ensures Valid() && ResponseKept() && State() == Step(old(State()), Happen(e), env)
    {
      hide OnCdr, OnRead, OnPlay, OnLid;
      StepIsSafe(State(), Happen(e), env);
      if e in work.events {
        work := work.(events := work.events - {e});
        match e
        case CDR => CdrInterrupt(env);
        case CDREAD => CdrReadInterrupt(env);
        case CDRPLAY => CdrPlayInterrupt(env);
        case CDRLID => CdrLidSeekInterrupt(env);
      }
    }

    // ----- whole runs -----

    /** Any step. */
    method Perform(a: Action, env: Env)
      requires Valid()
      modifies this
      ensures Valid() && State() == Step(old(State()), a, env)
      ensures !MayAcknowledge(old(State()), a) ==> ResponseKept()
    {
      hide OnWrite1, OnWrite2, OnWrite3, OnReset, OnRead1, Handle, OnLid;
      StepIsSafe(State(), a, env);
      match a
      case Happen(e) => Dispatch(e, env);
      case SelectBank(rt) => CdrWrite0(rt);
      case Write1(rt) => CdrWrite1(rt);
      case Write2(rt) => CdrWrite2(rt);
      case Write3(rt) => CdrWrite3(rt);
      case Read1 => var _ := CdrRead1();
      case LidMoved => LidInterrupt(env);
      case ReadSoon => Schedule(CDREAD);
      case Reset => CdrReset(env);
    }

    /** Any run: the controller ends where the run of the model does, with its work scheduled, and a
        response that nothing on the way could take away is still there. */
    method Follow(run: Run)
      requires Valid()
      modifies this
      ensures Valid() && State() == After(old(State()), run)
      ensures Unacknowledged(old(State()), run) ==> ResponseKept()
    {
      hide Step, MayAcknowledge, Scheduled;
      var i := 0;
      while i < |run|
        invariant 0 <= i <= |run| && Valid()
        invariant State() == After(old(State()), run[..i])
      {
        assert run[..i + 1][..i] == run[..i];
        Perform(run[i].0, run[i].1);
        i := i + 1;
      }
      assert run[..i] == run;
      if old(reply.stat) != NoIntr && Unacknowledged(old(State()), run) {
        ResponseSurvivesRun(old(State()), run);
      }
    }
  }

  /** The two things every step keeps. */
  lemma StepIsSafe(c: Cdr, a: Action, env: Env)
    requires Scheduled(c.work)
    ensures Scheduled(Step(c, a, env).work)
    ensures c.reply.stat != NoIntr && !MayAcknowledge(c, a) ==> ResponseOf(Step(c, a, env)) == ResponseOf(c)
  {
    hide Step, Scheduled, MayAcknowledge;
    StepKeepsScheduled(c, a, env);
    if c.reply.stat != NoIntr && !MayAcknowledge(c, a) {
      ResponseIsKept(c, a, env);
    }
  }
}
