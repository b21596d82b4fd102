/** Each step of each thread is one change of what the waiting PCBs wait for, or none. */
module SchedulerSteps {
  import opened Bytes
  import opened Scheduler
  import opened SchedulerPlaces
  import opened SchedulerWaits

  lemma AdmitView(s: K, s': K)
    requires AdmitStep(s) == Some(s')
    ensures View(s') == View(s)
  {
  }

  lemma DispatchView(s: K, i: nat, s': K)
    requires DispatchStep(s, i) == Some(s')
    ensures View(s') == View(s)
  {
  }

  lemma FinishView(s: K, s': K)
    requires FinishStep(s) == Some(s')
    ensures View(s') == View(s)
  {
  }

  lemma OtherView(s: K, e: Event, s': K)
    requires Step(s, e) == Some(s') && (e.Arrive? || e.ArrivePost? || e.FsReply? || e.SleepEnd?)
    ensures View(s') == View(s)
  {
    if e.FsReply? {
      assert s.fsQueue == [s.fsQueue[0]] + s.fsQueue[1..];
      assert Outstanding(s'.wake, s'.fsDone, s'.fsQueue) == Outstanding(s.wake, s.fsDone, s.fsQueue);
    }
  }

  lemma BlockedOnce(s: K, p: Pid)
    requires InOnePlace(s, p)
    ensures Times(s.blocked, p) <= 1
  {
  }

  lemma MatchWaits(s: K, p: Pid, s': K)
    requires s.wake == F2(p) && WakeStep(s) == Some(s') && Placed(s) && WaitsOk(View(s))
    ensures WaitsOk(View(s'))
  {
    assert InOnePlace(s, p);
    BlockedOnce(s, p);
    var v := View(s);
    assert v.requests == [p] + s.fsDone + s.fsQueue;
    assert v.requests[1..] == s.fsDone + s.fsQueue == Outstanding(s'.wake, s'.fsDone, s'.fsQueue);
    FsWakes(v);
    assert View(s') == Unblock(v, p).(requests := v.requests[1..], posts := v.posts - 1);
  }

  lemma WakeWaits(s: K, s': K)
    requires WakeStep(s) == Some(s') && Placed(s) && WaitsOk(View(s))
    ensures WaitsOk(View(s'))
  {
    match s.wake {
      case F0 =>
        assert s.fsDone == [s.fsDone[0]] + s.fsDone[1..];
        assert Outstanding(s'.wake, s'.fsDone, s'.fsQueue) == Outstanding(s.wake, s.fsDone, s.fsQueue);
        assert View(s') == View(s);
      case F2(p) => MatchWaits(s, p, s');
      case _ => assert View(s') == View(s);
    }
  }

  /** The PCB in the execute thread's hand is not blocked. */
  lemma HeldNotBlocked(s: K, p: Pid)
    requires InOnePlace(s, p) && WaitsOk(View(s)) && ExeHand(s.exe, p) > 0
    ensures p !in s.why
  {
    assert Times(s.blocked, p) == 0;
    Member(s.blocked, p);
  }

  lemma WaitWaits(s: K, p: Pid, r: nat)
    requires r < |s.res| && s.exe == Running(p) && p !in s.why && WaitsOk(View(s))
    ensures WaitsOk(View(WaitOn(s, p, r)))
  {
    if s.res[r].inst > 0 {
      Grants(View(s), r);
      var x := s.res[r];
      assert View(WaitOn(s, p, r)) == View(s).(res := s.res[r := x.(inst := x.inst - 1, grants := x.grants + 1)]);
    } else {
      WaitQueues(s, p, r);
    }
  }

  lemma WaitQueues(s: K, p: Pid, r: nat)
    requires r < |s.res| && s.res[r].inst <= 0 && s.exe == Running(p) && p !in s.why && WaitsOk(View(s))
    ensures WaitsOk(View(WaitOn(s, p, r)))
  {
    assert ResourceWith(s.res[r], r, s.why, false);
    QueueUp(View(s), p, r);
    var x := s.res[r];
    assert View(WaitOn(s, p, r))
        == Block(View(s), p, OnResource(r)).(res := s.res[r := x.(queue := x.queue + [p], arrived := x.arrived + [p])]);
  }

  lemma OpenWaits(s: K, p: Pid, f: string)
    requires s.exe == Running(p) && p !in s.why && WaitsOk(View(s))
    ensures WaitsOk(View(OpenFile(s, p, f)))
  {
    if f in s.files {
      QueuesForFile(View(s), p, f);
      var x := s.files[f];
      assert View(OpenFile(s, p, f))
          == Block(View(s), p, OnFile(f)).(files :=
              s.files[f := x.(queue := x.queue + [p], arrived := x.arrived + [p])]);
    } else {
      OpensNew(View(s), p, f);
      assert View(OpenFile(s, p, f)) == View(s).(files := s.files[f := FileEntry(p, [], [], [])]);
    }
  }

  lemma CloseWaits(s: K, p: Pid, f: string, s': K)
    requires f in s.files && s.exe == Running(p) && CloseFile(s, p, f) == Some(s') && Placed(s) && WaitsOk(View(s))
    ensures WaitsOk(View(s'))
  {
    var x := s.files[f];
    if x.queue == [] {
      ClosesLast(View(s), f);
      assert View(s') == View(s).(files := s.files - {f});
    } else {
      var w := x.queue[0];
      assert InOnePlace(s, w);
      BlockedOnce(s, w);
      HandsFile(View(s), f);
      assert View(s') == Unblock(View(s), w).(files :=
             s.files[f := x.(owner := w, queue := x.queue[1..], handed := x.handed + [w])]);
    }
  }

  lemma AnswerWaits(s: K, p: Pid, an: Answer, s': K)
    requires s.exe == Running(p) && Handle(s, p, an) == Some(s') && Placed(s) && WaitsOk(View(s))
    ensures WaitsOk(View(s'))
  {
    assert InOnePlace(s, p);
    HeldNotBlocked(s, p);
    match an {
      case Io =>
        Sleeps(View(s), p);
        assert View(s') == Block(View(s), p, OnIo).(sleeper := Some(p));
      case Wait(r) =>
        if r.Some? && r.value < |s.res| { WaitWaits(s, p, r.value); } else { assert View(s') == View(s); }
      case Signal(r) => RaiseWaits(s, p, r, s');
      case Open(f) => OpenWaits(s, p, f);
      case Close(f) => CloseWaits(s, p, f, s');
      case FileOp => SendWaits(s, p, s');
      case _ => assert View(s') == View(s);
    }
  }

  lemma RaiseWaits(s: K, p: Pid, r: Option<nat>, s': K)
    requires s.exe == Running(p) && Handle(s, p, Signal(r)) == Some(s') && WaitsOk(View(s))
    ensures WaitsOk(View(s'))
  {
    if r.Some? && r.value < |s.res| {
      Raises(View(s), r.value);
      var x := s.res[r.value];
      assert View(s') == View(s).(res := s.res[r.value := x.(inst := x.inst + 1, signals := x.signals + 1)],
             signaller := Some(r.value));
    } else {
      assert View(s') == View(s);
    }
  }

  lemma SendWaits(s: K, p: Pid, s': K)
    requires s.exe == Running(p) && p !in s.why && Handle(s, p, FileOp) == Some(s') && WaitsOk(View(s))
    ensures WaitsOk(View(s'))
  {
    Sends(View(s), p);
    assert Outstanding(s'.wake, s'.fsDone, s'.fsQueue) == Outstanding(s.wake, s.fsDone, s.fsQueue) + [p];
    assert View(s') == View(s).(requests := View(s).requests + [p], posts := View(s).posts + 1, sender := Some(p));
  }

  lemma HandOverWaits(s: K, r: nat, s': K)
    requires r < |s.res| && s.exe == Signalled(r) && s.res[r].queue != []
    requires SignalWakes(s, r) == Some(s') && Placed(s) && WaitsOk(View(s))
    ensures WaitsOk(View(s'))
  {
    var x := s.res[r];
    var w := x.queue[0];
    assert InOnePlace(s, w);
    BlockedOnce(s, w);
    HandsOver(View(s), r);
    var y := x.(inst := x.inst - 1, grants := x.grants + 1, queue := x.queue[1..], woken := x.woken + [w]);
    assert View(s') == Unblock(View(s), w).(res := s.res[r := y], signaller := None);
  }

  lemma SignalWaits(s: K, r: nat, s': K)
    requires r < |s.res| && s.exe == Signalled(r) && SignalWakes(s, r) == Some(s') && Placed(s) && WaitsOk(View(s))
    ensures WaitsOk(View(s'))
  {
    if s.res[r].queue == [] {
      NobodyWaits(View(s), r);
      assert View(s') == View(s).(signaller := None);
    } else {
      HandOverWaits(s, r, s');
    }
  }

  lemma SentWaits(s: K, p: Pid, s': K)
    requires s.exe == Sent(p) && EarlyStep(s) == Some(s') && Placed(s) && WaitsOk(View(s))
    ensures WaitsOk(View(s'))
  {
    assert InOnePlace(s, p);
    HeldNotBlocked(s, p);
    WaitsForFs(View(s), p);
    assert View(s') == Block(View(s), p, OnFs).(sender := None);
  }

  lemma SleepWaits(s: K, p: Pid, s': K)
    requires s.exe == IoWait(p) && EarlyStep(s) == Some(s') && Placed(s) && WaitsOk(View(s))
    ensures WaitsOk(View(s'))
  {
    assert InOnePlace(s, p);
    BlockedOnce(s, p);
    SleepEnds(View(s), p);
    assert View(s') == Unblock(View(s), p).(sleeper := None);
  }

  lemma ExecuteWaits(s: K, an: Answer, s': K)
    requires ExecuteStep(s, an) == Some(s') && Placed(s) && WaitsOk(View(s))
    ensures WaitsOk(View(s'))
  {
    match s.exe {
      case Running(p) => AnswerWaits(s, p, an, s');
      case Sent(p) => SentWaits(s, p, s');
      case IoWait(p) => SleepWaits(s, p, s');
      case Signalled(r) => SignalWaits(s, r, s');
      case _ => if Early(s.exe) { PlainWaits(s, s'); } else { PushWaits(s, s'); }
    }
  }

  /** The remaining steps before the switch leave every waiting list alone. */
  lemma PlainWaits(s: K, s': K)
    requires EarlyStep(s) == Some(s') && !s.exe.Sent? && !s.exe.IoWait?
    ensures View(s') == View(s)
  {
  }

  /** So do the remaining steps after it. */
  lemma RestView(s: K, s': K)
    requires LateStep(s) == Some(s') && !s.exe.Signalled? && !s.exe.Woken? && !s.exe.PostReady?
    ensures View(s') == View(s)
  {
    match s.exe {
      case PushOwn(p) => assert View(s') == View(s);
      case PostExec => assert View(s') == View(s);
      case PostExit => assert View(s') == View(s);
      case Release => assert View(s') == View(s);
    }
  }

  lemma PushWaits(s: K, s': K)
    requires LateStep(s) == Some(s') && !s.exe.Signalled?
    ensures View(s') == View(s)
  {
    if s.exe.Woken? {
      WokenView(s, s');
    } else if s.exe.PostReady? {
      PostView(s, s');
    } else {
      RestView(s, s');
    }
  }

  lemma WokenView(s: K, s': K)
    requires LateStep(s) == Some(s') && s.exe.Woken?
    ensures View(s') == View(s)
  {
  }

  lemma PostView(s: K, s': K)
    requires LateStep(s) == Some(s') && s.exe.PostReady?
    ensures View(s') == View(s)
  {
  }
}
