/** What holds in every state the kernel can reach, whatever the interleaving and whatever the programs do. */
module SchedulerRuns {
  import opened Bytes
  import opened Scheduler
  import opened SchedulerTokens
  import opened SchedulerPlaces
  import opened SchedulerSteps

  // ----- one step -----

  lemma AdmitPlaced(s: K, s': K)
    requires Placed(s) && AdmitStep(s) == Some(s')
    ensures Placed(s')
  {
    forall p ensures InOnePlace(s', p) {
      assert InOnePlace(s, p);
      AdmitPlaces(s, s', p, DisHand(s.dis, p), ExeHand(s.exe, p), FinHand(s.fin, p), WakeHand(s.wake, p));
    }
  }

  lemma AdmitKeeps(s: K, s': K)
    requires Inv(s) && AdmitStep(s) == Some(s')
    ensures Inv(s')
  {
    AdmitAlone(s, s');
    AdmitTokens(s, s', DisHeld(s.dis), ExeHeld(s.exe), FinHeld(s.fin), WakeHeld(s.wake));
    AdmitPlaced(s, s');
    AdmitView(s, s');
  }

  /** The other threads stay where they are. */
  lemma AdmitAlone(s: K, s': K)
    requires AdmitStep(s) == Some(s')
    ensures s'.dis == s.dis && s'.exe == s.exe && s'.fin == s.fin && s'.wake == s.wake
  {
  }

  lemma DispatchPlaced(s: K, i: nat, s': K)
    requires Placed(s) && DispatchStep(s, i) == Some(s')
    ensures Placed(s')
  {
    forall p ensures InOnePlace(s', p) {
      assert InOnePlace(s, p);
      DispatchPlaces(s, i, s', p, AdmHand(s.adm, p), ExeHand(s.exe, p), FinHand(s.fin, p), WakeHand(s.wake, p));
    }
  }

  lemma DispatchKeeps(s: K, i: nat, s': K)
    requires Inv(s) && DispatchStep(s, i) == Some(s')
    ensures Inv(s')
  {
    DispatchTokens(s, i, s', AdmHeld(s.adm), ExeHeld(s.exe), FinHeld(s.fin), WakeHeld(s.wake));
    DispatchPlaced(s, i, s');
    DispatchView(s, i, s');
  }

  lemma FinishPlaced(s: K, s': K)
    requires Placed(s) && FinishStep(s) == Some(s')
    ensures Placed(s')
  {
    forall p ensures InOnePlace(s', p) {
      assert InOnePlace(s, p);
      FinishPlaces(s, s', p, AdmHand(s.adm, p), DisHand(s.dis, p), ExeHand(s.exe, p), WakeHand(s.wake, p));
    }
  }

  lemma FinishKeeps(s: K, s': K)
    requires Inv(s) && FinishStep(s) == Some(s')
    ensures Inv(s')
  {
    FinishTokens(s, s', AdmHeld(s.adm), DisHeld(s.dis), ExeHeld(s.exe), WakeHeld(s.wake));
    FinishPlaced(s, s');
    FinishView(s, s');
  }

  lemma WakeKeeps(s: K, s': K)
    requires Inv(s) && WakeStep(s) == Some(s')
    ensures Inv(s')
  {
    WakeTokens(s, s', AdmHeld(s.adm), DisHeld(s.dis), ExeHeld(s.exe), FinHeld(s.fin));
    forall p ensures InOnePlace(s', p) {
      assert InOnePlace(s, p);
      WakePlaces(s, s', p, AdmHand(s.adm, p), DisHand(s.dis, p), ExeHand(s.exe, p), FinHand(s.fin, p));
    }
    WakeWaits(s, s');
  }

  lemma OtherKeeps(s: K, e: Event, s': K)
    requires Inv(s) && Step(s, e) == Some(s') && (e.Arrive? || e.ArrivePost? || e.FsReply? || e.SleepEnd?)
    ensures Inv(s')
  {
    OtherTokens(s, e, s', AdmHeld(s.adm), DisHeld(s.dis), ExeHeld(s.exe), FinHeld(s.fin), WakeHeld(s.wake));
    forall p ensures InOnePlace(s', p) {
      assert InOnePlace(s, p);
      OtherPlaces(s, e, s', p, AdmHand(s.adm, p), DisHand(s.dis, p), ExeHand(s.exe, p), FinHand(s.fin, p),
          WakeHand(s.wake, p));
    }
    OtherView(s, e, s');
  }

  lemma ExecuteTokens(s: K, an: Answer, s': K, a: Held, d: Held, f: Held, w: Held)
    requires ExecuteStep(s, an) == Some(s') && TokensWith(s, a, d, ExeHeld(s.exe), f, w)
    ensures TokensWith(s', a, d, ExeHeld(s'.exe), f, w)
  {
    if s.exe.Running? {
      AnswerTokens(s, s.exe.p, an, s', a, d, f, w);
    } else if Early(s.exe) {
      EarlyTokens(s, s', a, d, f, w);
    } else {
      LateTokens(s, s', a, d, f, w);
    }
  }

  /** What the execute thread never touches. */
  predicate SameElsewhere(s: K, s': K) {
    s'.adm == s.adm && s'.dis == s.dis && s'.fin == s.fin && s'.wake == s.wake && s'.live == s.live
        && s'.nextPid == s.nextPid
  }

  lemma AnswerLeaves(s: K, p: Pid, an: Answer, s': K)
    requires Handle(s, p, an) == Some(s')
    ensures SameElsewhere(s, s')
  {
    match an {
      case Wait(r) => assert SameElsewhere(s, s');
      case Signal(r) => assert SameElsewhere(s, s');
      case Open(f) => assert SameElsewhere(s, s');
      case Close(f) => assert SameElsewhere(s, s');
      case _ => assert SameElsewhere(s, s');
    }
  }

  lemma ExecuteLeaves(s: K, an: Answer, s': K)
    requires ExecuteStep(s, an) == Some(s')
    ensures SameElsewhere(s, s')
  {
    match s.exe {
      case Running(p) => AnswerLeaves(s, p, an, s');
      case Signalled(r) => assert SameElsewhere(s, s');
      case IoWait(p) => assert SameElsewhere(s, s');
      case _ => assert SameElsewhere(s, s');
    }
  }

  lemma ExecuteKeeps(s: K, an: Answer, s': K)
    requires Inv(s) && ExecuteStep(s, an) == Some(s')
    ensures Inv(s')
  {
    ExecuteLeaves(s, an, s');
    ExecuteTokens(s, an, s', AdmHeld(s.adm), DisHeld(s.dis), FinHeld(s.fin), WakeHeld(s.wake));
    forall p ensures InOnePlace(s', p) {
      assert InOnePlace(s, p);
      ExecutePlaces(s, an, s', p, AdmHand(s.adm, p), DisHand(s.dis, p), FinHand(s.fin, p), WakeHand(s.wake, p));
    }
    ExecuteWaits(s, an, s');
  }

  /** Any step of any thread keeps the whole invariant. */
  lemma StepKeeps(s: K, e: Event, s': K)
    requires Inv(s) && Step(s, e) == Some(s')
    ensures Inv(s')
  {
    match e {
      case Admit => AdmitKeeps(s, s');
      case Dispatch(i) => DispatchKeeps(s, i, s');
      case Execute(an) => ExecuteKeeps(s, an, s');
      case Finish => FinishKeeps(s, s');
      case Wake => WakeKeeps(s, s');
      case _ => OtherKeeps(s, e, s');
    }
  }
}
