/** Every step of every thread keeps semaphores and list lengths in agreement. */
module SchedulerTokens {
  import opened Bytes
  import opened Scheduler

  // ----- semaphores and lengths -----

  /** The long-term planner up to a free slot. */
  lemma AdmitWaits(s: K, s': K, d: Held, x: Held, f: Held, w: Held)
    requires TokensWith(s, AdmHeld(s.adm), d, x, f, w) && AdmitStep(s) == Some(s') && (s.adm.A0? || s.adm.A1?)
    ensures TokensWith(s', AdmHeld(s'.adm), d, x, f, w)
  {
  }

  /** And from there. */
  lemma AdmitMoves(s: K, s': K, d: Held, x: Held, f: Held, w: Held)
    requires TokensWith(s, AdmHeld(s.adm), d, x, f, w) && AdmitStep(s) == Some(s') && !s.adm.A0? && !s.adm.A1?
    ensures TokensWith(s', AdmHeld(s'.adm), d, x, f, w)
  {
    match s.adm {
      case A2 => assert TokensWith(s', AdmHeld(s'.adm), d, x, f, w);
      case A3(p) => assert TokensWith(s', AdmHeld(s'.adm), d, x, f, w);
      case A4 => assert TokensWith(s', AdmHeld(s'.adm), d, x, f, w);
    }
  }

  lemma AdmitTokens(s: K, s': K, d: Held, x: Held, f: Held, w: Held)
    requires TokensWith(s, AdmHeld(s.adm), d, x, f, w) && AdmitStep(s) == Some(s')
    ensures TokensWith(s', AdmHeld(s'.adm), d, x, f, w)
  {
    if s.adm.A0? || s.adm.A1? { AdmitWaits(s, s', d, x, f, w); } else { AdmitMoves(s, s', d, x, f, w); }
  }

  lemma DispatchTokens(s: K, i: nat, s': K, a: Held, x: Held, f: Held, w: Held)
    requires TokensWith(s, a, DisHeld(s.dis), x, f, w) && DispatchStep(s, i) == Some(s')
    ensures TokensWith(s', a, DisHeld(s'.dis), x, f, w)
  {
    match s.dis {
      case D0 => assert TokensWith(s', a, DisHeld(s'.dis), x, f, w);
      case D1 => assert TokensWith(s', a, DisHeld(s'.dis), x, f, w);
      case D2 => assert TokensWith(s', a, DisHeld(s'.dis), x, f, w);
      case D3(p) => assert TokensWith(s', a, DisHeld(s'.dis), x, f, w);
      case D4 => assert TokensWith(s', a, DisHeld(s'.dis), x, f, w);
    }
  }

  lemma FinishTokens(s: K, s': K, a: Held, d: Held, x: Held, w: Held)
    requires TokensWith(s, a, d, x, FinHeld(s.fin), w) && FinishStep(s) == Some(s')
    ensures TokensWith(s', a, d, x, FinHeld(s'.fin), w)
  {
    match s.fin {
      case X0 => assert TokensWith(s', a, d, x, FinHeld(s'.fin), w);
      case X1 => assert TokensWith(s', a, d, x, FinHeld(s'.fin), w);
      case X2(p) => assert TokensWith(s', a, d, x, FinHeld(s'.fin), w);
      case X3 => assert TokensWith(s', a, d, x, FinHeld(s'.fin), w);
    }
  }

  lemma WakeTokens(s: K, s': K, a: Held, d: Held, x: Held, f: Held)
    requires TokensWith(s, a, d, x, f, WakeHeld(s.wake)) && WakeStep(s) == Some(s')
    ensures TokensWith(s', a, d, x, f, WakeHeld(s'.wake))
  {
    match s.wake {
      case F0 => assert TokensWith(s', a, d, x, f, WakeHeld(s'.wake));
      case F1(p) => assert TokensWith(s', a, d, x, f, WakeHeld(s'.wake));
      case F2(p) => assert TokensWith(s', a, d, x, f, WakeHeld(s'.wake));
      case F3(p) => assert TokensWith(s', a, d, x, f, WakeHeld(s'.wake));
      case F4 => assert TokensWith(s', a, d, x, f, WakeHeld(s'.wake));
    }
  }

  lemma OtherTokens(s: K, e: Event, s': K, a: Held, d: Held, x: Held, f: Held, w: Held)
    requires TokensWith(s, a, d, x, f, w) && Step(s, e) == Some(s')
             && (e.Arrive? || e.ArrivePost? || e.FsReply? || e.SleepEnd?)
    ensures TokensWith(s', a, d, x, f, w)
  {
  }

  lemma WaitTokens(s: K, p: Pid, r: nat, a: Held, d: Held, f: Held, w: Held)
    requires r < |s.res| && TokensWith(s, a, d, ExeHeld(Running(p)), f, w)
    ensures TokensWith(WaitOn(s, p, r), a, d, ExeHeld(WaitOn(s, p, r).exe), f, w)
  {
  }

  lemma OpenTokens(s: K, p: Pid, n: string, a: Held, d: Held, f: Held, w: Held)
    requires TokensWith(s, a, d, ExeHeld(Running(p)), f, w)
    ensures TokensWith(OpenFile(s, p, n), a, d, ExeHeld(OpenFile(s, p, n).exe), f, w)
  {
  }

  lemma CloseTokens(s: K, p: Pid, n: string, s': K, a: Held, d: Held, f: Held, w: Held)
    requires n in s.files && CloseFile(s, p, n) == Some(s') && TokensWith(s, a, d, ExeHeld(Running(p)), f, w)
    ensures TokensWith(s', a, d, ExeHeld(s'.exe), f, w)
  {
  }

  lemma AnswerTokens(s: K, p: Pid, an: Answer, s': K, a: Held, d: Held, f: Held, w: Held)
    requires Handle(s, p, an) == Some(s') && TokensWith(s, a, d, ExeHeld(Running(p)), f, w)
    ensures TokensWith(s', a, d, ExeHeld(s'.exe), f, w)
  {
    match an {
      case Wait(r) =>
        if r.Some? && r.value < |s.res| { WaitTokens(s, p, r.value, a, d, f, w); }
      case Open(n) => OpenTokens(s, p, n, a, d, f, w);
      case Close(n) => CloseTokens(s, p, n, s', a, d, f, w);
      case _ => assert TokensWith(s', a, d, ExeHeld(s'.exe), f, w);
    }
  }

  lemma SignalHands(s: K, r: nat, s': K, a: Held, d: Held, f: Held, w: Held)
    requires r < |s.res| && s.res[r].queue != [] && SignalWakes(s, r) == Some(s')
             && TokensWith(s, a, d, ExeHeld(Signalled(r)), f, w)
    ensures TokensWith(s', a, d, ExeHeld(s'.exe), f, w)
  {
    assert |s'.blocked| == |s.blocked| - 1;
  }

  lemma SignalTokens(s: K, r: nat, s': K, a: Held, d: Held, f: Held, w: Held)
    requires r < |s.res| && SignalWakes(s, r) == Some(s') && TokensWith(s, a, d, ExeHeld(Signalled(r)), f, w)
    ensures TokensWith(s', a, d, ExeHeld(s'.exe), f, w)
  {
    if s.res[r].queue != [] { SignalHands(s, r, s', a, d, f, w); }
  }

  lemma WokenTokens(s: K, p: Pid, own: Option<Pid>, s': K, a: Held, d: Held, f: Held, w: Held)
    requires s.exe == Woken(p, own) && LateStep(s) == Some(s') && TokensWith(s, a, d, ExeHeld(s.exe), f, w)
    ensures TokensWith(s', a, d, ExeHeld(s'.exe), f, w)
  {
  }

  lemma PostTokens(s: K, next: Next, s': K, a: Held, d: Held, f: Held, w: Held)
    requires s.exe == PostReady(next) && LateStep(s) == Some(s') && TokensWith(s, a, d, ExeHeld(s.exe), f, w)
    ensures TokensWith(s', a, d, ExeHeld(s'.exe), f, w)
  {
  }

  lemma EarlyTokens(s: K, s': K, a: Held, d: Held, f: Held, w: Held)
    requires Early(s.exe) && EarlyStep(s) == Some(s') && TokensWith(s, a, d, ExeHeld(s.exe), f, w)
    ensures TokensWith(s', a, d, ExeHeld(s'.exe), f, w)
  {
    match s.exe {
      case Idle => assert TokensWith(s', a, d, ExeHeld(s'.exe), f, w);
      case Pop => assert TokensWith(s', a, d, ExeHeld(s'.exe), f, w);
      case Sent(p) => assert TokensWith(s', a, d, ExeHeld(s'.exe), f, w);
      case PostEnvio => assert TokensWith(s', a, d, ExeHeld(s'.exe), f, w);
      case IoWait(p) => assert TokensWith(s', a, d, ExeHeld(s'.exe), f, w);
      case IoBack(p) => assert TokensWith(s', a, d, ExeHeld(s'.exe), f, w);
    }
  }

  lemma LateTokens(s: K, s': K, a: Held, d: Held, f: Held, w: Held)
    requires !Early(s.exe) && !s.exe.Running? && LateStep(s) == Some(s') && TokensWith(s, a, d, ExeHeld(s.exe), f, w)
    ensures TokensWith(s', a, d, ExeHeld(s'.exe), f, w)
  {
    match s.exe {
      case Signalled(r) => SignalTokens(s, r, s', a, d, f, w);
      case Woken(p, o) => WokenTokens(s, p, o, s', a, d, f, w);
      case PostReady(n) => PostTokens(s, n, s', a, d, f, w);
      case PushOwn(p) => assert TokensWith(s', a, d, ExeHeld(s'.exe), f, w);
      case PostExec => assert TokensWith(s', a, d, ExeHeld(s'.exe), f, w);
      case PostExit => assert TokensWith(s', a, d, ExeHeld(s'.exe), f, w);
      case Release => assert TokensWith(s', a, d, ExeHeld(s'.exe), f, w);
    }
  }
}
