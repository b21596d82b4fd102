/** What becomes of a process whose instruction made the CPU return, over every run that follows: who ends, who goes on
    running, who sleeps, who waits, and that nothing else makes a process end. */
module SchedulerFates {
  import opened Bytes
  import opened Scheduler
  import opened SchedulerHistory
  import opened SchedulerPlaces
  import opened SchedulerRuns
  import opened SchedulerSafety

  // ----- who ends -----

  /** In exit, in the hand of the thread that destroys processes, or destroyed. */
  predicate Gone(s: K, p: Pid) {
    p in s.exitQ || s.fin == X2(p) || (0 < p < s.nextPid && p !in s.live)
  }

  /** The CPU answers, for process `p`, with something that makes it end. */
  predicate EndsNow(s: K, e: Event, p: Pid) {
    e.Execute? && s.exe == Running(p) && Ends(s, e.a)
  }

  predicate Ended(s: K, es: seq<Event>, p: Pid)
    decreases |es|
  {
    es != [] && match Step(s, es[0]) case None => false case Some(t) => EndsNow(s, es[0], p) || Ended(t, es[1..], p)
  }

  lemma FinishGone(s: K, s': K, p: Pid)
    requires InOnePlace(s, p) && 0 !in s.live && FinishStep(s) == Some(s')
    ensures Gone(s', p) <==> Gone(s, p)
  {
    match s.fin {
      case X0 => assert Gone(s', p) <==> Gone(s, p);
      case X1 => assert s.exitQ == [s.exitQ[0]] + s.exitQ[1..];
      case X2(q) => assert q == p ==> p in s.live;
      case X3 => assert Gone(s', p) <==> Gone(s, p);
    }
  }

  lemma ArriveGone(s: K, s': K, p: Pid)
    requires InOnePlace(s, p) && Step(s, Arrive) == Some(s')
    ensures Gone(s', p) <==> Gone(s, p)
  {
  }

  lemma ExecuteGone(s: K, a: Answer, s': K, p: Pid)
    requires ExecuteStep(s, a) == Some(s')
    ensures Gone(s', p) <==> Gone(s, p) || EndsNow(s, Execute(a), p)
  {
    ExecuteLeaves(s, a, s');
    if s.exe.Running? { AnswerMade(s, s.exe.p, a, s'); } else { ExecuteSame(s, a, s'); }
  }

  lemma GoneStep(s: K, e: Event, s': K, p: Pid)
    requires InOnePlace(s, p) && 0 !in s.live && Step(s, e) == Some(s')
    ensures Gone(s', p) <==> Gone(s, p) || EndsNow(s, e, p)
  {
    match e {
      case Execute(a) => ExecuteGone(s, a, s', p);
      case Finish => FinishGone(s, s', p);
      case Arrive => ArriveGone(s, s', p);
      case Admit => AdmitSame(s, s');
      case Dispatch(i) => DispatchSame(s, i, s');
      case Wake => WakeSame(s, s');
      case _ =>
    }
  }

  lemma {:induction false} RunGone(s: K, es: seq<Event>, s': K, p: Pid)
    requires Inv(s) && InOrder(s) && Run(s, es) == Some(s')
    ensures Gone(s', p) <==> Gone(s, p) || Ended(s, es, p)
    decreases |es|
  {
    if es != [] {
      var t := Step(s, es[0]).value;
      assert InOnePlace(s, p);
      GoneStep(s, es[0], t, p);
      StepKeeps(s, es[0], t);
      StepInOrder(s, es[0], t);
      RunGone(t, es[1..], s', p);
    }
  }

  /** In every reachable state a process is in exit, in the finishing thread's hand or destroyed if and only if EXIT, or
      a WAIT or SIGNAL of a resource that does not exist, has been answered for it. */
  lemma GoneIffEnded(degree: nat, totals: seq<nat>, es: seq<Event>, s: K, p: Pid)
    requires Run(Init(degree, totals), es) == Some(s)
    ensures p in s.exitQ || s.fin == X2(p) || (0 < p < s.nextPid && p !in s.live)
            <==> Ended(Init(degree, totals), es, p)
  {
    InitInv(degree, totals);
    RunGone(Init(degree, totals), es, s, p);
  }

  /** A process is destroyed by the finishing thread alone, and its slot of the multiprogramming degree is free again or
      about to be posted. */
  lemma DestroyedFreesSlot(degree: nat, totals: seq<nat>, es: seq<Event>, s: K, e: Event, s': K, p: Pid)
    requires Run(Init(degree, totals), es) == Some(s) && Step(s, e) == Some(s') && p in s.live && p !in s'.live
    ensures e == Finish && s.fin == X2(p) && s'.fin == X3 && s'.live == s.live - {p}
    ensures Admitted(s') + 1 == Admitted(s)
    ensures s'.grado + One(s'.adm.A2?) + One(s'.fin.X3?) == s.grado + One(s.adm.A2?) + 1
  {
    match e {
      case Execute(a) => ExecuteLeaves(s, a, s'); assert false;
      case Admit => AdmitSame(s, s'); assert false;
      case Dispatch(i) => DispatchSame(s, i, s'); assert false;
      case Wake => WakeSame(s, s'); assert false;
      case Finish => FinishSame(s, s');
      case _ => assert false;
    }
  }

  // ----- who goes on running -----

  /** Answers after which the process keeps the CPU. */
  predicate KeepsCpu(s: K, a: Answer) {
    || a.Continue?
    || (a.Wait? && a.r.Some? && a.r.value < |s.res| && s.res[a.r.value].inst > 0)
    || (a.Signal? && a.r.Some? && a.r.value < |s.res|)
    || (a.Open? && a.f !in s.files)
    || (a.Close? && a.f in s.files)
  }

  /** The CPU belongs to `p`, in execute or in the execute thread's hand, and nothing is being dispatched. */
  predicate Holds(s: K, p: Pid) {
    && (s.dis.D0? || s.dis.D1?)
    && match s.exe
       case Running(q) => q == p
       case PushOwn(q) => q == p
       case Woken(_, Some(q)) => q == p
       case PostReady(ThenPush(q)) => q == p
       case Signalled(_) => s.exec == [p]
       case Woken(_, None) => s.exec == [p]
       case PostReady(ThenExec) => s.exec == [p]
       case PostExec => s.exec == [p]
       case Idle => s.exec == [p]
       case Pop => s.exec == [p]
       case _ => false
  }

  /** Steps of the execute thread from there to the CPU. */
  function Distance(s: K): nat {
    match s.exe
    case Pop => 1
    case Idle => 2
    case PostExec => 3
    case PushOwn(_) => 4
    case PostReady(ThenExec) => 4
    case PostReady(ThenPush(_)) => 5
    case Woken(_, None) => 5
    case Woken(_, Some(_)) => 6
    case Signalled(r) => if r < |s.res| && s.res[r].queue == [] then 4 else 6
    case _ => 0
  }

  /** Turns of the execute thread in a run. */
  function Turns(es: seq<Event>): nat {
    if es == [] then 0 else One(es[0].Execute?) + Turns(es[1..])
  }

  lemma AnswerHolds(s: K, p: Pid, a: Answer, s': K)
    requires Tokens(s) && s.exe == Running(p) && KeepsCpu(s, a) && Handle(s, p, a) == Some(s')
    ensures Holds(s', p) && !s'.exe.Running?
  {
    assert s.exec == [] && (s.dis.D0? || s.dis.D1?);
    AnswerLeaves(s, p, a, s');
    assert [] + [p] == [p];
    match a {
      case Wait(r) => assert Holds(s', p);
      case Signal(r) => assert Holds(s', p);
      case Open(f) => assert Holds(s', p);
      case Close(f) => assert Holds(s', p);
      case Continue => assert Holds(s', p);
    }
  }

  lemma EarlyHolds(s: K, p: Pid, s': K)
    requires Tokens(s) && Holds(s, p) && Early(s.exe) && EarlyStep(s) == Some(s')
    ensures Holds(s', p) && Distance(s') + 1 == Distance(s)
  {
  }

  lemma SignalHolds(s: K, p: Pid, s': K)
    requires Holds(s, p) && s.exe.Signalled? && LateStep(s) == Some(s')
    ensures Holds(s', p) && Distance(s') + 1 == Distance(s)
  {
  }

  lemma LateHolds(s: K, p: Pid, s': K)
    requires Tokens(s) && Holds(s, p) && !Early(s.exe) && !s.exe.Running? && LateStep(s) == Some(s')
    ensures Holds(s', p) && Distance(s') + 1 == Distance(s)
  {
    match s.exe {
      case Signalled(r) => SignalHolds(s, p, s');
      case PushOwn(q) => assert s.exec == []; assert Holds(s', p);
      case PostReady(n) => assert Holds(s', p);
      case Woken(w, own) => assert Holds(s', p);
      case PostExec => assert Holds(s', p);
    }
  }

  lemma OtherHolds(s: K, e: Event, p: Pid, s': K)
    requires Tokens(s) && Holds(s, p) && !e.Execute? && Step(s, e) == Some(s')
    ensures Holds(s', p) && Distance(s') == Distance(s)
  {
    match e {
      case Dispatch(i) => NoDispatch(s, p, i, s');
      case Admit => AdmitSame(s, s');
      case Wake => WakeSame(s, s');
      case Finish => FinishSame(s, s');
      case _ =>
    }
  }

  lemma NoDispatch(s: K, p: Pid, i: nat, s': K)
    requires Tokens(s) && Holds(s, p) && DispatchStep(s, i) == Some(s')
    ensures Holds(s', p) && Distance(s') == Distance(s)
  {
    assert s.execLibre == 0;
  }

  lemma StepHolds(s: K, e: Event, p: Pid, s': K)
    requires Tokens(s) && Holds(s, p) && Step(s, e) == Some(s') && !Answers(s, e)
    ensures Holds(s', p) && Distance(s') + One(e.Execute?) == Distance(s)
  {
    if !e.Execute? {
      OtherHolds(s, e, p, s');
    } else if Early(s.exe) {
      EarlyHolds(s, p, s');
    } else {
      LateHolds(s, p, s');
    }
  }

  lemma {:induction false} RunHolds(s: K, es: seq<Event>, p: Pid, s': K)
    requires Inv(s) && Holds(s, p) && Run(s, es) == Some(s') && Turns(es) <= Distance(s)
    ensures Inv(s') && Holds(s', p) && Distance(s') + Turns(es) == Distance(s)
    decreases |es|
  {
    if es != [] {
      var t := Step(s, es[0]).value;
      StepKeeps(s, es[0], t);
      StepHolds(s, es[0], p, t);
      RunHolds(t, es[1..], p, s');
    }
  }

  /** On its way the execute thread never waits. */
  lemma NeverWaits(s: K, p: Pid, a: Answer)
    requires Tokens(s) && WaitsOk(View(s)) && Holds(s, p) && !s.exe.Running?
    ensures ExecuteStep(s, a).Some?
  {
    assert !s.exe.IoWait? && (s.exe.Idle? ==> s.execSem > 0);
    if ExecuteStep(s, a).None? { ExecuteAwaits(s, a); }
  }

  /** After an answer that lets the process go on, whatever the other threads do, nothing is dispatched, the execute
      thread can always step, and a fixed number of its steps later the same process is at the CPU again. */
  lemma RunsOn(degree: nat, totals: seq<nat>, es: seq<Event>, s: K, p: Pid, a: Answer, t: K, fs: seq<Event>, u: K)
    requires Run(Init(degree, totals), es) == Some(s) && s.exe == Running(p) && KeepsCpu(s, a)
    requires Step(s, Execute(a)) == Some(t) && Run(t, fs) == Some(u) && Turns(fs) <= Distance(t)
    ensures u.exe == Running(p) <==> Turns(fs) == Distance(t)
    ensures u.exe != Running(p) ==> !u.exe.Running? && forall b :: Step(u, Execute(b)).Some?
    ensures u.dis.D0? || u.dis.D1?
  {
    InitInv(degree, totals);
    RunKeeps(Init(degree, totals), es, s);
    AnswerHolds(s, p, a, t);
    StepKeeps(s, Execute(a), t);
    RunHolds(t, fs, p, u);
    if !u.exe.Running? {
      forall b ensures Step(u, Execute(b)).Some? { NeverWaits(u, p, b); }
    }
  }

  // ----- who sleeps, who goes back to ready -----

  /** Asleep; awake in hand; in ready, with its semaphore and then the CPU still to be posted. */
  predicate Resting(s: K, p: Pid, k: nat, slept: bool) {
    match k
    case 0 => s.exe == IoWait(p) && (s.sleeping == 0 <==> slept)
    case 1 => s.exe == IoBack(p) && slept
    case 2 => s.exe == PostReady(ThenRelease) && p in s.ready && slept
    case 3 => s.exe == Release && p in s.ready && slept
    case _ => false
  }

  lemma IoRests(s: K, p: Pid, s': K)
    requires Tokens(s) && s.exe == Running(p) && Handle(s, p, Io) == Some(s')
    ensures Resting(s', p, 0, false)
  {
  }

  lemma YieldRests(s: K, p: Pid, s': K)
    requires Handle(s, p, Yield) == Some(s')
    ensures Resting(s', p, 2, true)
  {
  }

  lemma AwakeStep(s: K, p: Pid, k: nat, slept: bool, a: Answer, s': K)
    requires Tokens(s) && Resting(s, p, k, slept) && k < 3 && ExecuteStep(s, a) == Some(s')
    ensures Resting(s', p, k + 1, slept)
  {
    assert s.io + s.sleeping == ExeHeld(s.exe).io;
  }

  lemma StillResting(s: K, p: Pid, k: nat, slept: bool, e: Event, s': K)
    requires Tokens(s) && Resting(s, p, k, slept) && !e.Execute? && Step(s, e) == Some(s')
    ensures Resting(s', p, k, slept || e.SleepEnd?)
  {
    match e {
      case Dispatch(i) => DispatchResting(s, p, k, slept, i, s');
      case Admit => AdmitResting(s, p, k, slept, s');
      case Wake => WakeResting(s, p, k, slept, s');
      case Finish => FinishResting(s, p, k, slept, s');
      case SleepEnd => SleepResting(s, p, k, slept, s');
      case _ =>
    }
  }

  lemma SleepResting(s: K, p: Pid, k: nat, slept: bool, s': K)
    requires Tokens(s) && Resting(s, p, k, slept) && Step(s, SleepEnd) == Some(s')
    ensures Resting(s', p, k, true)
  {
    assert s.io + s.sleeping == ExeHeld(s.exe).io;
  }

  lemma DispatchResting(s: K, p: Pid, k: nat, slept: bool, i: nat, s': K)
    requires Tokens(s) && Resting(s, p, k, slept) && DispatchStep(s, i) == Some(s')
    ensures Resting(s', p, k, slept)
  {
    assert s.execLibre == 0 && DisHeld(s.dis).cpu == 0;
  }

  lemma AdmitResting(s: K, p: Pid, k: nat, slept: bool, s': K)
    requires Resting(s, p, k, slept) && AdmitStep(s) == Some(s')
    ensures Resting(s', p, k, slept)
  {
  }

  lemma WakeResting(s: K, p: Pid, k: nat, slept: bool, s': K)
    requires Resting(s, p, k, slept) && WakeStep(s) == Some(s')
    ensures Resting(s', p, k, slept)
  {
  }

  lemma FinishResting(s: K, p: Pid, k: nat, slept: bool, s': K)
    requires Resting(s, p, k, slept) && FinishStep(s) == Some(s')
    ensures Resting(s', p, k, slept)
  {
  }

  function SleepsOver(es: seq<Event>): nat {
    if es == [] then 0 else One(es[0].SleepEnd?) + SleepsOver(es[1..])
  }

  lemma {:induction false} RunRests(s: K, es: seq<Event>, p: Pid, k: nat, slept: bool, s': K)
    requires Inv(s) && Resting(s, p, k, slept) && Run(s, es) == Some(s') && k + Turns(es) <= 3
    ensures Inv(s') && Resting(s', p, k + Turns(es), slept || SleepsOver(es) > 0)
    decreases |es|
  {
    if es != [] {
      var e, t := es[0], Step(s, es[0]).value;
      StepKeeps(s, e, t);
      if e.Execute? {
        AwakeStep(s, p, k, slept, e.a, t);
        RunRests(t, es[1..], p, k + 1, slept, s');
      } else {
        StillResting(s, p, k, slept, e, t);
        RunRests(t, es[1..], p, k, slept || e.SleepEnd?, s');
      }
    }
  }

  lemma RestingMeans(u: K, p: Pid, k: nat, slept: bool)
    requires Inv(u) && Resting(u, p, k, slept)
    ensures k == 0 ==>
      p in u.blocked && BlockedFor(u.why, p, OnIo) && forall b :: Step(u, Execute(b)).Some? <==> slept
    ensures k > 0 ==> slept && p !in u.blocked
    ensures k > 1 ==> p in u.ready && u.execLibre == 0
  {
    assert InOnePlace(u, p);
    Member(u.blocked, p);
    Member(u.ready, p);
    if k == 0 {
      assert BlockedFor(u.why, p, OnIo) <==> Sleeper(u.exe) == Some(p);
      assert u.io + u.sleeping == 1;
    }
  }

  /** I/O: the process is blocked, and the execute thread waits with it, until its sleep is over; two steps of that
      thread later it is in ready, and the CPU is not given away before. */
  lemma Sleeps(degree: nat, totals: seq<nat>, es: seq<Event>, s: K, p: Pid, t: K, fs: seq<Event>, u: K)
    requires Run(Init(degree, totals), es) == Some(s) && s.exe == Running(p)
    requires Step(s, Execute(Io)) == Some(t) && Run(t, fs) == Some(u) && Turns(fs) <= 3
    ensures Turns(fs) == 0 ==>
      p in u.blocked && BlockedFor(u.why, p, OnIo) && forall b :: Step(u, Execute(b)).Some? <==> SleepsOver(fs) > 0
    ensures Turns(fs) > 0 ==> SleepsOver(fs) > 0 && p !in u.blocked
    ensures Turns(fs) > 1 ==> p in u.ready && u.execLibre == 0
  {
    InitInv(degree, totals);
    RunKeeps(Init(degree, totals), es, s);
    StepKeeps(s, Execute(Io), t);
    IoRests(s, p, t);
    RunRests(t, fs, p, 0, false, u);
    RestingMeans(u, p, Turns(fs), SleepsOver(fs) > 0);
  }

  /** YIELD: the process is in ready, and stays there at least until the execute thread has given the CPU away. */
  lemma Yields(degree: nat, totals: seq<nat>, es: seq<Event>, s: K, p: Pid, t: K, fs: seq<Event>, u: K)
    requires Run(Init(degree, totals), es) == Some(s) && s.exe == Running(p)
    requires Step(s, Execute(Yield)) == Some(t) && Run(t, fs) == Some(u) && Turns(fs) <= 1
    ensures p in u.ready && u.execLibre == 0
  {
    InitInv(degree, totals);
    RunKeeps(Init(degree, totals), es, s);
    StepKeeps(s, Execute(Yield), t);
    YieldRests(s, p, t);
    RunRests(t, fs, p, 2, true, u);
    RestingMeans(u, p, 2 + Turns(fs), true);
  }

  // ----- who waits -----

  /** OPEN: whoever asks first has the file, in its own table too, and goes on running; anybody else is blocked on it,
      the last to wait for it. */
  lemma Opens(degree: nat, totals: seq<nat>, es: seq<Event>, s: K, p: Pid, f: string, t: K)
    requires Run(Init(degree, totals), es) == Some(s) && s.exe == Running(p) && Step(s, Execute(Open(f))) == Some(t)
    ensures f in t.files
    ensures f !in s.files ==> t.files[f].owner == p && t.files[f].queue == [] && f in TableOf(t.tables, p)
                              && Holds(t, p)
    ensures f in s.files ==> t.files[f].owner == s.files[f].owner && t.files[f].queue == s.files[f].queue + [p]
                             && p in t.blocked && BlockedFor(t.why, p, OnFile(f))
  {
    InitInv(degree, totals);
    RunKeeps(Init(degree, totals), es, s);
    StepKeeps(s, Execute(Open(f)), t);
    assert FileWith(t.files[f], f, t.why);
    if f in s.files {
      assert p in t.files[f].queue;
    } else {
      AnswerHolds(s, p, Open(f), t);
    }
  }

  /** WAIT without an instance left: the process is blocked on the resource, the last to wait for it. */
  lemma WaitsFor(degree: nat, totals: seq<nat>, es: seq<Event>, s: K, p: Pid, r: nat, t: K)
    requires Run(Init(degree, totals), es) == Some(s) && s.exe == Running(p) && r < |s.res| && s.res[r].inst == 0
    requires Step(s, Execute(Answer.Wait(Some(r)))) == Some(t)
    ensures r < |t.res| && t.res[r].queue == s.res[r].queue + [p]
    ensures p in t.blocked && BlockedFor(t.why, p, OnResource(r))
  {
    InitInv(degree, totals);
    RunKeeps(Init(degree, totals), es, s);
    StepKeeps(s, Execute(Answer.Wait(Some(r))), t);
    assert ResourceWith(t.res[r], r, t.why, false);
    assert p in t.res[r].queue;
  }
}
