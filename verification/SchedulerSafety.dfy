/** The planner over whole runs: nothing lost, nothing duplicated, bounds kept, no pop from an empty list, and a
    complete account of the states in which the kernel comes to rest. */
module SchedulerSafety {
  import opened Bytes
  import opened Scheduler
  import opened SchedulerPlaces
  import opened SchedulerRuns

  function Run(s: K, es: seq<Event>): Option<K>
    decreases |es|
  {
    if es == [] then Some(s)
    else match Step(s, es[0]) case None => None case Some(t) => Run(t, es[1..])
  }

  /** A run and then another. */
  lemma {:induction false} RunTwo(s: K, es: seq<Event>, t: K, fs: seq<Event>)
    requires Run(s, es) == Some(t)
    ensures Run(s, es + fs) == Run(t, fs)
    decreases |es|
  {
    if es == [] {
      assert es + fs == fs;
    } else {
      assert (es + fs)[1..] == es[1..] + fs;
      RunTwo(Step(s, es[0]).value, es[1..], t, fs);
    }
  }

  lemma RunThree(s: K, e: Event, t: K, f: Event, u: K, g: Event, v: K)
    requires Step(s, e) == Some(t) && Step(t, f) == Some(u) && Step(u, g) == Some(v)
    ensures Run(s, [e, f, g]) == Some(v)
  {
    assert [e, f, g][1..] == [f, g] && [f, g][1..] == [g] && [g][1..] == [];
    assert Run(u, [g]) == Some(v);
    assert Run(t, [f, g]) == Some(v);
  }

  lemma InitInv(degree: nat, totals: seq<nat>)
    ensures Inv(Init(degree, totals)) && FileOwners(Init(degree, totals))
  {
    var s := Init(degree, totals);
    assert Tokens(s);
    forall p ensures InOnePlace(s, p) {}
    assert Outstanding(s.wake, s.fsDone, s.fsQueue) == [];
    forall r: nat | r < |s.res| ensures ResourceWith(s.res[r], r, s.why, false) {}
  }

  /** `degree` and the configured instances are constants of a run. */
  ghost predicate SameConfig(s: K, s': K) {
    && s'.degree == s.degree && |s'.res| == |s.res|
    && forall r :: 0 <= r < |s.res| ==> s'.res[r].total == s.res[r].total
  }

  lemma AnswerConfig(s: K, p: Pid, an: Answer, s': K)
    requires Handle(s, p, an) == Some(s')
    ensures SameConfig(s, s')
  {
    match an {
      case Wait(r) => assert SameConfig(s, s');
      case Signal(r) => assert SameConfig(s, s');
      case Open(f) => assert SameConfig(s, s');
      case Close(f) => assert SameConfig(s, s');
      case _ => assert SameConfig(s, s');
    }
  }

  lemma ExecuteConfig(s: K, an: Answer, s': K)
    requires ExecuteStep(s, an) == Some(s')
    ensures SameConfig(s, s')
  {
    match s.exe {
      case Running(p) => AnswerConfig(s, p, an, s');
      case Signalled(r) => assert SameConfig(s, s');
      case IoWait(p) => assert SameConfig(s, s');
      case _ => assert SameConfig(s, s');
    }
  }

  lemma StepConfig(s: K, e: Event, s': K)
    requires Step(s, e) == Some(s')
    ensures SameConfig(s, s')
  {
    match e {
      case Execute(an) => ExecuteConfig(s, an, s');
      case Admit => AdmitLeaves(s, s');
      case Dispatch(i) => DispatchLeaves(s, i, s');
      case Finish => FinishLeaves(s, s');
      case Wake => WakeLeaves(s, s');
      case _ =>
    }
  }

  /** What the planners and the waking thread never touch. */
  predicate SameResources(s: K, s': K) {
    s'.files == s.files && s'.tables == s.tables && s'.res == s.res && s'.degree == s.degree
  }

  lemma AdmitLeaves(s: K, s': K)
    requires AdmitStep(s) == Some(s')
    ensures SameResources(s, s')
  {
  }

  lemma DispatchLeaves(s: K, i: nat, s': K)
    requires DispatchStep(s, i) == Some(s')
    ensures SameResources(s, s')
  {
  }

  lemma FinishLeaves(s: K, s': K)
    requires FinishStep(s) == Some(s')
    ensures SameResources(s, s')
  {
  }

  lemma WakeLeaves(s: K, s': K)
    requires WakeStep(s) == Some(s')
    ensures SameResources(s, s')
  {
  }

  /** The invariant holds along every run, under every interleaving and every sequence of CPU answers. */
  lemma {:induction false} RunKeeps(s: K, es: seq<Event>, s': K)
    requires Inv(s) && Run(s, es) == Some(s')
    ensures Inv(s') && SameConfig(s, s')
    decreases |es|
  {
    if es != [] {
      var t := Step(s, es[0]).value;
      StepKeeps(s, es[0], t);
      StepConfig(s, es[0], t);
      RunKeeps(t, es[1..], s');
    }
  }

  // ----- what the invariant means -----

  /** PCBs admitted and not yet destroyed. */
  function Admitted(s: K): nat {
    |s.ready| + |s.exec| + |s.blocked| + |s.exitQ|
    + One(s.adm.A3?) + One(s.dis.D3?) + InHand(s.exe) + One(s.fin.X2?) + One(s.wake.F3?)
  }

  function InHand(x: Execution): nat {
    match x
    case Running(_) => 1
    case Sent(_) => 1
    case IoBack(_) => 1
    case Woken(_, own) => if own.Some? then 2 else 1
    case PostReady(ThenPush(_)) => 1
    case PushOwn(_) => 1
    case _ => 0
  }

  /** PCBs at the CPU: in execute, on the way there, or in the execute thread's hand after it popped them. */
  function AtCpu(s: K): nat {
    |s.exec| + One(s.dis.D3?) + One(s.exe.Running?) + One(s.exe.Sent?) + One(s.exe.IoBack?) + One(s.exe.PushOwn?)
    + One(s.exe.Woken? && s.exe.own.Some?) + One(s.exe.PostReady? && s.exe.next.ThenPush?)
  }

  /** In every reachable state the multiprogramming degree bounds the admitted PCBs, with equality but for
      free slots and a slot between semaphore and list, and at most one PCB is at the CPU. */
  lemma Bounds(degree: nat, totals: seq<nat>, es: seq<Event>, s: K)
    requires Run(Init(degree, totals), es) == Some(s)
    ensures Admitted(s) + s.grado + One(s.adm.A2?) + One(s.fin.X3?) == degree
    ensures AtCpu(s) <= 1
  {
    InitInv(degree, totals);
    RunKeeps(Init(degree, totals), es, s);
    HeldBounds(s);
  }

  lemma HeldBounds(s: K)
    requires Tokens(s)
    ensures Admitted(s) + s.grado + One(s.adm.A2?) + One(s.fin.X3?) == s.degree
    ensures AtCpu(s) <= 1
  {
    assert AdmHeld(s.adm).slots == One(s.adm.A2?) + One(s.adm.A3?);
    assert DisHeld(s.dis).slots == One(s.dis.D3?) && DisHeld(s.dis).cpu >= One(s.dis.D3?);
    assert FinHeld(s.fin).slots == One(s.fin.X2?) + One(s.fin.X3?);
    assert WakeHeld(s.wake).slots == One(s.wake.F3?);
    ExeBounds(s.exe);
  }

  lemma ExeBounds(x: Execution)
    ensures ExeHeld(x).slots == InHand(x)
    ensures ExeHeld(x).cpu >= One(x.Running?) + One(x.Sent?) + One(x.IoBack?) + One(x.PushOwn?)
                              + One(x.Woken? && x.own.Some?) + One(x.PostReady? && x.next.ThenPush?)
  {
  }

  /** In every reachable state each live PCB is in exactly one list or hand, and nothing else is anywhere. */
  lemma ExactlyOnePlace(degree: nat, totals: seq<nat>, es: seq<Event>, s: K, p: Pid)
    requires Run(Init(degree, totals), es) == Some(s)
    ensures Times(s.newQ, p) + Times(s.ready, p) + Times(s.exec, p) + Times(s.blocked, p) + Times(s.exitQ, p)
            + AdmHand(s.adm, p) + DisHand(s.dis, p) + ExeHand(s.exe, p) + FinHand(s.fin, p) + WakeHand(s.wake, p)
            == if p in s.live then 1 else 0
  {
    InitInv(degree, totals);
    RunKeeps(Init(degree, totals), es, s);
    assert InOnePlace(s, p);
  }

  /** In every reachable state grants not yet signalled never exceed the configured instances, the waiters of a
      resource are exactly the PCBs blocked on it, and they are woken in arrival order. */
  lemma ResourcesSafe(degree: nat, totals: seq<nat>, es: seq<Event>, s: K, r: nat)
    requires Run(Init(degree, totals), es) == Some(s) && r < |totals|
    ensures |s.res| == |totals|
    ensures s.res[r].grants - s.res[r].signals <= totals[r]
    ensures s.res[r].grants - s.res[r].signals == totals[r] - s.res[r].inst
    ensures s.res[r].queue != [] && s.exe != Signalled(r) ==> s.res[r].inst == 0
    ensures forall p: Pid :: p in s.res[r].queue <==> p in s.blocked && BlockedFor(s.why, p, OnResource(r))
    ensures s.res[r].arrived == s.res[r].woken + s.res[r].queue
  {
    InitInv(degree, totals);
    RunKeeps(Init(degree, totals), es, s);
    assert ResourceWith(s.res[r], r, s.why, Signaller(s.exe) == Some(r));
    assert ResourceWith(s.res[r], r, s.why, s.exe == Signalled(r));
  }

  /** In every reachable state the waiters of an open file are exactly the PCBs blocked on it, and they have been
      handed the file in arrival order. */
  lemma FilesSafe(degree: nat, totals: seq<nat>, es: seq<Event>, s: K, f: string)
    requires Run(Init(degree, totals), es) == Some(s) && f in s.files
    ensures forall p: Pid :: p in s.files[f].queue <==> p in s.blocked && BlockedFor(s.why, p, OnFile(f))
    ensures s.files[f].arrived == s.files[f].handed + s.files[f].queue
  {
    InitInv(degree, totals);
    RunKeeps(Init(degree, totals), es, s);
    assert FileWith(s.files[f], f, s.why);
  }

  // ----- file ownership -----

  /** What CLOSE must respect for a file to have one owner: the closer is the owner. The only other harmless close
      is the one whose first waiter is the owner itself. */
  predicate ClosesOwn(s: K, e: Event) {
    s.exe.Running? && e.Execute? && e.a.Close? && e.a.f in s.files ==>
      var x := s.files[e.a.f];
      x.owner == s.exe.p || (x.queue != [] && x.queue[0] == x.owner)
  }

  lemma CloseOwnersIff(s: K, p: Pid, f: string, s': K)
    requires f in s.files && CloseFile(s, p, f) == Some(s') && FileOwners(s)
    ensures FileOwners(s')
            <==> s.files[f].owner == p || (s.files[f].queue != [] && s.files[f].queue[0] == s.files[f].owner)
  {
    var x := s.files[f];
    assert f in TableOf(s.tables, x.owner);
    if x.queue == [] {
      forall q: Pid, g
            ensures x.owner == p ==> (g in TableOf(s'.tables, q) <==> g in s'.files && s'.files[g].owner == q) {
        assert g in TableOf(s.tables, q) <==> g in s.files && s.files[g].owner == q;
      }
      assert x.owner != p ==> f in TableOf(s'.tables, x.owner);
    } else {
      CloseHandedIff(s, p, f, s');
    }
  }

  lemma CloseHandedIff(s: K, p: Pid, f: string, s': K)
    requires f in s.files && s.files[f].queue != [] && CloseFile(s, p, f) == Some(s') && FileOwners(s)
    ensures FileOwners(s') <==> s.files[f].owner == p || s.files[f].queue[0] == s.files[f].owner
  {
    var x := s.files[f];
    var w := x.queue[0];
    assert f in TableOf(s.tables, x.owner);
    assert s'.files[f].owner == w;
    if x.owner == p || w == x.owner {
      forall q: Pid, g ensures g in TableOf(s'.tables, q) <==> g in s'.files && s'.files[g].owner == q {
        assert g in TableOf(s.tables, q) <==> g in s.files && s.files[g].owner == q;
      }
    } else {
      assert f in TableOf(s'.tables, x.owner);
    }
  }

  lemma OpenOwners(s: K, p: Pid, f: string)
    requires FileOwners(s)
    ensures FileOwners(OpenFile(s, p, f))
  {
    var s' := OpenFile(s, p, f);
    forall q: Pid, g ensures g in TableOf(s'.tables, q) <==> g in s'.files && s'.files[g].owner == q {
      assert g in TableOf(s.tables, q) <==> g in s.files && s.files[g].owner == q;
    }
  }

  lemma AnswerOwners(s: K, p: Pid, an: Answer, s': K)
    requires Handle(s, p, an) == Some(s') && !an.Open? && !an.Close?
    ensures s'.files == s.files && s'.tables == s.tables
  {
  }

  lemma EarlyOwners(s: K, s': K)
    requires EarlyStep(s) == Some(s')
    ensures s'.files == s.files && s'.tables == s.tables
  {
  }

  lemma LateOwners(s: K, s': K)
    requires LateStep(s) == Some(s')
    ensures s'.files == s.files && s'.tables == s.tables
  {
    if s.exe.Signalled? { SignalOwners(s, s.exe.r, s'); }
  }

  lemma SignalOwners(s: K, r: nat, s': K)
    requires r < |s.res| && SignalWakes(s, r) == Some(s')
    ensures s'.files == s.files && s'.tables == s.tables
  {
  }

  /** A step keeps "each open file is in exactly its owner's table" if and only if it does not close another
      process's file. */
  lemma OwnersKeptIff(s: K, e: Event, s': K)
    requires Step(s, e) == Some(s') && FileOwners(s)
    ensures FileOwners(s') <==> ClosesOwn(s, e)
  {
    if e.Execute? && s.exe.Running? {
      var p := s.exe.p;
      match e.a {
        case Open(f) => OpenOwners(s, p, f);
        case Close(f) => CloseOwnersIff(s, p, f, s');
        case _ => AnswerOwners(s, p, e.a, s');
      }
    } else {
      FilesStay(s, e, s');
    }
  }

  /** Only the CPU's answers touch the file tables. */
  lemma FilesStay(s: K, e: Event, s': K)
    requires Step(s, e) == Some(s') && !(e.Execute? && s.exe.Running?)
    ensures s'.files == s.files && s'.tables == s.tables
  {
    match e {
      case Execute(an) => if Early(s.exe) { EarlyOwners(s, s'); } else { LateOwners(s, s'); }
      case Wake => WakeLeaves(s, s');
      case Admit => AdmitLeaves(s, s');
      case Dispatch(i) => DispatchLeaves(s, i, s');
      case Finish => FinishLeaves(s, s');
      case _ =>
    }
  }

  /** CLOSE by the owner: the entry stays exactly when somebody waits, and then the first waiter, no longer blocked, is
      the one process that has the file in its table. */
  lemma CloseHandsOn(s: K, p: Pid, f: string, s': K)
    requires Inv(s) && FileOwners(s) && s.exe == Running(p)
    requires f in s.files && s.files[f].owner == p && CloseFile(s, p, f) == Some(s')
    ensures f in s'.files <==> s.files[f].queue != []
    ensures f in s'.files ==> s'.files[f].owner == s.files[f].queue[0] && s'.files[f].owner !in s'.blocked
    ensures forall q: Pid :: f in TableOf(s'.tables, q) <==> f in s'.files && s'.files[f].owner == q
  {
    CloseOwnersIff(s, p, f, s');
    if s.files[f].queue != [] {
      var w := s.files[f].queue[0];
      assert InOnePlace(s, w);
      Removed(s.blocked, w, w);
      Member(s'.blocked, w);
    }
  }

  ghost predicate OnlyOwnersClose(s: K, es: seq<Event>)
    decreases |es|
  {
    es == [] || (ClosesOwn(s, es[0]) && (Step(s, es[0]).Some? ==> OnlyOwnersClose(Step(s, es[0]).value, es[1..])))
  }

  lemma {:induction false} RunOwners(s: K, es: seq<Event>, s': K)
    requires FileOwners(s) && Run(s, es) == Some(s') && OnlyOwnersClose(s, es)
    ensures FileOwners(s')
    decreases |es|
  {
    if es != [] {
      var t := Step(s, es[0]).value;
      OwnersKeptIff(s, es[0], t);
      RunOwners(t, es[1..], s');
    }
  }

  /** While processes close only files they own, every open file has exactly one owner. */
  lemma OneOwner(degree: nat, totals: seq<nat>, es: seq<Event>, s: K, f: string, p: Pid)
    requires Run(Init(degree, totals), es) == Some(s) && OnlyOwnersClose(Init(degree, totals), es)
    ensures f in TableOf(s.tables, p) <==> f in s.files && s.files[f].owner == p
  {
    InitInv(degree, totals);
    RunOwners(Init(degree, totals), es, s);
  }

  // ----- who waits for what -----

  /** A thread that cannot step waits on a semaphore at zero, for a message, or for a file nobody has open. */
  predicate AwaitsSomething(s: K, e: Event) {
    match e
    case Arrive => false
    case ArrivePost => s.arriving == 0
    case Admit => (s.adm.A0? && s.nuevos == 0) || (s.adm.A1? && s.grado == 0)
    case Dispatch(i) => (s.dis.D0? && s.readySem == 0) || (s.dis.D1? && s.execLibre == 0)
        || (s.dis.D2? && |s.ready| <= i)
    case Execute(a) =>
      (s.exe.Idle? && s.execSem == 0) || (s.exe.IoWait? && s.io == 0) || (s.exe.Running? && a.Close? && a.f !in s.files)
    case Finish => s.fin.X0? && s.exitSem == 0
    case Wake => (s.wake.F0? && s.fsDone == []) || (s.wake.F1? && s.envio == 0)
    case FsReply => s.fsQueue == []
    case SleepEnd => s.sleeping == 0
  }

  /** In every reachable state no thread pops an empty list or looks for a PCB that is not blocked. */
  lemma NoEmptyPop(degree: nat, totals: seq<nat>, es: seq<Event>, s: K, e: Event)
    requires Run(Init(degree, totals), es) == Some(s)
    ensures Step(s, e) == None ==> AwaitsSomething(s, e)
    ensures s.dis.D2? ==> s.ready != []
  {
    InitInv(degree, totals);
    RunKeeps(Init(degree, totals), es, s);
    match e {
      case Execute(a) => ExecuteAwaits(s, a);
      case Wake => WakeAwaits(s);
      case _ => OthersAwait(s, e);
    }
    assert s.dis.D2? ==> |s.ready| > 0;
  }

  lemma OthersAwait(s: K, e: Event)
    requires Tokens(s) && !e.Execute? && !e.Wake?
    ensures Step(s, e) == None ==> AwaitsSomething(s, e)
  {
  }

  lemma WakeAwaits(s: K)
    requires WaitsOk(View(s))
    ensures WakeStep(s) == None ==> AwaitsSomething(s, Wake)
  {
    if s.wake.F2? {
      var v := View(s);
      assert v.requests[0] == s.wake.pid;
      assert v.requests[0] in v.requests;
      if v.sender.Some? {
        assert v.requests[0] != v.requests[|v.requests| - 1];
      }
      assert BlockedFor(s.why, s.wake.pid, OnFs);
    }
  }

  lemma ExecuteAwaits(s: K, a: Answer)
    requires Tokens(s) && WaitsOk(View(s))
    ensures ExecuteStep(s, a) == None ==> AwaitsSomething(s, Execute(a))
  {
    match s.exe {
      case Running(p) =>
        if a.Close? && a.f in s.files { CloseProceeds(s, p, a.f); }
      case IoWait(p) => assert BlockedFor(s.why, p, OnIo);
      case Signalled(r) => SignalProceeds(s, r);
      case Pop => assert |s.exec| > 0;
      case _ =>
    }
  }

  lemma CloseProceeds(s: K, p: Pid, f: string)
    requires f in s.files && WaitsOk(View(s))
    ensures CloseFile(s, p, f).Some?
  {
    var x := s.files[f];
    assert FileWith(x, f, s.why);
    if x.queue != [] {
      assert x.queue[0] in x.queue;
      assert BlockedFor(s.why, x.queue[0], OnFile(f));
    }
  }

  lemma SignalProceeds(s: K, r: nat)
    requires s.exe == Signalled(r) && WaitsOk(View(s))
    ensures r < |s.res| && SignalWakes(s, r).Some?
  {
    var x := s.res[r];
    assert ResourceWith(x, r, s.why, true);
    if x.queue != [] {
      assert x.queue[0] in x.queue;
      assert BlockedFor(s.why, x.queue[0], OnResource(r));
    }
  }

  /** No thread can step until a new process arrives. */
  ghost predicate AtRest(s: K) {
    forall e: Event :: !e.Arrive? ==> Step(s, e) == None
  }

  /** The kernel comes to rest only when every live process is blocked on an exhausted resource or an open file,
      or is still in new because such processes use up the whole multiprogramming degree. */
  lemma RestMeans(degree: nat, totals: seq<nat>, es: seq<Event>, s: K)
    requires Run(Init(degree, totals), es) == Some(s) && AtRest(s)
    ensures s.ready == [] && s.exec == [] && s.exitQ == []
    ensures forall p :: p in s.live <==> p in s.newQ || p in s.blocked
    ensures s.newQ != [] ==> |s.blocked| == degree
    ensures |s.res| == |totals| && forall p :: p in s.blocked ==> p in s.why
    ensures forall p :: p in s.blocked ==>
      (s.why[p].OnResource? && s.why[p].r < |totals| && s.res[s.why[p].r].inst == 0)
          || (s.why[p].OnFile? && s.why[p].name in s.files)
  {
    InitInv(degree, totals);
    RunKeeps(Init(degree, totals), es, s);
    RestThreads(s);
    RestLists(s);
    forall p: Pid ensures p in s.live <==> p in s.newQ || p in s.blocked {
      assert InOnePlace(s, p);
      Member(s.newQ, p);
      Member(s.blocked, p);
    }
    forall p | p in s.blocked
      ensures (s.why[p].OnResource? && s.why[p].r < |totals| && s.res[s.why[p].r].inst == 0)
              || (s.why[p].OnFile? && s.why[p].name in s.files)
    {
      RestReason(s, p);
    }
  }

  lemma RestThreads(s: K)
    requires Inv(s) && AtRest(s)
    ensures (s.adm.A0? && s.nuevos == 0) || (s.adm.A1? && s.grado == 0)
    ensures s.dis == D0 && s.readySem == 0 && s.exe == Idle && s.execSem == 0 && s.fin == X0 && s.exitSem == 0
    ensures s.wake == F0 && s.fsDone == [] && s.fsQueue == [] && s.arriving == 0
  {
    RestOf(s, ArrivePost);
    RestOf(s, Admit);
    RestOf(s, Finish);
    RestOf(s, FsReply);
    RestOf(s, SleepEnd);
    RestOf(s, Execute(Yield));
    RestOf(s, Wake);
    RestOf(s, Dispatch(0));
    assert s.io + s.sleeping == ExeHeld(s.exe).io;
    assert s.exe == Idle;
    assert |View(s).requests| == Posts(s.envio, s.wake, s.exe);
    assert s.execLibre + DisHeld(s.dis).cpu + |s.exec| == 1;
  }

  lemma RestOf(s: K, e: Event)
    requires Inv(s) && AtRest(s) && !e.Arrive?
    ensures AwaitsSomething(s, e)
  {
    assert Step(s, e) == None;
    match e {
      case Execute(a) => ExecuteAwaits(s, a);
      case Wake => WakeAwaits(s);
      case _ => OthersAwait(s, e);
    }
  }

  lemma RestLists(s: K)
    requires Tokens(s)
    requires (s.adm.A0? && s.nuevos == 0) || (s.adm.A1? && s.grado == 0)
    requires s.dis == D0 && s.readySem == 0 && s.exe == Idle && s.execSem == 0 && s.fin == X0 && s.exitSem == 0
    requires s.wake == F0 && s.arriving == 0
    ensures s.ready == [] && s.exec == [] && s.exitQ == []
    ensures s.newQ != [] ==> |s.blocked| == s.degree
  {
    assert |s.ready| == 0 && |s.exec| == 0 && |s.exitQ| == 0;
  }

  lemma RestReason(s: K, p: Pid)
    requires WaitsOk(View(s)) && p in s.blocked
    requires s.exe == Idle && s.wake == F0 && s.fsDone == [] && s.fsQueue == []
    ensures p in s.why
    ensures (s.why[p].OnResource? && s.why[p].r < |s.res| && s.res[s.why[p].r].inst == 0)
            || (s.why[p].OnFile? && s.why[p].name in s.files)
  {
    assert BlockedFor(s.why, p, OnFs) ==> p in View(s).requests;
    assert BlockedFor(s.why, p, OnIo) ==> Sleeper(s.exe) == Some(p);
    match s.why[p] {
      case OnResource(r) =>
        assert ResourceWith(s.res[r], r, s.why, false);
        assert BlockedFor(s.why, p, OnResource(r));
      case OnFile(f) =>
      case _ =>
    }
  }
}
