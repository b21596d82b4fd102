/** Steps of the kernel's planner as they stand in the source, and exactly when they keep its invariants. */
module KernelAsWritten {
  import opened Bytes
  import opened Scheduler
  import opened SchedulerPlaces
  import opened SchedulerSafety
  import L = StateLists

  // ----- WAIT and SIGNAL on one resource -----

  /** Instances are conserved: what is left and what is out make up the configured total. */
  ghost predicate Conserved(x: Resource) {
    x.inst + x.grants - x.signals == x.total
  }

  ghost predicate WithinTotal(x: Resource) {
    x.grants - x.signals <= x.total
  }

  /** `hay_elementos_wait` as written: granting while the count is not negative. */
  function WaitAsWritten(x: Resource): Resource {
    if x.inst >= 0 then x.(inst := x.inst - 1, grants := x.grants + 1) else x
  }

  /** WAIT as written keeps the outstanding grants within the configured instances exactly when one is left. */
  lemma WaitBoundIff(x: Resource)
    requires Conserved(x) && WithinTotal(x)
    ensures Conserved(WaitAsWritten(x))
    ensures WithinTotal(WaitAsWritten(x)) <==> x.inst > 0
  {
  }

  /** SIGNAL as written: `=+ 1` assigns one. */
  function SignalAsWritten(x: Resource): Resource {
    x.(inst := 1, signals := x.signals + 1)
  }

  /** SIGNAL as written conserves instances exactly when none was left. */
  lemma SignalConservesIff(x: Resource)
    requires Conserved(x)
    ensures Conserved(SignalAsWritten(x)) <==> x.inst == 0
  {
  }

  /** SIGNAL's test whether to wake somebody, as written: no instance, right after one has been assigned. */
  predicate WakesAsWritten(x: Resource) {
    x.inst == 0 && x.queue != []
  }

  /** So SIGNAL as written never wakes anybody, and it leaves a resource as it should be, its waiters being those
      blocked on it and none of them while an instance is free, exactly when no instance was left and nobody waited. */
  lemma SignalRightIff(x: Resource, r: nat, why: map<Pid, Reason>)
    requires ResourceWith(x, r, why, false)
    ensures !WakesAsWritten(SignalAsWritten(x))
    ensures ResourceWith(SignalAsWritten(x), r, why, false) <==> x.inst == 0 && x.queue == []
  {
    var y := SignalAsWritten(x);
    if x.inst == 0 && x.queue == [] {
      forall p: Pid ensures BlockedFor(why, p, OnResource(r)) <==> p in y.queue {
        assert BlockedFor(why, p, OnResource(r)) <==> p in x.queue;
      }
    }
  }

  /** From a resource configured with no instances WAIT as written hands one out. */
  lemma WaitGrantsTooMuch(x: Resource)
    requires x.total == 0 && x.inst == 0 && x.grants == 0 && x.signals == 0
    ensures Conserved(x) && WithinTotal(x) && !WithinTotal(WaitAsWritten(x))
  {
    WaitBoundIff(x);
  }

  // ----- the execute thread -----

  /** The end of WAIT on an unknown resource as written: exit, and one post of execute's semaphore too many. */
  function ExitWithExtraPost(s: K, p: Pid): K {
    s.(exitQ := s.exitQ + [p], exitSem := s.exitSem + 1, execLibre := s.execLibre + 1, execSem := s.execSem
        + 1, exe := Idle)
  }

  /** The extra post always breaks the agreement of execute's semaphore with its list, and the thread's next turn
      finds the list empty. */
  lemma ExtraPostPopsEmpty(s: K, p: Pid, a: Answer)
    requires Inv(s) && s.exe == Running(p)
    ensures !Tokens(ExitWithExtraPost(s, p))
    ensures var t := ExecuteStep(ExitWithExtraPost(s, p), a);
            t.Some? && t.value.exe == Pop && ExecuteStep(t.value, a) == None
  {
    assert s.execLibre + DisHeld(s.dis).cpu + |s.exec| + 1 == 1;
  }

  /** CREATE_SEGMENT as written: memory's answer posts execute's semaphore and so does the end of the case. */
  function CreateEnds(s: K, p: Pid): K {
    s.(exec := s.exec + [p], execSem := s.execSem + 2, exe := Idle)
  }

  /** Six steps of the execute thread: from its semaphore through one PCB that yields to its semaphore again. */
  function UntilPop(): seq<Event> {
    [Execute(Yield), Execute(Yield), Execute(Yield)] + [Execute(Yield), Execute(Yield), Execute(Yield)]
  }

  /** The first three of them. */
  lemma YieldsAtOnce(s: K, p: Pid)
    requires s.exe == Idle && s.exec == [p] && s.execSem == 2
    ensures Run(s, [Execute(Yield), Execute(Yield), Execute(Yield)])
         == Some(s.(exec := [], execSem := 1, ready := s.ready + [p], exe := PostReady(ThenRelease)))
  {
    var a := s.(execSem := 1, exe := Pop);
    var b := a.(exec := [], exe := Running(p));
    assert [p][1..] == [];
    RunThree(s, Execute(Yield), a, Execute(Yield), b, Execute(Yield),
        b.(ready := s.ready + [p], exe := PostReady(ThenRelease)));
  }

  /** And the others. */
  lemma WaitsAgain(s: K)
    requires s.exe == PostReady(ThenRelease) && s.execSem == 1
    ensures Run(s, [Execute(Yield), Execute(Yield), Execute(Yield)])
         == Some(s.(execSem := 0, readySem := s.readySem + 1, execLibre := s.execLibre + 1, exe := Pop))
  {
    var a := s.(readySem := s.readySem + 1, exe := Release);
    var b := a.(execLibre := s.execLibre + 1, exe := Idle);
    RunThree(s, Execute(Yield), a, Execute(Yield), b, Execute(Yield), b.(execSem := 0, exe := Pop));
  }

  /** The two posts for one PCB always break the agreement of execute's semaphore with its list, and when the process
      yields before anybody is dispatched, the thread then finds the list empty. */
  lemma CreatePostsTwice(s: K, p: Pid)
    requires Inv(s) && s.exe == Running(p)
    ensures !Tokens(CreateEnds(s, p))
    ensures Run(CreateEnds(s, p), UntilPop()).Some?
    ensures var t := Run(CreateEnds(s, p), UntilPop()).value; t.exe == Pop && forall a :: ExecuteStep(t, a) == None
  {
    assert s.execLibre + DisHeld(s.dis).cpu + |s.exec| + 1 == 1;
    assert s.exec + [p] == [p];
    var t := CreateEnds(s, p);
    var u := t.(exec := [], execSem := 1, ready := s.ready + [p], exe := PostReady(ThenRelease));
    YieldsAtOnce(t, p);
    WaitsAgain(u);
    RunTwo(t, [Execute(Yield), Execute(Yield), Execute(Yield)], u, [Execute(Yield), Execute(Yield), Execute(Yield)]);
  }

  /** A PCB that has to wait as written: `push_pcb_estado` with its first two arguments exchanged. */
  function BlockIntoExecute(s: K, p: Pid): K {
    s.(exec := s.exec + [p], exe := Release)
  }

  /** The exchanged arguments always leave a PCB in execute that no semaphore counts. */
  lemma BlockIntoExecuteBreaks(s: K, p: Pid)
    requires Tokens(s) && s.exe == Running(p)
    ensures !Tokens(BlockIntoExecute(s, p))
  {
    assert |s.exec| == s.execSem + DisHeld(s.dis).exec;
  }

  /** SIGNAL as written pushes its own PCB before and after the wake-up. */
  function SignalPushesTwice(s: K, p: Pid): K {
    s.(exec := s.exec + [p] + [p], exe := PostExec)
  }

  lemma SignalDuplicates(s: K, p: Pid)
    requires InOnePlace(s, p) && s.exe == Running(p)
    ensures !InOnePlace(SignalPushesTwice(s, p), p)
  {
    Pushed(s.exec, p, p);
    Pushed(s.exec + [p], p, p);
  }

  /** CLOSE with a waiter as written: the file goes back into the closer's table instead of the woken PCB's. */
  function CloseToCloser(s: K, p: Pid, f: string): K
    requires f in s.files && s.files[f].queue != []
  {
    var x := s.files[f];
    var w := x.queue[0];
    s.(files := s.files[f := x.(owner := w, queue := x.queue[1..], handed := x.handed + [w])],
       tables := s.tables[p := TableOf(s.tables, p) - {f} + {f}], exe := Woken(w, Some(p)))
  }

  /** The hand-over as written keeps one owner per file exactly when the closer wakes itself. */
  lemma CloseToCloserIff(s: K, p: Pid, f: string)
    requires f in s.files && s.files[f].queue != [] && FileOwners(s) && s.files[f].owner == p
    ensures FileOwners(CloseToCloser(s, p, f)) <==> s.files[f].queue[0] == p
  {
    var t := CloseToCloser(s, p, f);
    assert f in TableOf(s.tables, p);
    assert f in TableOf(t.tables, p);
    if s.files[f].queue[0] == p {
      forall q: Pid, g ensures g in TableOf(t.tables, q) <==> g in t.files && t.files[g].owner == q {
        assert g in TableOf(s.tables, q) <==> g in s.files && s.files[g].owner == q;
      }
    }
  }

  // ----- the highest response ratio -----

  /** `mayor_hrrn` as written: of equal ratios the shorter wait wins. */
  function HigherAsWritten(p: L.Pcb, q: L.Pcb, now: nat): L.Pcb
    requires L.Estimated(p) && L.Estimated(q)
  {
    if L.Ratio(p, now) > L.Ratio(q, now) then p
    else if L.Ratio(p, now) < L.Ratio(q, now) then q
    else if L.Wait(p, now) < L.Wait(q, now) then p else q
  }

  /** The comparison as written agrees with first come, first served exactly when there is no tie to break. */
  lemma TieBreakIff(p: L.Pcb, q: L.Pcb, now: nat)
    requires L.Estimated(p) && L.Estimated(q)
    ensures HigherAsWritten(p, q, now) == L.Higher(p, q, now) <==> L.Ratio(p, now) != L.Ratio(q, now) || p == q
  {
  }

  /** `next_hrrn_proceso` as written: the choice leaves the list only when it is alone in it. */
  method NextAsWritten(list: seq<L.Pcb>, now: nat) returns (r: Option<L.Pcb>, rest: seq<L.Pcb>)
    requires L.AllEstimated(list)
    ensures list != [] ==> r.Some? && r.value in list
    ensures list != [] ==> (|rest| == |list| - 1 <==> |list| == 1)
    ensures |list| > 1 ==> r.value in rest
  {
    if |list| > 1 {
      var best := list[0];
      for i := 1 to |list|
        invariant best in list && L.Estimated(best)
      {
        best := HigherAsWritten(best, list[i], now);
      }
      r, rest := Some(best), list;
    } else if |list| == 1 {
      r, rest := Some(list[0]), [];
    } else {
      r, rest := None, [];
    }
  }

  /** The estimate as written, with alpha cut to an integer. */
  function EstimateAsWritten(alpha: real, burst: real, estimate: real): real {
    L.NextEstimate(alpha.Floor as real, burst, estimate)
  }

  /** Cutting alpha changes nothing exactly when alpha is whole or the estimate was right. */
  lemma EstimateIff(alpha: real, burst: real, estimate: real)
    requires 0.0 <= alpha <= 1.0
    ensures EstimateAsWritten(alpha, burst, estimate) == L.NextEstimate(alpha, burst, estimate)
            <==> alpha == 0.0 || alpha == 1.0 || burst == estimate
  {
    var whole := alpha.Floor as real;
    var d := burst - estimate;
    Distributes(alpha, burst, estimate);
    Distributes(whole, burst, estimate);
    assert alpha * d - whole * d == (alpha - whole) * d;
    ProductIsZero(alpha - whole, d);
  }

  /** Renewing the estimate as written, at every comparison, leaves it alone exactly when alpha is less than one or the
      estimate was right. */
  lemma RenewedIff(alpha: real, burst: real, estimate: real)
    requires 0.0 <= alpha <= 1.0
    ensures EstimateAsWritten(alpha, burst, estimate) == estimate <==> alpha < 1.0 || burst == estimate
  {
    var whole := alpha.Floor as real;
    Distributes(whole, burst, estimate);
    ProductIsZero(whole, burst - estimate);
  }

  lemma Distributes(alpha: real, burst: real, estimate: real)
    ensures L.NextEstimate(alpha, burst, estimate) == estimate + alpha * (burst - estimate)
  {
    assert (1.0 - alpha) * estimate == estimate - alpha * estimate;
    assert alpha * (burst - estimate) == alpha * burst - alpha * estimate;
  }

  lemma ProductIsZero(x: real, y: real)
    ensures x * y == 0.0 <==> x == 0.0 || y == 0.0
  {
    if x != 0.0 && x * y == 0.0 { assert y == (x * y) / x; }
  }
}
