/** The planner's tables as functions of what the CPU has answered so far: who has a file open and who waits for it, how
    many instances of a resource are free and who waits for one, whose file operation is next, and who has been
    admitted. None of these statements mentions how a step is carried out. */
module SchedulerHistory {
  import opened Bytes
  import opened Scheduler
  import opened SchedulerPlaces
  import opened SchedulerRuns
  import opened SchedulerSafety

  /** What is left of a queue when the first `n` have left it. */
  function Left(q: seq<Pid>, n: nat): seq<Pid> {
    if n <= |q| then q[n..] else []
  }

  /** The CPU's answer for the process it runs is `a`. */
  predicate Answered(s: K, e: Event, a: Answer) {
    s.exe.Running? && e == Execute(a)
  }

  /** Any answer at all. */
  predicate Answers(s: K, e: Event) {
    s.exe.Running? && e.Execute?
  }

  /** The processes for which `a` was answered in a run, in that order. */
  function Askers(s: K, es: seq<Event>, a: Answer): seq<Pid>
    decreases |es|
  {
    if es == [] then []
    else match Step(s, es[0])
      case None => []
      case Some(t) => (if Answered(s, es[0], a) then [s.exe.p] else []) + Askers(t, es[1..], a)
  }

  /** How often it was answered. */
  function Asked(s: K, es: seq<Event>, a: Answer): nat
    decreases |es|
  {
    if es == [] then 0
    else match Step(s, es[0])
      case None => 0
      case Some(t) => One(Answered(s, es[0], a)) + Asked(t, es[1..], a)
  }

  /** Behind a queue others have joined, and then `n` have left from the front. */
  predicate Feeds(q: seq<Pid>, asking: seq<Pid>, n: nat, left: seq<Pid>) {
    n <= |q + asking| && left == (q + asking)[n..]
  }

  lemma FeedsLater(q: seq<Pid>, x: seq<Pid>, later: seq<Pid>, n: nat, left: seq<Pid>)
    requires Feeds(q + x, later, n, left)
    ensures Feeds(q, x + later, n, left)
  {
    assert (q + x) + later == q + (x + later);
  }

  lemma FeedsTaken(q: seq<Pid>, later: seq<Pid>, n: nat, left: seq<Pid>)
    requires q != [] && Feeds(q[1..], later, n, left)
    ensures Feeds(q, [] + later, n + 1, left)
  {
    assert q + ([] + later) == [q[0]] + (q[1..] + later);
  }

  // ----- what a step leaves alone -----

  /** What only the CPU's answers, and the wake-up of a SIGNAL, change. */
  predicate SameQueues(s: K, s': K) {
    s'.newQ == s.newQ && s'.res == s.res && s'.fsDone == s.fsDone && s'.fsQueue == s.fsQueue && s'.exitQ == s.exitQ
  }

  /** The answer makes the process end: EXIT, or a resource that does not exist. */
  predicate Ends(s: K, a: Answer) {
    || a.Leave?
    || (a.Wait? && (a.r.None? || a.r.value >= |s.res|))
    || (a.Signal? && (a.r.None? || a.r.value >= |s.res|))
  }

  /** What an answer changes of it. */
  predicate AnswerChanges(s: K, p: Pid, a: Answer, s': K) {
    && s'.newQ == s.newQ && s'.fsDone == s.fsDone
    && s'.fsQueue == s.fsQueue + (if a.FileOp? then [p] else [])
    && s'.exitQ == s.exitQ + (if Ends(s, a) then [p] else [])
    && (!a.Wait? && !a.Signal? ==> s'.res == s.res)
    && (s'.exe.Signalled? ==> a == Signal(Some(s'.exe.r)))
  }

  lemma PlainMade(s: K, p: Pid, a: Answer, s': K)
    requires Plain(a) && Handle(s, p, a) == Some(s')
    ensures AnswerChanges(s, p, a, s')
  {
    match a {
      case Yield => assert AnswerChanges(s, p, a, s');
      case Leave => assert AnswerChanges(s, p, a, s');
      case Io => assert AnswerChanges(s, p, a, s');
      case Continue => assert AnswerChanges(s, p, a, s');
      case FileOp => assert AnswerChanges(s, p, a, s');
    }
  }

  lemma WaitMade(s: K, p: Pid, r: Option<nat>, s': K)
    requires Handle(s, p, Answer.Wait(r)) == Some(s')
    ensures AnswerChanges(s, p, Answer.Wait(r), s')
  {
  }

  lemma SignalMade(s: K, p: Pid, r: Option<nat>, s': K)
    requires Handle(s, p, Signal(r)) == Some(s')
    ensures AnswerChanges(s, p, Signal(r), s')
  {
  }

  lemma OpenMade(s: K, p: Pid, f: string, s': K)
    requires Handle(s, p, Open(f)) == Some(s')
    ensures AnswerChanges(s, p, Open(f), s')
  {
  }

  lemma CloseMade(s: K, p: Pid, f: string, s': K)
    requires Handle(s, p, Close(f)) == Some(s')
    ensures AnswerChanges(s, p, Close(f), s')
  {
  }

  lemma AnswerMade(s: K, p: Pid, a: Answer, s': K)
    requires Handle(s, p, a) == Some(s')
    ensures AnswerChanges(s, p, a, s')
  {
    match a {
      case Wait(r) => WaitMade(s, p, r, s');
      case Signal(r) => SignalMade(s, p, r, s');
      case Open(f) => OpenMade(s, p, f, s');
      case Close(f) => CloseMade(s, p, f, s');
      case _ => PlainMade(s, p, a, s');
    }
  }

  lemma EarlySame(s: K, s': K)
    requires EarlyStep(s) == Some(s')
    ensures SameQueues(s, s') && Early(s.exe) && !s'.exe.Signalled?
  {
    match s.exe {
      case Idle => assert SameQueues(s, s');
      case Pop => assert SameQueues(s, s');
      case Sent(p) => assert SameQueues(s, s');
      case PostEnvio => assert SameQueues(s, s');
      case IoWait(p) => assert SameQueues(s, s');
      case IoBack(p) => assert SameQueues(s, s');
    }
  }

  lemma LateSame(s: K, s': K)
    requires LateStep(s) == Some(s') && !s.exe.Signalled?
    ensures SameQueues(s, s') && !s'.exe.Signalled?
  {
    match s.exe {
      case Woken(w, own) => assert SameQueues(s, s');
      case PostReady(n) => assert SameQueues(s, s');
      case PushOwn(p) => assert SameQueues(s, s');
      case PostExec => assert SameQueues(s, s');
      case PostExit => assert SameQueues(s, s');
      case Release => assert SameQueues(s, s');
    }
  }

  lemma SignalSame(s: K, s': K)
    requires LateStep(s) == Some(s') && s.exe.Signalled?
    ensures s'.newQ == s.newQ && s'.fsDone == s.fsDone && s'.fsQueue == s.fsQueue && s'.exitQ == s.exitQ
    ensures !s'.exe.Signalled?
  {
  }

  /** What the execute thread leaves alone when it is not at the CPU's answer. */
  lemma ExecuteSame(s: K, a: Answer, s': K)
    requires ExecuteStep(s, a) == Some(s') && !s.exe.Running?
    ensures s'.newQ == s.newQ && s'.fsDone == s.fsDone && s'.fsQueue == s.fsQueue && s'.exitQ == s.exitQ
    ensures !s'.exe.Signalled? && (!s.exe.Signalled? ==> s'.res == s.res)
  {
    if Early(s.exe) {
      EarlySame(s, s');
    } else if s.exe.Signalled? {
      SignalSame(s, s');
    } else {
      LateSame(s, s');
    }
  }

  /** The other threads leave the execute thread and the resources alone. */
  lemma OtherSame(s: K, e: Event, s': K)
    requires Step(s, e) == Some(s') && !e.Execute?
    ensures s'.res == s.res && s'.exe == s.exe
  {
    match e {
      case Wake => WakeSame(s, s');
      case Admit => AdmitSame(s, s');
      case Dispatch(i) => DispatchSame(s, i, s');
      case Finish => FinishSame(s, s');
      case _ =>
    }
  }

  /** What the threads other than the execute thread leave alone, each beside its own. */
  predicate WakeLeft(s: K, s': K) {
    && s'.exe == s.exe && s'.res == s.res && s'.newQ == s.newQ && s'.exitQ == s.exitQ && s'.exec == s.exec
    && s'.adm == s.adm && s'.dis == s.dis && s'.fin == s.fin && s'.live == s.live && s'.nextPid == s.nextPid
  }

  predicate AdmitLeft(s: K, s': K) {
    && s'.exe == s.exe && s'.res == s.res && s'.fsDone == s.fsDone && s'.fsQueue == s.fsQueue && s'.exitQ == s.exitQ
    && s'.dis == s.dis && s'.fin == s.fin && s'.wake == s.wake && s'.live == s.live && s'.nextPid == s.nextPid
    && s'.exec == s.exec
  }

  predicate DispatchLeft(s: K, s': K) {
    && s'.exe == s.exe && SameQueues(s, s')
    && s'.adm == s.adm && s'.fin == s.fin && s'.wake == s.wake && s'.live == s.live && s'.nextPid == s.nextPid
  }

  predicate FinishLeft(s: K, s': K) {
    && s'.exe == s.exe && s'.res == s.res && s'.newQ == s.newQ && s'.fsDone == s.fsDone && s'.fsQueue == s.fsQueue
    && s'.adm == s.adm && s'.dis == s.dis && s'.wake == s.wake && s'.nextPid == s.nextPid && s'.exec == s.exec
  }

  lemma WakeSame(s: K, s': K)
    requires WakeStep(s) == Some(s')
    ensures WakeLeft(s, s')
  {
    match s.wake {
      case F0 => assert WakeLeft(s, s');
      case F1(p) => assert WakeLeft(s, s');
      case F2(p) => assert WakeLeft(s, s');
      case F3(p) => assert WakeLeft(s, s');
      case F4 => assert WakeLeft(s, s');
    }
  }

  lemma AdmitSame(s: K, s': K)
    requires AdmitStep(s) == Some(s')
    ensures AdmitLeft(s, s')
  {
  }

  lemma DispatchSame(s: K, i: nat, s': K)
    requires DispatchStep(s, i) == Some(s')
    ensures DispatchLeft(s, s')
  {
  }

  lemma FinishSame(s: K, s': K)
    requires FinishStep(s) == Some(s')
    ensures FinishLeft(s, s')
  {
  }

  // ----- files -----

  /** Whoever has the file, and behind it those waiting for it. */
  function Line(s: K, f: string): seq<Pid> {
    if f in s.files then [s.files[f].owner] + s.files[f].queue else []
  }

  lemma LineOpened(s: K, p: Pid, g: string, f: string)
    ensures Line(OpenFile(s, p, g), f) == Line(s, f) + if g == f then [p] else []
  {
    if g == f && f in s.files {
      assert Line(OpenFile(s, p, g), f) == [s.files[f].owner] + (s.files[f].queue + [p]);
    }
  }

  lemma LineClosed(s: K, p: Pid, g: string, s': K, f: string)
    requires g in s.files && CloseFile(s, p, g) == Some(s')
    ensures g != f ==> Line(s', f) == Line(s, f)
    ensures g == f ==> Line(s, f) != [] && Line(s', f) == Line(s, f)[1..]
  {
    if g == f {
      var q := s.files[f].queue;
      assert Line(s, f)[1..] == q;
      if q != [] { assert [q[0]] + q[1..] == q; }
    }
  }

  lemma LineStep(s: K, e: Event, s': K, f: string)
    requires Step(s, e) == Some(s')
    ensures Answered(s, e, Close(f)) ==> Line(s, f) != [] && Line(s', f) == Line(s, f)[1..]
    ensures !Answered(s, e, Close(f)) ==>
      Line(s', f) == Line(s, f) + if Answered(s, e, Open(f)) then [s.exe.p] else []
  {
    if Answers(s, e) {
      match e.a {
        case Open(g) => LineOpened(s, s.exe.p, g, f);
        case Close(g) => LineClosed(s, s.exe.p, g, s', f);
        case _ => AnswerOwners(s, s.exe.p, e.a, s');
      }
    } else {
      FilesStay(s, e, s');
    }
  }

  /** Who has a file and who waits for it, in order, after any run: those before it and the openers of the run, less
      as many from the front as files were closed. */
  lemma {:induction false} RunLine(s: K, es: seq<Event>, s': K, f: string)
    requires Run(s, es) == Some(s')
    ensures Feeds(Line(s, f), Askers(s, es, Open(f)), Asked(s, es, Close(f)), Line(s', f))
    decreases |es|
  {
    if es != [] {
      var t := Step(s, es[0]).value;
      LineStep(s, es[0], t, f);
      RunLine(t, es[1..], s', f);
      var q, later, n := Line(s, f), Askers(t, es[1..], Open(f)), Asked(t, es[1..], Close(f));
      if Answered(s, es[0], Close(f)) {
        FeedsTaken(q, later, n, Line(s', f));
      } else {
        FeedsLater(q, if Answered(s, es[0], Open(f)) then [s.exe.p] else [], later, n, Line(s', f));
      }
    }
  }

  /** In every reachable state the openers of a file have been served in order, one by each CLOSE: the file is open
      exactly while somebody has not been, the owner is the first such and the others wait in their order. */
  lemma FirstUnserved(degree: nat, totals: seq<nat>, es: seq<Event>, s: K, f: string)
    requires Run(Init(degree, totals), es) == Some(s)
    ensures var o, c := Askers(Init(degree, totals), es, Open(f)), Asked(Init(degree, totals), es, Close(f));
            && c <= |o| && (f in s.files <==> c < |o|)
            && (f in s.files ==> s.files[f].owner == o[c] && s.files[f].queue == o[c + 1..])
  {
    RunLine(Init(degree, totals), es, s, f);
    var o, c := Askers(Init(degree, totals), es, Open(f)), Asked(Init(degree, totals), es, Close(f));
    assert [] + o == o && Line(s, f) == o[c..];
    if f in s.files { assert Line(s, f)[1..] == s.files[f].queue && o[c..][1..] == o[c + 1..]; }
  }

  /** From any state on, a file that is open stays open until a CLOSE finds nobody waiting for it. */
  lemma OpenUntilClosed(s: K, es: seq<Event>, s': K, f: string)
    requires Run(s, es) == Some(s') && f in s.files
    ensures f in s'.files <==> Asked(s, es, Close(f)) <= |s.files[f].queue| + |Askers(s, es, Open(f))|
    ensures Asked(s, es, Close(f)) == 0 ==> f in s'.files && s'.files[f].owner == s.files[f].owner
                                            && s'.files[f].queue == s.files[f].queue + Askers(s, es, Open(f))
  {
    RunLine(s, es, s', f);
    StillOpen(s.files[f], Askers(s, es, Open(f)), Asked(s, es, Close(f)), s', f);
  }

  lemma StillOpen(x: FileEntry, asking: seq<Pid>, n: nat, s': K, f: string)
    requires Feeds([x.owner] + x.queue, asking, n, Line(s', f))
    ensures f in s'.files <==> n <= |x.queue| + |asking|
    ensures n == 0 ==> f in s'.files && s'.files[f].owner == x.owner && s'.files[f].queue == x.queue + asking
  {
    if n == 0 {
      assert Line(s', f) == [x.owner] + (x.queue + asking);
      assert Line(s', f)[0] == x.owner && Line(s', f)[1..] == x.queue + asking;
      assert Line(s', f)[1..] == s'.files[f].queue;
    }
  }

  // ----- resources -----

  /** A SIGNAL whose instance has been given back and whose waiter has not been looked for yet. */
  function Pending(s: K, r: nat): nat {
    One(s.exe == Signalled(r))
  }

  /** Free instances and waiters, a pending SIGNAL apart. */
  predicate Stands(s: K, r: nat, free: int, q: seq<Pid>) {
    r < |s.res| && free == s.res[r].inst - Pending(s, r) && q == s.res[r].queue
  }

  lemma AnswerElsewhere(s: K, p: Pid, a: Answer, s': K, r: nat)
    requires Handle(s, p, a) == Some(s') && a != Answer.Wait(Some(r)) && a != Signal(Some(r)) && r < |s.res|
    ensures |s'.res| == |s.res| && s'.res[r] == s.res[r] && Pending(s', r) == 0
  {
    AnswerMade(s, p, a, s');
  }

  /** What a step makes of them: a WAIT takes an instance or queues, the second half of a SIGNAL serves the first waiter
      or leaves one instance more. */
  function NextFree(s: K, e: Event, r: nat, free: nat, q: seq<Pid>): nat {
    if Answered(s, e, Answer.Wait(Some(r))) && free > 0 then free - 1
    else if e.Execute? && s.exe == Signalled(r) && q == [] then free + 1
    else free
  }

  function NextQueue(s: K, e: Event, r: nat, free: nat, q: seq<Pid>): seq<Pid> {
    if Answered(s, e, Answer.Wait(Some(r))) && free == 0 then q + [s.exe.p]
    else if e.Execute? && s.exe == Signalled(r) && q != [] then q[1..]
    else q
  }

  lemma WaitStands(s: K, p: Pid, r: nat, s': K, free: nat, q: seq<Pid>)
    requires s.exe == Running(p) && Handle(s, p, Answer.Wait(Some(r))) == Some(s') && Stands(s, r, free, q)
    ensures if free > 0 then Stands(s', r, free - 1, q) else Stands(s', r, 0, q + [p])
    ensures Pending(s', r) == 0
  {
  }

  lemma SignalStands(s: K, p: Pid, r: nat, s': K, free: nat, q: seq<Pid>)
    requires s.exe == Running(p) && Handle(s, p, Signal(Some(r))) == Some(s') && Stands(s, r, free, q)
    ensures Stands(s', r, free, q) && Pending(s', r) == 1
  {
  }

  lemma WakeStands(s: K, r: nat, s': K, free: nat, q: seq<Pid>)
    requires s.exe == Signalled(r) && LateStep(s) == Some(s') && Stands(s, r, free, q)
    ensures if q == [] then Stands(s', r, free + 1, q) else Stands(s', r, free, q[1..])
    ensures Pending(s', r) == 0
  {
  }

  lemma LateElsewhere(s: K, s': K, r: nat)
    requires LateStep(s) == Some(s') && s.exe != Signalled(r) && r < |s.res|
    ensures |s'.res| == |s.res| && s'.res[r] == s.res[r] && Pending(s', r) == 0
  {
    if s.exe.Signalled? { assert Pending(s', r) == 0; } else { LateSame(s, s'); }
  }

  /** Of the waiters and the processes that come to ask, the first `given` are served. */
  predicate Serves(q: seq<Pid>, asking: seq<Pid>, given: int, free: int, left: seq<Pid>) {
    given >= 0 && left == Left(q + asking, given) && free == if given >= |q + asking| then given - |q + asking| else 0
  }

  lemma ServesFirst(q: seq<Pid>, free: nat, p: Pid, later: seq<Pid>, given: int, free': int, left: seq<Pid>)
    requires free > 0 ==> q == []
    requires if free > 0 then Serves([], later, given - 1, free', left) else Serves(q + [p], later, given, free', left)
    ensures Serves(q, [p] + later, given, free', left)
  {
    if free > 0 {
      assert [] + later == later && [] + ([p] + later) == [p] + later;
      assert given - 1 <= |later| ==> ([p] + later)[given..] == later[given - 1..];
    } else {
      assert (q + [p]) + later == q + ([p] + later);
    }
  }

  lemma ServesNext(q: seq<Pid>, later: seq<Pid>, given: int, free': int, left: seq<Pid>)
    requires q != [] && Serves(q[1..], later, given - 1, free', left)
    ensures Serves(q, [] + later, given, free', left)
  {
    assert q + ([] + later) == [q[0]] + (q[1..] + later);
  }

  lemma ServesSame(q: seq<Pid>, later: seq<Pid>, given: int, free': int, left: seq<Pid>)
    requires Serves(q, later, given, free', left)
    ensures Serves(q, [] + later, given, free', left)
  {
    assert [] + later == later;
  }

  /** All other steps leave free instances and waiters alone. */
  lemma ResourceStays(s: K, e: Event, s': K, r: nat, free: int, q: seq<Pid>)
    requires Step(s, e) == Some(s') && Stands(s, r, free, q)
    requires !Answered(s, e, Answer.Wait(Some(r))) && !Answered(s, e, Signal(Some(r)))
             && !(e.Execute? && s.exe == Signalled(r))
    ensures Stands(s', r, free, q) && Pending(s', r) == Pending(s, r)
  {
    if !e.Execute? {
      OtherSame(s, e, s');
    } else if s.exe.Running? {
      AnswerElsewhere(s, s.exe.p, e.a, s', r);
    } else if Early(s.exe) {
      EarlySame(s, s');
    } else {
      LateElsewhere(s, s', r);
    }
  }

  lemma StandsStep(s: K, e: Event, t: K, r: nat, free: nat, q: seq<Pid>)
    requires Step(s, e) == Some(t) && Stands(s, r, free, q) && (free > 0 ==> q == [])
    ensures Stands(t, r, NextFree(s, e, r, free, q), NextQueue(s, e, r, free, q))
    ensures Pending(t, r) == if e.Execute? && s.exe == Signalled(r) then 0
                             else Pending(s, r) + One(Answered(s, e, Signal(Some(r))))
  {
    if Answered(s, e, Answer.Wait(Some(r))) {
      WaitStands(s, s.exe.p, r, t, free, q);
    } else if Answered(s, e, Signal(Some(r))) {
      SignalStands(s, s.exe.p, r, t, free, q);
    } else if e.Execute? && s.exe == Signalled(r) {
      WakeStands(s, r, t, free, q);
    } else {
      ResourceStays(s, e, t, r, free, q);
    }
  }

  /** What the state behind a run has given, out of what there was at its start. */
  lemma ServesStep(s: K, e: Event, r: nat, free: nat, q: seq<Pid>, later: seq<Pid>, given: int, free': int,
                   left: seq<Pid>)
    requires free > 0 ==> q == []
    requires Serves(NextQueue(s, e, r, free, q), later, given + NextFree(s, e, r, free, q), free', left)
    ensures Serves(q, (if Answered(s, e, Answer.Wait(Some(r))) then [s.exe.p] else []) + later,
                   given + free + One(e.Execute? && s.exe == Signalled(r)), free', left)
  {
    if Answered(s, e, Answer.Wait(Some(r))) {
      ServesFirst(q, free, s.exe.p, later, given + free, free', left);
    } else if e.Execute? && s.exe == Signalled(r) && q != [] {
      ServesNext(q, later, given + free + 1, free', left);
    } else {
      ServesSame(q, later, given + NextFree(s, e, r, free, q), free', left);
    }
  }

  /** Free instances and waiters after a run in which processes asked and `signals` gave back. */
  ghost predicate Served(s: K, r: nat, free: int, q: seq<Pid>, asking: seq<Pid>, signals: nat, s': K) {
    r < |s'.res| && Serves(q, asking, free + Pending(s, r) + signals - Pending(s', r),
                           s'.res[r].inst - Pending(s', r), s'.res[r].queue)
  }

  lemma ServedStep(s: K, e: Event, t: K, r: nat, free: nat, q: seq<Pid>, later: seq<Pid>, signals: nat, s': K)
    requires free > 0 ==> q == []
    requires Served(t, r, NextFree(s, e, r, free, q), NextQueue(s, e, r, free, q), later, signals, s')
    requires Pending(t, r) == if e.Execute? && s.exe == Signalled(r) then 0
                              else Pending(s, r) + One(Answered(s, e, Signal(Some(r))))
    ensures Served(s, r, free, q, (if Answered(s, e, Answer.Wait(Some(r))) then [s.exe.p] else []) + later,
                   One(Answered(s, e, Signal(Some(r)))) + signals, s')
  {
    ServesStep(s, e, r, free, q, later, Pending(t, r) + signals - Pending(s', r), s'.res[r].inst - Pending(s', r),
        s'.res[r].queue);
  }

  /** Whatever else happens, instances go to waiters and askers in order: the free ones, and one for each SIGNAL. */
  lemma {:induction false} RunServes(s: K, es: seq<Event>, s': K, r: nat, free: nat, q: seq<Pid>)
    requires Run(s, es) == Some(s') && Stands(s, r, free, q) && (free > 0 ==> q == [])
    ensures Served(s, r, free, q, Askers(s, es, Answer.Wait(Some(r))), Asked(s, es, Signal(Some(r))), s')
    decreases |es|
  {
    if es == [] {
      assert q + [] == q;
    } else {
      var t := Step(s, es[0]).value;
      StandsStep(s, es[0], t, r, free, q);
      RunServes(t, es[1..], s', r, NextFree(s, es[0], r, free, q), NextQueue(s, es[0], r, free, q));
      ServedStep(s, es[0], t, r, free, q, Askers(t, es[1..], Answer.Wait(Some(r))), Asked(t, es[1..], Signal(Some(r))),
          s');
    }
  }

  /** In every reachable state but the instant inside a SIGNAL: of the processes that asked for a resource the first as
      many as there are configured instances and SIGNALs have got one, the others wait in the order in which they
      asked, and what nobody asked for is free. */
  lemma FirstServed(degree: nat, totals: seq<nat>, es: seq<Event>, s: K, r: nat)
    requires Run(Init(degree, totals), es) == Some(s) && r < |totals| && s.exe != Signalled(r)
    ensures r < |s.res|
    ensures var asked := Askers(Init(degree, totals), es, Answer.Wait(Some(r)));
            var n := totals[r] + Asked(Init(degree, totals), es, Signal(Some(r)));
            if n <= |asked| then s.res[r].inst == 0 && s.res[r].queue == asked[n..]
            else s.res[r].inst == n - |asked| && s.res[r].queue == []
  {
    var k := Init(degree, totals);
    assert Stands(k, r, totals[r], []);
    RunServes(k, es, s, r, totals[r], []);
    ServedAll(k, s, r, totals[r], Askers(k, es, Answer.Wait(Some(r))), Asked(k, es, Signal(Some(r))));
  }

  lemma ServedAll(k: K, s: K, r: nat, total: nat, asked: seq<Pid>, signals: nat)
    requires Served(k, r, total, [], asked, signals, s) && Pending(k, r) == 0 && Pending(s, r) == 0
    ensures r < |s.res|
    ensures var n := total + signals;
            if n <= |asked| then s.res[r].inst == 0 && s.res[r].queue == asked[n..]
            else s.res[r].inst == n - |asked| && s.res[r].queue == []
  {
    assert [] + asked == asked;
  }

  // ----- file operations -----

  function Requests(s: K): seq<Pid> {
    Outstanding(s.wake, s.fsDone, s.fsQueue)
  }

  /** The wake-up thread takes a PCB out of blocked. */
  predicate TakesOut(s: K, e: Event) {
    e.Wake? && s.wake.F2?
  }

  function TakenOut(s: K, es: seq<Event>): nat
    decreases |es|
  {
    if es == [] then 0
    else match Step(s, es[0])
      case None => 0
      case Some(t) => One(TakesOut(s, es[0])) + TakenOut(t, es[1..])
  }

  lemma ExecuteRequests(s: K, a: Answer, s': K)
    requires ExecuteStep(s, a) == Some(s')
    ensures Requests(s') == Requests(s) + if s.exe.Running? && a.FileOp? then [s.exe.p] else []
  {
    ExecuteLeaves(s, a, s');
    if s.exe.Running? { AnswerMade(s, s.exe.p, a, s'); } else { ExecuteSame(s, a, s'); }
  }

  lemma WakeRequests(s: K, s': K)
    requires WakeStep(s) == Some(s')
    ensures if s.wake.F2? then Requests(s) == [s.wake.pid] + Requests(s') else Requests(s') == Requests(s)
  {
    if s.wake.F0? { assert s.fsDone == [s.fsDone[0]] + s.fsDone[1..]; }
  }

  lemma OtherRequests(s: K, e: Event, s': K)
    requires Step(s, e) == Some(s') && !e.Execute? && !e.Wake?
    ensures Requests(s') == Requests(s)
  {
    match e {
      case FsReply => assert s.fsQueue == [s.fsQueue[0]] + s.fsQueue[1..];
      case Admit => AdmitSame(s, s');
      case Dispatch(i) => DispatchSame(s, i, s');
      case Finish => FinishSame(s, s');
      case _ =>
    }
  }

  lemma RequestStep(s: K, e: Event, s': K)
    requires Step(s, e) == Some(s')
    ensures TakesOut(s, e) ==> Requests(s) == [s.wake.pid] + Requests(s') && !Answered(s, e, FileOp)
    ensures !TakesOut(s, e) ==> Requests(s') == Requests(s) + if Answered(s, e, FileOp) then [s.exe.p] else []
  {
    match e {
      case Execute(a) => ExecuteRequests(s, a, s');
      case Wake => WakeRequests(s, s');
      case _ => OtherRequests(s, e, s');
    }
  }

  lemma {:induction false} RunRequests(s: K, es: seq<Event>, s': K)
    requires Run(s, es) == Some(s')
    ensures Feeds(Requests(s), Askers(s, es, FileOp), TakenOut(s, es), Requests(s'))
    decreases |es|
  {
    if es != [] {
      var t := Step(s, es[0]).value;
      RequestStep(s, es[0], t);
      RunRequests(t, es[1..], s');
      var q, later, n := Requests(s), Askers(t, es[1..], FileOp), TakenOut(t, es[1..]);
      if TakesOut(s, es[0]) {
        assert q[1..] == Requests(t);
        FeedsTaken(q, later, n, Requests(s'));
      } else {
        FeedsLater(q, if Answered(s, es[0], FileOp) then [s.exe.p] else [], later, n, Requests(s'));
      }
    }
  }

  /** In every reachable state the process the wake-up thread is about to take out of blocked is the first of those
      whose F_READ, F_WRITE or F_TRUNCATE was answered and who have not been taken out yet. */
  lemma FirstWoken(degree: nat, totals: seq<nat>, es: seq<Event>, s: K)
    requires Run(Init(degree, totals), es) == Some(s) && s.wake.F2?
    ensures var asked, n := Askers(Init(degree, totals), es, FileOp), TakenOut(Init(degree, totals), es);
            n < |asked| && s.wake.pid == asked[n]
  {
    RunRequests(Init(degree, totals), es, s);
    assert Requests(s)[0] == s.wake.pid;
    assert [] + Askers(Init(degree, totals), es, FileOp) == Askers(Init(degree, totals), es, FileOp);
  }

  // ----- admission -----

  /** Process numbers start at one; new holds the latest arrivals in order, and whoever is on the way from new to ready
      came just before them. */
  predicate InOrder(s: K) {
    && |s.newQ| < s.nextPid && 0 !in s.live
    && (forall i :: 0 <= i < |s.newQ| ==> s.newQ[i] == s.nextPid - |s.newQ| + i)
    && (s.adm.A3? ==> s.adm.p == s.nextPid - |s.newQ| - 1)
  }

  lemma AdmitInOrder(s: K, s': K)
    requires InOrder(s) && AdmitStep(s) == Some(s')
    ensures InOrder(s')
  {
    AdmitSame(s, s');
    match s.adm {
      case A0 => assert InOrder(s');
      case A1 => assert InOrder(s');
      case A2 => assert InOrder(s');
      case A3(p) => assert InOrder(s');
      case A4 => assert InOrder(s');
    }
  }

  lemma ArriveInOrder(s: K, s': K)
    requires InOrder(s) && Step(s, Arrive) == Some(s')
    ensures InOrder(s')
  {
  }

  lemma ExecuteNew(s: K, a: Answer, s': K)
    requires ExecuteStep(s, a) == Some(s')
    ensures s'.newQ == s.newQ
  {
    if s.exe.Running? { AnswerMade(s, s.exe.p, a, s'); } else { ExecuteSame(s, a, s'); }
  }

  lemma StepInOrder(s: K, e: Event, s': K)
    requires InOrder(s) && Step(s, e) == Some(s')
    ensures InOrder(s')
  {
    match e {
      case Arrive => ArriveInOrder(s, s');
      case Admit => AdmitInOrder(s, s');
      case Execute(a) => ExecuteLeaves(s, a, s'); ExecuteNew(s, a, s');
      case Dispatch(i) => DispatchSame(s, i, s');
      case Finish => FinishSame(s, s');
      case Wake => WakeSame(s, s');
      case _ =>
    }
  }

  lemma {:induction false} RunInOrder(s: K, es: seq<Event>, s': K)
    requires InOrder(s) && Run(s, es) == Some(s')
    ensures InOrder(s')
    decreases |es|
  {
    if es != [] {
      StepInOrder(s, es[0], Step(s, es[0]).value);
      RunInOrder(Step(s, es[0]).value, es[1..], s');
    }
  }

  /** Admission is first come, first served: in every reachable state the processes still in new are the latest
      arrivals, in the order in which they arrived, and whoever is being admitted arrived just before them. */
  lemma AdmittedInOrder(degree: nat, totals: seq<nat>, es: seq<Event>, s: K)
    requires Run(Init(degree, totals), es) == Some(s)
    ensures |s.newQ| < s.nextPid
    ensures forall i :: 0 <= i < |s.newQ| ==> s.newQ[i] == s.nextPid - |s.newQ| + i
    ensures s.adm.A3? ==> s.adm.p == s.nextPid - |s.newQ| - 1
  {
    RunInOrder(Init(degree, totals), es, s);
  }
}
