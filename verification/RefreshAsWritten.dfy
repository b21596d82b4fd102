/** The kernel's refresh after a compaction as it stands in the source, the one corrected in `Translation`, and which
    PCBs either leaves with the right copies. The kernel's lists are looked at in one state: the execute thread has the
    PCB that asked for a segment in its hand. */
module RefreshAsWritten {
  import opened Bytes
  import opened Segments
  import opened MemoryModule
  import opened Scheduler
  import opened SchedulerHistory
  import opened SchedulerPlaces
  import opened SchedulerSafety
  import opened Translation

  // ----- one PCB -----

  /** One turn of `actualizarSegmentosPorEstado` for one PCB: a row of the process empties the very list its copy was
      just updated in; a number that list does not hold is a null pointer. */
  function OneAsWritten(segs: seq<Row>, pid: int, row: Row): Option<seq<Row>> {
    if row.pid != pid then Some(segs) else if FirstWith(segs, row.id) < |segs| then Some([]) else None
  }

  function AllAsWritten(segs: seq<Row>, pid: int, t: seq<Row>, k: nat): Option<seq<Row>>
    requires k <= |t|
  {
    if k == 0 then Some(segs)
    else match AllAsWritten(segs, pid, t, k - 1) case None => None case Some(r) => OneAsWritten(r, pid, t[k - 1])
  }

  predicate Owns(t: seq<Row>, k: nat, pid: int) {
    exists i :: 0 <= i < k <= |t| && t[i].pid == pid
  }

  /** Rows of other processes change nothing; the first own row leaves nothing of the copies, or of the kernel. */
  lemma {:induction false} EmptiedOrNot(segs: seq<Row>, pid: int, t: seq<Row>, k: nat)
    requires k <= |t|
    ensures if Owns(t, k, pid) then AllAsWritten(segs, pid, t, k) in {None, Some([])}
            else AllAsWritten(segs, pid, t, k) == Some(segs)
  {
    if k > 0 {
      EmptiedOrNot(segs, pid, t, k - 1);
      assert t[k - 1].pid == pid ==> Owns(t, k, pid);
      assert Owns(t, k, pid) ==> Owns(t, k - 1, pid) || t[k - 1].pid == pid;
      assert Owns(t, k - 1, pid) ==> Owns(t, k, pid);
    }
  }

  /** The first own row empties the copies, and a second one finds nothing in them. */
  lemma {:induction false} SecondRowStops(segs: seq<Row>, pid: int, t: seq<Row>, k: nat)
    requires k <= |t| && forall i :: 0 <= i < k && t[i].pid == pid ==> FirstWith(segs, t[i].id) < |segs|
    ensures var own := |OwnRows(t, k, pid)|;
            AllAsWritten(segs, pid, t, k) == if own == 0 then Some(segs) else if own == 1 then Some([]) else None
  {
    if k > 0 { SecondRowStops(segs, pid, t, k - 1); }
  }

  /** So the refresh as written stops at a null pointer exactly when a PCB it walks over owns two rows or more. */
  lemma StopsIff(t: seq<Row>, pid: int)
    requires t != []
    ensures AllAsWritten(Copies(t, pid), pid, Relocated(t), |t|) == None <==> |OwnRows(t, |t|, pid)| >= 2
  {
    var u, segs := Relocated(t), Copies(t, pid);
    OwnRowsSame(t, u, |t|, pid);
    forall i | 0 <= i < |u| && u[i].pid == pid ensures FirstWith(segs, u[i].id) < |segs| {
      var p := OwnRowsHas(t, |t|, pid, i);
      assert Sources(t, pid)[p + 1] == i && segs[p + 1] == t[i];
    }
    SecondRowStops(segs, pid, u, |u|);
  }

  /** No row of the process changes its base. */
  predicate Unmoved(t: seq<Row>, pid: int) {
    forall i :: 0 <= i < |t| && t[i].pid == pid ==> t[i].base == Pre(t, i)
  }

  /** A PCB the kernel walks over ends up with the right copies exactly when its process owns no row. */
  lemma WalkedIff(t: seq<Row>, pid: int)
    requires t != [] && t[0].pid == 0 && t[0].base == 0 && pid != 0
    ensures AllAsWritten(Copies(t, pid), pid, Relocated(t), |t|) == Some(Copies(Relocated(t), pid))
            <==> !Owns(t, |t|, pid)
  {
    var u := Relocated(t);
    EmptiedOrNot(Copies(t, pid), pid, u, |t|);
    SameOwners(t, u, pid);
    SameOwners(u, t, pid);
    if !Owns(t, |t|, pid) {
      assert Unmoved(t, pid);
      LeftIff(t, pid);
    }
  }

  lemma SameOwners(t: seq<Row>, u: seq<Row>, pid: int)
    requires |t| == |u| && forall i :: 0 <= i < |t| ==> t[i].pid == u[i].pid
    ensures Owns(t, |t|, pid) ==> Owns(u, |u|, pid)
  {
    if Owns(t, |t|, pid) {
      var i :| 0 <= i < |t| && t[i].pid == pid;
      assert u[i].pid == pid;
    }
  }

  /** A PCB nobody refreshes has the right copies exactly when none of its process's rows moved. */
  lemma LeftIff(t: seq<Row>, pid: int)
    requires t != [] && t[0].base == 0
    ensures Copies(t, pid) == Copies(Relocated(t), pid) <==> Unmoved(t, pid)
  {
    var u, ix := Relocated(t), Sources(t, pid);
    OwnRowsSame(t, u, |t|, pid);
    assert Sources(u, pid) == ix;
    if Unmoved(t, pid) {
      forall j | 0 <= j < |ix| ensures t[ix[j]] == u[ix[j]] {
        assert j > 0 ==> ix[j] == OwnRows(t, |t|, pid)[j - 1];
      }
    } else {
      var i :| 0 <= i < |t| && t[i].pid == pid && t[i].base != Pre(t, i);
      var p := OwnRowsHas(t, |t|, pid, i);
      assert ix[p + 1] == i && Copies(t, pid)[p + 1] == t[i] && Copies(u, pid)[p + 1] == u[i];
    }
  }

  // ----- which PCBs are where -----

  /** In a list the kernel walks over: blocked, execute and ready. */
  predicate Walked(s: K, p: Pid) {
    p in s.blocked || p in s.exec || p in s.ready
  }

  /** In new or on its way from there, finished, or in the hand of the thread that wakes PCBs after a file operation. */
  predicate Elsewhere(s: K, p: Pid) {
    p in s.newQ || s.adm == A3(p) || p in s.exitQ || s.fin == X2(p) || s.wake == F3(p)
  }

  /** In every reachable state in which the execute thread handles an answer, the three lists and its hand hold every
      live PCB but those; the hand's is in no list, and execute is empty. */
  lemma ReachedIff(degree: nat, totals: seq<nat>, es: seq<Event>, s: K, p: Pid)
    requires Run(Init(degree, totals), es) == Some(s) && s.exe.Running? && p in s.live
    ensures Walked(s, p) || s.exe == Running(p) <==> !Elsewhere(s, p)
    ensures s.exe == Running(p) ==> !Walked(s, p)
    ensures s.exec == []
  {
    InitInv(degree, totals);
    RunKeeps(Init(degree, totals), es, s);
    OnlyHand(s);
    assert InOnePlace(s, p);
    Member(s.newQ, p);
    Member(s.ready, p);
    Member(s.exec, p);
    Member(s.blocked, p);
    Member(s.exitQ, p);
  }

  lemma OnlyHand(s: K)
    requires Tokens(s) && s.exe.Running?
    ensures s.exec == [] && !s.dis.D3?
  {
    assert s.execLibre + DisHeld(s.dis).cpu + |s.exec| + 1 == 1;
  }

  // ----- after the refresh -----

  /** What PCB `p` holds after the refresh as written, if the kernel survives it. */
  function AfterAsWritten(s: K, t: seq<Row>, p: Pid): Option<seq<Row>>
    requires t != []
  {
    if Walked(s, p) then AllAsWritten(Copies(t, p), p, Relocated(t), |t|) else Some(Copies(t, p))
  }

  /** What it holds after the corrected refresh of the three lists and the execute thread's hand. */
  function AfterCorrected(s: K, t: seq<Row>, p: Pid): seq<Row>
    requires t != []
  {
    if Walked(s, p) || s.exe == Running(p) then Refresh(Copies(t, p), p, Relocated(t), |t|) else Copies(t, p)
  }

  /** Which live PCBs the refresh as written leaves right, in any reachable state in which memory may be asked to
      compact: in a walked list those whose process owns no row, elsewhere, the execute thread's hand included, those
      none of whose rows moved. */
  lemma AsWrittenRightIff(degree: nat, totals: seq<nat>, es: seq<Event>, s: K, t: seq<Row>, p: Pid)
    requires Run(Init(degree, totals), es) == Some(s) && s.exe.Running? && p in s.live
    requires t != [] && t[0].pid == 0 && t[0].base == 0
    ensures AfterAsWritten(s, t, p) == Some(Copies(Relocated(t), p))
            <==> if s.exe == Running(p) || Elsewhere(s, p) then Unmoved(t, p) else !Owns(t, |t|, p)
  {
    RunInOrder(Init(degree, totals), es, s);
    ReachedIff(degree, totals, es, s, p);
    WalkedIff(t, p);
    LeftIff(t, p);
  }

  /** And which the corrected refresh leaves right: all but PCBs elsewhere with a row that moved. */
  lemma CorrectedRightIff(degree: nat, totals: seq<nat>, es: seq<Event>, s: K, t: seq<Row>, p: Pid)
    requires Run(Init(degree, totals), es) == Some(s) && s.exe.Running? && p in s.live
    requires t != [] && DistinctIds(t) && t[0].pid == 0 && t[0].base == 0
    ensures AfterCorrected(s, t, p) == Copies(Relocated(t), p) <==> !Elsewhere(s, p) || Unmoved(t, p)
  {
    RunInOrder(Init(degree, totals), es, s);
    ReachedIff(degree, totals, es, s, p);
    BroadcastRestoresCopies(t, p);
    LeftIff(t, p);
  }

  /** PCBs as objects, none listed twice. */
  ghost predicate Apart(pcbs: seq<Pcb>) {
    forall i, j :: 0 <= i < j < |pcbs| ==> pcbs[i] != pcbs[j]
  }

  /** The PCBs the kernel can reach: those in a walked list and the one in the execute thread's hand. */
  method Reach(pcbs: seq<Pcb>, s: K) returns (reached: seq<Pcb>)
    requires Apart(pcbs) && forall k :: 0 <= k < |pcbs| ==> pcbs[k].pid >= 0
    ensures Apart(reached)
    ensures forall j :: 0 <= j < |reached| ==> reached[j] in pcbs
    ensures forall x: Pcb :: x in reached <==> x in pcbs && (Walked(s, x.pid) || s.exe == Running(x.pid))
  {
    reached := [];
    for k := 0 to |pcbs|
      invariant Apart(reached)
      invariant forall x: Pcb :: x in reached <==> x in pcbs[..k] && (Walked(s, x.pid) || s.exe == Running(x.pid))
    {
      assert pcbs[..k + 1] == pcbs[..k] + [pcbs[k]];
      assert pcbs[k] !in pcbs[..k];
      if Walked(s, pcbs[k].pid) || s.exe == Running(pcbs[k].pid) {
        reached := reached + [pcbs[k]];
      }
    }
    assert pcbs[..|pcbs|] == pcbs;
  }

  /** The exchange between memory and a kernel whose threads are where they may be: memory keeps every segment's bytes,
      and a PCB's copies are right afterwards exactly when it could be reached or none of its rows moved. */
  method CompactAsScheduled(m: Memory, pcbs: seq<Pcb>, s: K, ghost degree: nat, ghost totals: seq<nat>,
                            ghost es: seq<Event>)
    requires m.Inv() && DistinctIds(m.table)
    requires Run(Init(degree, totals), es) == Some(s) && s.exe.Running?
    requires Apart(pcbs) && forall k :: 0 <= k < |pcbs| ==> pcbs[k].pid >= 0 && pcbs[k].pid in s.live
    requires forall k :: 0 <= k < |pcbs| ==> pcbs[k].segments == Copies(m.table, pcbs[k].pid)
    modifies m`table, m.bitmap, m.bytes, pcbs
    ensures m.Inv() && m.View() == old(m.View()) && m.table == Relocated(old(m.table))
    ensures forall k :: 0 <= k < |pcbs| ==>
      (pcbs[k].segments == Copies(m.table, pcbs[k].pid) <==>
         !Elsewhere(s, pcbs[k].pid) || Unmoved(old(m.table), pcbs[k].pid))
  {
    ghost var t := m.table;
    RunInOrder(Init(degree, totals), es, s);
    var reached := Reach(pcbs, s);
    CompactAndBroadcast(m, reached);
    forall k | 0 <= k < |pcbs|
      ensures pcbs[k].segments == Copies(m.table, pcbs[k].pid)
              <==> !Elsewhere(s, pcbs[k].pid) || Unmoved(t, pcbs[k].pid)
    {
      ReachedIff(degree, totals, es, s, pcbs[k].pid);
      LeftIff(t, pcbs[k].pid);
      assert pcbs[k] in reached || pcbs[k].segments == Copies(t, pcbs[k].pid);
    }
  }

  // ----- a PCB the corrected refresh misses -----

  /** A process arrives. */
  lemma Arrives(s: K)
    requires s.adm == A0 && s.nuevos == 0 && s.newQ == []
    ensures Run(s, [Arrive, ArrivePost, Admit])
         == Some(s.(newQ := [s.nextPid], live := s.live + {s.nextPid}, nextPid := s.nextPid + 1, adm := A1))
  {
    var a := s.(newQ := [s.nextPid], live := s.live + {s.nextPid}, nextPid := s.nextPid + 1, arriving := s.arriving
        + 1);
    var b := a.(arriving := s.arriving, nuevos := 1);
    assert s.newQ + [s.nextPid] == [s.nextPid];
    RunThree(s, Arrive, a, ArrivePost, b, Admit, b.(nuevos := 0, adm := A1));
  }

  /** It is admitted. */
  lemma Admits(s: K, p: Pid)
    requires s.adm == A1 && s.grado > 0 && s.newQ == [p]
    ensures Run(s, [Admit, Admit, Admit]) == Some(s.(newQ := [], grado := s.grado - 1, ready := s.ready
            + [p], adm := A4))
  {
    var a := s.(grado := s.grado - 1, adm := A2);
    var b := a.(newQ := [], adm := A3(p));
    assert [p][1..] == [];
    RunThree(s, Admit, a, Admit, b, Admit, b.(ready := s.ready + [p], adm := A4));
  }

  /** The first ready process is dispatched. */
  lemma Dispatches(s: K, p: Pid, q: seq<Pid>)
    requires s.dis == D0 && s.readySem > 0 && s.execLibre > 0 && s.ready == [p] + q
    ensures Run(s, [Dispatch(0), Dispatch(0), Dispatch(0)])
         == Some(s.(readySem := s.readySem - 1, execLibre := s.execLibre - 1, ready := q, dis := D3(p)))
  {
    var a := s.(readySem := s.readySem - 1, dis := D1);
    var b := a.(execLibre := s.execLibre - 1, dis := D2);
    assert Without(s.ready, 0) == q;
    RunThree(s, Dispatch(0), a, Dispatch(0), b, Dispatch(0), b.(ready := q, dis := D3(p)));
  }

  /** It goes to execute, whose semaphore the execute thread takes. */
  lemma Starts(s: K, p: Pid)
    requires s.dis == D3(p) && s.exe == Idle && s.exec == [] && s.execSem == 0
    ensures Run(s, [Dispatch(0), Dispatch(0), Execute(Yield)]) == Some(s.(exec := [p], dis := D0, exe := Pop))
  {
    var a := s.(exec := [p], dis := D4);
    var b := a.(execSem := 1, dis := D0);
    assert s.exec + [p] == [p];
    RunThree(s, Dispatch(0), a, Dispatch(0), b, Execute(Yield), b.(execSem := 0, exe := Pop));
  }

  lemma Requests(s: K, p: Pid)
    requires s.exe == Running(p) && s.fsQueue == []
    ensures Step(s, Execute(FileOp)) == Some(s.(fsQueue := [p], exe := Sent(p)))
  {
    assert s.fsQueue + [p] == [p];
  }

  lemma GetsBlocked(s: K, p: Pid)
    requires s.exe == Sent(p) && s.blocked == [] && s.why == map[]
    ensures Step(s, Execute(Yield)) == Some(s.(blocked := [p], why := map[p := OnFs], exe := PostEnvio))
  {
    assert s.blocked + [p] == [p] && s.why[p := OnFs] == map[p := OnFs];
  }

  /** It sends a file request and is blocked. */
  lemma Asks(s: K, p: Pid)
    requires s.exe == Running(p) && s.fsQueue == [] && s.blocked == [] && s.why == map[]
    ensures Run(s, [Execute(FileOp), Execute(Yield), Execute(Yield)])
         == Some(s.(fsQueue := [p], blocked := [p], why := map[p := OnFs], envio := s.envio + 1, exe := Release))
  {
    var a := s.(fsQueue := [p], exe := Sent(p));
    Requests(s, p);
    var b := a.(blocked := [p], why := map[p := OnFs], exe := PostEnvio);
    GetsBlocked(a, p);
    RunThree(s, Execute(FileOp), a, Execute(Yield), b, Execute(Yield), b.(envio := s.envio + 1, exe := Release));
  }

  /** The CPU is free again while the answer comes in. */
  lemma Answers(s: K, p: Pid)
    requires s.exe == Release && s.fsQueue == [p] && s.fsDone == [] && s.wake == F0
    ensures Run(s, [Execute(Yield), FsReply, Wake])
            == Some(s.(execLibre := s.execLibre + 1, exe := Idle, fsQueue := [], wake := F1(p)))
  {
    var a := s.(execLibre := s.execLibre + 1, exe := Idle);
    var b := a.(fsDone := [p], fsQueue := []);
    assert s.fsDone + [p] == [p] && [p][1..] == [];
    RunThree(s, Execute(Yield), a, FsReply, b, Wake, b.(fsDone := [], wake := F1(p)));
  }

  /** The wake-up thread takes the PCB out of blocked. */
  lemma Wakes(s: K, p: Pid)
    requires s.wake == F1(p) && s.envio > 0 && s.blocked == [p] && s.why == map[p := OnFs]
    ensures Run(s, [Wake, Wake]) == Some(s.(envio := s.envio - 1, blocked := [], why := map[], wake := F3(p)))
  {
    var a := s.(envio := s.envio - 1, wake := F2(p));
    assert Remove([p], p) == [] && map[p := OnFs] - {p} == map[];
    assert [Wake, Wake][1..] == [Wake] && [Wake][1..] == [];
    assert Run(a, [Wake]) == Some(a.(blocked := [], why := map[], wake := F3(p)));
  }

  lemma Single(s: K, e: Event, t: K)
    requires Step(s, e) == Some(t)
    ensures Run(s, [e]) == Some(t)
  {
    assert [e][1..] == [];
  }

  /** A process arrives and gets to ready. */
  lemma Enters(s: K, p: Pid) returns (es: seq<Event>)
    requires s.adm == A0 && s.nuevos == 0 && s.newQ == [] && s.grado > 0 && p == s.nextPid
    ensures Run(s, es) == Some(s.(live := s.live + {p}, nextPid := p + 1, grado := s.grado - 1, ready := s.ready
            + [p], readySem := s.readySem + 1))
  {
    var a := s.(newQ := [p], live := s.live + {p}, nextPid := p + 1, adm := A1);
    Arrives(s);
    var b := a.(newQ := [], grado := s.grado - 1, ready := s.ready + [p], adm := A4);
    Admits(a, p);
    RunTwo(s, [Arrive, ArrivePost, Admit], a, [Admit, Admit, Admit]);
    es := [Arrive, ArrivePost, Admit] + [Admit, Admit, Admit];
    Single(b, Admit, b.(readySem := s.readySem + 1, adm := A0));
    RunTwo(s, es, b, [Admit]);
    es := es + [Admit];
  }

  /** The first ready process gets to the CPU. */
  lemma ToTheCpu(s: K, p: Pid, q: seq<Pid>) returns (es: seq<Event>)
    requires s.dis == D0 && s.exe == Idle && s.exec == [] && s.execSem == 0
    requires s.readySem > 0 && s.execLibre > 0 && s.ready == [p] + q
    ensures Run(s, es) == Some(s.(readySem := s.readySem - 1, execLibre := s.execLibre - 1, ready := q,
            exe := Running(p)))
  {
    var a := s.(readySem := s.readySem - 1, execLibre := s.execLibre - 1, ready := q, dis := D3(p));
    Dispatches(s, p, q);
    var b := a.(exec := [p], dis := D0, exe := Pop);
    Starts(a, p);
    RunTwo(s, [Dispatch(0), Dispatch(0), Dispatch(0)], a, [Dispatch(0), Dispatch(0), Execute(Yield)]);
    es := [Dispatch(0), Dispatch(0), Dispatch(0)] + [Dispatch(0), Dispatch(0), Execute(Yield)];
    assert [p][1..] == [];
    Single(b, Execute(Yield), b.(exec := [], exe := Running(p)));
    RunTwo(s, es, b, [Execute(Yield)]);
    es := es + [Execute(Yield)];
  }

  /** Its request is answered. */
  lemma ToTheAnswer(s: K, p: Pid) returns (es: seq<Event>)
    requires s.exe == Running(p) && s.wake == F0 && s.fsQueue == [] && s.fsDone == [] && s.blocked == []
             && s.why == map[]
    ensures Run(s, es) == Some(s.(blocked := [p], why := map[p := OnFs], envio := s.envio + 1, execLibre := s.execLibre
            + 1, exe := Idle, wake := F1(p)))
  {
    var a := s.(fsQueue := [p], blocked := [p], why := map[p := OnFs], envio := s.envio + 1, exe := Release);
    Asks(s, p);
    Answers(a, p);
    RunTwo(s, [Execute(FileOp), Execute(Yield), Execute(Yield)], a, [Execute(Yield), FsReply, Wake]);
    es := [Execute(FileOp), Execute(Yield), Execute(Yield)] + [Execute(Yield), FsReply, Wake];
  }

  /** Its PCB gets into the wake-up thread's hand. */
  lemma ToTheWaker(s: K, p: Pid) returns (es: seq<Event>)
    requires s.exe == Running(p) && s.wake == F0 && s.fsQueue == [] && s.fsDone == [] && s.blocked == []
             && s.why == map[]
    ensures Run(s, es) == Some(s.(execLibre := s.execLibre + 1, exe := Idle, wake := F3(p)))
  {
    es := ToTheAnswer(s, p);
    var b := s.(blocked := [p], why := map[p := OnFs], envio := s.envio + 1, execLibre := s.execLibre
        + 1, exe := Idle, wake := F1(p));
    Wakes(b, p);
    RunTwo(s, es, b, [Wake, Wake]);
    es := es + [Wake, Wake];
  }

  /** A reachable state in which process 2 is in the execute thread's hand and process 1 in the wake-up thread's. */
  lemma InTheWakersHand() returns (es: seq<Event>, s: K)
    ensures Run(Init(2, []), es) == Some(s) && s.exe == Running(2) && s.wake == F3(1) && s.live == {1, 2}
  {
    var i := Init(2, []);
    es := Enters(i, 1);
    s := Run(i, es).value;
    assert i.ready + [1] == [1] && [1] + [2] == [1, 2] && [2] + [] == [2];
    var fs := Enters(s, 2);
    es, s := Then(i, es, s, fs);
    fs := ToTheCpu(s, 1, [2]);
    es, s := Then(i, es, s, fs);
    fs := ToTheWaker(s, 1);
    es, s := Then(i, es, s, fs);
    fs := ToTheCpu(s, 2, []);
    es, s := Then(i, es, s, fs);
  }

  lemma Then(i: K, es: seq<Event>, s: K, fs: seq<Event>) returns (gs: seq<Event>, t: K)
    requires Run(i, es) == Some(s) && Run(s, fs).Some?
    ensures gs == es + fs && Run(i, gs) == Some(t) == Run(s, fs)
  {
    RunTwo(i, es, s, fs);
    gs, t := es + fs, Run(s, fs).value;
  }

  /** With a segment of process 1 behind a gap, even the corrected refresh leaves its copies wrong there. */
  lemma WakersHandMissed() returns (es: seq<Event>, s: K, t: seq<Row>)
    ensures Run(Init(2, []), es) == Some(s) && s.exe == Running(2) && 1 in s.live
    ensures t != [] && DistinctIds(t) && t[0].pid == 0 && t[0].base == 0
    ensures AfterCorrected(s, t, 1) != Copies(Relocated(t), 1)
  {
    es, s := InTheWakersHand();
    t := [Row(0, 0, 0, 0, 4), Row(1, 1, 1, 6, 4)];
    assert Pre(t, 1) == 4;
    assert t[1].pid == 1 && t[1].base != Pre(t, 1);
    CorrectedRightIff(2, [], es, s, t, 1);
  }

  // ----- the walk as written -----

  /** One PCB; false is the null pointer. */
  method UpdateAsWritten(x: Pcb, row: Row) returns (ok: bool)
    modifies x
    ensures OneAsWritten(old(x.segments), x.pid, row) == if ok then Some(x.segments) else None
  {
    var k := 0;
    while k < |x.segments| && x.segments[k].id != row.id
      invariant k <= |x.segments| && forall j :: 0 <= j < k ==> x.segments[j].id != row.id
    {
      k := k + 1;
    }
    FirstWithIs(x.segments, row.id, k);
    ok := true;
    if row.pid == x.pid {
      if k < |x.segments| {
        x.segments := x.segments[k := x.segments[k].(base := row.base, limite := row.limite)];
        x.segments := [];
      } else {
        ok := false;
      }
    }
  }

  /** One row offered to every PCB of the walked lists. */
  method WalkRow(walked: seq<Pcb>, row: Row) returns (ok: bool)
    requires Apart(walked)
    modifies walked
    ensures ok ==> forall k ::
              0 <= k < |walked| ==>
                    OneAsWritten(old(walked[k].segments), walked[k].pid, row) == Some(walked[k].segments)
    ensures !ok ==> exists k :: 0 <= k < |walked| && OneAsWritten(old(walked[k].segments), walked[k].pid, row) == None
  {
    for j := 0 to |walked|
      invariant forall k ::
                  0 <= k < j ==> OneAsWritten(old(walked[k].segments), walked[k].pid, row) == Some(walked[k].segments)
      invariant forall k :: j <= k < |walked| ==> walked[k].segments == old(walked[k].segments)
    {
      ok := UpdateAsWritten(walked[j], row);
      if !ok { return; }
    }
    ok := true;
  }

  lemma {:induction false} NoneStays(segs: seq<Row>, pid: int, t: seq<Row>, i: nat, k: nat)
    requires i <= k <= |t| && AllAsWritten(segs, pid, t, i) == None
    ensures AllAsWritten(segs, pid, t, k) == None
  {
    if i < k { NoneStays(segs, pid, t, i, k - 1); }
  }

  /** `actualizarPorCompactacion` as written: either the kernel stops at a null pointer, and then for a PCB for which
      `AllAsWritten` says so, or every PCB walked over is left with what `AllAsWritten` says. */
  method WalkAsWritten(walked: seq<Pcb>, t: seq<Row>) returns (ok: bool)
    requires Apart(walked)
    modifies walked
    ensures ok ==> forall k ::
              0 <= k < |walked| ==>
                    AllAsWritten(old(walked[k].segments), walked[k].pid, t, |t|) == Some(walked[k].segments)
    ensures !ok ==> exists k ::
              0 <= k < |walked| && AllAsWritten(old(walked[k].segments), walked[k].pid, t, |t|) == None
  {
    for i := 0 to |t|
      invariant forall k ::
                  0 <= k < |walked| ==>
                        AllAsWritten(old(walked[k].segments), walked[k].pid, t, i) == Some(walked[k].segments)
    {
      ok := WalkRow(walked, t[i]);
      if !ok {
        ghost var k :| 0 <= k < |walked| && AllAsWritten(old(walked[k].segments), walked[k].pid, t, i + 1) == None;
        NoneStays(old(walked[k].segments), walked[k].pid, t, i + 1, |t|);
        return;
      }
    }
    ok := true;
  }
}
