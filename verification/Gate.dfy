/** The gate between file reads, file writes and compaction: two semaphores and a reader count, stepped by any
    number of participants in any order. */
module Gate {
  import opened Bytes

  /** Where a participant is. Readers: R0 wants to enter, R1 holds rwLock, R2 is the first reader waiting for
      resourceAccess, R3 is counted and about to post rwLock, R4 reads, R5 wants to leave, R6 holds rwLock again,
      R7 was the last reader and is about to post resourceAccess, R8 is about to post rwLock. Writers and
      compactions: W0 wants to enter, W1 is inside. */
  datatype Point = R0 | R1 | R2 | R3 | R4 | R5 | R6 | R7 | R8 | W0(compacting: bool) | W1(compacting: bool) | Done

  datatype G = G(rwLock: nat, access: nat, readers: nat, at: seq<Point>)

  datatype Move = JoinReader | JoinWriter(compacting: bool) | Advance(i: nat)

  /** One semaphore operation or one update of the count; None while the participant has to wait. */
  function Advanced(g: G, i: nat): Option<G>
    requires i < |g.at|
  {
    match g.at[i]
    case R0 => if g.rwLock > 0 then Some(G(g.rwLock - 1, g.access, g.readers, g.at[i := R1])) else None
    case R1 => Some(G(g.rwLock, g.access, g.readers + 1, g.at[i := if g.readers + 1 == 1 then R2 else R3]))
    case R2 => if g.access > 0 then Some(G(g.rwLock, g.access - 1, g.readers, g.at[i := R3])) else None
    case R3 => Some(G(g.rwLock + 1, g.access, g.readers, g.at[i := R4]))
    case R4 => Some(G(g.rwLock, g.access, g.readers, g.at[i := R5]))
    case R5 => if g.rwLock > 0 then Some(G(g.rwLock - 1, g.access, g.readers, g.at[i := R6])) else None
    case R6 =>
      if g.readers > 0 then Some(G(g.rwLock, g.access, g.readers - 1, g.at[i := if g.readers - 1 == 0 then R7 else R8]))
          else None
    case R7 => Some(G(g.rwLock, g.access + 1, g.readers, g.at[i := R8]))
    case R8 => Some(G(g.rwLock + 1, g.access, g.readers, g.at[i := Done]))
    case W0(c) => if g.access > 0 then Some(G(g.rwLock, g.access - 1, g.readers, g.at[i := W1(c)])) else None
    case W1(_) => Some(G(g.rwLock, g.access + 1, g.readers, g.at[i := Done]))
    case Done => None
  }

  function Step(g: G, m: Move): Option<G> {
    match m
    case JoinReader => Some(g.(at := g.at + [R0]))
    case JoinWriter(c) => Some(g.(at := g.at + [W0(c)]))
    case Advance(i) => if i < |g.at| then Advanced(g, i) else None
  }

  const START := G(1, 1, 0, [])

  function Run(g: G, ms: seq<Move>): Option<G>
    decreases |ms|
  {
    if ms == [] then Some(g)
    else match Step(g, ms[0]) case None => None case Some(h) => Run(h, ms[1..])
  }

  // ----- counting participants -----

  /** What a participant contributes: counted as a reader, inside as a writer or compaction, and rwLock held, as
      the first reader waiting for resourceAccess, as the last one about to post it, or otherwise. */
  datatype Share = Share(other: nat, counted: nat, first: nat, last: nat, writer: nat)

  function ShareOf(p: Point): Share {
    match p
    case R1 => Share(1, 0, 0, 0, 0)
    case R2 => Share(0, 1, 1, 0, 0)
    case R3 => Share(1, 1, 0, 0, 0)
    case R4 => Share(0, 1, 0, 0, 0)
    case R5 => Share(0, 1, 0, 0, 0)
    case R6 => Share(1, 1, 0, 0, 0)
    case R7 => Share(0, 0, 0, 1, 0)
    case R8 => Share(1, 0, 0, 0, 0)
    case W1(_) => Share(0, 0, 0, 0, 1)
    case _ => Share(0, 0, 0, 0, 0)
  }

  function Plus(x: Share, y: Share): Share {
    Share(x.other + y.other, x.counted + y.counted, x.first + y.first, x.last + y.last, x.writer + y.writer)
  }

  function Shares(at: seq<Point>): (xs: seq<Share>)
    ensures |xs| == |at|
  {
    seq(|at|, i requires 0 <= i < |at| => ShareOf(at[i]))
  }

  function Sum(xs: seq<Share>, k: nat): Share
    requires k <= |xs|
  {
    if k == 0 then Share(0, 0, 0, 0, 0) else Plus(Sum(xs, k - 1), xs[k - 1])
  }

  function Total(at: seq<Point>): Share {
    Sum(Shares(at), |at|)
  }

  lemma {:induction false} SumSame(xs: seq<Share>, ys: seq<Share>, k: nat)
    requires k <= |xs| && k <= |ys| && forall i :: 0 <= i < k ==> xs[i] == ys[i]
    ensures Sum(xs, k) == Sum(ys, k)
  {
    if k > 0 { SumSame(xs, ys, k - 1); }
  }

  lemma {:induction false} SumMoved(xs: seq<Share>, i: nat, x: Share, k: nat)
    requires i < k <= |xs|
    ensures Plus(Sum(xs[i := x], k), xs[i]) == Plus(Sum(xs, k), x)
  {
    if k - 1 == i {
      SumSame(xs[i := x], xs, k - 1);
    } else {
      SumMoved(xs, i, x, k - 1);
    }
  }

  lemma TotalMoved(at: seq<Point>, i: nat, p: Point)
    requires i < |at|
    ensures Plus(Total(at[i := p]), ShareOf(at[i])) == Plus(Total(at), ShareOf(p))
  {
    assert Shares(at[i := p]) == Shares(at)[i := ShareOf(p)];
    SumMoved(Shares(at), i, ShareOf(p), |at|);
  }

  lemma TotalJoined(at: seq<Point>, p: Point)
    ensures Total(at + [p]) == Plus(Total(at), ShareOf(p))
  {
    assert Shares(at + [p]) == Shares(at) + [ShareOf(p)];
    SumSame(Shares(at) + [ShareOf(p)], Shares(at), |at|);
  }

  ghost predicate AtMost(x: Share, y: Share) {
    x.other <= y.other && x.counted <= y.counted && x.first <= y.first && x.last <= y.last && x.writer <= y.writer
  }

  lemma {:induction false} SumHas(xs: seq<Share>, i: nat, k: nat)
    requires i < k <= |xs|
    ensures AtMost(xs[i], Sum(xs, k))
  {
    if k - 1 != i { SumHas(xs, i, k - 1); }
  }

  lemma {:induction false} SumHasBoth(xs: seq<Share>, i: nat, j: nat, k: nat)
    requires i < j < k <= |xs|
    ensures AtMost(Plus(xs[i], xs[j]), Sum(xs, k))
  {
    if k - 1 == j { SumHas(xs, i, k - 1); } else { SumHasBoth(xs, i, j, k - 1); }
  }

  lemma TotalHas(at: seq<Point>, i: nat)
    requires i < |at|
    ensures AtMost(ShareOf(at[i]), Total(at))
  {
    SumHas(Shares(at), i, |at|);
  }

  // ----- the invariant -----

  function One(b: bool): nat { if b then 1 else 0 }

  ghost predicate OkWith(rwLock: nat, access: nat, readers: nat, t: Share) {
    && rwLock + t.other + t.first + t.last == 1
    && readers == t.counted
    && access + t.writer + One(readers > 0) + t.last == 1 + t.first
    && (t.first > 0 ==> readers == 1)
    && (t.last > 0 ==> readers == 0)
  }

  /** `readersCount` counts the readers inside; rwLock has one holder; resourceAccess is free, or held by one
      writer or compaction, or by the readers as a group. */
  ghost predicate Ok(g: G) {
    OkWith(g.rwLock, g.access, g.readers, Total(g.at))
  }

  /** A reader on its way in. */
  predicate Entering(x: Point) {
    x.R0? || x.R1? || x.R2? || x.R3? || x.R4?
  }

  lemma EntryKeeps(g: G, i: nat, h: G, t: Share, u: Share)
    requires i < |g.at| && Entering(g.at[i]) && Advanced(g, i) == Some(h) && OkWith(g.rwLock, g.access, g.readers, t)
    requires AtMost(ShareOf(g.at[i]), t) && Plus(u, ShareOf(g.at[i])) == Plus(t, ShareOf(h.at[i]))
    ensures OkWith(h.rwLock, h.access, h.readers, u)
  {
    match g.at[i] {
      case R0 => assert OkWith(h.rwLock, h.access, h.readers, u);
      case R1 => assert OkWith(h.rwLock, h.access, h.readers, u);
      case R2 => assert OkWith(h.rwLock, h.access, h.readers, u);
      case R3 => assert OkWith(h.rwLock, h.access, h.readers, u);
      case R4 => assert OkWith(h.rwLock, h.access, h.readers, u);
    }
  }

  lemma ExitKeeps(g: G, i: nat, h: G, t: Share, u: Share)
    requires i < |g.at| && !Entering(g.at[i]) && Advanced(g, i) == Some(h) && OkWith(g.rwLock, g.access, g.readers, t)
    requires AtMost(ShareOf(g.at[i]), t) && Plus(u, ShareOf(g.at[i])) == Plus(t, ShareOf(h.at[i]))
    ensures OkWith(h.rwLock, h.access, h.readers, u)
  {
    match g.at[i] {
      case R5 => assert OkWith(h.rwLock, h.access, h.readers, u);
      case R6 => assert OkWith(h.rwLock, h.access, h.readers, u);
      case R7 => assert OkWith(h.rwLock, h.access, h.readers, u);
      case R8 => assert OkWith(h.rwLock, h.access, h.readers, u);
      case W0(c) => assert OkWith(h.rwLock, h.access, h.readers, u);
      case W1(c) => assert OkWith(h.rwLock, h.access, h.readers, u);
    }
  }

  lemma AdvanceKeeps(g: G, i: nat, h: G, t: Share, u: Share)
    requires i < |g.at| && Advanced(g, i) == Some(h) && OkWith(g.rwLock, g.access, g.readers, t)
    requires AtMost(ShareOf(g.at[i]), t) && Plus(u, ShareOf(g.at[i])) == Plus(t, ShareOf(h.at[i]))
    ensures OkWith(h.rwLock, h.access, h.readers, u)
  {
    if Entering(g.at[i]) { EntryKeeps(g, i, h, t, u); } else { ExitKeeps(g, i, h, t, u); }
  }

  lemma OnlyOneMoves(g: G, i: nat, h: G)
    requires i < |g.at| && Advanced(g, i) == Some(h)
    ensures |h.at| == |g.at| && h.at == g.at[i := h.at[i]]
  {
  }

  lemma JoinKeeps(rwLock: nat, access: nat, readers: nat, t: Share, u: Share)
    requires OkWith(rwLock, access, readers, t) && u == Plus(t, Share(0, 0, 0, 0, 0))
    ensures OkWith(rwLock, access, readers, u)
  {
  }

  lemma MoveKeeps(g: G, i: nat, h: G)
    requires Ok(g) && i < |g.at| && Advanced(g, i) == Some(h)
    ensures Ok(h)
  {
    OnlyOneMoves(g, i, h);
    TotalHas(g.at, i);
    TotalMoved(g.at, i, h.at[i]);
    AdvanceKeeps(g, i, h, Total(g.at), Total(h.at));
  }

  lemma NewcomerKeeps(g: G, p: Point)
    requires Ok(g) && ShareOf(p) == Share(0, 0, 0, 0, 0)
    ensures Ok(g.(at := g.at + [p]))
  {
    TotalJoined(g.at, p);
    JoinKeeps(g.rwLock, g.access, g.readers, Total(g.at), Total(g.at + [p]));
  }

  lemma StepKeeps(g: G, m: Move, h: G)
    requires Ok(g) && Step(g, m) == Some(h)
    ensures Ok(h)
  {
    match m {
      case JoinReader => NewcomerKeeps(g, R0);
      case JoinWriter(c) => NewcomerKeeps(g, W0(c));
      case Advance(i) => MoveKeeps(g, i, h);
    }
  }

  lemma {:induction false} RunKeeps(g: G, ms: seq<Move>, h: G)
    requires Ok(g) && Run(g, ms) == Some(h)
    ensures Ok(h)
    decreases |ms|
  {
    if ms != [] {
      StepKeeps(g, ms[0], Step(g, ms[0]).value);
      RunKeeps(Step(g, ms[0]).value, ms[1..], h);
    }
  }

  // ----- what it means -----

  /** Inside the guarded region: reading, or about to post after entering, or on the way out but still counted. */
  predicate Reading(p: Point) { p.R3? || p.R4? || p.R5? || p.R6? }
  predicate Writing(p: Point) { p.W1? }

  /** A share with a writer excludes every other share with a writer or a reader past the gate. */
  lemma SharesExclude(rwLock: nat, access: nat, readers: nat, xs: seq<Share>, i: nat, j: nat)
    requires forall k :: 0 <= k < |xs| && xs[k].first > 0 ==> xs[k].counted > 0
    requires OkWith(rwLock, access, readers, Sum(xs, |xs|)) && i < |xs| && j < |xs| && i != j && xs[i].writer > 0
    ensures xs[j].writer == 0 && (xs[j].counted > 0 ==> xs[j].first > 0)
  {
    SumHasTwo(xs, i, j);
    WriterAlone(rwLock, access, readers, Sum(xs, |xs|), xs[i], xs[j]);
    if xs[j].counted > 0 && xs[j].first == 0 {
      var _, _, k, _, _ := Witness(xs, |xs|);
      SumHasTwo(xs, k, j);
      FirstAlone(rwLock, access, readers, Sum(xs, |xs|), xs[k], xs[j]);
    }
  }

  lemma WriterAlone(rwLock: nat, access: nat, readers: nat, t: Share, x: Share, y: Share)
    requires OkWith(rwLock, access, readers, t) && AtMost(Plus(x, y), t) && x.writer > 0
    ensures y.writer == 0 && (y.counted > 0 ==> t.first == 1)
  {
  }

  lemma FirstAlone(rwLock: nat, access: nat, readers: nat, t: Share, x: Share, y: Share)
    requires OkWith(rwLock, access, readers, t) && AtMost(Plus(x, y), t) && x.first > 0
    ensures x.counted > 0 ==> y.counted == 0
  {
  }

  lemma SumHasTwo(xs: seq<Share>, i: nat, j: nat)
    requires i < |xs| && j < |xs| && i != j
    ensures AtMost(Plus(xs[i], xs[j]), Sum(xs, |xs|))
  {
    if i < j { SumHasBoth(xs, i, j, |xs|); } else { SumHasBoth(xs, j, i, |xs|); }
  }

  /** In every reachable state a writer or a compaction shares the gate with nobody. */
  lemma Exclusive(ms: seq<Move>, g: G, i: nat, j: nat)
    requires Run(START, ms) == Some(g) && i < |g.at| && j < |g.at| && i != j && Writing(g.at[i])
    ensures !Reading(g.at[j]) && !Writing(g.at[j])
  {
    StartOk();
    RunKeeps(START, ms, g);
    FirstIsCounted(g.at);
    SharesExclude(g.rwLock, g.access, g.readers, Shares(g.at), i, j);
  }

  lemma FirstIsCounted(at: seq<Point>)
    ensures forall k :: 0 <= k < |at| && Shares(at)[k].first > 0 ==> Shares(at)[k].counted > 0
  {
  }

  lemma StartOk()
    ensures Ok(START)
  {
    assert Total([]) == Share(0, 0, 0, 0, 0);
  }

  /** Somebody stands for every positive total. */
  lemma {:induction false} Witness(xs: seq<Share>, k: nat) returns (o: nat, c: nat, f: nat, l: nat, w: nat)
    requires k <= |xs|
    ensures Sum(xs, k).other > 0 ==> o < k && xs[o].other > 0
    ensures Sum(xs, k).counted > 0 ==> c < k && xs[c].counted > 0
    ensures Sum(xs, k).first > 0 ==> f < k && xs[f].first > 0
    ensures Sum(xs, k).last > 0 ==> l < k && xs[l].last > 0
    ensures Sum(xs, k).writer > 0 ==> w < k && xs[w].writer > 0
  {
    o, c, f, l, w := 0, 0, 0, 0, 0;
    if k > 0 {
      o, c, f, l, w := Witness(xs, k - 1);
      if xs[k - 1].other > 0 { o := k - 1; }
      if xs[k - 1].counted > 0 { c := k - 1; }
      if xs[k - 1].first > 0 { f := k - 1; }
      if xs[k - 1].last > 0 { l := k - 1; }
      if xs[k - 1].writer > 0 { w := k - 1; }
    }
  }

  /** In every reachable state the count is the number of readers that have entered and not left. */
  lemma CountIsReaders(ms: seq<Move>, g: G)
    requires Run(START, ms) == Some(g)
    ensures g.readers == |Counted(g.at, |g.at|)|
  {
    RunKeeps(START, ms, g);
    CountedSize(g.at, |g.at|);
  }

  function Counted(at: seq<Point>, k: nat): set<nat>
    requires k <= |at|
  {
    set i: nat | i < k && (at[i].R2? || Reading(at[i]))
  }

  lemma {:induction false} CountedSize(at: seq<Point>, k: nat)
    requires k <= |at|
    ensures |Counted(at, k)| == Sum(Shares(at), k).counted
  {
    if k > 0 {
      CountedSize(at, k - 1);
      CountedStep(at, k - 1);
      CountedShare(at[k - 1]);
      assert Shares(at)[k - 1] == ShareOf(at[k - 1]);
    } else {
      assert Counted(at, k) == {};
    }
  }

  lemma CountedStep(at: seq<Point>, i: nat)
    requires i < |at|
    ensures |Counted(at, i + 1)| == |Counted(at, i)| + One(at[i].R2? || Reading(at[i]))
  {
    if at[i].R2? || Reading(at[i]) {
      assert Counted(at, i + 1) == Counted(at, i) + {i};
    } else {
      assert Counted(at, i + 1) == Counted(at, i);
    }
  }

  lemma CountedShare(p: Point)
    ensures ShareOf(p).counted == One(p.R2? || Reading(p))
  {
  }

  // ----- everybody goes inside once -----

  /** The guarded work itself: reading, or writing or compacting. */
  predicate Inside(p: Point) { p.R4? || p.W1? }

  /** How often participant `i` has come to point `x` in a run. */
  function Visits(g: G, ms: seq<Move>, i: nat, x: Point): nat
    decreases |ms|
  {
    if ms == [] then 0
    else match Step(g, ms[0])
      case None => 0
      case Some(h) => One(ms[0] == Advance(i) && i < |h.at| && h.at[i] == x) + Visits(h, ms[1..], i, x)
  }

  /** Where the guarded work of a participant is done, by the move with which it joined. */
  function WorkOf(join: Move): Point
    requires !join.Advance?
  {
    match join case JoinReader => R4 case JoinWriter(c) => W1(c)
  }

  /** The moves with which participants have joined, in order. */
  function Joins(ms: seq<Move>): (js: seq<Move>)
    ensures forall k :: 0 <= k < |js| ==> !js[k].Advance?
  {
    if ms == [] then [] else (if ms[0].Advance? then [] else [ms[0]]) + Joins(ms[1..])
  }

  /** Not yet at its work: on the way there, as the participant it joined as. */
  predicate Before(p: Point, work: Point) {
    match work
    case R4 => p.R0? || p.R1? || p.R2? || p.R3?
    case W1(c) => p == W0(c)
    case _ => false
  }

  /** At its work or behind it. */
  predicate Behind(p: Point, work: Point) {
    match work
    case R4 => p.R4? || p.R5? || p.R6? || p.R7? || p.R8? || p.Done?
    case W1(c) => p == W1(c) || p.Done?
    case _ => false
  }

  /** It has been at its work once when it is there or behind it, and never at anybody else's. */
  ghost predicate OnItsWay(p: Point, work: Point, x: Point, visits: nat) {
    if x == work then (Before(p, work) && visits == 0) || (Behind(p, work) && visits == 1)
    else (Before(p, work) || Behind(p, work)) && visits == 0
  }

  lemma WayStep(g: G, i: nat, h: G, work: Point, x: Point, visits: nat)
    requires i < |g.at| && Advanced(g, i) == Some(h) && (work.R4? || work.W1?) && Inside(x)
    requires OnItsWay(g.at[i], work, x, visits)
    ensures i < |h.at| && OnItsWay(h.at[i], work, x, visits + One(h.at[i] == x))
  {
  }

  /** A participant that is there at the start of a run. */
  lemma {:induction false} RunOnItsWay(g: G, ms: seq<Move>, h: G, i: nat, work: Point, x: Point, visits: nat)
    requires Run(g, ms) == Some(h) && i < |g.at| && (work.R4? || work.W1?) && Inside(x)
    requires OnItsWay(g.at[i], work, x, visits)
    ensures i < |h.at| && OnItsWay(h.at[i], work, x, visits + Visits(g, ms, i, x))
    decreases |ms|
  {
    if ms != [] {
      var next := Step(g, ms[0]).value;
      if ms[0].Advance? { OnlyOneMoves(g, ms[0].i, next); }
      if ms[0] == Advance(i) {
        WayStep(g, i, next, work, x, visits);
        RunOnItsWay(next, ms[1..], h, i, work, x, visits + One(next.at[i] == x));
      } else {
        RunOnItsWay(next, ms[1..], h, i, work, x, visits);
      }
    }
  }

  /** A participant that joins in the course of it. */
  lemma {:induction false} RunJoins(g: G, ms: seq<Move>, h: G, k: nat, x: Point)
    requires Run(g, ms) == Some(h) && Inside(x)
    ensures |h.at| == |g.at| + |Joins(ms)|
    ensures k < |Joins(ms)| ==>
      OnItsWay(h.at[|g.at| + k], WorkOf(Joins(ms)[k]), x, Visits(g, ms, |g.at| + k, x))
    decreases |ms|
  {
    if ms != [] {
      var next := Step(g, ms[0]).value;
      if ms[0].Advance? {
        OnlyOneMoves(g, ms[0].i, next);
        RunJoins(next, ms[1..], h, k, x);
      } else if k == 0 {
        RunJoins(next, ms[1..], h, 0, x);
        RunOnItsWay(next, ms[1..], h, |g.at|, WorkOf(ms[0]), x, 0);
      } else {
        RunJoins(next, ms[1..], h, k - 1, x);
      }
    }
  }

  /** In every reachable state whoever is done has been inside exactly once, at the work it joined for: a reader
      reading, a writer writing, a compaction compacting, and nowhere else. Whoever still wants to enter has not been
      inside, and whoever is inside is there for the first time. */
  lemma InsideOnce(ms: seq<Move>, g: G, i: nat, x: Point)
    requires Run(START, ms) == Some(g) && i < |g.at| && Inside(x)
    ensures |Joins(ms)| == |g.at|
    ensures g.at[i].Done? ==> Visits(START, ms, i, x) == One(x == WorkOf(Joins(ms)[i]))
    ensures g.at[i] == x ==> Visits(START, ms, i, x) == 1 && x == WorkOf(Joins(ms)[i])
    ensures (g.at[i].R0? || g.at[i].W0?) ==> Visits(START, ms, i, x) == 0
  {
    RunJoins(START, ms, g, i, x);
  }

  /** While anybody is inside, `resourceAccess` is taken. */
  lemma InsideHoldsAccess(ms: seq<Move>, g: G, i: nat)
    requires Run(START, ms) == Some(g) && i < |g.at| && Inside(g.at[i])
    ensures g.access == 0
  {
    StartOk();
    RunKeeps(START, ms, g);
    TotalHas(g.at, i);
    if g.at[i].R4? && Total(g.at).first > 0 {
      var _, _, k, _, _ := Witness(Shares(g.at), |g.at|);
      assert Shares(g.at)[k] == ShareOf(g.at[k]);
      SumHasTwo(Shares(g.at), k, i);
    }
  }

  // ----- no deadlock -----

  predicate CanMove(rwLock: nat, access: nat, readers: nat, p: Point) {
    match p
    case R0 => rwLock > 0
    case R2 => access > 0
    case R5 => rwLock > 0
    case R6 => readers > 0
    case W0(_) => access > 0
    case Done => false
    case _ => true
  }

  /** rwLock's holder, a writer inside, and, when neither exists, any unfinished reader can move. */
  lemma Mover(rwLock: nat, access: nat, readers: nat, t: Share, p: Point)
    requires OkWith(rwLock, access, readers, t) && AtMost(ShareOf(p), t) && !p.Done?
    requires ShareOf(p).writer > 0 || (t.writer == 0 && ShareOf(p).other + ShareOf(p).first + ShareOf(p).last > 0)
             || (t.writer == 0 && t.other + t.first + t.last == 0 && (p.W0? ==> readers == 0))
    ensures CanMove(rwLock, access, readers, p)
  {
  }

  lemma MoverAdvances(g: G, i: nat)
    requires i < |g.at| && CanMove(g.rwLock, g.access, g.readers, g.at[i])
    ensures Advanced(g, i).Some?
  {
  }

  /** While anybody is unfinished, somebody can move: the gate never deadlocks. */
  lemma NeverStuck(ms: seq<Move>, g: G, i: nat) returns (j: nat)
    requires Run(START, ms) == Some(g) && i < |g.at| && !g.at[i].Done?
    ensures j < |g.at| && Advanced(g, j).Some?
  {
    StartOk();
    RunKeeps(START, ms, g);
    var t := Total(g.at);
    var o, c, f, l, w := Witness(Shares(g.at), |g.at|);
    j := if t.writer > 0 then w
         else if t.other > 0 then o
         else if t.first > 0 then f
         else if t.last > 0 then l
         else if g.at[i].W0? && g.readers > 0 then c
         else i;
    assert Shares(g.at)[j] == ShareOf(g.at[j]);
    TotalHas(g.at, j);
    Mover(g.rwLock, g.access, g.readers, t, g.at[j]);
    MoverAdvances(g, j);
  }
}
