/** The lists of processes by state, and the highest-response-ratio choice over the ready list. */
module StateLists {
  import opened Bytes

  /** A process as the short-term planner sees it. `arrival` is the instant its waiting clock was started. */
  datatype Pcb = Pcb(pid: nat, arrival: nat, estimate: real)

  predicate Estimated(p: Pcb) { p.estimate >= 1.0 }

  function Wait(p: Pcb, now: nat): nat {
    if p.arrival <= now then now - p.arrival else 0
  }

  /** 1 + waiting / burst estimate, in integers as the planner computes it. */
  function Ratio(p: Pcb, now: nat): nat
    requires Estimated(p)
  {
    1 + Wait(p, now) / p.estimate.Floor
  }

  /** Higher ratio first, and of equal ratios the longer wait. */
  predicate Precedes(p: Pcb, q: Pcb, now: nat)
    requires Estimated(p) && Estimated(q)
  {
    Ratio(p, now) > Ratio(q, now) || (Ratio(p, now) == Ratio(q, now) && Wait(p, now) >= Wait(q, now))
  }

  /** `mayor_hrrn`, with ties going to the one that waited longer. */
  function Higher(p: Pcb, q: Pcb, now: nat): Pcb
    requires Estimated(p) && Estimated(q)
  {
    if Ratio(p, now) > Ratio(q, now) then p
    else if Ratio(p, now) < Ratio(q, now) then q
    else if Wait(p, now) >= Wait(q, now) then p else q
  }

  predicate AllEstimated(q: seq<Pcb>) {
    forall i :: 0 <= i < |q| ==> Estimated(q[i])
  }

  /** The planner's choice: nobody precedes it strictly, and it is the first such in the list. */
  predicate IsNext(q: seq<Pcb>, now: nat, i: nat)
    requires AllEstimated(q)
  {
    && i < |q|
    && (forall j :: 0 <= j < |q| ==> Precedes(q[i], q[j], now))
    && (forall j :: 0 <= j < i ==> !Precedes(q[j], q[i], now))
  }

  function Without(q: seq<Pcb>, i: nat): (r: seq<Pcb>)
    requires i < |q|
  {
    q[..i] + q[i + 1..]
  }

  function WithoutPid(q: seq<Pcb>, pid: nat): seq<Pcb> {
    if q == [] then [] else if q[0].pid == pid then q[1..] else [q[0]] + WithoutPid(q[1..], pid)
  }

  class StateList {
    var list: seq<Pcb>

    constructor ()
      ensures list == []
    {
      list := [];
    }

    method Push(p: Pcb)
      modifies this
      ensures list == old(list) + [p]
    {
      list := list + [p];
    }

    method PopFirst() returns (r: Option<Pcb>)
      modifies this
      ensures old(list) == [] ==> r == None && list == []
      ensures old(list) != [] ==> r.Some? && old(list) == [r.value] + list
    {
      if list == [] {
        r := None;
      } else {
        r := Some(list[0]);
        list := list[1..];
      }
    }

    method RemovePid(pid: nat)
      modifies this
      ensures list == WithoutPid(old(list), pid)
    {
      var i := 0;
      while i < |list| && list[i].pid != pid
        invariant 0 <= i <= |list| && forall j :: 0 <= j < i ==> list[j].pid != pid
      {
        i := i + 1;
      }
      FirstMatchRemoved(list, pid, i);
      if i < |list| {
        list := list[..i] + list[i + 1..];
      }
    }

    /** The position of the choice: folding `mayor_hrrn` from the first element on. */
    method FindNext(now: nat) returns (k: nat)
      requires AllEstimated(list) && list != []
      ensures IsNext(list, now, k)
    {
      k := 0;
      var i := 1;
      while i < |list|
        invariant k < i <= |list|
        invariant forall j :: 0 <= j < i ==> Precedes(list[k], list[j], now)
        invariant forall j :: 0 <= j < k ==> !Precedes(list[j], list[k], now)
      {
        if !Precedes(list[k], list[i], now) { k := i; }
        i := i + 1;
      }
    }

    /** `next_hrrn_proceso`: the choice leaves the list; everybody else keeps their order. */
    method NextHrrn(now: nat) returns (r: Option<Pcb>, ghost k: nat)
      requires AllEstimated(list)
      modifies this
      ensures old(list) == [] ==> r == None && list == []
      ensures old(list) != [] ==>
        IsNext(old(list), now, k) && r == Some(old(list)[k]) && list == Without(old(list), k)
    {
      if list == [] {
        r, k := None, 0;
      } else {
        var c := FindNext(now);
        r, k := Some(list[c]), c;
        list := list[..c] + list[c + 1..];
      }
    }
  }

  // ----- the choice -----

  /** `Precedes` is what `mayor_hrrn` decides. */
  lemma HigherDecides(p: Pcb, q: Pcb, now: nat)
    requires Estimated(p) && Estimated(q)
    ensures Higher(p, q, now) == if Precedes(p, q, now) then p else q
  {
  }

  /** The fold of `mayor_hrrn` over the first `k` processes, as a position. */
  function NextAmong(q: seq<Pcb>, now: nat, k: nat): (i: nat)
    requires AllEstimated(q) && 0 < k <= |q|
    ensures i < k
  {
    if k == 1 then 0
    else
      var b := NextAmong(q, now, k - 1);
      if Higher(q[b], q[k - 1], now) == q[b] then b else k - 1
  }

  /** Folding `mayor_hrrn` over the ready list yields the planner's choice. */
  lemma {:induction false} FoldIsNext(q: seq<Pcb>, now: nat, k: nat)
    requires AllEstimated(q) && 0 < k <= |q|
    ensures IsNext(q[..k], now, NextAmong(q, now, k))
  {
    if k > 1 {
      FoldIsNext(q, now, k - 1);
      var b := NextAmong(q, now, k - 1);
      HigherDecides(q[b], q[k - 1], now);
      forall j | 0 <= j < k - 1 ensures Precedes(q[b], q[j], now) {
        assert q[..k - 1][j] == q[j] && q[..k - 1][b] == q[b];
      }
      forall j | 0 <= j < b ensures !Precedes(q[j], q[b], now) {
        assert q[..k - 1][j] == q[j] && q[..k - 1][b] == q[b];
      }
    }
  }

  lemma OnlyOneNext(q: seq<Pcb>, now: nat, i: nat, j: nat)
    requires AllEstimated(q) && IsNext(q, now, i) && IsNext(q, now, j)
    ensures i == j
  {
    assert Precedes(q[i], q[j], now) && Precedes(q[j], q[i], now);
  }

  lemma DivMonotone(a: nat, b: nat, c: nat, d: nat)
    requires a >= b && 0 < c <= d
    ensures a / c >= b / d
  {
    var x, y := a / c, b / d;
    assert a < (x + 1) * c by { assert a == x * c + a % c; }
    assert y * d <= b by { assert b == y * d + b % d; }
    if x < y {
      assert (x + 1) * c <= y * c by { MulMonotone(x + 1, y, c); }
      assert y * c <= y * d by { MulMonotone(c, d, y); }
    }
  }

  lemma MulMonotone(a: nat, b: nat, c: nat)
    requires a <= b
    ensures a * c <= b * c && c * a <= c * b
  {
    assert (b - a) * c >= 0;
    assert b * c == a * c + (b - a) * c;
  }

  /** A process that arrived earlier with no larger estimate has the higher ratio or the longer wait. */
  lemma EarlierPrecedes(p: Pcb, q: Pcb, now: nat)
    requires Estimated(p) && Estimated(q) && p.estimate <= q.estimate && p.arrival < q.arrival && p.arrival < now
    ensures Precedes(p, q, now) && !Precedes(q, p, now)
  {
    assert p.estimate.Floor <= q.estimate.Floor;
    DivMonotone(Wait(p, now), Wait(q, now), p.estimate.Floor, q.estimate.Floor);
  }

  /** The ratio is the whole part of one plus waiting over the whole part of the estimate. */
  lemma RatioBounds(p: Pcb, now: nat)
    requires Estimated(p) && p.arrival <= now
    ensures (Ratio(p, now) - 1) * p.estimate.Floor <= now - p.arrival < Ratio(p, now) * p.estimate.Floor
  {
    var f, w := p.estimate.Floor, now - p.arrival;
    assert w == w / f * f + w % f;
    assert (w / f + 1) * f == w / f * f + f;
  }

  /** Whose waiting over estimate is larger by one goes first, whoever arrived earlier. */
  lemma UnitLargerPrecedes(p: Pcb, q: Pcb, now: nat)
    requires Estimated(p) && Estimated(q) && p.arrival <= now && q.arrival <= now
    requires (now - p.arrival) * q.estimate.Floor >= (now - q.arrival + q.estimate.Floor) * p.estimate.Floor
    ensures Precedes(p, q, now) && !Precedes(q, p, now)
  {
    RatioBounds(p, now);
    RatioBounds(q, now);
    if Ratio(p, now) <= Ratio(q, now) {
      ShortOfUnit(now - p.arrival, p.estimate.Floor, Ratio(p, now), now - q.arrival, q.estimate.Floor, Ratio(q, now));
    }
  }

  lemma ShortOfUnit(v: nat, f: nat, a: nat, w: nat, g: nat, b: nat)
    requires v < a * f && (b - 1) * g <= w && a <= b && f > 0 && g > 0
    ensures v * g < (w + g) * f
  {
    MulMonotone(a, b, f);
    assert v * g < b * f * g by { Scaled(v, b * f, g); }
    assert b * g <= w + g by { assert (b - 1) * g == b * g - g; }
    MulMonotone(b * g, w + g, f);
    assert b * f * g == b * g * f;
  }

  lemma Scaled(x: nat, y: nat, g: nat)
    requires x < y && g > 0
    ensures x * g < y * g
  {
    MulMonotone(x + 1, y, g);
    assert (x + 1) * g == x * g + g;
  }

  /** The planner's choice: nobody in ready has a waiting over estimate larger than the chosen one's by one or more. */
  lemma ChosenWaitsEnough(q: seq<Pcb>, now: nat, i: nat, j: nat)
    requires AllEstimated(q) && IsNext(q, now, i) && j < |q| && q[i].arrival <= now && q[j].arrival <= now
    ensures (now - q[j].arrival) * q[i].estimate.Floor
            < (now - q[i].arrival + q[i].estimate.Floor) * q[j].estimate.Floor
  {
    if (now - q[j].arrival) * q[i].estimate.Floor
        >= (now - q[i].arrival + q[i].estimate.Floor) * q[j].estimate.Floor {
      UnitLargerPrecedes(q[j], q[i], now);
    }
  }

  /** A short process is chosen though a long one arrived before it. */
  lemma ShortGoesFirst()
    ensures var q := [Pcb(1, 0, 10.0), Pcb(2, 1, 1.0)]; AllEstimated(q) && IsNext(q, 10, 1) && !IsNext(q, 10, 0)
  {
    var q := [Pcb(1, 0, 10.0), Pcb(2, 1, 1.0)];
    assert Ratio(q[0], 10) == 2 && Ratio(q[1], 10) == 10;
  }

  // ----- whole runs of the ready list -----

  datatype Op = Arrives(p: Pcb) | Takes(now: nat)

  /** What the CPU gets, in order, from a ready list fed by arrivals. */
  function Served(q: seq<Pcb>, ops: seq<Op>): seq<Pcb>
    requires AllEstimated(q) && (forall i :: 0 <= i < |ops| && ops[i].Arrives? ==> Estimated(ops[i].p))
    decreases |ops|
  {
    if ops == [] then []
    else match ops[0]
      case Arrives(p) => Served(q + [p], ops[1..])
      case Takes(now) =>
        if q == [] then Served(q, ops[1..])
        else
          var k := NextAmong(q, now, |q|);
          [q[k]] + Served(Without(q, k), ops[1..])
  }

  /** Selections happen after the instant `t`. */
  predicate After(ops: seq<Op>, t: nat) {
    forall i :: 0 <= i < |ops| && ops[i].Takes? ==> t < ops[i].now
  }

  /** A later arrival with no smaller estimate is not the choice while `p` is ready. */
  lemma NotChosenBefore(q: seq<Pcb>, now: nat, p: Pcb)
    requires AllEstimated(q) && p in q && p.arrival < now
    ensures var c := q[NextAmong(q, now, |q|)]; !(p.arrival < c.arrival && p.estimate <= c.estimate)
  {
    var k := NextAmong(q, now, |q|);
    FoldIsNext(q, now, |q|);
    assert q[..|q|] == q;
    var j :| 0 <= j < |q| && q[j] == p;
    assert Precedes(q[k], q[j], now);
    if p.arrival < q[k].arrival && p.estimate <= q[k].estimate { EarlierPrecedes(p, q[k], now); }
  }

  /** Never overtaken: while p is ready, no process that arrived later with an estimate at least as large reaches
      the CPU before p, whatever else arrives meanwhile. */
  lemma {:induction false} NeverOvertaken(q: seq<Pcb>, ops: seq<Op>, p: Pcb, k: nat)
    requires AllEstimated(q) && (forall i :: 0 <= i < |ops| && ops[i].Arrives? ==> Estimated(ops[i].p))
    requires p in q && After(ops, p.arrival) && k < |Served(q, ops)|
    requires p.arrival < Served(q, ops)[k].arrival && p.estimate <= Served(q, ops)[k].estimate
    ensures p in Served(q, ops)[..k]
    decreases |ops|
  {
    if ops[0].Arrives? {
      NeverOvertaken(q + [ops[0].p], ops[1..], p, k);
    } else {
      var c := NextAmong(q, ops[0].now, |q|);
      NotChosenBefore(q, ops[0].now, p);
      var rest := Served(Without(q, c), ops[1..]);
      assert Served(q, ops) == [q[c]] + rest;
      assert k > 0;
      assert Served(q, ops)[..k] == [q[c]] + rest[..k - 1];
      if q[c] != p {
        assert p in Without(q, c);
        NeverOvertaken(Without(q, c), ops[1..], p, k - 1);
      }
    }
  }

  // ----- burst estimates -----

  /** Exponential averaging of the last burst with the previous estimate. */
  function NextEstimate(alpha: real, burst: real, estimate: real): real {
    alpha * burst + (1.0 - alpha) * estimate
  }

  function Estimates(alpha: real, initial: real, bursts: seq<real>): real {
    if bursts == [] then initial
    else NextEstimate(alpha, bursts[|bursts| - 1], Estimates(alpha, initial, bursts[..|bursts| - 1]))
  }

  lemma Between(alpha: real, x: real, y: real, lo: real, hi: real)
    requires 0.0 <= alpha <= 1.0 && lo <= x <= hi && lo <= y <= hi
    ensures lo <= alpha * x + (1.0 - alpha) * y <= hi
  {
    Above(alpha, x, y, lo);
    Above(alpha, -x, -y, -hi);
    assert alpha * -x == -(alpha * x) && (1.0 - alpha) * -y == -((1.0 - alpha) * y);
  }

  lemma Above(alpha: real, x: real, y: real, lo: real)
    requires 0.0 <= alpha <= 1.0 && lo <= x && lo <= y
    ensures lo <= alpha * x + (1.0 - alpha) * y
  {
    var beta := 1.0 - alpha;
    assert alpha * (x - lo) >= 0.0 && beta * (y - lo) >= 0.0;
    assert alpha * (x - lo) == alpha * x - alpha * lo;
    assert beta * (y - lo) == beta * y - beta * lo;
    assert alpha * lo + beta * lo == (alpha + beta) * lo == lo;
  }

  /** For alpha in [0, 1] every estimate lies in the range of the initial estimate and the observed bursts. */
  lemma {:induction false} EstimatesStayInRange(alpha: real, initial: real, bursts: seq<real>, lo: real, hi: real)
    requires 0.0 <= alpha <= 1.0 && lo <= initial <= hi
    requires forall i :: 0 <= i < |bursts| ==> lo <= bursts[i] <= hi
    ensures lo <= Estimates(alpha, initial, bursts) <= hi
  {
    if bursts != [] {
      var n := |bursts| - 1;
      EstimatesStayInRange(alpha, initial, bursts[..n], lo, hi);
      Between(alpha, bursts[n], Estimates(alpha, initial, bursts[..n]), lo, hi);
    }
  }

  function Power(x: real, n: nat): real {
    if n == 0 then 1.0 else x * Power(x, n - 1)
  }

  ghost predicate Differ(a: real, b: real, w: real, d: real) {
    a - b == w * d
  }

  lemma OneFades(alpha: real, burst: real, a: real, b: real, w: real, d: real, v: real)
    requires Differ(a, b, w, d) && v == (1.0 - alpha) * w
    ensures Differ(NextEstimate(alpha, burst, a), NextEstimate(alpha, burst, b), v, d)
  {
    var beta := 1.0 - alpha;
    assert beta * a - beta * b == beta * (a - b);
    assert v * d == beta * (w * d);
  }

  lemma {:induction false} EstimatesDiffer(alpha: real, x: real, y: real, bursts: seq<real>)
    ensures Differ(Estimates(alpha, x, bursts), Estimates(alpha, y, bursts), Power(1.0 - alpha, |bursts|), x - y)
  {
    if bursts != [] {
      var n := |bursts| - 1;
      EstimatesDiffer(alpha, x, y, bursts[..n]);
      OneFades(alpha, bursts[n], Estimates(alpha, x, bursts[..n]), Estimates(alpha, y, bursts[..n]),
          Power(1.0 - alpha, n), x - y, Power(1.0 - alpha, n + 1));
    }
  }

  /** The initial estimate's weight: after n bursts it counts for (1 - alpha) to the n, whatever the bursts were. */
  lemma InitialFades(alpha: real, x: real, y: real, bursts: seq<real>)
    ensures Estimates(alpha, x, bursts) - Estimates(alpha, y, bursts) == Power(1.0 - alpha, |bursts|) * (x - y)
  {
    EstimatesDiffer(alpha, x, y, bursts);
  }

  // ----- removal by pid -----

  predicate DistinctPids(q: seq<Pcb>) {
    forall i, j :: 0 <= i < j < |q| ==> q[i].pid != q[j].pid
  }

  /** Removal takes out the first process with the pid and keeps the order of the others. */
  lemma {:induction false} FirstMatchRemoved(q: seq<Pcb>, pid: nat, i: nat)
    requires i <= |q| && (forall j :: 0 <= j < i ==> q[j].pid != pid) && (i < |q| ==> q[i].pid == pid)
    ensures WithoutPid(q, pid) == if i < |q| then Without(q, i) else q
  {
    if i > 0 {
      FirstMatchRemoved(q[1..], pid, i - 1);
      if i < |q| {
        WithoutBehind(q, i);
      } else {
        assert [q[0]] + q[1..] == q;
      }
    }
  }

  lemma WithoutBehind(q: seq<Pcb>, i: nat)
    requires 0 < i < |q|
    ensures Without(q, i) == [q[0]] + Without(q[1..], i - 1)
  {
    assert q[..i] == [q[0]] + q[1..][..i - 1];
    assert q[i + 1..] == q[1..][i..];
  }

  /** With distinct pids that is the process itself. */
  lemma RemovedExactly(q: seq<Pcb>, i: nat)
    requires i < |q| && DistinctPids(q)
    ensures WithoutPid(q, q[i].pid) == Without(q, i)
  {
    FirstMatchRemoved(q, q[i].pid, i);
  }

}
