/** Whole runs of memory and kernel, seen as segments and live processes: what every process reads at its logical
    addresses depends on its own deletions and writes only. */
module Survival {
  import opened Bytes
  import opened Segments
  import opened MemoryModule
  import opened Translation
  import opened SystemRuns

  /** The system without addresses, bitmaps and copies. */
  datatype Sys = Sys(segs: seq<Seg>, pids: seq<int>)

  /** A process's request. `Store` is a write of the CPU or the filesystem through a logical address. */
  datatype Op =
    | Create(pid: int, id: int, size: nat)
    | Delete(pid: int, id: int)
    | Leave(pid: int)
    | Store(pid: int, dir: nat, value: seq<byte>)

  /** What the request asks of memory. */
  function Asks(op: Op, maxSize: nat): MemoryModule.Op
    requires maxSize > 0
  {
    match op
    case Create(pid, id, size) => CreateOp(id, size, pid)
    case Delete(pid, id) => DeleteOp(pid, id)
    case Leave(pid) => ExitOp(pid)
    case Store(pid, dir, value) => WriteOp(Owner(pid, dir / maxSize), dir / maxSize, dir % maxSize, value)
  }

  /** The first place of a pid; the length if it is not there. */
  function Place(pids: seq<int>, pid: int): (k: nat)
    ensures k <= |pids| && (k < |pids| ==> pids[k] == pid)
    ensures forall j :: 0 <= j < k ==> pids[j] != pid
  {
    if pids == [] || pids[0] == pid then 0 else 1 + Place(pids[1..], pid)
  }

  /** What does not change: the size of memory in bytes, the number of logical addresses of a segment, and how many
      entries a process's table may have. */
  datatype Config = Config(bytes: nat, maxSize: nat, maxSegs: nat)

  /** How many segments a process has of its own. */
  function Held(im: seq<Seg>, pid: int): nat {
    if im == [] then 0 else Held(im[..|im| - 1], pid) + if im[|im| - 1].pid == pid then 1 else 0
  }

  /** The process's table, which starts with the shared segment, is full. */
  predicate Full(im: seq<Seg>, pid: int, maxSegs: nat) {
    1 + Held(im, pid) == maxSegs
  }

  /** A request reaches memory if its process is alive and, for a creation, the process's table is not full; a process
      whose table is full is stopped instead. */
  predicate Issued(c: Config, s: Sys, op: Op) {
    op.pid in s.pids && !(op.Create? && Full(s.segs, op.pid, c.maxSegs))
  }

  /** One request. */
  ghost predicate Turn(c: Config, s: Sys, op: Op, ok: bool, s': Sys)
    requires c.maxSize > 0
  {
    if Issued(c, s, op) then
      && Does(c.bytes, s.segs, Asks(op, c.maxSize), ok, s'.segs)
      && s'.pids == if op.Leave? then Drop(s.pids, Place(s.pids, op.pid)) else s.pids
    else
      !ok && s' == s
  }

  /** The two requests after which kernel and memory disagree: a deletion of number 0, and a creation that finds room
      under a number that already names a segment of the process or the shared one. */
  predicate Breaks(c: Config, s: Sys, op: Op) {
    Issued(c, s, op) && match op
      case Create(pid, id, size) => Size(s.segs) + size <= c.bytes && (id == 0 || FindSeg(s.segs, pid, id) < |s.segs|)
      case Delete(pid, id) => id == 0
      case _ => false
  }

  ghost predicate Run1(c: Config, states: seq<Sys>, ops: seq<Op>, oks: seq<bool>)
    requires c.maxSize > 0
  {
    && |states| == |oks| + 1 && |oks| <= |ops|
    && forall k :: 0 <= k < |oks| ==> Turn(c, states[k], ops[k], oks[k], states[k + 1])
  }

  /** None of the first `k` requests breaks the agreement. */
  ghost predicate Harmless(c: Config, states: seq<Sys>, ops: seq<Op>, k: nat) {
    k <= |ops| && k <= |states| && forall j :: 0 <= j < k ==> !Breaks(c, states[j], ops[j])
  }

  // ----- one segment through one request -----

  /** The bytes of segment (pid, id), if it exists. */
  function DataOf(im: seq<Seg>, pid: int, id: int): Option<seq<byte>> {
    var k := FindSeg(im, pid, id);
    if k < |im| then Some(im[k].data) else None
  }

  lemma SegIs(im: seq<Seg>, pid: int, id: int, k: nat)
    requires k <= |im| && (k < |im| ==> im[k].pid == pid && im[k].id == id)
    requires forall j :: 0 <= j < k ==> !(im[j].pid == pid && im[j].id == id)
    ensures FindSeg(im, pid, id) == k
  {
    FindIs(SegShapesOf(im), pid, id, k);
  }

  lemma SegFound(im: seq<Seg>, pid: int, id: int)
    ensures var k := FindSeg(im, pid, id);
            && (k < |im| ==> im[k].pid == pid && im[k].id == id)
            && forall j :: 0 <= j < k ==> !(im[j].pid == pid && im[j].id == id)
  {
    var k, s := FindSeg(im, pid, id), SegShapesOf(im);
    assert k < |im| ==> s[k].pid == pid && s[k].id == id;
    forall j | 0 <= j < k ensures !(im[j].pid == pid && im[j].id == id) {
      assert !(s[j].pid == pid && s[j].id == id);
    }
  }

  /** Of two lists the first decides, if it has the segment. */
  lemma DataConcat(a: seq<Seg>, b: seq<Seg>, pid: int, id: int)
    ensures DataOf(a + b, pid, id) == if DataOf(a, pid, id).Some? then DataOf(a, pid, id) else DataOf(b, pid, id)
  {
    SegFound(a, pid, id);
    SegFound(b, pid, id);
    var k, l := FindSeg(a, pid, id), FindSeg(b, pid, id);
    if k < |a| {
      SegIs(a + b, pid, id, k);
    } else {
      SegIs(a + b, pid, id, |a| + l);
    }
  }

  lemma DataOne(x: Seg, pid: int, id: int)
    ensures DataOf([x], pid, id) == if x.pid == pid && x.id == id then Some(x.data) else None
  {
    SegIs([x], pid, id, if x.pid == pid && x.id == id then 0 else 1);
  }

  /** Dropping another segment. */
  lemma DataAfterDrop(im: seq<Seg>, k: nat, pid: int, id: int)
    requires k < |im| && !(im[k].pid == pid && im[k].id == id)
    ensures DataOf(Drop(im, k), pid, id) == DataOf(im, pid, id)
  {
    var a, b := im[..k], im[k + 1..];
    assert im == a + ([im[k]] + b) && Drop(im, k) == a + b;
    DataConcat(a, b, pid, id);
    DataConcat(a, [im[k]] + b, pid, id);
    DataConcat([im[k]], b, pid, id);
    DataOne(im[k], pid, id);
  }

  /** Another process's exit. */
  lemma {:induction false} DataAfterExit(im: seq<Seg>, k: nat, gone: int, pid: int, id: int)
    requires k <= |im| && gone != pid
    ensures DataOf(FilterSegs(im, k, gone), pid, id) == DataOf(im[..k], pid, id)
  {
    if k > 0 {
      DataAfterExit(im, k - 1, gone, pid, id);
      var x := im[k - 1];
      assert im[..k] == im[..k - 1] + [x];
      DataConcat(im[..k - 1], [x], pid, id);
      DataOne(x, pid, id);
      if x.pid != gone {
        DataConcat(FilterSegs(im, k - 1, gone), [x], pid, id);
      } else {
        assert FilterSegs(im, k, gone) == FilterSegs(im, k - 1, gone);
      }
    }
  }

  /** One segment more. */
  lemma DataAfterCreate(im: seq<Seg>, im': seq<Seg>, pid: int, id: int)
    requires |im'| == |im| + 1 && im'[..|im|] == im && DataOf(im, pid, id).Some?
    ensures DataOf(im', pid, id) == DataOf(im, pid, id)
  {
    assert im' == im + [im'[|im|]];
    DataConcat(im, [im'[|im|]], pid, id);
  }

  /** Bytes stored in segment `k`, seen from any segment. */
  lemma DataAfterStore(im: seq<Seg>, k: nat, off: nat, value: seq<byte>, pid: int, id: int)
    requires k < |im| && off + |value| <= |im[k].data|
    ensures DataOf(Stored1(im, k, off, value), pid, id)
         == if FindSeg(im, pid, id) == k then Some(Splice(im[k].data, off, value)) else DataOf(im, pid, id)
  {
    SegFound(im, pid, id);
    SegIs(Stored1(im, k, off, value), pid, id, FindSeg(im, pid, id));
  }

  /** The bytes of segment (owner, num) after a request that leaves it standing. */
  function After(d: seq<byte>, op: Op, ok: bool, maxSize: nat, owner: int, num: int): (d': seq<byte>)
    requires maxSize > 0
    ensures |d'| == |d|
  {
    if ok && op.Store? && op.dir / maxSize == num && Owner(op.pid, num) == owner
        && op.dir % maxSize + |op.value| <= |d| then
      Splice(d, op.dir % maxSize, op.value)
    else d
  }

  /** The request takes segment (owner, num) away. */
  predicate Removes(op: Op, owner: int, num: int) {
    op.pid == owner && (op.Leave? || (op.Delete? && op.id == num))
  }

  lemma DataThrough(c: Config, s: Sys, op: Op, ok: bool, s': Sys, owner: int, num: int)
    requires c.maxSize > 0 && Turn(c, s, op, ok, s') && !Removes(op, owner, num)
    requires DataOf(s.segs, owner, num).Some?
    ensures DataOf(s'.segs, owner, num) == Some(After(DataOf(s.segs, owner, num).value, op, ok, c.maxSize, owner, num))
  {
    if Issued(c, s, op) {
      match op {
        case Create(pid, id, size) => if ok { DataAfterCreate(s.segs, s'.segs, owner, num); }
        case Delete(pid, id) =>
          SegFound(s.segs, pid, id);
          if ok { DataAfterDrop(s.segs, FindSeg(s.segs, pid, id), owner, num); }
        case Leave(pid) =>
          DataAfterExit(s.segs, |s.segs|, pid, owner, num);
          assert s.segs[..|s.segs|] == s.segs;
        case Store(pid, dir, value) => DataThroughStore(c, s, op, ok, s', owner, num);
      }
    }
  }

  lemma DataThroughStore(c: Config, s: Sys, op: Op, ok: bool, s': Sys, owner: int, num: int)
    requires c.maxSize > 0 && op.Store? && Issued(c, s, op) && Turn(c, s, op, ok, s')
    requires DataOf(s.segs, owner, num).Some?
    ensures DataOf(s'.segs, owner, num) == Some(After(DataOf(s.segs, owner, num).value, op, ok, c.maxSize, owner, num))
  {
    var num' := op.dir / c.maxSize;
    var k := FindSeg(s.segs, Owner(op.pid, num'), num');
    SegFound(s.segs, Owner(op.pid, num'), num');
    SegFound(s.segs, owner, num);
    if ok { DataAfterStore(s.segs, k, op.dir % c.maxSize, op.value, owner, num); }
  }

  // ----- whole runs -----

  /** The bytes of segment (owner, num) after the first `k` requests, were it never taken away. */
  function Replay(d: seq<byte>, ops: seq<Op>, oks: seq<bool>, k: nat, maxSize: nat, owner: int,
                  num: int): (d': seq<byte>)
    requires maxSize > 0 && k <= |ops| && k <= |oks|
    ensures |d'| == |d|
  {
    if k == 0 then d else After(Replay(d, ops, oks, k - 1, maxSize, owner, num), ops[k - 1], oks[k - 1], maxSize,
        owner, num)
  }

  /** No request takes segment (owner, num) away. */
  predicate Kept(ops: seq<Op>, owner: int, num: int) {
    forall k :: 0 <= k < |ops| ==> !Removes(ops[k], owner, num)
  }

  lemma OneMoreTurn(c: Config, states: seq<Sys>, ops: seq<Op>, oks: seq<bool>, j: nat, owner: int, num: int,
                    d: seq<byte>)
    requires c.maxSize > 0 && Run1(c, states, ops, oks) && j < |oks| && Kept(ops, owner, num)
    requires DataOf(states[j].segs, owner, num) == Some(d)
    ensures DataOf(states[j + 1].segs, owner, num) == Some(After(d, ops[j], oks[j], c.maxSize, owner, num))
  {
    DataThrough(c, states[j], ops[j], oks[j], states[j + 1], owner, num);
  }

  /** Whatever everybody creates, deletes, writes or leaves, and however often memory compacts, a segment nobody took
      away holds its old bytes with its own process's writes on top. */
  lemma {:induction false} SegmentSurvives(c: Config, states: seq<Sys>, ops: seq<Op>, oks: seq<bool>, k: nat,
                                           owner: int, num: int)
    requires c.maxSize > 0 && Run1(c, states, ops, oks) && k <= |oks| && Kept(ops, owner, num)
    requires DataOf(states[0].segs, owner, num).Some?
    ensures DataOf(states[k].segs, owner, num)
         == Some(Replay(DataOf(states[0].segs, owner, num).value, ops, oks, k, c.maxSize, owner, num))
  {
    if k > 0 {
      SegmentSurvives(c, states, ops, oks, k - 1, owner, num);
      OneMoreTurn(c, states, ops, oks, k - 1, owner, num,
                  Replay(DataOf(states[0].segs, owner, num).value, ops, oks, k - 1, c.maxSize, owner, num));
    }
  }

  /** Nobody writes to segment (owner, num). */
  predicate Unwritten(ops: seq<Op>, maxSize: nat, owner: int, num: int)
    requires maxSize > 0
  {
    forall k :: 0 <= k < |ops| && ops[k].Store? ==> !(ops[k].dir / maxSize == num && Owner(ops[k].pid, num) == owner)
  }

  lemma {:induction false} ReplayNothing(d: seq<byte>, ops: seq<Op>, oks: seq<bool>, k: nat, maxSize: nat, owner: int,
                                         num: int)
    requires maxSize > 0 && k <= |ops| && k <= |oks| && Unwritten(ops, maxSize, owner, num)
    ensures Replay(d, ops, oks, k, maxSize, owner, num) == d
  {
    if k > 0 { ReplayNothing(d, ops, oks, k - 1, maxSize, owner, num); }
  }

  /** Over any run a process reads the same bytes at every logical address of a segment that nobody took away and
      nobody wrote to. */
  lemma ReadsTheSame(c: Config, states: seq<Sys>, ops: seq<Op>, oks: seq<bool>, pid: int, num: int, off: nat, size: nat)
    requires c.maxSize > 0 && Run1(c, states, ops, oks)
    requires Kept(ops, Owner(pid, num), num) && Unwritten(ops, c.maxSize, Owner(pid, num), num)
    requires DataOf(states[0].segs, Owner(pid, num), num).Some?
    ensures ViewRead(states[|oks|].segs, pid, num, off, size) == ViewRead(states[0].segs, pid, num, off, size)
  {
    var owner := Owner(pid, num);
    var d := DataOf(states[0].segs, owner, num).value;
    SegmentSurvives(c, states, ops, oks, |oks|, owner, num);
    ReplayNothing(d, ops, oks, |oks|, c.maxSize, owner, num);
  }

  // ----- the run itself -----

  function PidsOf(pcbs: seq<Pcb>): (pids: seq<int>)
    ensures |pids| == |pcbs|
  {
    seq(|pcbs|, k requires 0 <= k < |pcbs| => pcbs[k].pid)
  }

  ghost function Abstract(m: Memory, pcbs: seq<Pcb>): Sys
    requires m.Sound()
    reads m, m.bitmap, m.bytes
  {
    Sys(m.View(), PidsOf(pcbs))
  }

  method FindPcb(pcbs: seq<Pcb>, pid: int) returns (k: nat)
    ensures k == Place(PidsOf(pcbs), pid)
  {
    k := 0;
    while k < |pcbs| && pcbs[k].pid != pid
      invariant k <= |pcbs| && forall j :: 0 <= j < k ==> pcbs[j].pid != pid
    {
      k := k + 1;
    }
    PlaceIs(PidsOf(pcbs), pid, k);
  }

  lemma PlaceIs(pids: seq<int>, pid: int, k: nat)
    requires k <= |pids| && (k < |pids| ==> pids[k] == pid) && forall j :: 0 <= j < k ==> pids[j] != pid
    ensures Place(pids, pid) == k && (k < |pids| <==> pid in pids)
  {
    var p := Place(pids, pid);
    assert !(p < k) && !(k < p);
  }

  // ----- the limit on segments -----

  lemma HeldConcat(im: seq<Seg>, x: Seg, pid: int)
    ensures Held(im + [x], pid) == Held(im, pid) + if x.pid == pid then 1 else 0
  {
    assert (im + [x])[..|im|] == im;
  }

  lemma {:induction false} HeldSame(im: seq<Seg>, im': seq<Seg>, pid: int)
    requires |im| == |im'| && forall i :: 0 <= i < |im| ==> im[i].pid == im'[i].pid
    ensures Held(im, pid) == Held(im', pid)
  {
    if im != [] { HeldSame(im[..|im| - 1], im'[..|im| - 1], pid); }
  }

  lemma {:induction false} HeldDrop(im: seq<Seg>, k: nat, pid: int)
    requires k < |im|
    ensures Held(Drop(im, k), pid) <= Held(im, pid)
  {
    var n := |im| - 1;
    if k < n {
      HeldDrop(im[..n], k, pid);
      assert Drop(im, k) == Drop(im[..n], k) + [im[n]];
      HeldConcat(Drop(im[..n], k), im[n], pid);
    } else {
      assert Drop(im, k) == im[..n];
    }
  }

  lemma {:induction false} HeldFilter(im: seq<Seg>, k: nat, gone: int, pid: int)
    requires k <= |im|
    ensures Held(FilterSegs(im, k, gone), pid) <= Held(im[..k], pid)
  {
    if k > 0 {
      HeldFilter(im, k - 1, gone, pid);
      assert im[..k] == im[..k - 1] + [im[k - 1]];
      HeldConcat(im[..k - 1], im[k - 1], pid);
      HeldConcat(FilterSegs(im, k - 1, gone), im[k - 1], pid);
      assert im[k - 1].pid == gone ==> FilterSegs(im, k, gone) == FilterSegs(im, k - 1, gone);
    }
  }

  /** Nobody's table has more than `maxSegs` entries. */
  ghost predicate WithinLimit(c: Config, s: Sys) {
    forall pid :: 1 + Held(s.segs, pid) <= c.maxSegs || pid !in s.pids
  }

  lemma HeldExtends(im: seq<Seg>, owner: int, id: int, size: nat, im': seq<Seg>, pid: int)
    requires Extends(im, owner, id, size, im')
    ensures Held(im', pid) == Held(im, pid) + if owner == pid then 1 else 0
  {
    assert im' == im + [im'[|im|]];
    HeldConcat(im, im'[|im|], pid);
  }

  lemma LimitKept(c: Config, s: Sys, op: Op, ok: bool, s': Sys, pid: int)
    requires c.maxSize > 0 && Turn(c, s, op, ok, s') && pid in s.pids && 1 + Held(s.segs, pid) <= c.maxSegs
    ensures 1 + Held(s'.segs, pid) <= c.maxSegs
  {
    if Issued(c, s, op) {
      match op {
        case Create(p, id, size) =>
          if ok { HeldExtends(s.segs, p, id, size, s'.segs, pid); }
        case Delete(p, id) =>
          if ok { HeldDrop(s.segs, FindSeg(s.segs, p, id), pid); }
        case Leave(p) =>
          HeldFilter(s.segs, |s.segs|, p, pid);
          assert s.segs[..|s.segs|] == s.segs;
        case Store(p, dir, value) => HeldSame(s.segs, s'.segs, pid);
      }
    }
  }

  /** The check compares with the limit for equality only; yet over any run no table grows beyond it. */
  lemma {:induction false} LimitHolds(c: Config, states: seq<Sys>, ops: seq<Op>, oks: seq<bool>, k: nat)
    requires c.maxSize > 0 && Run1(c, states, ops, oks) && k <= |oks| && WithinLimit(c, states[0])
    ensures WithinLimit(c, states[k])
  {
    if k > 0 {
      LimitHolds(c, states, ops, oks, k - 1);
      var s, s' := states[k - 1], states[k];
      forall pid ensures 1 + Held(s'.segs, pid) <= c.maxSegs || pid !in s'.pids {
        if pid in s'.pids {
          assert pid in s.pids;
          LimitKept(c, s, ops[k - 1], oks[k - 1], s', pid);
        }
      }
    }
  }

  lemma {:induction false} HeldIsOwn(t: seq<Row>, im: seq<Seg>, k: nat, pid: int)
    requires |t| == |im| && k <= |t| && forall i :: 0 <= i < |t| ==> im[i].pid == t[i].pid
    ensures Held(im[..k], pid) == |OwnRows(t, k, pid)|
  {
    if k > 0 {
      HeldIsOwn(t, im, k - 1, pid);
      assert im[..k] == im[..k - 1] + [im[k - 1]];
      HeldConcat(im[..k - 1], im[k - 1], pid);
    }
  }

  /** A process's table is full exactly when its segments say so. */
  lemma FullTable(t: seq<Row>, bytes: seq<byte>, pid: int, maxSegs: nat)
    requires t != [] && InBounds(t, |bytes|)
    ensures |Copies(t, pid)| == maxSegs <==> Full(Image(t, bytes), pid, maxSegs)
  {
    var im := Image(t, bytes);
    HeldIsOwn(t, im, |t|, pid);
    assert im[..|t|] == im;
  }

  // ----- serving requests -----

  /** CREATE_SEGMENT: a process whose table is full is not served. */
  method ServeCreate(m: Memory, pcbs: seq<Pcb>, c: Config, k: nat, id: int, size: nat) returns (ok: bool, broke: bool)
    requires Synced(m, pcbs) && c.maxSize > 0 && c.bytes == m.bytes.Length && k < |pcbs|
             && k == Place(PidsOf(pcbs), pcbs[k].pid)
    modifies m`table, m.bitmap, m.bytes, pcbs
    ensures m.Inv() && Turn(c, old(Abstract(m, pcbs)), Create(pcbs[k].pid, id, size), ok, Abstract(m, pcbs))
    ensures broke == Breaks(c, old(Abstract(m, pcbs)), Create(pcbs[k].pid, id, size)) && (Synced(m, pcbs) <==> !broke)
  {
    var pid := pcbs[k].pid;
    assert PidsOf(pcbs)[k] == pid;
    FullTable(m.table, m.bytes[..], pid, c.maxSegs);
    SegShapes(m.table, m.bytes[..]);
    UnusedIsNotFound(m.table, pid, id);
    ok, broke := false, false;
    if |pcbs[k].segments| != c.maxSegs {
      var unused := Unused(m.table, pid, id);
      ok := CreateSegment(m, pcbs, k, id, size);
      broke := ok && !unused;
    }
  }

  /** Serve one request of one process. Afterwards everybody's copies are right if and only if the request was not one
      of the two that break the agreement. */
  method Serve(m: Memory, pcbs: seq<Pcb>, c: Config, op: Op) returns (ok: bool, alive: seq<Pcb>, broke: bool)
    requires Synced(m, pcbs) && c.maxSize > 0 && c.bytes == m.bytes.Length
    modifies m`table, m.bitmap, m.bytes, pcbs
    ensures m.Inv() && forall p :: p in alive ==> p in pcbs
    ensures Turn(c, old(Abstract(m, pcbs)), op, ok, Abstract(m, alive))
    ensures broke == Breaks(c, old(Abstract(m, pcbs)), op) && (Synced(m, alive) <==> !broke)
  {
    var k := FindPcb(pcbs, op.pid);
    PlaceIs(PidsOf(pcbs), op.pid, k);
    ok, alive, broke := false, pcbs, false;
    if k < |pcbs| {
      match op {
        case Create(pid, id, size) => ok, broke := ServeCreate(m, pcbs, c, k, id, size);
        case Delete(pid, id) =>
          ok := DeleteSegment(m, pcbs, k, id);
          broke := id == 0;
        case Leave(pid) =>
          alive := ExitProcess(m, pcbs, k);
          ok := true;
          assert PidsOf(alive) == Drop(PidsOf(pcbs), k);
        case Store(pid, dir, value) => ok := WriteAt(m, pcbs, k, c.maxSize, dir, value);
      }
    }
  }

  /** Any run of requests of any processes, up to the first that breaks the agreement between kernel and memory: the
      copies of every live process are right at the end, and all requests have been served, if and only if none did. */
  method Run(m: Memory, pcbs: seq<Pcb>, c: Config, ops: seq<Op>)
    returns (oks: seq<bool>, alive: seq<Pcb>, broke: bool, ghost states: seq<Sys>)
    requires Synced(m, pcbs) && c.maxSize > 0 && c.bytes == m.bytes.Length
    modifies m`table, m.bitmap, m.bytes, pcbs
    ensures m.Inv() && forall p :: p in alive ==> p in pcbs
    ensures Run1(c, states, ops, oks) && states[0] == old(Abstract(m, pcbs)) && states[|oks|] == Abstract(m, alive)
    ensures broke == !Harmless(c, states, ops, |oks|) && (Synced(m, alive) <==> !broke)
    ensures if broke then |oks| > 0 && Harmless(c, states, ops, |oks| - 1) else |oks| == |ops|
  {
    oks, alive, broke, states := [], pcbs, false, [Abstract(m, pcbs)];
    while |oks| < |ops| && !broke
      invariant m.Inv() && forall p :: p in alive ==> p in pcbs
      invariant Run1(c, states, ops, oks) && states[0] == old(Abstract(m, pcbs)) && states[|oks|] == Abstract(m, alive)
      invariant broke == !Harmless(c, states, ops, |oks|) && (Synced(m, alive) <==> !broke)
      invariant broke ==> |oks| > 0 && Harmless(c, states, ops, |oks| - 1)
      decreases |ops| - |oks|
    {
      assert forall i :: 0 <= i < |alive| ==> alive[i] in pcbs;
      var ok;
      ok, alive, broke := Serve(m, alive, c, ops[|oks|]);
      RunGrows(c, states, ops, oks, ok, Abstract(m, alive));
      oks, states := oks + [ok], states + [Abstract(m, alive)];
    }
  }

  lemma RunGrows(c: Config, states: seq<Sys>, ops: seq<Op>, oks: seq<bool>, ok: bool, s: Sys)
    requires c.maxSize > 0 && Run1(c, states, ops, oks) && |oks| < |ops| && Turn(c, states[|oks|], ops[|oks|], ok, s)
    requires Harmless(c, states, ops, |oks|)
    ensures Run1(c, states + [s], ops, oks + [ok]) && Harmless(c, states + [s], ops, |oks|)
    ensures Harmless(c, states + [s], ops, |oks| + 1) <==> !Breaks(c, states[|oks|], ops[|oks|])
  {
  }

  /** Who is still alive after the requests: everybody who did not leave. */
  lemma {:induction false} Alive(c: Config, states: seq<Sys>, ops: seq<Op>, oks: seq<bool>, k: nat, pid: int)
    requires c.maxSize > 0 && Run1(c, states, ops, oks) && k <= |oks| && pid in states[0].pids
    requires forall j :: 0 <= j < k ==> ops[j] != Leave(pid)
    ensures pid in states[k].pids
  {
    if k > 0 {
      Alive(c, states, ops, oks, k - 1, pid);
      var s, op := states[k - 1], ops[k - 1];
      var j :| 0 <= j < |s.pids| && s.pids[j] == pid;
      if Issued(c, s, op) && op.Leave? {
        var p := Place(s.pids, op.pid);
        PlaceIs(s.pids, op.pid, p);
        assert Drop(s.pids, p)[if j < p then j else j - 1] == pid;
      }
    }
  }

  /** A process reads, everybody does what they do, the process reads again: the same bytes, unless it left, the segment
      was taken away or written to, or the agreement was broken. */
  method ReadRunRead(m: Memory, pcbs: seq<Pcb>, c: Config, pid: int, dir: nat, size: nat, ops: seq<Op>)
    returns (before: Option<seq<byte>>, after: Option<seq<byte>>, oks: seq<bool>, alive: seq<Pcb>,
        ghost states: seq<Sys>)
    requires Synced(m, pcbs) && c.maxSize > 0 && c.bytes == m.bytes.Length && pid in PidsOf(pcbs)
    modifies m`table, m.bitmap, m.bytes, pcbs
    ensures m.Inv() && Run1(c, states, ops, oks) && (Harmless(c, states, ops, |oks|) ==> |oks| == |ops|)
    ensures states[0] == old(Abstract(m, pcbs)) && states[|oks|] == Abstract(m, alive)
    ensures before == ViewRead(old(m.View()), pid, dir / c.maxSize, dir % c.maxSize, size)
    ensures var num := dir / c.maxSize;
            && before.Some? && Leave(pid) !in ops && Harmless(c, states, ops, |oks|)
            && Kept(ops, Owner(pid, num), num) && Unwritten(ops, c.maxSize, Owner(pid, num), num)
            ==> after == before
  {
    var k := FindPcb(pcbs, pid);
    PlaceIs(PidsOf(pcbs), pid, k);
    before := ReadAt(m, pcbs, k, c.maxSize, dir, size);
    var broke;
    oks, alive, broke, states := Run(m, pcbs, c, ops);
    after := None;
    if !broke {
      after := ReadAgain(m, alive, c, pid, dir, size);
      ReadsBack(c, states, ops, oks, pid, dir, size, before, after);
    }
  }

  method ReadAgain(m: Memory, alive: seq<Pcb>, c: Config, pid: int, dir: nat, size: nat)
    returns (got: Option<seq<byte>>)
    requires Synced(m, alive) && c.maxSize > 0
    ensures got == if pid in PidsOf(alive) then ViewRead(m.View(), pid, dir / c.maxSize, dir % c.maxSize, size)
            else None
  {
    var k := FindPcb(alive, pid);
    PlaceIs(PidsOf(alive), pid, k);
    got := None;
    if k < |alive| { got := ReadAt(m, alive, k, c.maxSize, dir, size); }
  }

  lemma ReadsBack(c: Config, states: seq<Sys>, ops: seq<Op>, oks: seq<bool>, pid: int, dir: nat, size: nat,
                  before: Option<seq<byte>>, after: Option<seq<byte>>)
    requires c.maxSize > 0 && Run1(c, states, ops, oks) && pid in states[0].pids
    requires before == ViewRead(states[0].segs, pid, dir / c.maxSize, dir % c.maxSize, size)
    requires pid in states[|oks|].pids ==>
               after == ViewRead(states[|oks|].segs, pid, dir / c.maxSize, dir % c.maxSize, size)
    ensures var num := dir / c.maxSize;
            && before.Some? && Leave(pid) !in ops
            && Kept(ops, Owner(pid, num), num) && Unwritten(ops, c.maxSize, Owner(pid, num), num)
            ==> after == before
  {
    var num := dir / c.maxSize;
    if before.Some? && Leave(pid) !in ops && Kept(ops, Owner(pid, num), num)
        && Unwritten(ops, c.maxSize, Owner(pid, num), num) {
      Alive(c, states, ops, oks, |oks|, pid);
      ReadsTheSame(c, states, ops, oks, pid, num, dir % c.maxSize, size);
    }
  }
}
