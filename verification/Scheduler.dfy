/** The kernel's planner as a state machine: every semaphore operation and every list operation of every
    thread is one atomic step, and the steps of different threads interleave freely. */
module Scheduler {
  import opened Bytes

  type Pid = nat

  /** Why a PCB is in the blocked list (the reason `logBlocked` reports). */
  datatype Reason = OnResource(r: nat) | OnFile(name: string) | OnFs | OnIo

  /** A resource: instances left, waiting PCBs, and the history of grants, signals, arrivals and wake-ups. */
  datatype Resource = Resource(total: int, inst: int, queue: seq<Pid>, grants: nat, signals: nat,
                               arrived: seq<Pid>, woken: seq<Pid>)

  /** An entry of the global table of open files, with the history of its waiters. */
  datatype FileEntry = FileEntry(owner: Pid, queue: seq<Pid>, arrived: seq<Pid>, handed: seq<Pid>)

  /** Long-term planner: wait for a new PCB, wait for a slot, pop, push to ready, post. */
  datatype Admission = A0 | A1 | A2 | A3(p: Pid) | A4

  /** Short-term planner: wait for a ready PCB, wait for the CPU, pop, push to execute, post. */
  datatype Dispatch = D0 | D1 | D2 | D3(p: Pid) | D4

  /** What the execute thread does after posting ready's semaphore. */
  datatype Next = ThenRelease | ThenExec | ThenPush(own: Pid)

  /** The execute thread. */
  datatype Execution =
    | Idle                              // about to wait on execute's semaphore
    | Pop                               // has the token, about to pop execute
    | Running(p: Pid)                   // PCB in hand, the CPU is at it
    | Sent(p: Pid)                      // file request sent, PCB still in hand
    | PostEnvio                         // PCB in blocked, envio_bloqueo_fs still to be posted
    | IoWait(p: Pid)                    // PCB in blocked, waiting for the sleeping thread
    | IoBack(p: Pid)                    // PCB out of blocked, in hand
    | Signalled(r: nat)                 // own PCB back in execute, resource r incremented
    | Woken(w: Pid, own: Option<Pid>)   // a waiter in hand, and after CLOSE the own PCB too
    | PostReady(next: Next)             // pushed to ready, semaphore still to be posted
    | PushOwn(p: Pid)                   // own PCB in hand, about to go back to execute
    | PostExec                          // own PCB back in execute, semaphore still to be posted
    | PostExit                          // pushed to exit, semaphore still to be posted
    | Release                           // about to post execute_libre

  /** The thread that destroys finished processes. */
  datatype Finishing = X0 | X1 | X2(p: Pid) | X3

  /** The thread that wakes PCBs after a file operation: a pid received (F1, F2), a PCB in hand (F3). */
  datatype Waking = F0 | F1(pid: Pid) | F2(pid: Pid) | F3(p: Pid) | F4

  datatype K = K(
    newQ: seq<Pid>, ready: seq<Pid>, exec: seq<Pid>, blocked: seq<Pid>, exitQ: seq<Pid>,
    nuevos: nat, grado: nat, readySem: nat, execSem: nat, execLibre: nat, exitSem: nat, envio: nat, io: nat,
    arriving: nat, sleeping: nat,
    adm: Admission, dis: Dispatch, exe: Execution, fin: Finishing, wake: Waking,
    fsQueue: seq<Pid>, fsDone: seq<Pid>,
    why: map<Pid, Reason>, res: seq<Resource>, files: map<string, FileEntry>, tables: map<Pid, set<string>>,
    live: set<Pid>, nextPid: nat, degree: nat)

  /** What the CPU answers for the instruction that made it return. */
  datatype Answer =
    | Yield | Io | Leave                   // YIELD, I/O, EXIT (and SEG_FAULT, out of memory, too many segments)
    | Continue                             // CREATE_SEGMENT, DELETE_SEGMENT, F_SEEK that succeed
    | Wait(r: Option<nat>) | Signal(r: Option<nat>)
    | Open(f: string) | Close(f: string)
    | FileOp                               // F_READ, F_WRITE, F_TRUNCATE

  /** One step of one thread. `i` is the position the planning algorithm selects in ready. */
  datatype Event =
    | Arrive | ArrivePost | Admit | Dispatch(i: nat) | Execute(a: Answer) | Finish | Wake | FsReply | SleepEnd

  // ----- lists -----

  function Without(q: seq<Pid>, i: nat): (r: seq<Pid>)
    requires i < |q|
    ensures |r| == |q| - 1
    ensures forall j :: 0 <= j < |r| ==> r[j] == q[if j < i then j else j + 1]
  {
    q[..i] + q[i + 1..]
  }

  function IndexOf(q: seq<Pid>, p: Pid): (i: nat)
    requires p in q
    ensures i < |q| && q[i] == p
  {
    if q[0] == p then 0 else 1 + IndexOf(q[1..], p)
  }

  /** `pop_blocked` and `pop_pcb_estado`: take the PCB out of a list. */
  function Remove(q: seq<Pid>, p: Pid): (r: seq<Pid>)
    requires p in q
    ensures |r| == |q| - 1
  {
    Without(q, IndexOf(q, p))
  }

  // ----- steps -----

  function AdmitStep(s: K): Option<K> {
    match s.adm
    case A0 => if s.nuevos > 0 then Some(s.(nuevos := s.nuevos - 1, adm := A1)) else None
    case A1 => if s.grado > 0 then Some(s.(grado := s.grado - 1, adm := A2)) else None
    case A2 => if s.newQ != [] then Some(s.(newQ := s.newQ[1..], adm := A3(s.newQ[0]))) else None
    case A3(p) => Some(s.(ready := s.ready + [p], adm := A4))
    case A4 => Some(s.(readySem := s.readySem + 1, adm := A0))
  }

  function DispatchStep(s: K, i: nat): Option<K> {
    match s.dis
    case D0 => if s.readySem > 0 then Some(s.(readySem := s.readySem - 1, dis := D1)) else None
    case D1 => if s.execLibre > 0 then Some(s.(execLibre := s.execLibre - 1, dis := D2)) else None
    case D2 => if i < |s.ready| then Some(s.(ready := Without(s.ready, i), dis := D3(s.ready[i]))) else None
    case D3(p) => Some(s.(exec := s.exec + [p], dis := D4))
    case D4 => Some(s.(execSem := s.execSem + 1, dis := D0))
  }

  function FinishStep(s: K): Option<K> {
    match s.fin
    case X0 => if s.exitSem > 0 then Some(s.(exitSem := s.exitSem - 1, fin := X1)) else None
    case X1 => if s.exitQ != [] then Some(s.(exitQ := s.exitQ[1..], fin := X2(s.exitQ[0]))) else None
    case X2(p) => Some(s.(live := s.live - {p}, fin := X3))
    case X3 => Some(s.(grado := s.grado + 1, fin := X0))
  }

  function WakeStep(s: K): Option<K> {
    match s.wake
    case F0 => if s.fsDone != [] then Some(s.(fsDone := s.fsDone[1..], wake := F1(s.fsDone[0]))) else None
    case F1(p) => if s.envio > 0 then Some(s.(envio := s.envio - 1, wake := F2(p))) else None
    case F2(p) =>
      if p in s.blocked then Some(s.(blocked := Remove(s.blocked, p), why := s.why - {p}, wake := F3(p))) else None
    case F3(p) => Some(s.(ready := s.ready + [p], wake := F4))
    case F4 => Some(s.(readySem := s.readySem + 1, wake := F0))
  }

  function ToExit(s: K, p: Pid): K {
    s.(exitQ := s.exitQ + [p], exe := PostExit)
  }

  function ToExec(s: K, p: Pid): K {
    s.(exec := s.exec + [p], exe := PostExec)
  }

  /** The PCB goes to blocked and the CPU is released. */
  function ToBlocked(s: K, p: Pid, reason: Reason): K {
    s.(blocked := s.blocked + [p], why := s.why[p := reason], exe := Release)
  }

  /** `hay_elementos_wait`, granting only when an instance is left. */
  function WaitOn(s: K, p: Pid, r: nat): K
    requires r < |s.res|
  {
    var x := s.res[r];
    if x.inst > 0 then
      ToExec(s.(res := s.res[r := x.(inst := x.inst - 1, grants := x.grants + 1)]), p)
    else
      ToBlocked(s.(res := s.res[r := x.(queue := x.queue + [p], arrived := x.arrived + [p])]), p, OnResource(r))
  }

  function OpenFile(s: K, p: Pid, f: string): K {
    if f in s.files then
      var x := s.files[f];
      ToBlocked(s.(files := s.files[f := x.(queue := x.queue + [p], arrived := x.arrived + [p])]), p, OnFile(f))
    else
      ToExec(s.(files := s.files[f := FileEntry(p, [], [], [])], tables := s.tables[p := TableOf(s.tables, p) + {f}]),
          p)
  }

  function TableOf(tables: map<Pid, set<string>>, p: Pid): set<string> {
    if p in tables then tables[p] else {}
  }

  /** CLOSE of an open file: without waiters the entry goes, otherwise the first waiter becomes the owner. */
  function CloseFile(s: K, p: Pid, f: string): Option<K>
    requires f in s.files
  {
    var x := s.files[f];
    var s1 := s.(tables := s.tables[p := TableOf(s.tables, p) - {f}]);
    if x.queue == [] then
      Some(ToExec(s1.(files := s.files - {f}), p))
    else
      var w := x.queue[0];
      if w in s.blocked then
        Some(s1.(files := s.files[f := x.(owner := w, queue := x.queue[1..], handed := x.handed + [w])],
                 tables := s1.tables[w := TableOf(s1.tables, w) + {f}],
                 blocked := Remove(s.blocked, w), why := s.why - {w}, exe := Woken(w, Some(p))))
      else None
  }

  /** The switch of `execute_pcb` over the CPU's answer for PCB `p`. */
  function Handle(s: K, p: Pid, a: Answer): Option<K> {
    match a
    case Yield => Some(s.(ready := s.ready + [p], exe := PostReady(ThenRelease)))
    case Leave => Some(ToExit(s, p))
    case Io => Some(s.(blocked := s.blocked + [p], why := s.why[p := OnIo], sleeping := s.sleeping
        + 1, exe := IoWait(p)))
    case Continue => Some(ToExec(s, p))
    case Wait(r) => if r.Some? && r.value < |s.res| then Some(WaitOn(s, p, r.value)) else Some(ToExit(s, p))
    case Signal(r) =>
      if r.Some? && r.value < |s.res| then
        var x := s.res[r.value];
        Some(s.(res := s.res[r.value := x.(inst := x.inst + 1, signals := x.signals + 1)],
                exec := s.exec + [p], exe := Signalled(r.value)))
      else Some(ToExit(s, p))
    case Open(f) => Some(OpenFile(s, p, f))
    case Close(f) => if f in s.files then CloseFile(s, p, f) else None
    case FileOp => Some(s.(fsQueue := s.fsQueue + [p], exe := Sent(p)))
  }

  /** SIGNAL's second half: the first waiter, if any, gets the instance. */
  function SignalWakes(s: K, r: nat): Option<K>
    requires r < |s.res|
  {
    var x := s.res[r];
    if x.queue == [] then Some(s.(exe := PostExec))
    else
      var w := x.queue[0];
      if w in s.blocked then
        Some(s.(res := s.res[r := x.(inst := x.inst - 1, grants := x.grants + 1, queue := x.queue[1..], woken := x.woken
            + [w])],
                blocked := Remove(s.blocked, w), why := s.why - {w}, exe := Woken(w, None)))
      else None
  }

  /** The points of the execute thread up to a file request or an I/O wait. */
  predicate Early(x: Execution) {
    x.Idle? || x.Pop? || x.Sent? || x.PostEnvio? || x.IoWait? || x.IoBack?
  }

  /** The execute thread from its semaphore to the CPU's answer, and on the way into and out of a wait. */
  function EarlyStep(s: K): Option<K> {
    match s.exe
    case Idle => if s.execSem > 0 then Some(s.(execSem := s.execSem - 1, exe := Pop)) else None
    case Pop => if s.exec != [] then Some(s.(exec := s.exec[1..], exe := Running(s.exec[0]))) else None
    case Sent(p) => Some(s.(blocked := s.blocked + [p], why := s.why[p := OnFs], exe := PostEnvio))
    case PostEnvio => Some(s.(envio := s.envio + 1, exe := Release))
    case IoWait(p) =>
      if s.io > 0 && p in s.blocked then
        Some(s.(io := s.io - 1, blocked := Remove(s.blocked, p), why := s.why - {p}, exe := IoBack(p)))
      else None
    case IoBack(p) => Some(s.(ready := s.ready + [p], exe := PostReady(ThenRelease)))
    case _ => None
  }

  /** The execute thread between the switch and its next wait. */
  function LateStep(s: K): Option<K> {
    match s.exe
    case Signalled(r) => if r < |s.res| then SignalWakes(s, r) else None
    case Woken(w, own) =>
      Some(s.(ready := s.ready + [w], exe := PostReady(match own case None => ThenExec case Some(o) => ThenPush(o))))
    case PostReady(next) =>
      Some(s.(readySem := s.readySem + 1,
              exe := match next case ThenRelease => Release case ThenExec => PostExec case ThenPush(o) => PushOwn(o)))
    case PushOwn(p) => Some(ToExec(s, p))
    case PostExec => Some(s.(execSem := s.execSem + 1, exe := Idle))
    case PostExit => Some(s.(exitSem := s.exitSem + 1, exe := Release))
    case Release => Some(s.(execLibre := s.execLibre + 1, exe := Idle))
    case _ => None
  }

  function ExecuteStep(s: K, a: Answer): Option<K> {
    if s.exe.Running? then Handle(s, s.exe.p, a) else if Early(s.exe) then EarlyStep(s) else LateStep(s)
  }

  /** One step of the whole kernel; None when the thread has to wait. */
  function Step(s: K, e: Event): Option<K> {
    match e
    case Arrive => Some(s.(newQ := s.newQ + [s.nextPid], live := s.live + {s.nextPid}, nextPid := s.nextPid
        + 1, arriving := s.arriving + 1))
    case ArrivePost => if s.arriving > 0 then Some(s.(arriving := s.arriving - 1, nuevos := s.nuevos + 1)) else None
    case Admit => AdmitStep(s)
    case Dispatch(i) => DispatchStep(s, i)
    case Execute(a) => ExecuteStep(s, a)
    case Finish => FinishStep(s)
    case Wake => WakeStep(s)
    case FsReply => if s.fsQueue != [] then Some(s.(fsDone := s.fsDone + [s.fsQueue[0]], fsQueue := s.fsQueue[1..]))
        else None
    case SleepEnd => if s.sleeping > 0 then Some(s.(sleeping := s.sleeping - 1, io := s.io + 1)) else None
  }

  /** `inicializar_planificador`. */
  function Init(degree: nat, totals: seq<nat>): K {
    K([], [], [], [], [], 0, degree, 0, 0, 1, 0, 0, 0, 0, 0, A0, D0, Idle, X0, F0, [], [], map[],
      seq(|totals|, i requires 0 <= i < |totals| => Resource(totals[i], totals[i], [], 0, 0, [], [])),
      map[], map[], {}, 1, degree)
  }

  // ----- invariants -----

  /** What a thread holds at its current point: tokens of new, ready, execute and exit taken before the pop or
      owed after the push, the CPU when its PCB is not in execute, the sleeping thread's token, and slots of
      the multiprogramming degree (PCBs in hand, or a slot taken or freed without a PCB). */
  datatype Held = Held(created: nat, ready: nat, exec: nat, exit: nat, cpu: nat, io: nat, slots: nat)

  function AdmHeld(x: Admission): Held {
    match x
    case A0 => Held(0, 0, 0, 0, 0, 0, 0)
    case A1 => Held(1, 0, 0, 0, 0, 0, 0)
    case A2 => Held(1, 0, 0, 0, 0, 0, 1)
    case A3(_) => Held(0, 0, 0, 0, 0, 0, 1)
    case A4 => Held(0, 1, 0, 0, 0, 0, 0)
  }

  function DisHeld(x: Dispatch): Held {
    match x
    case D0 => Held(0, 0, 0, 0, 0, 0, 0)
    case D1 => Held(0, 1, 0, 0, 0, 0, 0)
    case D2 => Held(0, 1, 0, 0, 1, 0, 0)
    case D3(_) => Held(0, 0, 0, 0, 1, 0, 1)
    case D4 => Held(0, 0, 1, 0, 0, 0, 0)
  }

  function FinHeld(x: Finishing): Held {
    match x
    case X0 => Held(0, 0, 0, 0, 0, 0, 0)
    case X1 => Held(0, 0, 0, 1, 0, 0, 0)
    case X2(_) => Held(0, 0, 0, 0, 0, 0, 1)
    case X3 => Held(0, 0, 0, 0, 0, 0, 1)
  }

  function WakeHeld(x: Waking): Held {
    match x
    case F3(_) => Held(0, 0, 0, 0, 0, 0, 1)
    case F4 => Held(0, 1, 0, 0, 0, 0, 0)
    case _ => Held(0, 0, 0, 0, 0, 0, 0)
  }

  function ExeHeld(x: Execution): Held {
    match x
    case Idle => Held(0, 0, 0, 0, 0, 0, 0)
    case Pop => Held(0, 0, 1, 0, 0, 0, 0)
    case Running(_) => Held(0, 0, 0, 0, 1, 0, 1)
    case Sent(_) => Held(0, 0, 0, 0, 1, 0, 1)
    case PostEnvio => Held(0, 0, 0, 0, 1, 0, 0)
    case IoWait(_) => Held(0, 0, 0, 0, 1, 1, 0)
    case IoBack(_) => Held(0, 0, 0, 0, 1, 0, 1)
    case Signalled(_) => Held(0, 0, 1, 0, 0, 0, 0)
    case Woken(_, None) => Held(0, 0, 1, 0, 0, 0, 1)
    case Woken(_, Some(_)) => Held(0, 0, 0, 0, 1, 0, 2)
    case PostReady(ThenRelease) => Held(0, 1, 0, 0, 1, 0, 0)
    case PostReady(ThenExec) => Held(0, 1, 1, 0, 0, 0, 0)
    case PostReady(ThenPush(_)) => Held(0, 1, 0, 0, 1, 0, 1)
    case PushOwn(_) => Held(0, 0, 0, 0, 1, 0, 1)
    case PostExec => Held(0, 0, 1, 0, 0, 0, 0)
    case PostExit => Held(0, 0, 0, 1, 1, 0, 0)
    case Release => Held(0, 0, 0, 0, 1, 0, 0)
  }

  /** Every counting semaphore agrees with what it counts, up to what the threads hold. */
  ghost predicate TokensWith(s: K, a: Held, d: Held, x: Held, f: Held, w: Held) {
    && |s.newQ| == s.nuevos + s.arriving + a.created
    && |s.ready| == s.readySem + a.ready + d.ready + x.ready + w.ready
    && |s.exec| == s.execSem + d.exec + x.exec
    && |s.exitQ| == s.exitSem + x.exit + f.exit
    && s.execLibre + d.cpu + |s.exec| + x.cpu == 1
    && s.io + s.sleeping == x.io
    && s.grado + |s.ready| + |s.exec| + |s.blocked| + |s.exitQ| + a.slots + d.slots + x.slots + f.slots + w.slots
        == s.degree
  }

  ghost predicate Tokens(s: K) {
    TokensWith(s, AdmHeld(s.adm), DisHeld(s.dis), ExeHeld(s.exe), FinHeld(s.fin), WakeHeld(s.wake))
  }

  /** How often a PCB is in a thread's hand. */
  function One(b: bool): nat { if b then 1 else 0 }

  function AdmHand(x: Admission, p: Pid): nat { One(x.A3? && x.p == p) }
  function DisHand(x: Dispatch, p: Pid): nat { One(x.D3? && x.p == p) }
  function FinHand(x: Finishing, p: Pid): nat { One(x.X2? && x.p == p) }
  function WakeHand(x: Waking, p: Pid): nat { One(x.F3? && x.p == p) }
  function ExeHand(x: Execution, p: Pid): nat {
    match x
    case Running(q) => One(q == p)
    case Sent(q) => One(q == p)
    case IoBack(q) => One(q == p)
    case Woken(w, None) => One(w == p)
    case Woken(w, Some(o)) => One(w == p) + One(o == p)
    case PostReady(ThenPush(o)) => One(o == p)
    case PushOwn(o) => One(o == p)
    case _ => 0
  }

  /** How often a PCB is in the first `k` places of a list, and in the whole list. */
  function TimesIn(q: seq<Pid>, p: Pid, k: nat): nat
    requires k <= |q|
  {
    if k == 0 then 0 else TimesIn(q, p, k - 1) + One(q[k - 1] == p)
  }

  function Times(q: seq<Pid>, p: Pid): nat { TimesIn(q, p, |q|) }

  /** A live PCB is in exactly one list or hand, once; any other PCB nowhere. */
  ghost predicate PlacedAt(s: K, p: Pid, a: nat, d: nat, x: nat, f: nat, w: nat) {
    && Times(s.newQ, p) + Times(s.ready, p) + Times(s.exec, p) + Times(s.blocked, p) + Times(s.exitQ, p) + a + d + x + f
        + w
       == One(p in s.live)
    && (p in s.live ==> p < s.nextPid)
  }

  ghost predicate InOnePlace(s: K, p: Pid) {
    PlacedAt(s, p, AdmHand(s.adm, p), DisHand(s.dis, p), ExeHand(s.exe, p), FinHand(s.fin, p), WakeHand(s.wake, p))
  }

  ghost predicate Placed(s: K) {
    forall p :: InOnePlace(s, p)
  }

  predicate NoDup(q: seq<Pid>) {
    forall i, j :: 0 <= i < j < |q| ==> q[i] != q[j]
  }

  predicate BlockedFor(why: map<Pid, Reason>, p: Pid, reason: Reason) {
    p in why && why[p] == reason
  }

  /** Everybody in blocked is blocked for one known reason, and at most one PCB sleeps. */
  ghost predicate BlockingWith(blocked: seq<Pid>, why: map<Pid, Reason>, sleeper: Option<Pid>) {
    && (forall p :: p in blocked <==> p in why)
    && (forall p: Pid {:trigger BlockedFor(why, p, OnIo)} :: BlockedFor(why, p, OnIo) <==> sleeper == Some(p))
  }

  function Sleeper(x: Execution): Option<Pid> { if x.IoWait? then Some(x.p) else None }

  /** Processes whose file operation has been requested and who have not been woken, oldest first. */
  function Outstanding(x: Waking, done: seq<Pid>, queue: seq<Pid>): seq<Pid> {
    (match x case F1(p) => [p] case F2(p) => [p] case _ => []) + done + queue
  }

  /** Posts of envio_bloqueo_fs made and not yet matched with a wake-up, counting the one still owed. */
  function Posts(envio: nat, w: Waking, x: Execution): nat {
    envio + (if w.F2? then 1 else 0) + (if x.Sent? || x.PostEnvio? then 1 else 0)
  }

  function Sender(x: Execution): Option<Pid> { if x.Sent? then Some(x.p) else None }

  /** The k-th reply meets the k-th post: the PCBs blocked on the file system are exactly those with an
      outstanding request, except the newest one while its PCB is still in hand. */
  ghost predicate FsWith(w: seq<Pid>, posts: nat, sender: Option<Pid>, why: map<Pid, Reason>) {
    && |w| == posts
    && NoDup(w)
    && (sender.Some? ==> w != [] && w[|w| - 1] == sender.value)
    && (forall p: Pid {:trigger BlockedFor(why, p, OnFs)} {:trigger p in w} ::
          BlockedFor(why, p, OnFs) <==> p in w && sender != Some(p))
  }

  /** The waiters of a resource are exactly the PCBs blocked on it; instances are conserved; arrival order is
      wake-up order; somebody waits only while no instance is free (but for the instant inside SIGNAL). */
  ghost predicate ResourceWith(x: Resource, r: nat, why: map<Pid, Reason>, signalled: bool) {
    && x.inst + x.grants - x.signals == x.total
    && x.inst >= 0
    && (x.queue != [] ==> x.inst == if signalled then 1 else 0)
    && (signalled ==> x.inst > 0)
    && NoDup(x.queue) && x.arrived == x.woken + x.queue
    && (forall p: Pid {:trigger BlockedFor(why, p, OnResource(r))} {:trigger p in x.queue} ::
          BlockedFor(why, p, OnResource(r)) <==> p in x.queue)
  }

  function Signaller(x: Execution): Option<nat> { if x.Signalled? then Some(x.r) else None }

  ghost predicate ResourcesWith(res: seq<Resource>, why: map<Pid, Reason>, signalled: Option<nat>) {
    && (forall r: nat :: r < |res| ==> ResourceWith(res[r], r, why, signalled == Some(r)))
    && (forall p :: p in why && why[p].OnResource? ==> why[p].r < |res|)
    && (signalled.Some? ==> signalled.value < |res|)
  }

  /** The waiters of a file are exactly the PCBs blocked on it, and are handed the file in arrival order. */
  ghost predicate FileWith(x: FileEntry, f: string, why: map<Pid, Reason>) {
    && NoDup(x.queue) && x.arrived == x.handed + x.queue
    && (forall p: Pid {:trigger BlockedFor(why, p, OnFile(f))} {:trigger p in x.queue} ::
          BlockedFor(why, p, OnFile(f)) <==> p in x.queue)
  }

  ghost predicate WaitersWith(files: map<string, FileEntry>, why: map<Pid, Reason>) {
    && (forall f :: f in files ==> FileWith(files[f], f, why))
    && (forall p :: p in why && why[p].OnFile? ==> why[p].name in files)
  }

  /** A file is in a process's table exactly when it is open and that process is its one owner. */
  ghost predicate OwnersWith(files: map<string, FileEntry>, tables: map<Pid, set<string>>) {
    forall p, f {:trigger f in TableOf(tables, p)} :: f in TableOf(tables, p) <==> f in files && files[f].owner == p
  }

  ghost predicate FileOwners(s: K) {
    OwnersWith(s.files, s.tables)
  }

  /** What the waiting PCBs wait for: the part of the kernel's state that blocking and waking touch. */
  datatype Waits = Waits(blocked: seq<Pid>, why: map<Pid, Reason>, sleeper: Option<Pid>,
                         requests: seq<Pid>, posts: nat, sender: Option<Pid>,
                         res: seq<Resource>, signaller: Option<nat>, files: map<string, FileEntry>)

  function View(s: K): Waits {
    Waits(s.blocked, s.why, Sleeper(s.exe),
          Outstanding(s.wake, s.fsDone, s.fsQueue), Posts(s.envio, s.wake, s.exe), Sender(s.exe),
          s.res, Signaller(s.exe), s.files)
  }

  ghost predicate WaitsOk(v: Waits) {
    && BlockingWith(v.blocked, v.why, v.sleeper)
    && FsWith(v.requests, v.posts, v.sender, v.why)
    && ResourcesWith(v.res, v.why, v.signaller)
    && WaitersWith(v.files, v.why)
  }

  ghost predicate Inv(s: K) {
    Tokens(s) && Placed(s) && WaitsOk(View(s))
  }
}
