/** No step of any thread loses or duplicates a PCB. */
module SchedulerPlaces {
  import opened Bytes
  import opened Scheduler

  lemma {:induction false} SameTimes(q: seq<Pid>, r: seq<Pid>, p: Pid, k: nat)
    requires k <= |q| && k <= |r| && forall j :: 0 <= j < k ==> q[j] == r[j]
    ensures TimesIn(q, p, k) == TimesIn(r, p, k)
  {
    if k > 0 { SameTimes(q, r, p, k - 1); }
  }

  lemma Pushed(q: seq<Pid>, y: Pid, p: Pid)
    ensures Times(q + [y], p) == Times(q, p) + One(y == p)
  {
    SameTimes(q + [y], q, p, |q|);
  }

  lemma {:induction false} TakenUpTo(q: seq<Pid>, i: nat, p: Pid, k: nat)
    requires i < k <= |q|
    ensures TimesIn(q, p, k) == One(q[i] == p) + TimesIn(Without(q, i), p, k - 1)
  {
    if k - 1 == i {
      SameTimes(q, Without(q, i), p, k - 1);
    } else {
      TakenUpTo(q, i, p, k - 1);
      assert Without(q, i)[k - 2] == q[k - 1];
    }
  }

  lemma Taken(q: seq<Pid>, i: nat, p: Pid)
    requires i < |q|
    ensures Times(q, p) == One(q[i] == p) + Times(Without(q, i), p)
  {
    TakenUpTo(q, i, p, |q|);
  }

  lemma Popped(q: seq<Pid>, p: Pid)
    requires q != []
    ensures Times(q, p) == One(q[0] == p) + Times(q[1..], p)
  {
    Taken(q, 0, p);
    assert Without(q, 0) == q[1..];
  }

  lemma Removed(q: seq<Pid>, y: Pid, p: Pid)
    requires y in q
    ensures Times(q, p) == One(y == p) + Times(Remove(q, y), p)
  {
    Taken(q, IndexOf(q, y), p);
  }

  lemma {:induction false} MemberUpTo(q: seq<Pid>, p: Pid, k: nat)
    requires k <= |q|
    ensures TimesIn(q, p, k) > 0 <==> p in q[..k]
  {
    if k > 0 {
      MemberUpTo(q, p, k - 1);
      assert q[..k] == q[..k - 1] + [q[k - 1]];
    }
  }

  lemma Member(q: seq<Pid>, p: Pid)
    ensures Times(q, p) > 0 <==> p in q
  {
    MemberUpTo(q, p, |q|);
    assert q[..|q|] == q;
  }

  lemma AdmitPlaces(s: K, s': K, p: Pid, d: nat, x: nat, f: nat, w: nat)
    requires PlacedAt(s, p, AdmHand(s.adm, p), d, x, f, w) && AdmitStep(s) == Some(s')
    ensures PlacedAt(s', p, AdmHand(s'.adm, p), d, x, f, w)
  {
    match s.adm {
      case A2 => Popped(s.newQ, p);
      case A3(y) => Pushed(s.ready, y, p);
      case _ =>
    }
  }

  lemma DispatchPlaces(s: K, i: nat, s': K, p: Pid, a: nat, x: nat, f: nat, w: nat)
    requires PlacedAt(s, p, a, DisHand(s.dis, p), x, f, w) && DispatchStep(s, i) == Some(s')
    ensures PlacedAt(s', p, a, DisHand(s'.dis, p), x, f, w)
  {
    match s.dis {
      case D2 => Taken(s.ready, i, p);
      case D3(y) => Pushed(s.exec, y, p);
      case _ =>
    }
  }

  lemma FinishPlaces(s: K, s': K, p: Pid, a: nat, d: nat, x: nat, w: nat)
    requires PlacedAt(s, p, a, d, x, FinHand(s.fin, p), w) && FinishStep(s) == Some(s')
    ensures PlacedAt(s', p, a, d, x, FinHand(s'.fin, p), w)
  {
    match s.fin {
      case X1 => Popped(s.exitQ, p);
      case _ =>
    }
  }

  lemma WakePlaces(s: K, s': K, p: Pid, a: nat, d: nat, x: nat, f: nat)
    requires PlacedAt(s, p, a, d, x, f, WakeHand(s.wake, p)) && WakeStep(s) == Some(s')
    ensures PlacedAt(s', p, a, d, x, f, WakeHand(s'.wake, p))
  {
    match s.wake {
      case F2(y) => Removed(s.blocked, y, p);
      case F3(y) => Pushed(s.ready, y, p);
      case _ =>
    }
  }

  lemma OtherPlaces(s: K, e: Event, s': K, p: Pid, a: nat, d: nat, x: nat, f: nat, w: nat)
    requires PlacedAt(s, p, a, d, x, f, w) && Step(s, e) == Some(s')
             && (e.Arrive? || e.ArrivePost? || e.FsReply? || e.SleepEnd?)
    ensures PlacedAt(s', p, a, d, x, f, w)
  {
    if e.Arrive? { Pushed(s.newQ, s.nextPid, p); }
  }

  lemma WaitPlaces(s: K, own: Pid, r: nat, p: Pid, a: nat, d: nat, f: nat, w: nat)
    requires r < |s.res| && PlacedAt(s, p, a, d, One(own == p), f, w)
    ensures PlacedAt(WaitOn(s, own, r), p, a, d, ExeHand(WaitOn(s, own, r).exe, p), f, w)
  {
    if s.res[r].inst > 0 { Pushed(s.exec, own, p); } else { Pushed(s.blocked, own, p); }
  }

  lemma OpenPlaces(s: K, own: Pid, n: string, p: Pid, a: nat, d: nat, f: nat, w: nat)
    requires PlacedAt(s, p, a, d, One(own == p), f, w)
    ensures PlacedAt(OpenFile(s, own, n), p, a, d, ExeHand(OpenFile(s, own, n).exe, p), f, w)
  {
    Pushed(s.exec, own, p);
    Pushed(s.blocked, own, p);
  }

  lemma ClosePlaces(s: K, own: Pid, n: string, s': K, p: Pid, a: nat, d: nat, f: nat, w: nat)
    requires n in s.files && CloseFile(s, own, n) == Some(s') && PlacedAt(s, p, a, d, One(own == p), f, w)
    ensures PlacedAt(s', p, a, d, ExeHand(s'.exe, p), f, w)
  {
    if s.files[n].queue == [] {
      Pushed(s.exec, own, p);
    } else {
      Removed(s.blocked, s.files[n].queue[0], p);
    }
  }

  lemma SignalPlaces(s: K, r: nat, s': K, p: Pid, a: nat, d: nat, f: nat, w: nat)
    requires r < |s.res| && SignalWakes(s, r) == Some(s') && PlacedAt(s, p, a, d, 0, f, w)
    ensures PlacedAt(s', p, a, d, ExeHand(s'.exe, p), f, w)
  {
    if s.res[r].queue != [] { Removed(s.blocked, s.res[r].queue[0], p); }
  }

  lemma AnswerPlaces(s: K, own: Pid, an: Answer, s': K, p: Pid, a: nat, d: nat, f: nat, w: nat)
    requires Handle(s, own, an) == Some(s') && PlacedAt(s, p, a, d, One(own == p), f, w)
    ensures PlacedAt(s', p, a, d, ExeHand(s'.exe, p), f, w)
  {
    match an {
      case Wait(r) =>
        if r.Some? && r.value < |s.res| {
          WaitPlaces(s, own, r.value, p, a, d, f, w);
        } else {
          Pushed(s.exitQ, own, p);
        }
      case Open(n) => OpenPlaces(s, own, n, p, a, d, f, w);
      case Close(n) => ClosePlaces(s, own, n, s', p, a, d, f, w);
      case Signal(r) => RaisePlaces(s, own, r, s', p, a, d, f, w);
      case _ => PlainPlaces(s, own, an, s', p, a, d, f, w);
    }
  }

  predicate Plain(an: Answer) {
    !an.Wait? && !an.Signal? && !an.Open? && !an.Close?
  }

  lemma PlainPlaces(s: K, own: Pid, an: Answer, s': K, p: Pid, a: nat, d: nat, f: nat, w: nat)
    requires Plain(an) && Handle(s, own, an) == Some(s') && PlacedAt(s, p, a, d, One(own == p), f, w)
    ensures PlacedAt(s', p, a, d, ExeHand(s'.exe, p), f, w)
  {
    match an {
      case Yield => Pushed(s.ready, own, p); assert PlacedAt(s', p, a, d, ExeHand(s'.exe, p), f, w);
      case Leave => Pushed(s.exitQ, own, p); assert PlacedAt(s', p, a, d, ExeHand(s'.exe, p), f, w);
      case Io => Pushed(s.blocked, own, p); assert PlacedAt(s', p, a, d, ExeHand(s'.exe, p), f, w);
      case Continue => Pushed(s.exec, own, p); assert PlacedAt(s', p, a, d, ExeHand(s'.exe, p), f, w);
      case FileOp => assert PlacedAt(s', p, a, d, ExeHand(s'.exe, p), f, w);
    }
  }

  lemma RaisePlaces(s: K, own: Pid, r: Option<nat>, s': K, p: Pid, a: nat, d: nat, f: nat, w: nat)
    requires Handle(s, own, Signal(r)) == Some(s') && PlacedAt(s, p, a, d, One(own == p), f, w)
    ensures PlacedAt(s', p, a, d, ExeHand(s'.exe, p), f, w)
  {
    Pushed(s.exec, own, p);
    Pushed(s.exitQ, own, p);
  }

  lemma EarlyPlaces(s: K, s': K, p: Pid, a: nat, d: nat, f: nat, w: nat)
    requires Early(s.exe) && EarlyStep(s) == Some(s') && PlacedAt(s, p, a, d, ExeHand(s.exe, p), f, w)
    ensures PlacedAt(s', p, a, d, ExeHand(s'.exe, p), f, w)
  {
    match s.exe {
      case Pop => Popped(s.exec, p); assert PlacedAt(s', p, a, d, ExeHand(s'.exe, p), f, w);
      case Sent(y) => Pushed(s.blocked, y, p); assert PlacedAt(s', p, a, d, ExeHand(s'.exe, p), f, w);
      case IoWait(y) => SleepPlaces(s, s', y, p, a, d, f, w);
      case IoBack(y) => Pushed(s.ready, y, p); assert PlacedAt(s', p, a, d, ExeHand(s'.exe, p), f, w);
      case Idle => assert PlacedAt(s', p, a, d, ExeHand(s'.exe, p), f, w);
      case PostEnvio => assert PlacedAt(s', p, a, d, ExeHand(s'.exe, p), f, w);
    }
  }

  lemma SleepPlaces(s: K, s': K, y: Pid, p: Pid, a: nat, d: nat, f: nat, w: nat)
    requires s.exe == IoWait(y) && EarlyStep(s) == Some(s') && PlacedAt(s, p, a, d, 0, f, w)
    ensures PlacedAt(s', p, a, d, ExeHand(s'.exe, p), f, w)
  {
    Removed(s.blocked, y, p);
  }

  lemma WokenPlaces(s: K, y: Pid, own: Option<Pid>, s': K, p: Pid, a: nat, d: nat, f: nat, w: nat)
    requires s.exe == Woken(y, own) && LateStep(s) == Some(s') && PlacedAt(s, p, a, d, ExeHand(s.exe, p), f, w)
    ensures PlacedAt(s', p, a, d, ExeHand(s'.exe, p), f, w)
  {
    Pushed(s.ready, y, p);
  }

  lemma PostPlaces(s: K, next: Next, s': K, p: Pid, a: nat, d: nat, f: nat, w: nat)
    requires s.exe == PostReady(next) && LateStep(s) == Some(s') && PlacedAt(s, p, a, d, ExeHand(s.exe, p), f, w)
    ensures PlacedAt(s', p, a, d, ExeHand(s'.exe, p), f, w)
  {
  }

  lemma LatePlaces(s: K, s': K, p: Pid, a: nat, d: nat, f: nat, w: nat)
    requires !Early(s.exe) && !s.exe.Running? && LateStep(s) == Some(s')
             && PlacedAt(s, p, a, d, ExeHand(s.exe, p), f, w)
    ensures PlacedAt(s', p, a, d, ExeHand(s'.exe, p), f, w)
  {
    match s.exe {
      case Signalled(r) => SignalPlaces(s, r, s', p, a, d, f, w);
      case Woken(y, own) => WokenPlaces(s, y, own, s', p, a, d, f, w);
      case PostReady(n) => PostPlaces(s, n, s', p, a, d, f, w);
      case PushOwn(y) => Pushed(s.exec, y, p); assert PlacedAt(s', p, a, d, ExeHand(s'.exe, p), f, w);
      case PostExec => assert PlacedAt(s', p, a, d, ExeHand(s'.exe, p), f, w);
      case PostExit => assert PlacedAt(s', p, a, d, ExeHand(s'.exe, p), f, w);
      case Release => assert PlacedAt(s', p, a, d, ExeHand(s'.exe, p), f, w);
    }
  }

  lemma ExecutePlaces(s: K, an: Answer, s': K, p: Pid, a: nat, d: nat, f: nat, w: nat)
    requires ExecuteStep(s, an) == Some(s') && PlacedAt(s, p, a, d, ExeHand(s.exe, p), f, w)
    ensures PlacedAt(s', p, a, d, ExeHand(s'.exe, p), f, w)
  {
    if s.exe.Running? {
      AnswerPlaces(s, s.exe.p, an, s', p, a, d, f, w);
    } else if Early(s.exe) {
      EarlyPlaces(s, s', p, a, d, f, w);
    } else {
      LatePlaces(s, s', p, a, d, f, w);
    }
  }
}
