/** Blocking and waking keep every waiting list in agreement with the blocked list, its reasons and its order. */
module SchedulerWaits {
  import opened Bytes
  import opened Scheduler
  import opened SchedulerPlaces

  // ----- one waiting list -----

  lemma BlockOne(blocked: seq<Pid>, why: map<Pid, Reason>, sleeper: Option<Pid>, p: Pid, reason: Reason)
    requires BlockingWith(blocked, why, sleeper) && p !in why && (reason == OnIo ==> sleeper == None)
    ensures BlockingWith(blocked + [p], why[p := reason], if reason == OnIo then Some(p) else sleeper)
  {
    assert !BlockedFor(why, p, OnIo);
    forall q: Pid ensures BlockedFor(why[p := reason], q, OnIo)
        <==> (if reason == OnIo then Some(p) else sleeper) == Some(q) {
      assert BlockedFor(why, q, OnIo) <==> sleeper == Some(q);
    }
  }

  lemma UnblockOne(blocked: seq<Pid>, why: map<Pid, Reason>, sleeper: Option<Pid>, p: Pid)
    requires BlockingWith(blocked, why, sleeper) && p in blocked && Times(blocked, p) <= 1
    ensures BlockingWith(Remove(blocked, p), why - {p}, if sleeper == Some(p) then None else sleeper)
  {
    forall q: Pid ensures BlockedFor(why - {p}, q, OnIo)
        <==> (if sleeper == Some(p) then None else sleeper) == Some(q) {
      assert BlockedFor(why, q, OnIo) <==> sleeper == Some(q);
    }
    forall q ensures q in Remove(blocked, p) <==> q in why - {p} {
      Removed(blocked, p, q);
      Member(blocked, q);
      Member(Remove(blocked, p), q);
    }
  }

  lemma FsOther(w: seq<Pid>, posts: nat, sender: Option<Pid>, why: map<Pid, Reason>, p: Pid, reason: Reason)
    requires FsWith(w, posts, sender, why) && reason != OnFs
    ensures p !in why ==> FsWith(w, posts, sender, why[p := reason])
    ensures BlockedFor(why, p, reason) ==> FsWith(w, posts, sender, why - {p})
  {
    if p !in why {
      forall q: Pid ensures BlockedFor(why[p := reason], q, OnFs) <==> q in w && sender != Some(q) {
        assert BlockedFor(why, q, OnFs) <==> q in w && sender != Some(q);
      }
    } else if why[p] == reason {
      forall q: Pid ensures BlockedFor(why - {p}, q, OnFs) <==> q in w && sender != Some(q) {
        assert BlockedFor(why, q, OnFs) <==> q in w && sender != Some(q);
      }
    }
  }

  lemma FsSend(w: seq<Pid>, posts: nat, why: map<Pid, Reason>, p: Pid)
    requires FsWith(w, posts, None, why) && p !in why
    ensures FsWith(w + [p], posts + 1, Some(p), why)
  {
    assert !BlockedFor(why, p, OnFs);
  }

  lemma FsBlock(w: seq<Pid>, posts: nat, why: map<Pid, Reason>, p: Pid)
    requires FsWith(w, posts, Some(p), why) && p !in why
    ensures FsWith(w, posts, None, why[p := OnFs])
  {
    forall q: Pid ensures BlockedFor(why[p := OnFs], q, OnFs) <==> q in w && None != Some(q) {
      assert BlockedFor(why, q, OnFs) <==> q in w && Some(p) != Some(q);
    }
  }

  /** The oldest request belongs to a PCB already blocked whenever its post has been made. */
  lemma FsWake(w: seq<Pid>, posts: nat, sender: Option<Pid>, why: map<Pid, Reason>)
    requires FsWith(w, posts, sender, why) && w != [] && (sender.Some? ==> posts > 1)
    ensures BlockedFor(why, w[0], OnFs) && FsWith(w[1..], posts - 1, sender, why - {w[0]})
  {
    if sender.Some? { assert w[0] != w[|w| - 1]; }
    assert w[0] in w;
    forall q: Pid ensures BlockedFor(why - {w[0]}, q, OnFs) <==> q in w[1..] && sender != Some(q) {
      assert BlockedFor(why, q, OnFs) <==> q in w && sender != Some(q);
      assert q in w <==> q == w[0] || q in w[1..];
    }
  }

  lemma ResourcesOther(res: seq<Resource>, why: map<Pid, Reason>, g: Option<nat>, p: Pid, reason: Reason)
    requires ResourcesWith(res, why, g) && !reason.OnResource?
    ensures p !in why ==> ResourcesWith(res, why[p := reason], g)
    ensures BlockedFor(why, p, reason) ==> ResourcesWith(res, why - {p}, g)
  {
    forall r: nat | r < |res|
      ensures p !in why ==> ResourceWith(res[r], r, why[p := reason], g == Some(r))
      ensures BlockedFor(why, p, reason) ==> ResourceWith(res[r], r, why - {p}, g == Some(r))
    {
      ResourceOther(res[r], r, why, g == Some(r), p, reason);
    }
  }

  lemma ResourceOther(x: Resource, r: nat, why: map<Pid, Reason>, g: bool, p: Pid, reason: Reason)
    requires ResourceWith(x, r, why, g) && reason != OnResource(r)
    ensures p !in why ==> ResourceWith(x, r, why[p := reason], g)
    ensures BlockedFor(why, p, reason) ==> ResourceWith(x, r, why - {p}, g)
  {
    if p !in why {
      forall q: Pid ensures BlockedFor(why[p := reason], q, OnResource(r)) <==> q in x.queue {
        assert BlockedFor(why, q, OnResource(r)) <==> q in x.queue;
      }
    } else if why[p] == reason {
      forall q: Pid ensures BlockedFor(why - {p}, q, OnResource(r)) <==> q in x.queue {
        assert BlockedFor(why, q, OnResource(r)) <==> q in x.queue;
      }
    }
  }

  lemma WaitersOther(files: map<string, FileEntry>, why: map<Pid, Reason>, p: Pid, reason: Reason)
    requires WaitersWith(files, why) && !reason.OnFile?
    ensures p !in why ==> WaitersWith(files, why[p := reason])
    ensures BlockedFor(why, p, reason) ==> WaitersWith(files, why - {p})
  {
    forall f | f in files
      ensures p !in why ==> FileWith(files[f], f, why[p := reason])
      ensures BlockedFor(why, p, reason) ==> FileWith(files[f], f, why - {p})
    {
      FileOther(files[f], f, why, p, reason);
    }
  }

  lemma FileOther(x: FileEntry, f: string, why: map<Pid, Reason>, p: Pid, reason: Reason)
    requires FileWith(x, f, why) && reason != OnFile(f)
    ensures p !in why ==> FileWith(x, f, why[p := reason])
    ensures BlockedFor(why, p, reason) ==> FileWith(x, f, why - {p})
  {
    if p !in why {
      forall q: Pid ensures BlockedFor(why[p := reason], q, OnFile(f)) <==> q in x.queue {
        assert BlockedFor(why, q, OnFile(f)) <==> q in x.queue;
      }
    } else if why[p] == reason {
      forall q: Pid ensures BlockedFor(why - {p}, q, OnFile(f)) <==> q in x.queue {
        assert BlockedFor(why, q, OnFile(f)) <==> q in x.queue;
      }
    }
  }

  // ----- the steps that change what somebody waits for -----

  function Block(v: Waits, p: Pid, reason: Reason): Waits {
    v.(blocked := v.blocked + [p], why := v.why[p := reason])
  }

  function Unblock(v: Waits, p: Pid): Waits
    requires p in v.blocked
  {
    v.(blocked := Remove(v.blocked, p), why := v.why - {p})
  }

  lemma Sleeps(v: Waits, p: Pid)
    requires WaitsOk(v) && p !in v.why && v.sleeper == None
    ensures WaitsOk(Block(v, p, OnIo).(sleeper := Some(p)))
  {
    BlockOne(v.blocked, v.why, v.sleeper, p, OnIo);
    FsOther(v.requests, v.posts, v.sender, v.why, p, OnIo);
    ResourcesOther(v.res, v.why, v.signaller, p, OnIo);
    WaitersOther(v.files, v.why, p, OnIo);
  }

  lemma SleepEnds(v: Waits, p: Pid)
    requires WaitsOk(v) && p in v.blocked && Times(v.blocked, p) <= 1 && v.sleeper == Some(p)
    ensures WaitsOk(Unblock(v, p).(sleeper := None))
  {
    assert BlockedFor(v.why, p, OnIo);
    UnblockOne(v.blocked, v.why, v.sleeper, p);
    FsOther(v.requests, v.posts, v.sender, v.why, p, OnIo);
    ResourcesOther(v.res, v.why, v.signaller, p, OnIo);
    WaitersOther(v.files, v.why, p, OnIo);
  }

  lemma Sends(v: Waits, p: Pid)
    requires WaitsOk(v) && p !in v.why && v.sender == None
    ensures WaitsOk(v.(requests := v.requests + [p], posts := v.posts + 1, sender := Some(p)))
  {
    FsSend(v.requests, v.posts, v.why, p);
  }

  lemma WaitsForFs(v: Waits, p: Pid)
    requires WaitsOk(v) && p !in v.why && v.sender == Some(p)
    ensures WaitsOk(Block(v, p, OnFs).(sender := None))
  {
    BlockOne(v.blocked, v.why, v.sleeper, p, OnFs);
    FsBlock(v.requests, v.posts, v.why, p);
    ResourcesOther(v.res, v.why, v.signaller, p, OnFs);
    WaitersOther(v.files, v.why, p, OnFs);
  }

  lemma FsWakes(v: Waits)
    requires WaitsOk(v) && v.requests != [] && (v.sender.Some? ==> v.posts > 1)
    requires Times(v.blocked, v.requests[0]) <= 1
    ensures v.requests[0] in v.blocked
    ensures WaitsOk(Unblock(v, v.requests[0]).(requests := v.requests[1..], posts := v.posts - 1))
  {
    var p := v.requests[0];
    FsWake(v.requests, v.posts, v.sender, v.why);
    assert !BlockedFor(v.why, p, OnIo);
    UnblockOne(v.blocked, v.why, v.sleeper, p);
    ResourcesOther(v.res, v.why, v.signaller, p, OnFs);
    WaitersOther(v.files, v.why, p, OnFs);
  }

  // ----- resources -----

  /** WAIT with an instance left. */
  lemma Grants(v: Waits, r: nat)
    requires WaitsOk(v) && r < |v.res| && v.res[r].inst > 0 && v.signaller == None
    ensures var x := v.res[r];
            WaitsOk(v.(res := v.res[r := x.(inst := x.inst - 1, grants := x.grants + 1)]))
  {
    assert ResourceWith(v.res[r], r, v.why, false);
  }

  lemma QueueUp(v: Waits, p: Pid, r: nat)
    requires WaitsOk(v) && r < |v.res| && v.res[r].inst == 0 && v.signaller == None && p !in v.why
    ensures var x := v.res[r];
            WaitsOk(Block(v, p, OnResource(r)).(res :=
                v.res[r := x.(queue := x.queue + [p], arrived := x.arrived + [p])]))
  {
    var x := v.res[r];
    var y := x.(queue := x.queue + [p], arrived := x.arrived + [p]);
    BlockOne(v.blocked, v.why, v.sleeper, p, OnResource(r));
    FsOther(v.requests, v.posts, v.sender, v.why, p, OnResource(r));
    WaitersOther(v.files, v.why, p, OnResource(r));
    ResourceQueued(x, r, v.why, p);
    forall k: nat | k < |v.res| && k != r ensures ResourceWith(v.res[k], k, v.why[p := OnResource(r)], false) {
      ResourceOther(v.res[k], k, v.why, false, p, OnResource(r));
    }
    assert ResourcesWith(v.res[r := y], v.why[p := OnResource(r)], None);
  }

  lemma ResourceQueued(x: Resource, r: nat, why: map<Pid, Reason>, p: Pid)
    requires ResourceWith(x, r, why, false) && x.inst == 0 && p !in why
    ensures ResourceWith(x.(queue := x.queue + [p], arrived := x.arrived + [p]), r, why[p := OnResource(r)], false)
  {
    assert !BlockedFor(why, p, OnResource(r));
    forall q: Pid ensures BlockedFor(why[p := OnResource(r)], q, OnResource(r)) <==> q in x.queue + [p] {
      assert BlockedFor(why, q, OnResource(r)) <==> q in x.queue;
    }
    assert x.arrived + [p] == x.woken + (x.queue + [p]);
  }

  /** SIGNAL's first half. */
  lemma Raises(v: Waits, r: nat)
    requires WaitsOk(v) && r < |v.res| && v.signaller == None
    ensures var x := v.res[r];
            WaitsOk(v.(res := v.res[r := x.(inst := x.inst + 1, signals := x.signals + 1)], signaller := Some(r)))
  {
    assert ResourceWith(v.res[r], r, v.why, false);
  }

  lemma NobodyWaits(v: Waits, r: nat)
    requires WaitsOk(v) && r < |v.res| && v.signaller == Some(r) && v.res[r].queue == []
    ensures WaitsOk(v.(signaller := None))
  {
    forall k: nat | k < |v.res| ensures ResourceWith(v.res[k], k, v.why, false) {
      assert ResourceWith(v.res[k], k, v.why, v.signaller == Some(k));
    }
  }

  /** SIGNAL's second half: the longest waiting PCB gets the instance. */
  lemma HandsOver(v: Waits, r: nat)
    requires WaitsOk(v) && r < |v.res| && v.signaller == Some(r) && v.res[r].queue != []
    requires Times(v.blocked, v.res[r].queue[0]) <= 1
    ensures v.res[r].queue[0] in v.blocked
    ensures var x := v.res[r]; var w := x.queue[0];
            WaitsOk(Unblock(v, w).(res := v.res[r :=
                x.(inst := x.inst - 1, grants := x.grants + 1, queue := x.queue[1..],
                                                         woken := x.woken + [w])],
                                   signaller := None))
  {
    var x := v.res[r];
    var w := x.queue[0];
    assert ResourceWith(x, r, v.why, true);
    assert w in x.queue;
    assert BlockedFor(v.why, w, OnResource(r));
    assert !BlockedFor(v.why, w, OnIo);
    UnblockOne(v.blocked, v.why, v.sleeper, w);
    FsOther(v.requests, v.posts, v.sender, v.why, w, OnResource(r));
    WaitersOther(v.files, v.why, w, OnResource(r));
    ResourceHanded(x, r, v.why);
    forall k: nat | k < |v.res| && k != r ensures ResourceWith(v.res[k], k, v.why - {w}, false) {
      ResourceOther(v.res[k], k, v.why, false, w, OnResource(r));
    }
  }

  lemma ResourceHanded(x: Resource, r: nat, why: map<Pid, Reason>)
    requires ResourceWith(x, r, why, true) && x.queue != []
    ensures ResourceWith(x.(inst := x.inst - 1, grants := x.grants + 1, queue := x.queue[1..], woken := x.woken
            + [x.queue[0]]),
                         r, why - {x.queue[0]}, false)
  {
    var w := x.queue[0];
    forall q: Pid ensures BlockedFor(why - {w}, q, OnResource(r)) <==> q in x.queue[1..] {
      assert BlockedFor(why, q, OnResource(r)) <==> q in x.queue;
      assert q in x.queue <==> q == w || q in x.queue[1..];
    }
    assert x.arrived == (x.woken + [w]) + x.queue[1..];
  }

  // ----- files -----

  lemma OpensNew(v: Waits, p: Pid, f: string)
    requires WaitsOk(v) && f !in v.files
    ensures WaitsOk(v.(files := v.files[f := FileEntry(p, [], [], [])]))
  {
    forall q: Pid ensures !BlockedFor(v.why, q, OnFile(f)) {}
  }

  lemma QueuesForFile(v: Waits, p: Pid, f: string)
    requires WaitsOk(v) && f in v.files && p !in v.why
    ensures var x := v.files[f];
            WaitsOk(Block(v, p, OnFile(f)).(files :=
                v.files[f := x.(queue := x.queue + [p], arrived := x.arrived + [p])]))
  {
    var x := v.files[f];
    BlockOne(v.blocked, v.why, v.sleeper, p, OnFile(f));
    FsOther(v.requests, v.posts, v.sender, v.why, p, OnFile(f));
    ResourcesOther(v.res, v.why, v.signaller, p, OnFile(f));
    FileQueued(x, f, v.why, p);
    forall g | g in v.files && g != f ensures FileWith(v.files[g], g, v.why[p := OnFile(f)]) {
      FileOther(v.files[g], g, v.why, p, OnFile(f));
    }
  }

  lemma FileQueued(x: FileEntry, f: string, why: map<Pid, Reason>, p: Pid)
    requires FileWith(x, f, why) && p !in why
    ensures FileWith(x.(queue := x.queue + [p], arrived := x.arrived + [p]), f, why[p := OnFile(f)])
  {
    assert !BlockedFor(why, p, OnFile(f));
    forall q: Pid ensures BlockedFor(why[p := OnFile(f)], q, OnFile(f)) <==> q in x.queue + [p] {
      assert BlockedFor(why, q, OnFile(f)) <==> q in x.queue;
    }
    assert x.arrived + [p] == x.handed + (x.queue + [p]);
  }

  lemma ClosesLast(v: Waits, f: string)
    requires WaitsOk(v) && f in v.files && v.files[f].queue == []
    ensures WaitsOk(v.(files := v.files - {f}))
  {
    forall q | q in v.why && v.why[q].OnFile? ensures v.why[q].name in v.files - {f} {
      assert BlockedFor(v.why, q, OnFile(v.why[q].name));
      assert FileWith(v.files[f], f, v.why);
      assert BlockedFor(v.why, q, OnFile(f)) <==> q in v.files[f].queue;
    }
  }

  lemma HandsFile(v: Waits, f: string)
    requires WaitsOk(v) && f in v.files && v.files[f].queue != []
    requires Times(v.blocked, v.files[f].queue[0]) <= 1
    ensures v.files[f].queue[0] in v.blocked
    ensures var x := v.files[f]; var w := x.queue[0];
            WaitsOk(Unblock(v, w).(files := v.files[f :=
                x.(owner := w, queue := x.queue[1..], handed := x.handed + [w])]))
  {
    var x := v.files[f];
    var w := x.queue[0];
    assert FileWith(x, f, v.why);
    assert w in x.queue;
    assert BlockedFor(v.why, w, OnFile(f));
    assert !BlockedFor(v.why, w, OnIo);
    UnblockOne(v.blocked, v.why, v.sleeper, w);
    FsOther(v.requests, v.posts, v.sender, v.why, w, OnFile(f));
    ResourcesOther(v.res, v.why, v.signaller, w, OnFile(f));
    FileHanded(x, f, v.why);
    forall g | g in v.files && g != f ensures FileWith(v.files[g], g, v.why - {w}) {
      FileOther(v.files[g], g, v.why, w, OnFile(f));
    }
  }

  lemma FileHanded(x: FileEntry, f: string, why: map<Pid, Reason>)
    requires FileWith(x, f, why) && x.queue != []
    ensures FileWith(x.(owner := x.queue[0], queue := x.queue[1..], handed := x.handed + [x.queue[0]]), f,
            why - {x.queue[0]})
  {
    var w := x.queue[0];
    forall q: Pid ensures BlockedFor(why - {w}, q, OnFile(f)) <==> q in x.queue[1..] {
      assert BlockedFor(why, q, OnFile(f)) <==> q in x.queue;
      assert q in x.queue <==> q == w || q in x.queue[1..];
    }
    assert x.arrived == (x.handed + [w]) + x.queue[1..];
  }
}
