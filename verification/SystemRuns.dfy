/** Memory and kernel together: what each request does to memory's table, to the bytes of every segment and to every
    process's copies of the table, and exactly when the copies stay equal to memory's entries. */
module SystemRuns {
  import opened Bytes
  import opened Segments
  import opened MemoryModule
  import opened Translation

  /** The rows of process `pid` among the first `k`. */
  function Mine(t: seq<Row>, k: nat, pid: int): seq<Row>
    requires k <= |t|
  {
    if k == 0 then [] else Mine(t, k - 1, pid) + if t[k - 1].pid == pid then [t[k - 1]] else []
  }

  lemma {:induction false} MineIsOwn(t: seq<Row>, k: nat, pid: int)
    requires k <= |t|
    ensures |Mine(t, k, pid)| == |OwnRows(t, k, pid)|
    ensures forall j :: 0 <= j < |Mine(t, k, pid)| ==> Mine(t, k, pid)[j] == t[OwnRows(t, k, pid)[j]]
  {
    if k > 0 { MineIsOwn(t, k - 1, pid); }
  }

  lemma CopiesAreMine(t: seq<Row>, pid: int)
    requires t != []
    ensures Copies(t, pid) == [t[0]] + Mine(t, |t|, pid)
  {
    MineIsOwn(t, |t|, pid);
  }

  lemma {:induction false} MineHasPid(t: seq<Row>, k: nat, pid: int)
    requires k <= |t|
    ensures forall j :: 0 <= j < |Mine(t, k, pid)| ==> Mine(t, k, pid)[j] in t[..k] && Mine(t, k, pid)[j].pid == pid
  {
    if k > 0 {
      MineHasPid(t, k - 1, pid);
      assert t[..k] == t[..k - 1] + [t[k - 1]];
    }
  }

  lemma {:induction false} MineSame(t: seq<Row>, u: seq<Row>, k: nat, pid: int)
    requires k <= |t| && k <= |u| && forall i :: 0 <= i < k ==> t[i] == u[i]
    ensures Mine(t, k, pid) == Mine(u, k, pid)
  {
    if k > 0 { MineSame(t, u, k - 1, pid); }
  }

  // ----- deletion -----

  /** `list_remove_by_condition` by segment number. */
  function RemoveId(segs: seq<Row>, id: int): seq<Row> {
    if FirstWith(segs, id) < |segs| then Drop(segs, FirstWith(segs, id)) else segs
  }

  /** Another process's row disappears. */
  lemma {:induction false} MineAfterForeignDrop(t: seq<Row>, k: nat, n: nat, pid: int)
    requires k < n <= |t| && t[k].pid != pid
    ensures Mine(Drop(t, k), n - 1, pid) == Mine(t, n, pid)
  {
    if n - 1 == k {
      MineSame(Drop(t, k), t, n - 1, pid);
    } else {
      MineAfterForeignDrop(t, k, n - 1, pid);
      assert Drop(t, k)[n - 2] == t[n - 1];
    }
  }

  /** A row of the process itself disappears. */
  lemma {:induction false} MineAfterOwnDrop(t: seq<Row>, k: nat, n: nat, pid: int)
    requires k < n <= |t| && t[k].pid == pid && DistinctIds(t)
    ensures FirstWith(Mine(t, n, pid), t[k].id) < |Mine(t, n, pid)|
    ensures Mine(Drop(t, k), n - 1, pid) == RemoveId(Mine(t, n, pid), t[k].id)
  {
    if n - 1 == k {
      MineSame(Drop(t, k), t, n - 1, pid);
      OwnNumbersApart(t, k, pid);
      var s := Mine(t, n - 1, pid);
      FirstWithIs(s + [t[k]], t[k].id, |s|);
      assert Drop(s + [t[k]], |s|) == s;
    } else {
      MineAfterOwnDrop(t, k, n - 1, pid);
      var s := Mine(t, n - 1, pid);
      var x := if t[n - 1].pid == pid then [t[n - 1]] else [];
      var f := FirstWith(s, t[k].id);
      assert (s + x)[f] == s[f];
      FirstWithIs(s + x, t[k].id, f);
      assert Drop(s + x, f) == Drop(s, f) + x;
      assert Drop(t, k)[n - 2] == t[n - 1];
    }
  }

  lemma OwnNumbersApart(t: seq<Row>, k: nat, pid: int)
    requires k < |t| && t[k].pid == pid && DistinctIds(t)
    ensures forall j :: 0 <= j < |Mine(t, k, pid)| ==> Mine(t, k, pid)[j].id != t[k].id
  {
    MineHasPid(t, k, pid);
  }

  /** Deleting row `k` of memory's table and removing its number from the owner's copies keeps both in step. */
  lemma CopiesAfterDelete(t: seq<Row>, k: nat, pid: int)
    requires 0 < k < |t| && DistinctIds(t) && t[0].pid == 0 && pid != 0
    ensures Copies(Drop(t, k), pid) == if t[k].pid == pid then RemoveId(Copies(t, pid), t[k].id) else Copies(t, pid)
  {
    if t[k].pid == pid {
      CopiesAfterOwnDelete(t, k, pid);
    } else {
      CopiesAfterForeignDelete(t, k, pid);
    }
  }

  lemma CopiesAfterForeignDelete(t: seq<Row>, k: nat, pid: int)
    requires 0 < k < |t| && t[k].pid != pid
    ensures Copies(Drop(t, k), pid) == Copies(t, pid)
  {
    var n: nat := |t| - 1;
    CopiesAreMine(t, pid);
    CopiesAreMineOf(Drop(t, k), n, pid);
    MineAfterForeignDrop(t, k, |t|, pid);
    assert [Drop(t, k)[0]] == [t[0]];
  }

  lemma CopiesAreMineOf(t: seq<Row>, n: nat, pid: int)
    requires n == |t| > 0
    ensures Copies(t, pid) == [t[0]] + Mine(t, n, pid)
  {
    CopiesAreMine(t, pid);
  }

  lemma CopiesAfterOwnDelete(t: seq<Row>, k: nat, pid: int)
    requires 0 < k < |t| && DistinctIds(t) && t[0].pid == 0 && pid != 0 && t[k].pid == pid
    ensures Copies(Drop(t, k), pid) == RemoveId(Copies(t, pid), t[k].id)
  {
    CopiesAreMine(t, pid);
    CopiesAreMine(Drop(t, k), pid);
    MineAfterOwnDrop(t, k, |t|, pid);
    assert t[0].id != t[k].id;
    RemoveBehind(t[0], Mine(t, |t|, pid), t[k].id, Copies(t, pid));
  }

  lemma RemoveIdIs(segs: seq<Row>, id: int, f: nat)
    requires f < |segs| && segs[f].id == id && forall j :: 0 <= j < f ==> segs[j].id != id
    ensures RemoveId(segs, id) == Drop(segs, f)
  {
    FirstWithIs(segs, id, f);
  }

  /** An entry with another number in front does not matter. */
  lemma RemoveBehind(first: Row, s: seq<Row>, id: int, all: seq<Row>)
    requires first.id != id && FirstWith(s, id) < |s| && all == [first] + s
    ensures RemoveId(all, id) == [first] + RemoveId(s, id)
  {
    var f := FirstWith(s, id);
    RemoveIdIs(all, id, f + 1);
    DropBehind(first, s, f);
  }

  lemma DropBehind(first: Row, s: seq<Row>, f: nat)
    requires f < |s|
    ensures Drop([first] + s, f + 1) == [first] + Drop(s, f)
  {
  }

  lemma DistinctAfterDrop(t: seq<Row>, k: nat)
    requires DistinctIds(t) && k < |t|
    ensures DistinctIds(Drop(t, k))
  {
    var d := Drop(t, k);
    forall i, j | 0 <= i < j < |d| && d[i].id == d[j].id ensures d[i].pid != d[j].pid && d[i].pid != 0 {
      var i', j' := if i < k then i else i + 1, if j < k then j else j + 1;
      assert d[i] == t[i'] && d[j] == t[j'];
    }
  }

  // ----- exit -----

  lemma {:induction false} MineAfterExit(t: seq<Row>, k: nat, gone: int, pid: int)
    requires k <= |t| && gone != pid
    ensures Mine(FilterRows(t, k, gone), |FilterRows(t, k, gone)|, pid) == Mine(t, k, pid)
  {
    if k > 0 {
      MineAfterExit(t, k - 1, gone, pid);
      var f := FilterRows(t, k - 1, gone);
      if t[k - 1].pid != gone {
        assert FilterRows(t, k, gone) == f + [t[k - 1]];
        MineSame(f + [t[k - 1]], f, |f|, pid);
      } else {
        assert FilterRows(t, k, gone) == f;
      }
    }
  }

  lemma CopiesAfterExit(t: seq<Row>, gone: int, pid: int)
    requires t != [] && t[0].pid == 0 && gone != 0 && gone != pid
    ensures FilterRows(t, |t|, gone) != [] && Copies(FilterRows(t, |t|, gone), pid) == Copies(t, pid)
  {
    FilterKeepsFirst(t, |t|, gone);
    CopiesAreMine(t, pid);
    CopiesAreMine(FilterRows(t, |t|, gone), pid);
    MineAfterExit(t, |t|, gone, pid);
  }

  /** Which row of `t` the `j`-th kept one is. */
  lemma {:induction false} KeptFrom(t: seq<Row>, k: nat, gone: int, i: nat, j: nat) returns (i': nat, j': nat)
    requires k <= |t| && i < j < |FilterRows(t, k, gone)|
    ensures i' < j' < k && FilterRows(t, k, gone)[i] == t[i'] && FilterRows(t, k, gone)[j] == t[j']
  {
    var f := FilterRows(t, k - 1, gone);
    if j < |f| {
      i', j' := KeptFrom(t, k - 1, gone, i, j);
    } else {
      i' := KeptOne(t, k - 1, gone, i);
      j' := k - 1;
    }
  }

  lemma {:induction false} KeptOne(t: seq<Row>, k: nat, gone: int, i: nat) returns (i': nat)
    requires k <= |t| && i < |FilterRows(t, k, gone)|
    ensures i' < k && FilterRows(t, k, gone)[i] == t[i']
  {
    if i < |FilterRows(t, k - 1, gone)| {
      i' := KeptOne(t, k - 1, gone, i);
    } else {
      i' := k - 1;
    }
  }

  lemma DistinctAfterExit(t: seq<Row>, gone: int)
    requires DistinctIds(t)
    ensures DistinctIds(FilterRows(t, |t|, gone))
  {
    var f := FilterRows(t, |t|, gone);
    forall i, j | 0 <= i < j < |f| && f[i].id == f[j].id ensures f[i].pid != f[j].pid && f[i].pid != 0 {
      var i', j' := KeptFrom(t, |t|, gone, i, j);
    }
  }

  // ----- creation -----

  /** Process `pid` has no segment numbered `id`, and `id` is not the shared segment's number. */
  predicate Unused(t: seq<Row>, pid: int, id: int) {
    id != 0 && forall i :: 0 <= i < |t| ==> !(t[i].pid == pid && t[i].id == id)
  }

  lemma UnusedIsNotFound(t: seq<Row>, pid: int, id: int)
    ensures Unused(t, pid, id) <==> id != 0 && Find(ShapesOf(t), pid, id) == |t|
    ensures var r := Find(ShapesOf(t), pid, id); r < |t| ==> t[r].pid == pid && t[r].id == id
  {
    forall i | 0 <= i < |t| ensures ShapesOf(t)[i] == Shape(t[i].pid, t[i].id, t[i].limite) {}
  }

  /** A row more keeps numbers unique exactly when its process does not use the number yet. */
  lemma DistinctAfterCreate(t: seq<Row>, row: Row)
    requires DistinctIds(t) && t != [] && t[0].id == 0 && t[0].pid == 0 && row.pid != 0 && ZeroOnly(t)
    ensures DistinctIds(t + [row]) <==> Unused(t, row.pid, row.id)
  {
    var u := t + [row];
    if !Unused(t, row.pid, row.id) {
      var i := if row.id == 0 then 0 else Find(ShapesOf(t), row.pid, row.id);
      UnusedIsNotFound(t, row.pid, row.id);
      assert u[i] == t[i] && u[|t|] == row;
    }
  }

  lemma MovedAlike(t: seq<Row>)
    requires DistinctIds(t)
    ensures DistinctIds(Relocated(t)) && (ZeroOnly(t) ==> ZeroOnly(Relocated(t)))
    ensures forall pid, id :: Unused(Relocated(t), pid, id) <==> Unused(t, pid, id)
  {
    var r := Relocated(t);
    forall i, j | 0 <= i < j < |r| && r[i].id == r[j].id ensures r[i].pid != r[j].pid && r[i].pid != 0 {
      assert t[i].id == t[j].id;
    }
    forall pid, id ensures Unused(r, pid, id) <==> Unused(t, pid, id) {
      assert forall i :: 0 <= i < |t| ==> r[i].pid == t[i].pid && r[i].id == t[i].id;
    }
  }

  /** The rows of the shared owner are segment 0. */
  ghost predicate ZeroOnly(t: seq<Row>) {
    forall i :: 0 <= i < |t| && t[i].pid == 0 ==> t[i].id == 0
  }

  ghost predicate DistinctPcbs(pcbs: seq<Pcb>)
  {
    && (forall i, j :: 0 <= i < j < |pcbs| ==> pcbs[i] != pcbs[j] && pcbs[i].pid != pcbs[j].pid)
    && (forall i :: 0 <= i < |pcbs| ==> pcbs[i].pid != 0)
  }

  /** Every PCB holds exactly its entries of the table. */
  ghost predicate Copied(t: seq<Row>, pcbs: seq<Pcb>)
    reads pcbs
  {
    t != [] && DistinctPcbs(pcbs) && forall k :: 0 <= k < |pcbs| ==> pcbs[k].segments == Copies(t, pcbs[k].pid)
  }

  /** Memory is in order, a process and a number name one segment, and every PCB holds its entries. */
  ghost predicate Synced(m: Memory, pcbs: seq<Pcb>)
    reads m, m.bitmap, pcbs
  {
    m.Inv() && DistinctIds(m.table) && ZeroOnly(m.table) && Copied(m.table, pcbs)
  }

  /** After a compaction the kernel offers every moved row to every PCB. */
  method RefreshAll(ghost t: seq<Row>, u: seq<Row>, pcbs: seq<Pcb>)
    requires DistinctIds(t) && Copied(t, pcbs) && t[0].pid == 0 && t[0].base == 0 && u == Relocated(t)
    modifies pcbs
    ensures Copied(u, pcbs)
  {
    Broadcast(pcbs, u);
    forall k | 0 <= k < |pcbs| ensures pcbs[k].segments == Copies(u, pcbs[k].pid) {
      BroadcastRestoresCopies(t, pcbs[k].pid);
    }
  }

  /** The new row joins the creator's copies. */
  method Append(pcbs: seq<Pcb>, k: nat, u: seq<Row>, row: Row)
    requires Copied(u, pcbs) && k < |pcbs| && row.pid == pcbs[k].pid
    modifies pcbs[k]
    ensures Copied(u + [row], pcbs)
  {
    pcbs[k].segments := pcbs[k].segments + [row];
    forall j | 0 <= j < |pcbs| ensures pcbs[j].segments == Copies(u + [row], pcbs[j].pid) {
      CopiesAfterCreate(u, row, pcbs[j].pid);
    }
  }

  /** CREATE_SEGMENT by process `k`: memory may compact, in which case the kernel refreshes every PCB, and the new
      entry joins the creator's copies. Numbers stay unique exactly when the process did not use this one. */
  method CreateSegment(m: Memory, pcbs: seq<Pcb>, k: nat, id: int, size: nat) returns (ok: bool)
    requires Synced(m, pcbs) && k < |pcbs|
    modifies m`table, m.bitmap, m.bytes, pcbs
    ensures m.Inv() && Copied(m.table, pcbs)
    ensures Does(m.bytes.Length, old(m.View()), CreateOp(id, size, pcbs[k].pid), ok, m.View())
    ensures if ok then Synced(m, pcbs) <==> old(Unused(m.table, pcbs[k].pid, id)) else Synced(m, pcbs)
  {
    ghost var t := m.table;
    var row, compactions := m.RequestCreate(id, size, pcbs[k].pid);
    ok := row.Some?;
    if ok {
      var u := m.table[..|m.table| - 1];
      assert u == if compactions == 0 then t else Relocated(t);
      Announce(t, u, compactions > 0, pcbs, k, row.value);
      assert m.table == u + [row.value];
    }
  }

  /** What the kernel does when memory has answered a creation: refresh after a compaction, and add the new row. */
  method Announce(ghost t: seq<Row>, u: seq<Row>, moved: bool, pcbs: seq<Pcb>, k: nat, row: Row)
    requires DistinctIds(t) && ZeroOnly(t) && Copied(t, pcbs) && t[0].pid == 0 && t[0].id == 0 && t[0].base == 0
    requires u == (if moved then Relocated(t) else t) && k < |pcbs| && row.pid == pcbs[k].pid
    modifies pcbs
    ensures Copied(u + [row], pcbs) && ZeroOnly(u + [row])
    ensures DistinctIds(u + [row]) <==> Unused(t, row.pid, row.id)
  {
    assert t[0] == Relocated(t)[0];
    MovedAlike(t);
    if moved { RefreshAll(t, u, pcbs); }
    Append(pcbs, k, u, row);
    DistinctAfterCreate(u, row);
  }

  /** Memory's table after the request to delete a number: the number of the shared segment is refused, and so is one
      the process does not have. */
  function TableAfterDelete(t: seq<Row>, pid: int, id: int): seq<Row> {
    var r := Find(ShapesOf(t), pid, id);
    if id != 0 && r < |t| then Drop(t, r) else t
  }

  lemma DeleteHits(t: seq<Row>, pid: int, id: int)
    requires t != [] && t[0].id == 0 && id != 0
    ensures var r := Find(ShapesOf(t), pid, id);
            if r < |t| then 0 < r && t[r].pid == pid && t[r].id == id
            else forall i :: 0 <= i < |t| && t[i].pid == pid ==> t[i].id != id
  {
    UnusedIsNotFound(t, pid, id);
  }

  /** Removing a number none of the process's rows has removes nothing. */
  lemma NothingToRemove(t: seq<Row>, pid: int, id: int)
    requires t != [] && t[0].id == 0 && id != 0 && forall i :: 0 <= i < |t| && t[i].pid == pid ==> t[i].id != id
    ensures RemoveId(Copies(t, pid), id) == Copies(t, pid)
  {
    NoCopy(t, pid, id);
    var segs := Copies(t, pid);
    FirstWithIs(segs, id, |segs|);
  }

  /** Removing number 0 takes away the copy of the shared segment. */
  lemma ZeroRemoved(t: seq<Row>, pid: int)
    requires t != [] && t[0].id == 0
    ensures RemoveId(Copies(t, pid), 0) == Drop(Copies(t, pid), 0) != Copies(t, pid)
  {
    RemoveIdIs(Copies(t, pid), 0, 0);
  }

  /** The kernel removes the number from the process's copies without waiting for memory's answer. The copies then agree
      with memory's table, whatever memory did, if and only if the number is not that of the shared segment. */
  lemma RemovalRightIff(t: seq<Row>, pid: int, id: int)
    requires t != [] && DistinctIds(t) && t[0].pid == 0 && t[0].id == 0 && pid != 0
    ensures RemoveId(Copies(t, pid), id) == Copies(TableAfterDelete(t, pid, id), pid) <==> id != 0
  {
    if id == 0 {
      ZeroRemoved(t, pid);
    } else {
      DeleteHits(t, pid, id);
      var r := Find(ShapesOf(t), pid, id);
      if r < |t| { CopiesAfterDelete(t, r, pid); } else { NothingToRemove(t, pid, id); }
    }
  }

  /** The other processes' copies agree either way. */
  lemma ForeignRemoval(t: seq<Row>, pid: int, id: int, other: int)
    requires t != [] && t[0].id == 0 && other != pid
    ensures TableAfterDelete(t, pid, id) != [] && Copies(TableAfterDelete(t, pid, id), other) == Copies(t, other)
  {
    if id != 0 {
      DeleteHits(t, pid, id);
      var r := Find(ShapesOf(t), pid, id);
      if r < |t| { CopiesAfterForeignDelete(t, r, other); }
    }
  }

  /** DELETE_SEGMENT 0: memory keeps the shared segment, and the process is left without a copy of it. */
  lemma DeleteZeroLosesShared()
    ensures var t := [Row(0, 0, 0, 0, 4), Row(1, 1, 1, 4, 4)];
            TableAfterDelete(t, 1, 0) == t && Copies(t, 1) == t && RemoveId(Copies(t, 1), 0) == [Row(1, 1, 1, 4, 4)]
  {
    var t := [Row(0, 0, 0, 0, 4), Row(1, 1, 1, 4, 4)];
    CopiesAreMine(t, 1);
    assert Mine(t, 1, 1) == [];
    assert Mine(t, 2, 1) == [] + [t[1]];
    ZeroRemoved(t, 1);
  }

  /** What a deletion does to memory. */
  ghost predicate Deleted(n: nat, t: seq<Row>, v: seq<Seg>, pid: int, id: int, ok: bool, t': seq<Row>, v': seq<Seg>) {
    && ok == (id != 0 && Find(ShapesOf(t), pid, id) < |t|)
    && t' == TableAfterDelete(t, pid, id)
    && Does(n, v, DeleteOp(pid, id), ok, v')
  }

  /** The request to memory. */
  method AskDelete(m: Memory, pid: int, id: int) returns (ok: bool)
    requires m.Inv()
    modifies m`table, m.bitmap
    ensures m.Inv() && Deleted(m.bytes.Length, old(m.table), old(m.View()), pid, id, ok, m.table, m.View())
  {
    ok := m.Delete(pid, id);
  }

  lemma TidyAfterDelete(t: seq<Row>, pid: int, id: int)
    requires DistinctIds(t) && ZeroOnly(t)
    ensures DistinctIds(TableAfterDelete(t, pid, id)) && ZeroOnly(TableAfterDelete(t, pid, id))
  {
    var r := Find(ShapesOf(t), pid, id);
    if id != 0 && r < |t| { DistinctAfterDrop(t, r); }
  }

  /** The number leaves the deleting process's copies, whatever memory did to its table, which is now `u`. */
  method RemoveNumber(ghost t: seq<Row>, ghost u: seq<Row>, pcbs: seq<Pcb>, k: nat, id: int)
    requires Copied(t, pcbs) && k < |pcbs| && DistinctIds(t) && t[0].pid == 0 && t[0].id == 0
    requires u == TableAfterDelete(t, pcbs[k].pid, id)
    modifies pcbs[k]
    ensures pcbs[k].segments == RemoveId(old(pcbs[k].segments), id)
    ensures Copied(u, pcbs) <==> id != 0
  {
    ghost var pid := pcbs[k].pid;
    var f := FirstWith(pcbs[k].segments, id);
    if f < |pcbs[k].segments| {
      pcbs[k].segments := Drop(pcbs[k].segments, f);
    }
    RemovalRightIff(t, pid, id);
    forall j | 0 <= j < |pcbs| && j != k ensures pcbs[j].segments == Copies(u, pcbs[j].pid) {
      ForeignRemoval(t, pid, id, pcbs[j].pid);
    }
    assert pcbs[k].segments == Copies(u, pid) <==> id != 0;
  }

  /** DELETE_SEGMENT by process `k`: memory is asked to delete the row, and the kernel removes the number from the
      process's copies whatever memory does. Everybody's copies are right afterwards exactly when the number was not
      0. */
  method DeleteSegment(m: Memory, pcbs: seq<Pcb>, k: nat, id: int) returns (ok: bool)
    requires Synced(m, pcbs) && k < |pcbs|
    modifies m`table, m.bitmap, pcbs[k]
    ensures m.Inv() && Deleted(m.bytes.Length, old(m.table), old(m.View()), pcbs[k].pid, id, ok, m.table, m.View())
    ensures pcbs[k].segments == RemoveId(old(pcbs[k].segments), id)
    ensures Synced(m, pcbs) <==> id != 0
  {
    ghost var t := m.table;
    ok := AskDelete(m, pcbs[k].pid, id);
    TidyAfterDelete(t, pcbs[k].pid, id);
    RemoveNumber(t, m.table, pcbs, k, id);
  }

  /** A process ends: all its segments go, and the other processes notice nothing. */
  method ExitProcess(m: Memory, pcbs: seq<Pcb>, k: nat) returns (rest: seq<Pcb>)
    requires Synced(m, pcbs) && k < |pcbs|
    modifies m`table, m.bitmap
    ensures rest == Drop(pcbs, k) && Synced(m, rest)
    ensures m.table == FilterRows(old(m.table), |old(m.table)|, pcbs[k].pid)
    ensures Does(m.bytes.Length, old(m.View()), ExitOp(pcbs[k].pid), true, m.View())
  {
    ghost var t := m.table;
    ghost var gone := pcbs[k].pid;
    m.Exit(pcbs[k].pid);
    rest := Drop(pcbs, k);
    DistinctAfterExit(t, gone);
    forall j | 0 <= j < |rest| ensures rest[j].segments == Copies(m.table, rest[j].pid) {
      var j' := if j < k then j else j + 1;
      assert rest[j] == pcbs[j'];
      CopiesAfterExit(t, gone, pcbs[j'].pid);
    }
    ZeroAfterExit(t, gone);
  }

  lemma ZeroAfterExit(t: seq<Row>, gone: int)
    requires ZeroOnly(t)
    ensures ZeroOnly(FilterRows(t, |t|, gone))
  {
    var f := FilterRows(t, |t|, gone);
    forall i | 0 <= i < |f| && f[i].pid == 0 ensures f[i].id == 0 {
      var i' := KeptOne(t, |t|, gone, i);
    }
  }

  // ----- logical access -----

  /** Where a checked logical address of process `k` leads: the row and the physical address. */
  method Translate(m: Memory, pcbs: seq<Pcb>, k: nat, maxSize: nat, dir: nat, size: nat)
    returns (at: Option<nat>, ghost r: nat)
    requires Synced(m, pcbs) && k < |pcbs| && maxSize > 0
    ensures at == FileAddress(pcbs[k].segments, maxSize, dir, size)
    ensures r == Find(ShapesOf(m.table), Owner(pcbs[k].pid, dir / maxSize), dir / maxSize)
    ensures at.Some? <==> r < |m.table| && dir % maxSize + size <= m.table[r].limite
    ensures at.Some? ==> at.value == m.table[r].base + dir % maxSize
  {
    r := Find(ShapesOf(m.table), Owner(pcbs[k].pid, dir / maxSize), dir / maxSize);
    CopyOf(m.table, pcbs[k].pid, dir / maxSize);
    var row := FindSegmentById(pcbs[k].segments, dir / maxSize);
    at := if row.Some? && row.value.limite >= dir % maxSize + size then Some(row.value.base + dir % maxSize) else None;
  }

  /** The bytes at an offset of the row that process `pid` and number `num` stand for are what the segments alone
      say. */
  lemma ReadMeans(t: seq<Row>, bytes: seq<byte>, pid: int, num: int, off: nat, size: nat, r: nat)
    requires InBounds(t, |bytes|) && r == Find(ShapesOf(t), Owner(pid, num), num)
    ensures r < |t| && off + size <= t[r].limite ==>
              t[r].End() <= |bytes| && ViewRead(Image(t, bytes), pid, num, off, size)
                  == Some(bytes[t[r].base + off..t[r].base + off + size])
    ensures !(r < |t| && off + size <= t[r].limite) ==> ViewRead(Image(t, bytes), pid, num, off, size) == None
  {
    SegShapes(t, bytes);
    if r < |t| && off + size <= t[r].limite {
      SubSlice(bytes, t[r].base, t[r].End(), off, size);
    }
  }

  /** The read at memory, if the address was accepted. */
  method AskRead(m: Memory, ghost pid: int, ghost num: int, ghost r: nat, ghost off: nat, at: Option<nat>, size: nat)
    returns (got: Option<seq<byte>>)
    requires m.Inv() && r == Find(ShapesOf(m.table), Owner(pid, num), num)
    requires at.Some? <==> r < |m.table| && off + size <= m.table[r].limite
    requires at.Some? ==> at.value == m.table[r].base + off
    ensures got == ViewRead(m.View(), pid, num, off, size)
  {
    ReadMeans(m.table, m.bytes[..], pid, num, off, size, r);
    got := None;
    if at.Some? {
      var value := m.Read(at.value, size);
      got := Some(value);
    }
  }

  /** A process reads at a logical address. What it gets depends on the segments alone, not on where they are. */
  method ReadAt(m: Memory, pcbs: seq<Pcb>, k: nat, maxSize: nat, dir: nat, size: nat) returns (got: Option<seq<byte>>)
    requires Synced(m, pcbs) && k < |pcbs| && maxSize > 0
    ensures got == ViewRead(m.View(), pcbs[k].pid, dir / maxSize, dir % maxSize, size)
  {
    ghost var r;
    var at;
    at, r := Translate(m, pcbs, k, maxSize, dir, size);
    got := AskRead(m, pcbs[k].pid, dir / maxSize, r, dir % maxSize, at, size);
  }

  /** The write at memory, if the address was accepted. */
  method AskWrite(m: Memory, ghost pid: int, ghost num: int, ghost r: nat, ghost off: nat, at: Option<nat>,
                  value: seq<byte>) returns (ok: bool)
    requires m.Inv() && r == Find(ShapesOf(m.table), pid, num)
    requires at.Some? <==> r < |m.table| && off + |value| <= m.table[r].limite
    requires at.Some? ==> at.value == m.table[r].base + off
    modifies m.bytes
    ensures m.Inv() && Does(m.bytes.Length, old(m.View()), WriteOp(pid, num, off, value), ok, m.View())
  {
    WriteMeans(m.bytes.Length, m.table, m.bytes[..], pid, num, off, value, r);
    ok := at.Some?;
    if ok {
      m.WriteInside(r, off, at.value, value);
    }
  }

  /** A process writes at a logical address. */
  method WriteAt(m: Memory, pcbs: seq<Pcb>, k: nat, maxSize: nat, dir: nat, value: seq<byte>) returns (ok: bool)
    requires Synced(m, pcbs) && k < |pcbs| && maxSize > 0
    modifies m.bytes
    ensures Synced(m, pcbs)
    ensures var num := dir / maxSize;
            Does(m.bytes.Length, old(m.View()), WriteOp(Owner(pcbs[k].pid, num), num, dir % maxSize, value), ok,
                m.View())
  {
    ghost var r;
    var at;
    at, r := Translate(m, pcbs, k, maxSize, dir, |value|);
    ghost var num := dir / maxSize;
    ok := AskWrite(m, Owner(pcbs[k].pid, num), num, r, dir % maxSize, at, value);
  }
}
