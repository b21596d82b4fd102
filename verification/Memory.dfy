/** The memory module: allocation with search / compact / retry, deletion, compaction, raw access. */
module MemoryModule {
  import opened Bytes
  import opened Bitmap
  import opened Holes
  import opened Segments

  class Memory {
    const policy: Policy
    /** `memoria_Principal`. */
    const bytes: array<byte>
    /** `bitMapSegment`: one bit for every byte. */
    const bitmap: array<bool>
    /** `tablaSegmentos`. */
    var table: seq<Row>

    predicate Sized() {
      bytes.Length == bitmap.Length > 0
    }

    /** The shared segment 0, owned by pid 0, is the first row and sits at address 0. */
    predicate ZeroFirst()
      reads this
    {
      table != [] && table[0].pid == 0 && table[0].id == 0 && table[0].base == 0
    }

    ghost predicate Sound()
      reads this, bitmap
    {
      Sized() && Good(table, bitmap[..])
    }

    ghost predicate Inv()
      reads this, bitmap
    {
      Sound() && ZeroFirst()
    }

    /** The segments with their bytes and without their addresses. */
    ghost function View(): (im: seq<Seg>)
      requires Sound()
      reads this, bitmap, bytes
    {
      Image(table, bytes[..])
    }

    /** Start-up: an empty memory in which segment 0 is allocated first. */
    constructor (n: nat, zero: nat, p: Policy)
      requires 0 < n && zero <= n
      ensures Inv() && fresh(bytes) && fresh(bitmap)
      ensures bytes.Length == n && policy == p
      ensures table == [Row(0, 0, 0, 0, zero)]
    {
      policy := p;
      bytes := new byte[n](_ => 0);
      bitmap := new bool[n](_ => false);
      table := [];
      new;
      assert bitmap[..] == Prefix(0, n);
      PrefixHasOneRun(0, n, Hole(0, n));
      var row, c := Create(0, zero, 0);
      forall h | IsRun(Prefix(0, n), h) ensures h == Hole(0, n) { PrefixHasOneRun(0, n, h); }
    }

    /** The lists of `buscarSegmentoSegunTamanio`: all free runs, those big enough, the elected one. */
    method Search(size: nat) returns (r: Option<Hole>)
      requires Sized()
      ensures r.Some? <==> FitsNow(bitmap[..], size)
      ensures r.Some? ==> Chosen(policy, bitmap[..], size, r.value)
    {
      ghost var b := bitmap[..];
      var free := ScanHoles(bitmap);
      forall h ensures IsRun(b, h) <==> h in free { RunsListed(b, free, h); }
      var candidates := Fitting(free, size);
      if candidates == [] {
        return None;
      }
      assert candidates[0] in candidates;
      var h := Elect(policy, candidates, size);
      r := Some(h);
    }

    /** `buscarSegmentoSegunTamanio`: look for a run; if there is none but the total free space would do,
        compact and look again; otherwise the request is out of memory. */
    method FindSegment(size: nat) returns (r: Option<Hole>, compactions: nat)
      requires Sized()
      requires FitsNow(bitmap[..], size) || Good(table, bitmap[..])
      modifies `table, bitmap, bytes
      ensures old(FitsNow(bitmap[..], size)) ==>
                && compactions == 0 && r.Some?
                && table == old(table) && bitmap[..] == old(bitmap[..]) && bytes[..] == old(bytes[..])
      ensures !old(FitsNow(bitmap[..], size)) && size > old(FreeCount(bitmap[..])) ==>
                && compactions == 0 && r.None?
                && table == old(table) && bitmap[..] == old(bitmap[..]) && bytes[..] == old(bytes[..])
      ensures !old(FitsNow(bitmap[..], size)) && size <= old(FreeCount(bitmap[..])) ==>
                && compactions == 1 && r.Some?
                && table == Relocated(old(table)) && Good(table, bitmap[..])
                && bitmap[..] == Prefix(SumLim(table), bitmap.Length)
                && Image(table, bytes[..]) == old(Image(table, bytes[..]))
      ensures r.Some? ==> Chosen(policy, bitmap[..], size, r.value)
      decreases if FitsNow(bitmap[..], size) then 0 else 1, 2
    {
      compactions := 0;
      r := Search(size);
      if r.None? {
        var room := CountFree(bitmap);
        if size <= room {
          FreeIsTheRest(table, bitmap[..]);
          compactions := Compact();
          PreSame(Relocated(old(table)), old(table), |table|);
          PrefixHasOneRun(SumLim(table), bitmap.Length, Hole(SumLim(table), bitmap.Length - SumLim(table)));
          assert FitsNow(bitmap[..], size);
          var again;
          r, again := FindSegment(size);
          compactions := compactions + 1 + again;
        }
      }
    }

    /** `guardarDato` and `guardarEnMemory`: find a place for the bytes, mark it and copy them there. */
    method StoreData(data: seq<byte>) returns (h: Hole, compactions: nat)
      requires Sized() && FitsNow(bitmap[..], |data|)
      modifies `table, bitmap, bytes
      ensures compactions == 0 && table == old(table)
      ensures Chosen(policy, old(bitmap[..]), |data|, h)
      ensures bitmap[..] == Painted(old(bitmap[..]), h.base, |data|, true)
      ensures bytes[..] == Splice(old(bytes[..]), h.base, data)
      decreases 0, 3
    {
      var r;
      r, compactions := FindSegment(|data|);
      h := r.value;
      Paint(bitmap, h.base, |data|, true);
      CopyInto(bytes, h.base, data);
    }

    /** `StoreData` when everything stored so far is packed at the front: the bytes go right behind it. */
    method StoreBehind(ghost p: nat, data: seq<byte>) returns (base: nat, inner: nat)
      requires Sized() && p + |data| <= bitmap.Length && bitmap[..] == Prefix(p, bitmap.Length)
      modifies `table, bitmap, bytes
      ensures base == p && inner == 0 && table == old(table)
      ensures bitmap[..] == Prefix(p + |data|, bitmap.Length)
      ensures bytes[..] == Splice(old(bytes[..]), p, data)
      decreases 0, 4
    {
      ghost var n := bitmap.Length;
      PrefixHasOneRun(p, n, Hole(p, n - p));
      var h;
      h, inner := StoreData(data);
      PrefixHasOneRun(p, n, h);
      PaintedPrefix(p, data, old(bytes[..]), n);
      base := h.base;
    }

    /** `copiarSegmentos` mapped over the table. */
    method CopyOut() returns (copies: seq<seq<byte>>)
      requires InBounds(table, bytes.Length)
      ensures |copies| == |table|
      ensures forall j :: 0 <= j < |table| ==> copies[j] == bytes[table[j].base..table[j].End()]
    {
      copies := [];
      for i := 0 to |table|
        invariant |copies| == i && forall j :: 0 <= j < i ==> copies[j] == bytes[table[j].base..table[j].End()]
      {
        copies := copies + [bytes[table[i].base..table[i].End()]];
      }
    }

    /** One turn of the first loop of `compact`. */
    method StoreNext(i: nat, copies: seq<seq<byte>>) returns (base: nat, inner: nat)
      requires Sized() && i < |table| && |copies| == |table| && |copies[i]| == table[i].limite
      requires Pre(table, i) + table[i].limite <= bitmap.Length && bitmap[..] == Prefix(Pre(table, i), bitmap.Length)
      requires Stored(table, copies, bytes[..], i)
      modifies `table, bitmap, bytes
      ensures table == old(table) && inner == 0 && base == Pre(table, i)
      ensures bitmap[..] == Prefix(Pre(table, i + 1), bitmap.Length) && Stored(table, copies, bytes[..], i + 1)
      decreases 0, 5
    {
      StoredKept(table, copies, bytes[..], i, Pre(table, i), copies[i]);
      PaintedPrefix(Pre(table, i), copies[i], bytes[..], bitmap.Length);
      base, inner := StoreBehind(Pre(table, i), copies[i]);
    }

    /** First loop of `compact`: store the copies again, in order, in the emptied memory. */
    method StoreAll(copies: seq<seq<byte>>) returns (bases: seq<nat>, inner: nat)
      requires Sized() && bitmap[..] == Prefix(0, bitmap.Length) && SumLim(table) <= bitmap.Length
      requires |copies| == |table| && forall j {:trigger copies[j]} ::
                 0 <= j < |table| ==> |copies[j]| == table[j].limite
      modifies `table, bitmap, bytes
      ensures table == old(table) && inner == 0
      ensures bitmap[..] == Prefix(SumLim(table), bitmap.Length)
      ensures |bases| == |table| && forall j {:trigger bases[j]} :: 0 <= j < |table| ==> bases[j] == Pre(table, j)
      ensures Stored(table, copies, bytes[..], |table|)
      decreases 1, 0
    {
      bases, inner := [], 0;
      for i := 0 to |table|
        invariant table == old(table) && inner == 0
        invariant Pre(table, i) <= SumLim(table) && bitmap[..] == Prefix(Pre(table, i), bitmap.Length)
        invariant |bases| == i && forall j {:trigger bases[j]} :: 0 <= j < i ==> bases[j] == Pre(table, j)
        invariant Stored(table, copies, bytes[..], i)
      {
        PreMonotone(table, i + 1, |table|);
        var base, c := StoreNext(i, copies);
        inner := inner + c;
        bases := bases + [base];
      }
    }

    /** Second loop of `compact`: overwrite the base of every row. */
    method Rebase(bases: seq<nat>)
      requires |bases| == |table| && forall j {:trigger bases[j]} :: 0 <= j < |table| ==> bases[j] == Pre(table, j)
      modifies `table
      ensures table == Relocated(old(table))
    {
      ghost var t := table;
      for i := 0 to |table|
        invariant |table| == |t|
        invariant forall j :: 0 <= j < |t| ==> table[j] == if j < i then Relocated(t)[j] else t[j]
      {
        table := table[i := table[i].(base := bases[i])];
      }
      assert table == Relocated(t);
    }

    /** `compact`: copy every segment out, clear the bitmap, store the segments again one by one and
        give every row its new base. Returns how many further compactions that needed. */
    method Compact() returns (inner: nat)
      requires Sized() && Good(table, bitmap[..])
      modifies `table, bitmap, bytes
      ensures inner == 0
      ensures table == Relocated(old(table)) && Good(table, bitmap[..])
      ensures bitmap[..] == Prefix(SumLim(old(table)), bitmap.Length)
      ensures Image(table, bytes[..]) == old(Image(table, bytes[..]))
      decreases 1, 1
    {
      ghost var t, im := table, Image(table, bytes[..]);
      FreeIsTheRest(t, bitmap[..]);
      RelocatedGood(t, bitmap.Length);
      var copies := CopyOut();
      Paint(bitmap, 0, bitmap.Length, false);
      assert bitmap[..] == Prefix(0, bitmap.Length);
      var bases;
      bases, inner := StoreAll(copies);
      Rebase(bases);
      StoredImage(t, im, bytes[..], copies);
    }

    /** `crear_nuevo_segmento`, `create_segmento` and `tablaSegmentoCrear`. */
    method Create(id: int, size: nat, pid: int) returns (r: Option<Row>, compactions: nat)
      requires Sized() && Good(table, bitmap[..])
      modifies `table, bitmap, bytes
      ensures Good(table, bitmap[..])
      ensures r.Some? <==> size <= old(FreeCount(bitmap[..]))
      ensures compactions == if r.Some? && !old(FitsNow(bitmap[..], size)) then 1 else 0
      ensures r.None? ==> table == old(table) && bytes[..] == old(bytes[..]) && bitmap[..] == old(bitmap[..])
      ensures r.Some? ==>
                var t := if compactions == 0 then old(table) else Relocated(old(table));
                && r.value.pid == pid && r.value.id == id && r.value.limite == size
                && table == t + [r.value]
                && Image(table, bytes[..])[..|t|] == old(Image(table, bytes[..]))
                && r.value.idSegPcb == (if t == [] then 0 else |t| + 1)
                && Placed(policy, if compactions == 0 then old(bitmap[..])
                    else Prefix(SumLim(t), bitmap.Length), size, r.value.base)
    {
      ghost var b0 := bitmap[..];
      if FitsNow(b0, size) { FitsNowHasRoom(b0, size); }
      var h;
      h, compactions := FindSegment(size);
      if h.None? {
        return None, compactions;
      }
      ghost var t, b := table, bitmap[..];
      var row := Row(id, pid, if table == [] then 0 else |table| + 1, h.value.base, size);
      Paint(bitmap, row.base, size, true);
      GoodAfterAdd(t, b, row);
      table := table + [row];
      r := Some(row);
      assert Chosen(policy, b, size, h.value);
      assert Image(table, bytes[..])[..|t|] == Image(t, bytes[..]);
    }

    /** `findSegmentoConId` with the owner as part of the key: the first row, or the table's size. */
    method FindRow(pid: int, id: int) returns (k: nat)
      ensures k == Find(ShapesOf(table), pid, id)
    {
      k := 0;
      while k < |table| && !(table[k].pid == pid && table[k].id == id)
        invariant k <= |table|
        invariant forall j :: 0 <= j < k ==> !(table[j].pid == pid && table[j].id == id)
      {
        k := k + 1;
      }
      FindIs(ShapesOf(table), pid, id, k);
    }

    /** `eleminarSegmento`: clear the row's bits and take it out of the table. */
    method RemoveAt(k: nat)
      requires Sized() && Good(table, bitmap[..]) && k < |table|
      modifies `table, bitmap
      ensures table == Drop(old(table), k) && Good(table, bitmap[..])
    {
      GoodAfterDrop(table, bitmap[..], k);
      Paint(bitmap, table[k].base, table[k].limite, false);
      table := Drop(table, k);
    }

    /** The DELETE_SEGMENT request: segment 0 is refused, and so is a segment that does not exist. */
    method Delete(pid: int, id: int) returns (ok: bool)
      requires Sound()
      modifies `table, bitmap
      ensures Sound() && (old(ZeroFirst()) ==> ZeroFirst())
      ensures var k := Find(ShapesOf(old(table)), pid, id);
              && ok == (id != 0 && k < |old(table)|)
              && table == (if ok then Drop(old(table), k) else old(table))
              && View() == (if ok then Drop(old(View()), k) else old(View()))
      ensures Does(bytes.Length, old(View()), DeleteOp(pid, id), ok, View())
      ensures !ok ==> bitmap[..] == old(bitmap[..])
    {
      SegShapes(table, bytes[..]);
      if id == 0 {
        return false;
      }
      var k := FindRow(pid, id);
      if k == |table| {
        return false;
      }
      ImageDrop(table, bytes[..], k);
      RemoveAt(k);
      ok := true;
    }

    /** One turn of the deletion loop: the row at `i` goes or is passed over. */
    method KeepOrRemove(ghost t: seq<Row>, ghost j: nat, i: nat, pid: int) returns (next: nat)
      requires Sized() && Good(table, bitmap[..]) && j <= |t| && i < |table|
      requires i == |FilterRows(t, j, pid)| && table == FilterRows(t, j, pid) + t[j..]
      modifies `table, bitmap
      ensures j < |t| && Good(table, bitmap[..])
      ensures next == |FilterRows(t, j + 1, pid)| && table == FilterRows(t, j + 1, pid) + t[j + 1..]
      ensures |table| - next < old(|table|) - i
    {
      MiddleStep(FilterRows(t, j, pid), t, j);
      if table[i].pid == pid {
        RemoveAt(i);
        next := i;
      } else {
        next := i + 1;
      }
    }

    /** The deletion loop of the EXIT request. */
    method RemoveAll(pid: int)
      requires Sized() && Good(table, bitmap[..])
      modifies `table, bitmap
      ensures Good(table, bitmap[..])
      ensures table == FilterRows(old(table), |old(table)|, pid)
    {
      ghost var t := table;
      ghost var j := 0;
      var i := 0;
      while i < |table|
        invariant Good(table, bitmap[..]) && j <= |t|
        invariant i == |FilterRows(t, j, pid)| && table == FilterRows(t, j, pid) + t[j..]
        decreases |table| - i
      {
        i := KeepOrRemove(t, j, i, pid);
        j := j + 1;
      }
    }

    /** The EXIT request: every segment of the process goes, nobody else's. */
    method Exit(pid: int)
      requires Sound()
      modifies `table, bitmap
      ensures Sound() && (old(ZeroFirst()) && pid != 0 ==> ZeroFirst())
      ensures table == FilterRows(old(table), |old(table)|, pid)
      ensures View() == FilterSegs(old(View()), |old(table)|, pid)
    {
      FilterImage(table, |table|, bytes[..], pid);
      if table != [] && table[0].pid != pid { FilterKeepsFirst(table, |table|, pid); }
      RemoveAll(pid);
    }

    /** `m_write` / `f_write`: bytes stored at a physical address. */
    method Write(address: nat, value: seq<byte>)
      requires Sound() && address + |value| <= bytes.Length
      modifies bytes
      ensures Sound() && bytes[..] == Splice(old(bytes[..]), address, value)
      ensures forall k :: 0 <= k < |table| && table[k].base <= address && address + |value| <= table[k].End() ==>
                View() == Stored1(old(View()), k, address - table[k].base, value)
    {
      CopyInto(bytes, address, value);
      forall k | 0 <= k < |table| && table[k].base <= address && address + |value| <= table[k].End()
        ensures View() == Stored1(old(View()), k, address - table[k].base, value)
      {
        ImageAfterWrite(table, bitmap[..], old(bytes[..]), k, address - table[k].base, value);
      }
    }

    /** `m_read` / `f_read`: inside a segment these are the segment's own bytes. */
    method Read(address: nat, size: nat) returns (value: seq<byte>)
      requires Sound() && address + size <= bytes.Length
      ensures value == bytes[address..address + size]
      ensures forall k :: 0 <= k < |table| && table[k].base <= address && address + size <= table[k].End() ==>
                value == View()[k].data[address - table[k].base..address - table[k].base + size]
    {
      value := bytes[address..address + size];
      forall k | 0 <= k < |table| && table[k].base <= address && address + size <= table[k].End()
        ensures value == View()[k].data[address - table[k].base..address - table[k].base + size]
      {
        assert View()[k] == SegAt(table[k], bytes[..]);
        SubSlice(bytes[..], table[k].base, table[k].End(), address - table[k].base, size);
      }
    }

    /** A write at an address inside segment `k`. */
    method WriteInside(ghost k: nat, ghost off: nat, address: nat, value: seq<byte>)
      requires Sound() && k < |table| && off + |value| <= table[k].limite && address == table[k].base + off
      modifies bytes
      ensures Sound() && View() == Stored1(old(View()), k, off, value)
    {
      ghost var was := bytes[..];
      CopyInto(bytes, address, value);
      ImageAfterWrite(table, bitmap[..], was, k, off, value);
    }

    /** What is written inside a segment is what a read of the same addresses then returns. */
    method WriteThenRead(k: nat, off: nat, value: seq<byte>) returns (got: seq<byte>)
      requires Sound() && k < |table| && off + |value| <= table[k].limite
      modifies bytes
      ensures Sound() && got == value && View() == Stored1(old(View()), k, off, value)
    {
      WriteInside(k, off, table[k].base + off, value);
      got := Read(table[k].base + off, |value|);
    }

    /** Bytes stored into segment (pid, id) at an offset, if it exists and they fit. */
    method Store(pid: int, id: int, off: nat, value: seq<byte>) returns (ok: bool)
      requires Sound()
      modifies bytes
      ensures Sound() && Does(bytes.Length, old(View()), WriteOp(pid, id, off, value), ok, View())
    {
      var k := FindRow(pid, id);
      ok := k < |table| && off + |value| <= table[k].limite;
      WriteMeans(bytes.Length, table, bytes[..], pid, id, off, value, k);
      if ok {
        WriteInside(k, off, table[k].base + off, value);
      }
    }

    /** CREATE_SEGMENT, seen without addresses. */
    method RequestCreate(id: int, size: nat, pid: int) returns (r: Option<Row>, compactions: nat)
      requires Sound()
      modifies `table, bitmap, bytes
      ensures Sound() && (old(ZeroFirst()) ==> ZeroFirst())
      ensures Does(bytes.Length, old(View()), CreateOp(id, size, pid), r.Some?, View())
      ensures match r
              case None => table == old(table)
              case Some(row) =>
                row.pid == pid && row.id == id
                    && table == (if compactions == 0 then old(table) else Relocated(old(table))) + [row]
    {
      ghost var t := table;
      TotalIsSum(t, |t|);
      FreeIsTheRest(t, bitmap[..]);
      SegShapes(t, bytes[..]);
      r, compactions := Create(id, size, pid);
      if r.Some? { FirstStays(t, table, r.value); }
    }

    /** Serve one request (`peticiones_kernel`, and the writes of the CPU and the filesystem). */
    method Request(op: Op) returns (ok: bool)
      requires Sound()
      modifies `table, bitmap, bytes
      ensures Sound() && (old(ZeroFirst()) && op != ExitOp(0) ==> ZeroFirst())
      ensures Does(bytes.Length, old(View()), op, ok, View())
    {
      SegShapes(table, bytes[..]);
      match op {
        case CreateOp(id, size, pid) =>
          var r, c := RequestCreate(id, size, pid);
          ok := r.Some?;
        case DeleteOp(pid, id) => ok := Delete(pid, id);
        case ExitOp(pid) =>
          Exit(pid);
          ok := true;
        case WriteOp(pid, id, off, value) => ok := Store(pid, id, off, value);
      }
    }

    /** Serve any list of requests. What the segments hold after each of them, and which of them succeed, is what `Does`
        says without bitmap, addresses, policy or compaction. */
    method Run(ops: seq<Op>) returns (oks: seq<bool>, ghost views: seq<seq<Seg>>)
      requires Sound()
      modifies `table, bitmap, bytes
      ensures Sound() && (old(ZeroFirst()) && ExitOp(0) !in ops ==> ZeroFirst())
      ensures |oks| == |ops| && History(bytes.Length, views, ops, oks)
      ensures views[0] == old(View()) && views[|ops|] == View()
    {
      oks, views := [], [View()];
      for i := 0 to |ops|
        invariant Sound() && |oks| == i && History(bytes.Length, views, ops, oks)
        invariant views[0] == old(View()) && views[i] == View()
        invariant old(ZeroFirst()) && ExitOp(0) !in ops ==> ZeroFirst()
      {
        var ok := Request(ops[i]);
        HistoryGrows(bytes.Length, views, ops, oks, ok, View());
        oks, views := oks + [ok], views + [View()];
      }
    }
  }

  /** Segment `k` with bytes stored in it. */
  function Stored1(im: seq<Seg>, k: nat, off: nat, value: seq<byte>): seq<Seg>
    requires k < |im| && off + |value| <= |im[k].data|
  {
    im[k := im[k].(data := Splice(im[k].data, off, value))]
  }

  /** `data` is stored at `base`. */
  predicate At(bytes: seq<byte>, base: nat, data: seq<byte>) {
    base + |data| <= |bytes| && bytes[base..base + |data|] == data
  }

  lemma FirstStays(t: seq<Row>, t': seq<Row>, r: Row)
    requires t' == t + [r] || t' == Relocated(t) + [r]
    ensures t != [] && t[0].base == 0 ==> t'[0] == t[0]
  {
    assert t != [] ==> Pre(t, 0) == 0;
  }

  /** `f + s[j..]` seen with its element number `|f|` removed or moved to the left part. */
  lemma MiddleStep<T>(f: seq<T>, s: seq<T>, j: nat)
    requires j < |s|
    ensures (f + s[j..])[|f|] == s[j]
    ensures Drop(f + s[j..], |f|) == f + s[j + 1..]
    ensures f + s[j..] == f + [s[j]] + s[j + 1..]
  {
  }

  /** The first `n` copies are stored at the packed bases. */
  ghost predicate Stored(t: seq<Row>, copies: seq<seq<byte>>, bytes: seq<byte>, n: nat) {
    && n <= |copies| == |t|
    && (n > 0 ==>
          && Stored(t, copies, bytes, n - 1) && At(bytes, Pre(t, n - 1), copies[n - 1])
          && |copies[n - 1]| == t[n - 1].limite)
  }

  lemma {:induction false} StoredAt(t: seq<Row>, copies: seq<seq<byte>>, bytes: seq<byte>, n: nat, k: nat)
    requires Stored(t, copies, bytes, n) && k < n
    ensures At(bytes, Pre(t, k), copies[k])
  {
    if k < n - 1 {
      StoredAt(t, copies, bytes, n - 1, k);
    }
  }

  /** Storing a copy behind the first `n` leaves those alone. */
  lemma {:induction false} StoredKept(t: seq<Row>, copies: seq<seq<byte>>, bytes: seq<byte>, n: nat, at: nat,
                                      x: seq<byte>)
    requires Stored(t, copies, bytes, n) && Pre(t, n) <= at && at + |x| <= |bytes|
    ensures Stored(t, copies, Splice(bytes, at, x), n)
  {
    if n > 0 {
      StoredKept(t, copies, bytes, n - 1, at, x);
      AtAfterSplice(bytes, Pre(t, n - 1), copies[n - 1], at, x);
    }
  }

  lemma AtAfterSplice(bytes: seq<byte>, base: nat, data: seq<byte>, at: nat, x: seq<byte>)
    requires At(bytes, base, data) && base + |data| <= at && at + |x| <= |bytes|
    ensures At(Splice(bytes, at, x), base, data)
  {
    assert Splice(bytes, at, x)[base..base + |data|] == bytes[base..base + |data|];
  }

  lemma PaintedPrefix(p: nat, x: seq<byte>, bytes: seq<byte>, n: nat)
    requires p + |x| <= n == |bytes|
    ensures Painted(Prefix(p, n), p, |x|, true) == Prefix(p + |x|, n)
    ensures At(Splice(bytes, p, x), p, x)
  {
    assert Splice(bytes, p, x)[p..p + |x|] == x;
  }

  /** Copies of all segments stored at the packed bases give the packed table the old image. */
  lemma StoredImage(t: seq<Row>, im: seq<Seg>, bytes: seq<byte>, copies: seq<seq<byte>>)
    requires InBounds(Relocated(t), |bytes|)
    requires |im| == |copies| == |t|
    requires forall k :: 0 <= k < |t| ==> im[k] == Seg(t[k].pid, t[k].id, copies[k]) && |copies[k]| == t[k].limite
    requires Stored(t, copies, bytes, |t|)
    ensures Image(Relocated(t), bytes) == im
  {
    forall k | 0 <= k < |t| ensures SegAt(Relocated(t)[k], bytes) == im[k] {
      StoredAt(t, copies, bytes, |t|, k);
    }
  }

  /** `base` is where the policy puts a segment of this size. */
  ghost predicate Placed(p: Policy, b: seq<bool>, size: nat, base: nat) {
    exists h :: Chosen(p, b, size, h) && h.base == base
  }

  /** A segment without place or contents. */
  datatype Shape = Shape(pid: int, id: int, size: nat)

  function ShapesOf(t: seq<Row>): (s: seq<Shape>)
    ensures |s| == |t|
  {
    seq(|t|, k requires 0 <= k < |t| => Shape(t[k].pid, t[k].id, t[k].limite))
  }

  function Find(s: seq<Shape>, pid: int, id: int): (k: nat)
    ensures k <= |s|
    ensures k < |s| ==> s[k].pid == pid && s[k].id == id
    ensures forall j :: 0 <= j < k ==> !(s[j].pid == pid && s[j].id == id)
  {
    if s == [] || (s[0].pid == pid && s[0].id == id) then 0 else 1 + Find(s[1..], pid, id)
  }

  lemma FindIs(s: seq<Shape>, pid: int, id: int, k: nat)
    requires k <= |s| && (k < |s| ==> s[k].pid == pid && s[k].id == id)
    requires forall j :: 0 <= j < k ==> !(s[j].pid == pid && s[j].id == id)
    ensures Find(s, pid, id) == k
  {
    var f := Find(s, pid, id);
    assert !(f < k) && !(k < f);
  }

  /** The first `k` rows, without those of process `pid`. */
  function FilterRows(t: seq<Row>, k: nat, pid: int): seq<Row>
    requires k <= |t|
  {
    if k == 0 then [] else FilterRows(t, k - 1, pid) + if t[k - 1].pid != pid then [t[k - 1]] else []
  }

  function FilterSegs(im: seq<Seg>, k: nat, pid: int): seq<Seg>
    requires k <= |im|
  {
    if k == 0 then [] else FilterSegs(im, k - 1, pid) + if im[k - 1].pid != pid then [im[k - 1]] else []
  }

  lemma {:induction false} FilterImage(t: seq<Row>, k: nat, bytes: seq<byte>, pid: int)
    requires InBounds(t, |bytes|) && k <= |t|
    ensures var f := FilterRows(t, k, pid);
            InBounds(f, |bytes|) && Image(f, bytes) == FilterSegs(Image(t, bytes), k, pid)
  {
    if k > 0 {
      FilterImage(t, k - 1, bytes, pid);
    }
  }

  lemma {:induction false} FilterKeepsFirst(t: seq<Row>, k: nat, pid: int)
    requires 0 < k <= |t| && t[0].pid != pid
    ensures FilterRows(t, k, pid) != [] && FilterRows(t, k, pid)[0] == t[0]
  {
    if k > 1 {
      FilterKeepsFirst(t, k - 1, pid);
    }
  }

  function Total(s: seq<Shape>, k: nat): nat
    requires k <= |s|
  {
    if k == 0 then 0 else Total(s, k - 1) + s[k - 1].size
  }

  lemma {:induction false} TotalIsSum(t: seq<Row>, k: nat)
    requires k <= |t|
    ensures Total(ShapesOf(t), k) == Pre(t, k)
  {
    if k > 0 {
      TotalIsSum(t, k - 1);
    }
  }

  // ----- runs -----

  /** The shapes of the segments of a view. */
  function SegShapesOf(im: seq<Seg>): (s: seq<Shape>)
    ensures |s| == |im|
  {
    seq(|im|, k requires 0 <= k < |im| => Shape(im[k].pid, im[k].id, |im[k].data|))
  }

  lemma SegShapes(t: seq<Row>, bytes: seq<byte>)
    requires InBounds(t, |bytes|)
    ensures SegShapesOf(Image(t, bytes)) == ShapesOf(t)
  {
  }

  /** Where segment (pid, id) is in a view; the view's length if it is not there. */
  function FindSeg(im: seq<Seg>, pid: int, id: int): (k: nat)
    ensures k <= |im|
  {
    Find(SegShapesOf(im), pid, id)
  }

  function Size(im: seq<Seg>): nat {
    Total(SegShapesOf(im), |im|)
  }

  datatype Op =
    | CreateOp(id: int, size: nat, pid: int)
    | DeleteOp(pid: int, id: int)
    | ExitOp(pid: int)
    | WriteOp(pid: int, id: int, off: nat, value: seq<byte>)

  /** One request on the segments of a memory of `n` bytes. A new segment's first contents are whatever was there. */
  ghost predicate Does(n: nat, im: seq<Seg>, op: Op, ok: bool, im': seq<Seg>) {
    match op
    case CreateOp(id, size, pid) =>
      && (ok <==> Size(im) + size <= n)
      && (if ok then Extends(im, pid, id, size, im') else im' == im)
    case DeleteOp(pid, id) =>
      var k := FindSeg(im, pid, id);
      && (ok <==> id != 0 && k < |im|)
      && im' == if ok then Drop(im, k) else im
    case ExitOp(pid) => ok && im' == FilterSegs(im, |im|, pid)
    case WriteOp(pid, id, off, value) =>
      var k := FindSeg(im, pid, id);
      && (ok <==> k < |im| && off + |value| <= |im[k].data|)
      && im' == if ok then Stored1(im, k, off, value) else im
  }

  /** One more segment, of the right owner, number and size. */
  ghost predicate Extends(im: seq<Seg>, pid: int, id: int, size: nat, im': seq<Seg>) {
    && |im'| == |im| + 1 && im'[..|im|] == im
    && im'[|im|].pid == pid && im'[|im|].id == id && |im'[|im|].data| == size
  }

  /** A write request goes to the row found for it, if it fits there. */
  lemma WriteMeans(n: nat, t: seq<Row>, bytes: seq<byte>, pid: int, id: int, off: nat, value: seq<byte>, k: nat)
    requires InBounds(t, |bytes|) && k == Find(ShapesOf(t), pid, id)
    ensures k < |t| && off + |value| <= t[k].limite ==>
              && off + |value| <= |Image(t, bytes)[k].data|
              && Does(n, Image(t, bytes), WriteOp(pid, id, off, value), true, Stored1(Image(t, bytes), k, off, value))
    ensures !(k < |t| && off + |value| <= t[k].limite) ==>
              Does(n, Image(t, bytes), WriteOp(pid, id, off, value), false, Image(t, bytes))
  {
    SegShapes(t, bytes);
  }

  /** `views` is a history of the segments under the requests, answered as in `oks`. */
  ghost predicate History(n: nat, views: seq<seq<Seg>>, ops: seq<Op>, oks: seq<bool>) {
    && |views| == |oks| + 1 && |oks| <= |ops|
    && forall k :: 0 <= k < |oks| ==> Does(n, views[k], ops[k], oks[k], views[k + 1])
  }

  lemma HistoryGrows(n: nat, views: seq<seq<Seg>>, ops: seq<Op>, oks: seq<bool>, ok: bool, im: seq<Seg>)
    requires History(n, views, ops, oks) && |oks| < |ops| && Does(n, views[|oks|], ops[|oks|], ok, im)
    ensures History(n, views + [im], ops, oks + [ok])
  {
  }
}
