/** Logical addresses: the CPU's translation, the kernel's copies of the segment table and the broadcast
    that keeps both meaningful when memory is compacted. */
module Translation {
  import opened Bytes
  import opened Segments
  import opened MemoryModule

  // ----- the CPU -----

  /** `encontrar_segmento` returns the last entry with the requested number. */
  function LastWith(segs: seq<Row>, id: int): (k: Option<nat>)
    ensures k.Some? ==> k.value < |segs| && segs[k.value].id == id
    ensures k.Some? ==> forall j :: k.value < j < |segs| ==> segs[j].id != id
    ensures k.None? ==> forall j :: 0 <= j < |segs| ==> segs[j].id != id
  {
    if segs == [] then None
    else if segs[|segs| - 1].id == id then Some(|segs| - 1)
    else LastWith(segs[..|segs| - 1], id)
  }

  method FindSegmentById(segs: seq<Row>, id: int) returns (r: Option<Row>)
    ensures r == match LastWith(segs, id) case None => None case Some(k) => Some(segs[k])
  {
    r := None;
    ghost var at: Option<nat> := None;
    for i := 0 to |segs|
      invariant at.None? ==> r.None? && forall j :: 0 <= j < i ==> segs[j].id != id
      invariant at.Some? ==> at.value < i && r == Some(segs[at.value]) && segs[at.value].id == id
      invariant at.Some? ==> forall j :: at.value < j < i ==> segs[j].id != id
    {
      if segs[i].id == id {
        r, at := Some(segs[i]), Some(i);
      }
    }
  }

  /** F_READ and F_WRITE: the physical address of `size` bytes at a logical address, or a segmentation fault. */
  function FileAddress(segs: seq<Row>, maxSize: nat, dir: nat, size: nat): (r: Option<nat>)
    requires maxSize > 0
  {
    match LastWith(segs, dir / maxSize)
    case None => None
    case Some(k) => if segs[k].limite >= dir % maxSize + size then Some(segs[k].base + dir % maxSize) else None
  }

  /** MOV_IN and MOV_OUT only compare the offset, and accept an offset equal to the limit. */
  function MovAddress(segs: seq<Row>, maxSize: nat, dir: nat): (r: Option<nat>)
    requires maxSize > 0
  {
    match LastWith(segs, dir / maxSize)
    case None => None
    case Some(k) => if segs[k].limite >= dir % maxSize then Some(segs[k].base + dir % maxSize) else None
  }

  // ----- the kernel's copies -----

  /** Positions of the rows of process `pid` among the first `k`. */
  function OwnRows(t: seq<Row>, k: nat, pid: int): (ix: seq<nat>)
    requires k <= |t|
    ensures forall j {:trigger ix[j]} :: 0 <= j < |ix| ==> ix[j] < k && t[ix[j]].pid == pid
  {
    if k == 0 then [] else OwnRows(t, k - 1, pid) + if t[k - 1].pid == pid then [k - 1] else []
  }

  lemma {:induction false} OwnRowsHas(t: seq<Row>, k: nat, pid: int, i: nat) returns (p: nat)
    requires i < k <= |t| && t[i].pid == pid
    ensures p < |OwnRows(t, k, pid)| && OwnRows(t, k, pid)[p] == i
  {
    if i < k - 1 {
      p := OwnRowsHas(t, k - 1, pid, i);
    } else {
      p := |OwnRows(t, k - 1, pid)|;
    }
  }

  lemma {:induction false} OwnRowsSorted(t: seq<Row>, k: nat, pid: int, i: nat, j: nat)
    requires k <= |t| && i < j < |OwnRows(t, k, pid)|
    ensures OwnRows(t, k, pid)[i] < OwnRows(t, k, pid)[j]
  {
    if j < |OwnRows(t, k - 1, pid)| {
      OwnRowsSorted(t, k - 1, pid, i, j);
    }
  }

  /** Which row of the table each copy of `pid` stands for: the shared segment 0, then its own rows in order. */
  function Sources(t: seq<Row>, pid: int): (ix: seq<nat>)
    requires t != []
    ensures |ix| > 0 && ix[0] == 0
    ensures forall j {:trigger ix[j]} :: 0 <= j < |ix| ==> ix[j] < |t|
  {
    [0] + OwnRows(t, |t|, pid)
  }

  /** What the PCB of `pid` should hold. */
  function Copies(t: seq<Row>, pid: int): (segs: seq<Row>)
    requires t != []
  {
    var ix := Sources(t, pid);
    seq(|ix|, j requires 0 <= j < |ix| => t[ix[j]])
  }

  lemma {:induction false} OwnRowsSame(t: seq<Row>, u: seq<Row>, k: nat, pid: int)
    requires k <= |t| && k <= |u| && forall i {:trigger u[i]} :: 0 <= i < k ==> t[i].pid == u[i].pid
    ensures OwnRows(t, k, pid) == OwnRows(u, k, pid)
  {
    if k > 0 {
      OwnRowsSame(t, u, k - 1, pid);
    }
  }

  /** Segment numbers are unique within a process, and number 0 belongs to the shared segment. */
  ghost predicate DistinctIds(t: seq<Row>) {
    forall i, j :: 0 <= i < j < |t| && t[i].id == t[j].id ==> t[i].pid != t[j].pid && t[i].pid != 0
  }

  function FirstWith(segs: seq<Row>, id: int): (k: nat)
    ensures k <= |segs| && (k < |segs| ==> segs[k].id == id)
    ensures forall j :: 0 <= j < k ==> segs[j].id != id
  {
    if segs == [] || segs[0].id == id then 0 else 1 + FirstWith(segs[1..], id)
  }

  /** One memory row applied to one list of copies: base and limit are overwritten by number. */
  function RefreshOne(segs: seq<Row>, pid: int, row: Row): (r: seq<Row>)
    ensures |r| == |segs|
  {
    var k := FirstWith(segs, row.id);
    if row.pid == pid && k < |segs| then segs[k := segs[k].(base := row.base, limite := row.limite)] else segs
  }

  /** The copy with the row's number has its base and limit afterwards; numbers and all other copies stay. */
  lemma RowArrives(segs: seq<Row>, pid: int, row: Row, k: nat)
    requires k < |segs| && segs[k].id == row.id && (forall j :: 0 <= j < k ==> segs[j].id != row.id) && row.pid == pid
    ensures var r := RefreshOne(segs, pid, row);
            && r[k].base == row.base && r[k].limite == row.limite
            && (forall j :: 0 <= j < |segs| ==> r[j].id == segs[j].id && (j != k ==> r[j] == segs[j]))
  {
    FirstWithIs(segs, row.id, k);
  }

  function Refresh(segs: seq<Row>, pid: int, t: seq<Row>, k: nat): (r: seq<Row>)
    requires k <= |t|
    ensures |r| == |segs|
  {
    if k == 0 then segs else RefreshOne(Refresh(segs, pid, t, k - 1), pid, t[k - 1])
  }

  class Pcb {
    const pid: int
    /** `tabla_de_segmentos`. */
    var segments: seq<Row>

    constructor (pid: int, zero: Row)
      ensures this.pid == pid && segments == [zero]
    {
      this.pid := pid;
      segments := [zero];
    }

    /** One step of `actualizarSegmentosPorEstado`. */
    method Update(row: Row)
      modifies this
      ensures segments == RefreshOne(old(segments), pid, row)
    {
      var k := 0;
      while k < |segments| && segments[k].id != row.id
        invariant k <= |segments| && forall j :: 0 <= j < k ==> segments[j].id != row.id
      {
        k := k + 1;
      }
      FirstWithIs(segments, row.id, k);
      if row.pid == pid && k < |segments| {
        segments := segments[k := segments[k].(base := row.base, limite := row.limite)];
      }
    }
  }

  lemma FirstWithIs(segs: seq<Row>, id: int, k: nat)
    requires k <= |segs| && (k < |segs| ==> segs[k].id == id)
    requires forall j :: 0 <= j < k ==> segs[j].id != id
    ensures FirstWith(segs, id) == k
  {
    var f := FirstWith(segs, id);
    assert !(f < k) && !(k < f);
  }

  /** `actualizarSegmentosPorEstado`: one row of memory's table is offered to every PCB. */
  method BroadcastRow(pcbs: seq<Pcb>, row: Row)
    requires forall i, j :: 0 <= i < j < |pcbs| ==> pcbs[i] != pcbs[j]
    modifies pcbs
    ensures forall k :: 0 <= k < |pcbs| ==> pcbs[k].segments == RefreshOne(old(pcbs[k].segments), pcbs[k].pid, row)
  {
    for j := 0 to |pcbs|
      invariant forall k :: 0 <= k < j ==> pcbs[k].segments == RefreshOne(old(pcbs[k].segments), pcbs[k].pid, row)
      invariant forall k :: j <= k < |pcbs| ==> pcbs[k].segments == old(pcbs[k].segments)
    {
      pcbs[j].Update(row);
    }
  }

  /** `actualizarPorCompactacion`: every row of memory's table is offered to every PCB, the one in the
      execute thread's hand included. */
  method Broadcast(pcbs: seq<Pcb>, t: seq<Row>)
    requires forall i, j :: 0 <= i < j < |pcbs| ==> pcbs[i] != pcbs[j]
    modifies pcbs
    ensures forall k :: 0 <= k < |pcbs| ==> pcbs[k].segments == Refresh(old(pcbs[k].segments), pcbs[k].pid, t, |t|)
  {
    for i := 0 to |t|
      invariant forall k :: 0 <= k < |pcbs| ==> pcbs[k].segments == Refresh(old(pcbs[k].segments), pcbs[k].pid, t, i)
    {
      BroadcastRow(pcbs, t[i]);
    }
  }

  /** The table whose first `k` rows are the new ones. */
  function Mixed(t: seq<Row>, u: seq<Row>, k: nat): (m: seq<Row>)
    requires |t| == |u| && k <= |t|
    ensures |m| == |t|
  {
    u[..k] + t[k..]
  }

  /** Only bases differ. */
  ghost predicate Moved(t: seq<Row>, u: seq<Row>) {
    |t| == |u| && forall i {:trigger u[i]} :: 0 <= i < |t| ==> u[i] == t[i].(base := u[i].base)
  }

  /** The copies after the first `k` rows of the new table have been broadcast. */
  lemma {:induction false} RefreshFollows(t: seq<Row>, u: seq<Row>, pid: int, k: nat)
    requires t != [] && Moved(t, u) && k <= |t| && DistinctIds(t) && pid != 0 && t[0].pid == 0 && u[0] == t[0]
    ensures Refresh(Copies(t, pid), pid, u, k) == Copies(Mixed(t, u, k), pid)
  {
    if k == 0 {
      assert Mixed(t, u, 0) == t;
    } else {
      var m := Mixed(t, u, k - 1);
      RefreshFollows(t, u, pid, k - 1);
      assert Mixed(t, u, k) == m[k - 1 := u[k - 1]];
      assert m[k - 1] == t[k - 1] && m[0] == t[0];
      MixedDistinct(t, u, k - 1);
      RefreshStep(m, k - 1, u[k - 1], pid);
    }
  }

  lemma MixedDistinct(t: seq<Row>, u: seq<Row>, k: nat)
    requires Moved(t, u) && k <= |t| && DistinctIds(t)
    ensures DistinctIds(Mixed(t, u, k))
  {
    var m := Mixed(t, u, k);
    forall i, j | 0 <= i < j < |m| && m[i].id == m[j].id ensures m[i].pid != m[j].pid && m[i].pid != 0 {
      assert m[i] == (if i < k then u[i] else t[i]) && m[j] == (if j < k then u[j] else t[j]);
      assert t[i].id == t[j].id;
    }
  }

  /** A broadcast row of another process changes nothing; one of our own lands exactly on its copy. */
  lemma RefreshStep(m: seq<Row>, k: nat, row: Row, pid: int)
    requires k < |m| && DistinctIds(m) && pid != 0 && m[0].pid == 0
    requires row == m[k].(base := row.base) && (k == 0 ==> row == m[0])
    ensures RefreshOne(Copies(m, pid), pid, row) == Copies(m[k := row], pid)
  {
    var ix, segs := Sources(m, pid), Copies(m, pid);
    OwnRowsSame(m, m[k := row], |m|, pid);
    if row.pid == pid {
      var p := OwnRowsHas(m, |m|, pid, k);
      assert ix[p + 1] == k;
      forall j | 0 <= j < |ix| && j != p + 1 ensures ix[j] != k && (j < p + 1 ==> segs[j].id != row.id) {
        SourcesApart(m, pid, p + 1, j);
      }
      FirstWithIs(segs, row.id, p + 1);
    } else {
      forall j | 0 <= j < |ix| ensures m[k := row][ix[j]] == m[ix[j]] {
        assert j > 0 ==> ix[j] == OwnRows(m, |m|, pid)[j - 1];
      }
    }
  }

  lemma SourcesApart(m: seq<Row>, pid: int, p: nat, j: nat)
    requires m != [] && DistinctIds(m) && pid != 0 && m[0].pid == 0
    requires 0 < p < |Sources(m, pid)| && j < |Sources(m, pid)| && j != p
    ensures var ix := Sources(m, pid);
            ix[j] != ix[p] && (j < p ==> m[ix[j]].id != m[ix[p]].id)
  {
    var own := OwnRows(m, |m|, pid);
    assert m[own[p - 1]].pid == pid;
    if j == 0 {
    } else if j < p {
      OwnRowsSorted(m, |m|, pid, j - 1, p - 1);
      assert m[own[j - 1]].pid == pid;
    } else {
      OwnRowsSorted(m, |m|, pid, p - 1, j - 1);
    }
  }

  /** After compaction and the broadcast every PCB's copies equal memory's entries again. */
  lemma BroadcastRestoresCopies(t: seq<Row>, pid: int)
    requires t != [] && DistinctIds(t) && pid != 0 && t[0].pid == 0 && t[0].base == 0
    ensures Refresh(Copies(t, pid), pid, Relocated(t), |t|) == Copies(Relocated(t), pid)
  {
    var u := Relocated(t);
    assert u[0] == t[0];
    RefreshFollows(t, u, pid, |t|);
    assert Mixed(t, u, |t|) == u;
  }

  /** The whole exchange: memory compacts, the kernel refreshes its copies. */
  method CompactAndBroadcast(m: Memory, pcbs: seq<Pcb>)
    requires m.Inv() && DistinctIds(m.table)
    requires forall i, j :: 0 <= i < j < |pcbs| ==> pcbs[i] != pcbs[j]
    requires forall k :: 0 <= k < |pcbs| ==> pcbs[k].pid != 0 && pcbs[k].segments == Copies(m.table, pcbs[k].pid)
    modifies m`table, m.bitmap, m.bytes, pcbs
    ensures m.Inv() && m.View() == old(m.View()) && m.table == Relocated(old(m.table))
    ensures forall k :: 0 <= k < |pcbs| ==> pcbs[k].segments == Copies(m.table, pcbs[k].pid)
  {
    ghost var t := m.table;
    var inner := m.Compact();
    assert m.table[0] == t[0];
    Broadcast(pcbs, m.table);
    forall k | 0 <= k < |pcbs| ensures pcbs[k].segments == Copies(m.table, pcbs[k].pid) {
      BroadcastRestoresCopies(t, pcbs[k].pid);
    }
  }

  /** Creating a segment extends the owner's copies by the new row and nobody else's. */
  lemma CopiesAfterCreate(t: seq<Row>, row: Row, pid: int)
    requires t != []
    ensures Copies(t + [row], pid) == Copies(t, pid) + if row.pid == pid then [row] else []
  {
    OwnRowsSame(t, t + [row], |t|, pid);
  }

  /** The bytes behind a logical address. */
  function ReadLogical(segs: seq<Row>, bytes: seq<byte>, maxSize: nat, dir: nat, size: nat): Option<seq<byte>>
    requires maxSize > 0 && InBounds(segs, |bytes|)
  {
    match FileAddress(segs, maxSize, dir, size)
    case None => None
    case Some(a) =>
      var k := LastWith(segs, dir / maxSize).value;
      assert segs[k].End() <= |bytes|;
      Some(bytes[a..a + size])
  }

  lemma {:induction false} LastWithSame(segs: seq<Row>, segs': seq<Row>, id: int)
    requires |segs| == |segs'| && forall j :: 0 <= j < |segs| ==> segs[j].id == segs'[j].id
    ensures LastWith(segs, id) == LastWith(segs', id)
  {
    var k, k' := LastWith(segs, id), LastWith(segs', id);
    if k.Some? {
      assert segs'[k.value].id == id;
      assert !(k.value < k'.value) && !(k'.value < k.value);
    }
  }

  lemma CopiesInBounds(t: seq<Row>, n: nat, pid: int)
    requires t != [] && InBounds(t, n)
    ensures InBounds(Copies(t, pid), n)
  {
    forall j | 0 <= j < |Copies(t, pid)| ensures Copies(t, pid)[j].End() <= n {
      assert Copies(t, pid)[j] == t[Sources(t, pid)[j]];
    }
  }

  /** A translation accepted before compaction is accepted after it, and reads the same bytes. */
  lemma TranslationSurvives(t: seq<Row>, bytes: seq<byte>, bytes': seq<byte>, pid: int, maxSize: nat, dir: nat,
                            size: nat)
    requires t != [] && InBounds(t, |bytes|) && InBounds(Relocated(t), |bytes'|)
    requires Image(t, bytes) == Image(Relocated(t), bytes')
    requires maxSize > 0
    ensures InBounds(Copies(t, pid), |bytes|) && InBounds(Copies(Relocated(t), pid), |bytes'|)
    ensures ReadLogical(Copies(t, pid), bytes, maxSize, dir, size)
         == ReadLogical(Copies(Relocated(t), pid), bytes', maxSize, dir, size)
  {
    var u := Relocated(t);
    var segs, segs' := Copies(t, pid), Copies(u, pid);
    CopiesInBounds(t, |bytes|, pid);
    CopiesInBounds(u, |bytes'|, pid);
    OwnRowsSame(t, u, |t|, pid);
    LastWithSame(segs, segs', dir / maxSize);
    var k := LastWith(segs, dir / maxSize);
    if k.Some? {
      var i := Sources(t, pid)[k.value];
      assert segs[k.value] == t[i] && segs'[k.value] == u[i];
      SameBytes(t, bytes, bytes', i, dir % maxSize, size);
    }
  }

  lemma SameBytes(t: seq<Row>, bytes: seq<byte>, bytes': seq<byte>, i: nat, off: nat, size: nat)
    requires InBounds(t, |bytes|) && InBounds(Relocated(t), |bytes'|) && i < |t|
    requires Image(t, bytes) == Image(Relocated(t), bytes')
    ensures off + size <= t[i].limite ==>
              bytes[t[i].base + off..t[i].base + off + size]
              == bytes'[Relocated(t)[i].base + off..Relocated(t)[i].base + off + size]
  {
    var u := Relocated(t);
    assert Image(t, bytes)[i].data == Image(u, bytes')[i].data;
    if off + size <= t[i].limite {
      SubSlice(bytes, t[i].base, t[i].End(), off, size);
      SubSlice(bytes', u[i].base, u[i].End(), off, size);
    }
  }

  // ----- MOV -----

  /** `encontrar_tamanio_registro`: how many bytes a MOV moves. */
  function Width(register: string): nat {
    if register != "" && register[0] == 'E' then 8
    else if register != "" && register[0] == 'R' then 16
    else 4
  }

  /** What a MOV accesses. */
  predicate MovAccesses(segs: seq<Row>, maxSize: nat, dir: nat, register: string, a: int)
    requires maxSize > 0
  {
    match MovAddress(segs, maxSize, dir)
    case None => false
    case Some(at) => at <= a < at + Width(register)
  }

  /** The bytes of a MOV that passes the check all lie inside the segment exactly when offset and register fit its
      limit; the check compares the offset alone. */
  lemma MovInsideIff(segs: seq<Row>, maxSize: nat, dir: nat, register: string)
    requires maxSize > 0 && MovAddress(segs, maxSize, dir).Some?
    ensures var k := LastWith(segs, dir / maxSize).value;
            (forall a :: MovAccesses(segs, maxSize, dir, register, a) ==> In(segs[k], a))
            <==> dir % maxSize + Width(register) <= segs[k].limite
  {
    var k := LastWith(segs, dir / maxSize).value;
    var last := segs[k].base + dir % maxSize + Width(register) - 1;
    assert MovAccesses(segs, maxSize, dir, register, last);
    if dir % maxSize + Width(register) > segs[k].limite {
      assert !In(segs[k], last);
    }
  }

  /** A MOV that passes the check with an offset below the limit and still reaches the next segment. */
  lemma MovReachesNeighbour()
    ensures var segs := [Row(0, 0, 0, 0, 4), Row(1, 1, 2, 4, 4)];
            MovAddress(segs, 8, 3) == Some(3) && MovAccesses(segs, 8, 3, "AX", 4) && In(segs[1], 4) && !In(segs[0], 4)
  {
    var segs := [Row(0, 0, 0, 0, 4), Row(1, 1, 2, 4, 4)];
    assert segs[..1] == [Row(0, 0, 0, 0, 4)];
    assert LastWith(segs[..1], 0) == Some(0);
  }

  /** The condition under which a MOV stays in its segment. */
  predicate MovFits(segs: seq<Row>, maxSize: nat, dir: nat, register: string)
    requires maxSize > 0
  {
    var k := LastWith(segs, dir / maxSize);
    k.Some? && dir % maxSize + Width(register) <= segs[k.value].limite
  }

  /** A MOV that fits is accepted and moves the bytes that a checked transfer of the register's width would. */
  lemma MovIsChecked(segs: seq<Row>, maxSize: nat, dir: nat, register: string)
    requires maxSize > 0 && MovFits(segs, maxSize, dir, register)
    ensures MovAddress(segs, maxSize, dir).Some?
    ensures MovAddress(segs, maxSize, dir) == FileAddress(segs, maxSize, dir, Width(register))
  {
  }

  /** A MOV that fits before compaction fits after it and moves the same bytes. */
  lemma MovSurvives(t: seq<Row>, bytes: seq<byte>, bytes': seq<byte>, pid: int, maxSize: nat, dir: nat,
                    register: string)
    requires t != [] && InBounds(t, |bytes|) && InBounds(Relocated(t), |bytes'|)
    requires Image(t, bytes) == Image(Relocated(t), bytes') && maxSize > 0
    requires MovFits(Copies(t, pid), maxSize, dir, register)
    ensures MovFits(Copies(Relocated(t), pid), maxSize, dir, register)
    ensures InBounds(Copies(t, pid), |bytes|) && InBounds(Copies(Relocated(t), pid), |bytes'|)
    ensures var a, b := MovAddress(Copies(t, pid), maxSize, dir), MovAddress(Copies(Relocated(t), pid), maxSize, dir);
            && a.Some? && b.Some? && a.value + Width(register) <= |bytes| && b.value + Width(register) <= |bytes'|
            && bytes[a.value..a.value + Width(register)] == bytes'[b.value..b.value + Width(register)]
  {
    var u := Relocated(t);
    TranslationSurvives(t, bytes, bytes', pid, maxSize, dir, Width(register));
    MovIsChecked(Copies(t, pid), maxSize, dir, register);
    assert ReadLogical(Copies(t, pid), bytes, maxSize, dir, Width(register)).Some?;
    assert FileAddress(Copies(u, pid), maxSize, dir, Width(register)).Some?;
    MovIsChecked(Copies(u, pid), maxSize, dir, register);
    CopiesInBounds(t, |bytes|, pid);
    CopiesInBounds(u, |bytes'|, pid);
  }

  /** The widths of the registers, by their names. */
  lemma RegisterWidths(letter: char)
    requires letter in {'A', 'B', 'C', 'D'}
    ensures Width([letter, 'X']) == 4 && Width(['E', letter, 'X']) == 8 && Width(['R', letter, 'X']) == 16
  {
  }

  // ----- addresses that need no addresses -----

  /** Segment 0 is everybody's; the others belong to their process. */
  function Owner(pid: int, num: int): int {
    if num == 0 then 0 else pid
  }

  /** What process `pid` reads at an offset of its segment `num`, from the segments alone. */
  function ViewRead(im: seq<Seg>, pid: int, num: int, off: nat, size: nat): Option<seq<byte>> {
    var k := FindSeg(im, Owner(pid, num), num);
    if k < |im| && off + size <= |im[k].data| then Some(im[k].data[off..off + size]) else None
  }

  lemma LastWithIs(segs: seq<Row>, id: int, k: nat)
    requires k < |segs| && segs[k].id == id && forall j :: 0 <= j < |segs| && j != k ==> segs[j].id != id
    ensures LastWith(segs, id) == Some(k)
  {
    var l := LastWith(segs, id);
    assert l.Some? && segs[l.value].id == id;
  }

  /** Number 0 is the shared segment's copy. */
  lemma ZeroCopy(t: seq<Row>, pid: int)
    requires t != [] && DistinctIds(t) && t[0].pid == 0 && t[0].id == 0 && pid != 0
    ensures LastWith(Copies(t, pid), 0) == Some(0) && Find(ShapesOf(t), 0, 0) == 0
  {
    FindIs(ShapesOf(t), 0, 0, 0);
    var ix, segs := Sources(t, pid), Copies(t, pid);
    forall j | 0 < j < |segs| ensures segs[j].id != 0 {
      assert segs[j] == t[ix[j]] && ix[j] == OwnRows(t, |t|, pid)[j - 1];
    }
    LastWithIs(segs, 0, 0);
  }

  /** Any other number is the copy of the process's own row with it. */
  lemma OwnCopy(t: seq<Row>, pid: int, r: nat)
    requires t != [] && DistinctIds(t) && t[0].pid == 0 && pid != 0 && r < |t| && t[r].pid == pid
    ensures var k := LastWith(Copies(t, pid), t[r].id);
            k.Some? && Copies(t, pid)[k.value] == t[r]
  {
    var p := OwnRowsHas(t, |t|, pid, r);
    var segs := Copies(t, pid);
    assert segs[p + 1] == t[r];
    forall j | 0 <= j < |segs| && j != p + 1 ensures segs[j].id != t[r].id { CopyApart(t, pid, p + 1, j); }
    LastWithIs(segs, t[r].id, p + 1);
  }

  /** A number no row of the process has is on none of its copies. */
  lemma NoCopy(t: seq<Row>, pid: int, num: int)
    requires t != [] && t[0].id == 0 && num != 0 && forall i :: 0 <= i < |t| && t[i].pid == pid ==> t[i].id != num
    ensures LastWith(Copies(t, pid), num) == None
  {
    var ix, segs := Sources(t, pid), Copies(t, pid);
    forall j | 0 <= j < |segs| ensures segs[j].id != num {
      assert segs[j] == t[ix[j]];
      assert j > 0 ==> ix[j] == OwnRows(t, |t|, pid)[j - 1];
    }
  }

  /** Which of a process's copies carries a number. */
  lemma CopyOf(t: seq<Row>, pid: int, num: int)
    requires t != [] && DistinctIds(t) && t[0].pid == 0 && t[0].id == 0 && pid != 0
    ensures var r := Find(ShapesOf(t), Owner(pid, num), num);
            var k := LastWith(Copies(t, pid), num);
            (k.Some? <==> r < |t|) && (k.Some? ==> Copies(t, pid)[k.value] == t[r])
  {
    if num == 0 {
      ZeroCopy(t, pid);
    } else {
      var r := Find(ShapesOf(t), pid, num);
      if r < |t| {
        assert ShapesOf(t)[r] == Shape(t[r].pid, t[r].id, t[r].limite);
        OwnCopy(t, pid, r);
      } else {
        forall i | 0 <= i < |t| && t[i].pid == pid ensures t[i].id != num {
          assert ShapesOf(t)[i] == Shape(t[i].pid, t[i].id, t[i].limite);
        }
        NoCopy(t, pid, num);
      }
    }
  }

  /** A MOV as written is accepted if and only if the process has a row under the number and the offset is at most the
      limit memory keeps for it; any other one is a segmentation fault. */
  lemma MovAcceptedIff(t: seq<Row>, pid: int, maxSize: nat, dir: nat)
    requires t != [] && DistinctIds(t) && t[0].pid == 0 && t[0].id == 0 && pid != 0 && maxSize > 0
    ensures var r := Find(ShapesOf(t), Owner(pid, dir / maxSize), dir / maxSize);
            var a := MovAddress(Copies(t, pid), maxSize, dir);
            && (a.Some? <==> r < |t| && dir % maxSize <= t[r].limite)
            && (a.Some? ==> a.value == t[r].base + dir % maxSize)
  {
    CopyOf(t, pid, dir / maxSize);
  }

  /** It is accepted or refused alike before and after a compaction. */
  lemma MovFaultsAlike(t: seq<Row>, pid: int, maxSize: nat, dir: nat)
    requires t != [] && DistinctIds(t) && t[0].pid == 0 && t[0].id == 0 && pid != 0 && maxSize > 0
    ensures var r := Find(ShapesOf(t), Owner(pid, dir / maxSize), dir / maxSize);
            MovAddress(Copies(Relocated(t), pid), maxSize, dir).Some? <==> r < |t| && dir % maxSize <= t[r].limite
  {
    var u, num := Relocated(t), dir / maxSize;
    OwnRowsSame(t, u, |t|, pid);
    LastWithSame(Copies(t, pid), Copies(u, pid), num);
    MovAcceptedIff(t, pid, maxSize, dir);
    var k := LastWith(Copies(t, pid), num);
    if k.Some? {
      var i := Sources(t, pid)[k.value];
      assert Copies(u, pid)[k.value] == u[i] && Copies(t, pid)[k.value] == t[i];
    }
  }

  /** No two copies of a process carry the same number. */
  lemma CopyApart(t: seq<Row>, pid: int, p: nat, j: nat)
    requires t != [] && DistinctIds(t) && pid != 0 && t[0].pid == 0
    requires 0 < p < |Copies(t, pid)| && j < |Copies(t, pid)| && j != p
    ensures Copies(t, pid)[j].id != Copies(t, pid)[p].id
  {
    if j < p { SourcesApart(t, pid, p, j); } else { SourcesApart(t, pid, j, p); }
  }

  /** A logical read through a process's copies is a read of the segments, wherever memory has put them. */
  lemma ReadIsView(t: seq<Row>, bytes: seq<byte>, pid: int, maxSize: nat, dir: nat, size: nat)
    requires t != [] && InBounds(t, |bytes|) && DistinctIds(t) && t[0].pid == 0 && t[0].id == 0 && pid != 0
             && maxSize > 0
    ensures InBounds(Copies(t, pid), |bytes|)
    ensures ReadLogical(Copies(t, pid), bytes, maxSize, dir, size)
         == ViewRead(Image(t, bytes), pid, dir / maxSize, dir % maxSize, size)
  {
    var num, off := dir / maxSize, dir % maxSize;
    CopiesInBounds(t, |bytes|, pid);
    CopyOf(t, pid, num);
    SegShapes(t, bytes);
    var r := Find(ShapesOf(t), Owner(pid, num), num);
    if r < |t| && off + size <= t[r].limite {
      SubSlice(bytes, t[r].base, t[r].End(), off, size);
    }
  }
}
