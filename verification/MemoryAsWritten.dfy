/** The memory module's loops as they stand in the source, and exactly when they keep the invariant. */
module MemoryAsWritten {
  import opened Bytes
  import opened Bitmap
  import opened Holes
  import opened Segments
  import opened MemoryModule

  /** `ocuparBitMap` and `liberarBitMap` with their `i <= base + limite`: one bit too many, where there is one. */
  method PaintThrough(bits: array<bool>, base: nat, limite: nat, v: bool)
    requires base + limite <= bits.Length
    modifies bits
    ensures bits[..] == Painted(old(bits[..]), base, limite + 1, v)
  {
    var i := base;
    while i <= base + limite && i < bits.Length
      invariant base <= i <= base + limite + 1 && i <= bits.Length
      invariant bits[..] == Painted(old(bits[..]), base, i - base, v)
    {
      bits[i] := v;
      i := i + 1;
    }
  }

  /** Occupying one bit too many is harmless exactly when the segment ends the memory or the next byte is in use. */
  lemma OccupyThroughIff(t: seq<Row>, b: seq<bool>, r: Row)
    requires Good(t, b) && r.End() <= |b|
    requires forall a :: r.base <= a < r.End() ==> !b[a]
    ensures Good(t + [r], Painted(b, r.base, r.limite + 1, true)) <==> r.End() == |b| || b[r.End()]
  {
    GoodAfterAdd(t, b, r);
    var c := Painted(b, r.base, r.limite + 1, true);
    if r.End() == |b| || b[r.End()] {
      assert c == Painted(b, r.base, r.limite, true);
    } else {
      assert c[r.End()] && !Painted(b, r.base, r.limite, true)[r.End()];
      assert !UsedAt(t + [r], r.End());
    }
  }

  /** Releasing one bit too many is harmless exactly when the segment ends the memory or the next byte is free. */
  lemma ReleaseThroughIff(t: seq<Row>, b: seq<bool>, k: nat)
    requires Good(t, b) && k < |t|
    ensures Good(Drop(t, k), Painted(b, t[k].base, t[k].limite + 1, false)) <==> t[k].End() == |b| || !b[t[k].End()]
  {
    GoodAfterDrop(t, b, k);
    var c := Painted(b, t[k].base, t[k].limite + 1, false);
    var e := t[k].End();
    if e == |b| || !b[e] {
      assert c == Painted(b, t[k].base, t[k].limite, false);
    } else {
      assert !c[e] && Painted(b, t[k].base, t[k].limite, false)[e];
      assert UsedAt(Drop(t, k), e);
    }
  }

  /** Two adjacent segments: releasing the first marks the second's first byte free. */
  lemma AdjacentReleaseBreaks()
    ensures var t := [Row(1, 1, 0, 0, 2), Row(2, 1, 2, 2, 2)]; var b := [true, true, true, true];
            Good(t, b) && !Good(Drop(t, 0), Painted(b, 0, 3, false))
  {
    var t, b := [Row(1, 1, 0, 0, 2), Row(2, 1, 2, 2, 2)], [true, true, true, true];
    assert In(t[0], 0) && In(t[0], 1) && In(t[1], 2) && In(t[1], 3);
    ReleaseThroughIff(t, b, 0);
  }

  // ----- deletion -----

  /** `findSegmentoConId` as written: the owner is not part of the key. */
  function FindById(s: seq<Shape>, id: int): (k: nat)
    ensures k <= |s|
    ensures k < |s| ==> s[k].id == id
    ensures forall j :: 0 <= j < k ==> s[j].id != id
  {
    if s == [] || s[0].id == id then 0 else 1 + FindById(s[1..], id)
  }

  /** Looking a segment up by its number alone finds the process's own segment exactly when the first segment with
      that number is the process's. */
  lemma FindByIdIff(s: seq<Shape>, pid: int, id: int)
    requires FindById(s, id) < |s|
    ensures FindById(s, id) == Find(s, pid, id) <==> s[FindById(s, id)].pid == pid
  {
    var k := FindById(s, id);
    if s[k].pid == pid { FindIs(s, pid, id, k); }
  }

  /** The request's second removal takes a row out without clearing bits: harmless exactly when that row is empty. */
  lemma SecondRemovalIff(t: seq<Row>, b: seq<bool>, j: nat)
    requires Good(t, b) && j < |t|
    ensures Good(Drop(t, j), b) <==> t[j].limite == 0
  {
    GoodAfterDrop(t, b, j);
    if t[j].limite == 0 {
      assert Painted(b, t[j].base, 0, false) == b;
    } else {
      var a := t[j].base;
      assert In(t[j], a);
      assert UsedAt(t, a);
      assert b[a];
      forall i | 0 <= i < |t| - 1 ensures !In(Drop(t, j)[i], a) {
        var m := if i < j then i else i + 1;
        assert Drop(t, j)[i] == t[m];
        assert !In(t[m], a);
      }
      assert !UsedAt(Drop(t, j), a);
    }
  }

  // ----- the reply to a read -----

  /** A string ends before its first zero byte. */
  function UpToZero(s: seq<byte>): (r: seq<byte>)
    ensures |r| <= |s| && r == s[..|r|] && 0 !in r && (|r| < |s| ==> s[|r|] == 0)
  {
    if s == [] || s[0] == 0 then [] else [s[0]] + UpToZero(s[1..])
  }

  /** `m_read` packs the bytes it read as a string: the reply is whole exactly when none of them is zero. */
  lemma ReplyWholeIff(s: seq<byte>)
    ensures UpToZero(s) == s <==> 0 !in s
  {
    var n := |UpToZero(s)|;
    if n < |s| { assert s[n] in s; }
  }

  lemma {:induction false} UpToZeroIs(s: seq<byte>, n: nat)
    requires n <= |s| && (forall i :: 0 <= i < n ==> s[i] != 0) && (n < |s| ==> s[n] == 0)
    ensures UpToZero(s) == s[..n]
  {
    var r := UpToZero(s);
    assert !(|r| < n) && !(n < |r|);
  }

  /** `buffer_pack_string` on bytes with a zero byte behind them: the end is found by counting. */
  method PackCounted(value: seq<byte>) returns (reply: seq<byte>)
    ensures reply == UpToZero(value)
  {
    var n := 0;
    while n < |value| && value[n] != 0
      invariant n <= |value| && forall i :: 0 <= i < n ==> value[i] != 0
    {
      n := n + 1;
    }
    UpToZeroIs(value, n);
    reply := value[..n];
  }

  /** The bytes of segment `k` from `off` on. */
  ghost function Part(m: Memory, k: nat, off: nat, size: nat): seq<byte>
    requires m.Sound() && k < |m.table| && off + size <= m.table[k].limite
    reads m, m.bitmap, m.bytes
  {
    m.View()[k].data[off..off + size]
  }

  /** `m_read` as written, inside a segment: the reply is the segment's bytes there if and only if none of them is
      zero. */
  method ReadAsWritten(m: Memory, address: nat, size: nat, ghost k: nat, ghost off: nat) returns (reply: seq<byte>)
    requires m.Sound() && k < |m.table| && address == m.table[k].base + off && off + size <= m.table[k].limite
    ensures reply == UpToZero(Part(m, k, off, size))
    ensures reply == Part(m, k, off, size) <==> 0 !in Part(m, k, off, size)
  {
    assert m.table[k].End() <= m.bytes.Length;
    var value := m.Read(address, size);
    assert value == Part(m, k, off, size);
    reply := PackCounted(value);
    ReplyWholeIff(value);
  }

  // ----- exit -----

  predicate HasNumber(t: seq<Row>, id: int) {
    exists j :: 0 <= j < |t| && t[j].id == id
  }

  /** The EXIT request as written, after `n` turns: numbers 0, 1, ... are deleted, whoever owns the first segment with
      each; a number no segment has is a null pointer. */
  function ExitUpTo(t: seq<Row>, n: nat): Option<seq<Row>> {
    if n == 0 then Some(t)
    else match ExitUpTo(t, n - 1)
      case None => None
      case Some(u) => var k := FindById(ShapesOf(u), n - 1); if k < |u| then Some(Drop(u, k)) else None
  }

  lemma DropsNumber(u: seq<Row>, k: nat, id: int)
    requires k < |u| && u[k].id != id
    ensures HasNumber(Drop(u, k), id) <==> HasNumber(u, id)
  {
    if HasNumber(u, id) {
      var j :| 0 <= j < |u| && u[j].id == id;
      assert Drop(u, k)[if j < k then j else j - 1] == u[j];
    }
    if HasNumber(Drop(u, k), id) {
      var j :| 0 <= j < |u| - 1 && Drop(u, k)[j].id == id;
      assert Drop(u, k)[j] == u[if j < k then j else j + 1];
    }
  }

  lemma FindsNumber(u: seq<Row>, id: int)
    ensures FindById(ShapesOf(u), id) < |u| <==> HasNumber(u, id)
  {
    var k := FindById(ShapesOf(u), id);
    if k < |u| { assert ShapesOf(u)[k].id == u[k].id; }
    if HasNumber(u, id) {
      var j :| 0 <= j < |u| && u[j].id == id;
      assert ShapesOf(u)[j].id == id;
    }
  }

  /** It gets through its turns exactly when every one of the numbers is some segment's, and leaves the higher
      numbers. */
  lemma {:induction false} ExitGetsThrough(t: seq<Row>, n: nat)
    ensures ExitUpTo(t, n).Some? <==> forall i :: 0 <= i < n ==> HasNumber(t, i)
    ensures ExitUpTo(t, n).Some? ==> forall i :: i >= n ==> (HasNumber(ExitUpTo(t, n).value, i) <==> HasNumber(t, i))
  {
    if n > 0 {
      ExitGetsThrough(t, n - 1);
      if ExitUpTo(t, n - 1).Some? {
        var u := ExitUpTo(t, n - 1).value;
        FindsNumber(u, n - 1);
        var k := FindById(ShapesOf(u), n - 1);
        if k < |u| {
          assert u[k].id == ShapesOf(u)[k].id;
          forall i | i >= n ensures HasNumber(Drop(u, k), i) <==> HasNumber(u, i) { DropsNumber(u, k, i); }
        }
      }
    }
  }

  lemma {:induction false} SharedGone(t: seq<Row>, n: nat)
    requires t != [] && t[0].id == 0 && (forall j :: 0 < j < |t| ==> t[j].id != 0) && n > 0 && ExitUpTo(t, n).Some?
    ensures !HasNumber(ExitUpTo(t, n).value, 0)
  {
    var u := ExitUpTo(t, n - 1).value;
    var k := FindById(ShapesOf(u), n - 1);
    if n == 1 {
      assert k == 0 by { assert ShapesOf(t)[0].id == 0; }
      assert Drop(t, 0) == t[1..];
    } else {
      SharedGone(t, n - 1);
      assert u[k].id == ShapesOf(u)[k].id;
      DropsNumber(u, k, 0);
    }
  }

  /** And it never leaves exactly the segments of the other processes: the first number it deletes is the shared
      segment's. */
  lemma ExitNeverRight(t: seq<Row>, pid: int, n: nat)
    requires t != [] && t[0].id == 0 && t[0].pid == 0 && (forall j :: 0 < j < |t| ==> t[j].id != 0) && pid != 0 && n > 0
    ensures ExitUpTo(t, n) != Some(FilterRows(t, |t|, pid))
  {
    if ExitUpTo(t, n).Some? {
      SharedGone(t, n);
      FilterKeepsFirst(t, |t|, pid);
      assert FilterRows(t, |t|, pid)[0].id == 0;
    }
  }

  // ----- the retry -----

  /** `buscarSegmentoSegunTamanio` as written, cut off after `fuel` compactions: no run that fits always means compact
      and call again. */
  ghost predicate Returns(t: seq<Row>, b: seq<bool>, size: nat, fuel: nat)
    decreases fuel
  {
    FitsNow(b, size) || (fuel > 0 && Returns(Relocated(t), Prefix(SumLim(t), |b|), size, fuel - 1))
  }

  ghost predicate ReturnsWithin(t: seq<Row>, b: seq<bool>, size: nat, fuel: nat) {
    Returns(t, b, size, fuel)
  }

  lemma CompactAgain(t: seq<Row>)
    ensures SumLim(Relocated(t)) == SumLim(t)
  {
    PreSame(t, Relocated(t), |t|);
  }

  lemma {:induction false} NeverReturns(t: seq<Row>, n: nat, size: nat, fuel: nat)
    requires 0 < n && SumLim(t) <= n && n - SumLim(t) < size
    ensures !Returns(t, Prefix(SumLim(t), n), size, fuel)
    decreases fuel
  {
    PrefixHasOneRun(SumLim(t), n, Hole(SumLim(t), n - SumLim(t)));
    if FitsNow(Prefix(SumLim(t), n), size) { FitsNowHasRoom(Prefix(SumLim(t), n), size); }
    if fuel > 0 {
      CompactAgain(t);
      NeverReturns(Relocated(t), n, size, fuel - 1);
    }
  }

  /** The search returns at all exactly when the request is at most the total free space. */
  lemma ReturnsIff(t: seq<Row>, b: seq<bool>, size: nat)
    requires Good(t, b) && |b| > 0
    ensures (exists fuel: nat :: ReturnsWithin(t, b, size, fuel)) <==> size <= FreeCount(b)
  {
    FreeIsTheRest(t, b);
    var p := Prefix(SumLim(t), |b|);
    if size <= FreeCount(b) {
      var h := Hole(SumLim(t), |b| - SumLim(t));
      PrefixHasOneRun(SumLim(t), |b|, h);
      assert IsRun(p, h) && h.limite >= size;
      assert Returns(Relocated(t), p, size, 0);
      assert ReturnsWithin(t, b, size, 1);
    } else {
      if FitsNow(b, size) { FitsNowHasRoom(b, size); }
      CompactAgain(t);
      forall fuel: nat ensures !ReturnsWithin(t, b, size, fuel) {
        if fuel > 0 { NeverReturns(Relocated(t), |b|, size, fuel - 1); }
      }
    }
  }
}
