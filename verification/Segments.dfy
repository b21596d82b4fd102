/** The segment table as a value: the invariant that ties it to the bitmap, and relocation. */
module Segments {
  import opened Bytes
  import opened Bitmap
  import opened Holes

  /** A row of the segment table (`tabla_segmento`). */
  datatype Row = Row(id: int, pid: int, idSegPcb: int, base: nat, limite: nat) {
    function End(): nat { base + limite }
  }

  /** A segment is the half-open range [base, base + limite). */
  predicate In(r: Row, a: int) {
    r.base <= a < r.End()
  }

  ghost predicate InBounds(t: seq<Row>, n: nat) {
    forall i :: 0 <= i < |t| ==> t[i].End() <= n
  }

  ghost predicate Disjoint(t: seq<Row>) {
    forall i, j, a :: 0 <= i < j < |t| && In(t[i], a) ==> !In(t[j], a)
  }

  /** A bit is set exactly when its address lies in some segment. */
  ghost predicate BitsAgree(t: seq<Row>, b: seq<bool>) {
    forall a {:trigger UsedAt(t, a)} :: 0 <= a < |b| ==> (b[a] <==> UsedAt(t, a))
  }

  ghost predicate UsedAt(t: seq<Row>, a: int) {
    exists i :: 0 <= i < |t| && In(t[i], a)
  }

  ghost predicate Good(t: seq<Row>, b: seq<bool>) {
    InBounds(t, |b|) && Disjoint(t) && BitsAgree(t, b)
  }

  /** Total size of the first `k` rows: where compaction puts row `k`. */
  function Pre(t: seq<Row>, k: nat): nat
    requires k <= |t|
  {
    if k == 0 then 0 else Pre(t, k - 1) + t[k - 1].limite
  }

  function SumLim(t: seq<Row>): nat {
    Pre(t, |t|)
  }

  /** The table after compaction: the same rows in the same order, packed from address 0. */
  function Relocated(t: seq<Row>): (r: seq<Row>)
    ensures |r| == |t|
  {
    seq(|t|, k requires 0 <= k < |t| => t[k].(base := Pre(t, k)))
  }

  lemma {:induction false} PreMonotone(t: seq<Row>, j: nat, k: nat)
    requires j <= k <= |t|
    ensures Pre(t, j) <= Pre(t, k)
  {
    if j < k {
      PreMonotone(t, j, k - 1);
    }
  }

  /** Only the sizes matter. */
  lemma {:induction false} PreSame(t: seq<Row>, u: seq<Row>, k: nat)
    requires k <= |t| && k <= |u| && forall i :: 0 <= i < k ==> t[i].limite == u[i].limite
    ensures Pre(t, k) == Pre(u, k)
  {
    if k > 0 {
      PreSame(t, u, k - 1);
    }
  }

  /** The bitmap obtained by marking the first `k` rows in an empty memory. */
  function Marked(t: seq<Row>, k: nat, n: nat): (b: seq<bool>)
    requires k <= |t|
    ensures |b| == n
  {
    if k == 0 then Prefix(0, n) else Painted(Marked(t, k - 1, n), t[k - 1].base, t[k - 1].limite, true)
  }

  lemma {:induction false} MarkedMeans(t: seq<Row>, k: nat, n: nat, a: nat)
    requires k <= |t| && a < n
    ensures Marked(t, k, n)[a] <==> exists i :: 0 <= i < k && In(t[i], a)
  {
    if k > 0 {
      MarkedMeans(t, k - 1, n, a);
    }
  }

  lemma {:induction false} MarkedFree(t: seq<Row>, k: nat, n: nat)
    requires Disjoint(t) && InBounds(t, n) && k <= |t|
    ensures FreeCount(Marked(t, k, n)) == n - Pre(t, k)
  {
    if k > 0 {
      var b, r := Marked(t, k - 1, n), t[k - 1];
      MarkedFree(t, k - 1, n);
      forall a | r.base <= a < r.End() ensures !b[a] {
        MarkedMeans(t, k - 1, n, a);
        assert In(r, a);
      }
      PaintTakes(b, r.base, r.limite);
    } else {
      FreeStretch(Prefix(0, n), 0, 0, n);
    }
  }

  /** In a good table the free bits are all the addresses that no segment uses. */
  lemma FreeIsTheRest(t: seq<Row>, b: seq<bool>)
    requires Good(t, b)
    ensures FreeCount(b) == |b| - SumLim(t)
  {
    MarkedFree(t, |t|, |b|);
    forall a | 0 <= a < |b| ensures b[a] == Marked(t, |t|, |b|)[a] {
      MarkedMeans(t, |t|, |b|, a);
      assert b[a] <==> UsedAt(t, a);
    }
    assert b == Marked(t, |t|, |b|);
  }

  /** A packed table is good for the bitmap whose first `SumLim(t)` bits are set. */
  lemma RelocatedGood(t: seq<Row>, n: nat)
    requires SumLim(t) <= n
    ensures Good(Relocated(t), Prefix(SumLim(t), n))
  {
    var r := Relocated(t);
    forall i | 0 <= i < |t| ensures r[i].End() == Pre(t, i + 1) <= SumLim(t) {
      PreMonotone(t, i + 1, |t|);
    }
    forall i, j, a | 0 <= i < j < |t| && In(r[i], a) ensures !In(r[j], a) {
      PreMonotone(t, i + 1, j);
    }
    var b := Prefix(SumLim(t), n);
    forall a | 0 <= a < n ensures b[a] <==> UsedAt(r, a) {
      if b[a] {
        var i := RowAt(t, |t|, a);
        assert In(r[i], a);
      } else {
        forall i | 0 <= i < |r| ensures !In(r[i], a) {
          assert r[i].End() <= SumLim(t);
        }
      }
    }
  }

  lemma {:induction false} RowAt(t: seq<Row>, k: nat, a: nat) returns (i: nat)
    requires k <= |t| && a < Pre(t, k)
    ensures i < k && Pre(t, i) <= a < Pre(t, i + 1)
  {
    i := k - 1;
    if a < Pre(t, k - 1) {
      i := RowAt(t, k - 1, a);
    }
  }

  /** Adding a row placed inside a free run. */
  lemma GoodAfterAdd(t: seq<Row>, b: seq<bool>, r: Row)
    requires Good(t, b) && r.End() <= |b|
    requires forall a :: r.base <= a < r.End() ==> !b[a]
    ensures Good(t + [r], Painted(b, r.base, r.limite, true))
  {
    var t', b' := t + [r], Painted(b, r.base, r.limite, true);
    forall a | 0 <= a < |b| ensures b'[a] <==> UsedAt(t', a) {
      assert b[a] <==> UsedAt(t, a);
      if In(r, a) {
        assert In(t'[|t|], a);
      } else {
        assert forall i :: 0 <= i < |t'| && In(t'[i], a) ==> i < |t| && In(t[i], a);
        if b[a] {
          var i :| 0 <= i < |t| && In(t[i], a);
          assert In(t'[i], a);
        }
      }
    }
    forall i, j, a | 0 <= i < j < |t'| && In(t'[i], a) ensures !In(t'[j], a) {
      assert In(t[i], a) && t[i].End() <= |b|;
      assert UsedAt(t, a) && b[a];
    }
  }

  function Drop<T>(s: seq<T>, k: nat): (r: seq<T>)
    requires k < |s|
    ensures |r| == |s| - 1
    ensures forall i :: 0 <= i < |r| ==> r[i] == s[if i < k then i else i + 1]
  {
    s[..k] + s[k + 1..]
  }

  /** Removing a row and clearing exactly its bits. */
  lemma GoodAfterDrop(t: seq<Row>, b: seq<bool>, k: nat)
    requires Good(t, b) && k < |t|
    ensures Good(Drop(t, k), Painted(b, t[k].base, t[k].limite, false))
  {
    var t', b' := Drop(t, k), Painted(b, t[k].base, t[k].limite, false);
    forall a | 0 <= a < |b| ensures b'[a] <==> UsedAt(t', a) {
      assert b[a] <==> UsedAt(t, a);
      if i :| 0 <= i < |t'| && In(t'[i], a) {
        assert In(t[if i < k then i else i + 1], a);
      }
      if b'[a] {
        var i :| 0 <= i < |t| && In(t[i], a);
        assert In(t'[if i < k then i else i - 1], a);
      }
    }
    forall i, j, a | 0 <= i < j < |t'| && In(t'[i], a) ensures !In(t'[j], a) {
      assert In(t[if i < k then i else i + 1], a);
      assert !In(t[if j < k then j else j + 1], a);
    }
  }

  /** What a process can see of a segment: whose it is, its number and its bytes. */
  datatype Seg = Seg(pid: int, id: int, data: seq<byte>)

  function SegAt(r: Row, bytes: seq<byte>): Seg
    requires r.End() <= |bytes|
  {
    Seg(r.pid, r.id, bytes[r.base..r.End()])
  }

  /** The memory without its addresses: the list of segments and their contents. */
  ghost function Image(t: seq<Row>, bytes: seq<byte>): (im: seq<Seg>)
    requires InBounds(t, |bytes|)
    ensures |im| == |t|
  {
    seq(|t|, k requires 0 <= k < |t| => SegAt(t[k], bytes))
  }

  lemma ImageDrop(t: seq<Row>, bytes: seq<byte>, k: nat)
    requires InBounds(t, |bytes|) && k < |t|
    ensures InBounds(Drop(t, k), |bytes|)
    ensures Image(Drop(t, k), bytes) == Drop(Image(t, bytes), k)
  {
  }

  /** Bytes written inside one segment show up in that segment and in no other. */
  lemma ImageAfterWrite(t: seq<Row>, b: seq<bool>, bytes: seq<byte>, k: nat, off: nat, v: seq<byte>)
    requires Good(t, b) && |bytes| == |b| && k < |t| && off + |v| <= t[k].limite
    ensures var im := Image(t, bytes);
            Image(t, Splice(bytes, t[k].base + off, v)) == im[k := im[k].(data := Splice(im[k].data, off, v))]
  {
    var bytes' := Splice(bytes, t[k].base + off, v);
    forall i | 0 <= i < |t| && i != k ensures SegAt(t[i], bytes') == SegAt(t[i], bytes) {
      forall x | 0 <= x < t[i].limite
        ensures bytes'[t[i].base..t[i].End()][x] == bytes[t[i].base..t[i].End()][x]
      {
        assert In(t[i], t[i].base + x);
        assert !In(t[k], t[i].base + x);
      }
    }
    assert bytes'[t[k].base..t[k].End()] == Splice(bytes[t[k].base..t[k].End()], off, v);
  }
}
