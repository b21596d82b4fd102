/** The bit arrays of the memory and filesystem modules: range updates and free counts. */
module Bitmap {

  /** `b` with the half-open range [base, base + limite) set to `v`. */
  function Painted(b: seq<bool>, base: nat, limite: nat, v: bool): (r: seq<bool>)
    ensures |r| == |b|
    ensures forall i :: 0 <= i < |b| ==> r[i] == if base <= i < base + limite then v else b[i]
  {
    seq(|b|, i requires 0 <= i < |b| => if base <= i < base + limite then v else b[i])
  }

  /** The loops that set (`ocuparBitMap`) and clear (`liberarBitMap`) a range of bits. */
  method Paint(bits: array<bool>, base: nat, limite: nat, v: bool)
    requires base + limite <= bits.Length
    modifies bits
    ensures bits[..] == Painted(old(bits[..]), base, limite, v)
  {
    for i := base to base + limite
      invariant bits[..] == Painted(old(bits[..]), base, i - base, v)
    {
      bits[i] := v;
    }
  }

  /** Number of clear bits among the first `k`. */
  function FreeUpTo(b: seq<bool>, k: nat): (n: nat)
    requires k <= |b|
    ensures n <= k
  {
    if k == 0 then 0 else FreeUpTo(b, k - 1) + (if b[k - 1] then 0 else 1)
  }

  /** Number of clear bits. */
  function FreeCount(b: seq<bool>): (n: nat)
    ensures n <= |b|
  {
    FreeUpTo(b, |b|)
  }

  /** Counting the clear bits one by one (`tamanioTotalDispo`). */
  method CountFree(bits: array<bool>) returns (n: nat)
    ensures n == FreeCount(bits[..])
  {
    n := 0;
    for i := 0 to bits.Length
      invariant n == FreeUpTo(bits[..], i)
    {
      if !bits[i] {
        n := n + 1;
      }
    }
  }

  /** A stretch of set bits followed by a stretch of clear ones adds the length of the second. */
  lemma {:induction false} FreeStretch(b: seq<bool>, lo: nat, mid: nat, hi: nat)
    requires lo <= mid <= hi <= |b|
    requires forall i :: lo <= i < mid ==> b[i]
    requires forall i :: mid <= i < hi ==> !b[i]
    ensures FreeUpTo(b, hi) == FreeUpTo(b, lo) + hi - mid
    decreases hi
  {
    if lo < hi {
      FreeStretch(b, lo, if mid < hi then mid else hi - 1, hi - 1);
    }
  }

  lemma {:induction false} FreeMonotone(b: seq<bool>, j: nat, k: nat)
    requires j <= k <= |b|
    ensures FreeUpTo(b, j) <= FreeUpTo(b, k)
  {
    if j < k {
      FreeMonotone(b, j, k - 1);
    }
  }

  /** Where two bitmaps agree they have the same number of clear bits. */
  lemma {:induction false} FreeSame(b: seq<bool>, c: seq<bool>, lo: nat, hi: nat)
    requires lo <= hi <= |b| && hi <= |c|
    requires forall i :: lo <= i < hi ==> b[i] == c[i]
    ensures FreeUpTo(b, hi) - FreeUpTo(b, lo) == FreeUpTo(c, hi) - FreeUpTo(c, lo)
    decreases hi
  {
    if lo < hi {
      FreeSame(b, c, lo, hi - 1);
    }
  }

  /** Setting a free range takes exactly its length from the free space. */
  lemma PaintTakes(b: seq<bool>, base: nat, limite: nat)
    requires base + limite <= |b|
    requires forall i :: base <= i < base + limite ==> !b[i]
    ensures FreeCount(Painted(b, base, limite, true)) == FreeCount(b) - limite
  {
    var c := Painted(b, base, limite, true);
    FreeSame(b, c, 0, base);
    FreeStretch(b, base, base, base + limite);
    FreeStretch(c, base, base + limite, base + limite);
    FreeSame(b, c, base + limite, |b|);
  }

  /** One clear bit set. */
  lemma SetOne(b: seq<bool>, i: nat)
    requires i < |b| && !b[i]
    ensures FreeCount(b[i := true]) == FreeCount(b) - 1
  {
    PaintTakes(b, i, 1);
    assert b[i := true] == Painted(b, i, 1, true);
  }

  /** One set bit cleared. */
  lemma ClearOne(b: seq<bool>, i: nat)
    requires i < |b| && b[i]
    ensures FreeCount(b[i := false]) == FreeCount(b) + 1
  {
    SetOne(b[i := false], i);
    assert b[i := false][i := true] == b;
  }
}
