/** The search for free runs in the memory bitmap and the three placement policies. */
module Holes {
  import opened Bitmap

  datatype Policy = First | Best | Worst

  /** A free run: `segmento` as `buscarLugarDisponibles` fills it in. */
  datatype Hole = Hole(base: nat, limite: nat) {
    function End(): nat { base + limite }
  }

  /** Listed by increasing address. */
  ghost predicate Increasing(hs: seq<Hole>) {
    forall j, k :: 0 <= j < k < |hs| ==> hs[j].base < hs[k].base
  }

  /** A run of clear bits that cannot be extended; the empty run is only allowed at the very end. */
  predicate IsRun(b: seq<bool>, h: Hole) {
    && h.End() <= |b|
    && (forall i :: h.base <= i < h.End() ==> !b[i])
    && (h.base > 0 ==> b[h.base - 1])
    && (h.End() < |b| ==> b[h.End()])
    && (h.limite == 0 ==> h.base == |b|)
  }

  /** `hs` lists, in increasing order, the runs found in the first `e` bits. */
  ghost predicate ScanTo(b: seq<bool>, hs: seq<Hole>, e: nat) {
    && e <= |b|
    && e == (if hs == [] then 0 else hs[|hs| - 1].End())
    && (forall k :: 0 <= k < |hs| ==> IsRun(b, hs[k]) && hs[k].End() <= e)
    && (forall j, k :: 0 <= j < k < |hs| ==> hs[j].End() < hs[k].base)
    && (forall i {:trigger ListedAt(hs, i)} :: 0 <= i < e && !b[i] ==> ListedAt(hs, i))
  }

  /** Address `i` lies in one of the listed runs. */
  ghost predicate ListedAt(hs: seq<Hole>, i: int) {
    exists k :: 0 <= k < |hs| && hs[k].base <= i < hs[k].End()
  }

  /** `contarEspaciosOcupadosDesde` and `contarEspaciosLibresDesde`. */
  method CountFrom(bits: array<bool>, i: nat, v: bool) returns (n: nat)
    requires i <= bits.Length
    ensures i + n <= bits.Length
    ensures forall k :: i <= k < i + n ==> bits[k] == v
    ensures i + n < bits.Length ==> bits[i + n] != v
  {
    n := 0;
    while i + n < bits.Length && bits[i + n] == v
      invariant i + n <= bits.Length
      invariant forall k :: i <= k < i + n ==> bits[k] == v
    {
      n := n + 1;
    }
  }

  /** `buscarLugarDisponibles`: skip the occupied bits, measure the free ones, advance the cursor. */
  method NextHole(bits: array<bool>, base: nat) returns (h: Hole, base': nat)
    requires base < bits.Length
    requires base > 0 ==> bits[base]
    ensures IsRun(bits[..], h)
    ensures base <= h.base && (base > 0 ==> base < h.base)
    ensures forall i :: base <= i < h.base ==> bits[i]
    ensures base < base' == h.End()
  {
    base' := base;
    if bits[base'] {
      var skipped := CountFrom(bits, base', true);
      assert skipped > 0;
      base' := base' + skipped;
    }
    var size := CountFrom(bits, base', false);
    h := Hole(base', size);
    base' := base' + size;
  }

  /** `buscarSegmentoDisponible`: the list of all free runs. */
  method ScanHoles(bits: array<bool>) returns (hs: seq<Hole>)
    ensures ScanTo(bits[..], hs, bits.Length)
  {
    hs := [];
    var base := 0;
    while base < bits.Length
      invariant ScanTo(bits[..], hs, base)
      decreases bits.Length - base
    {
      var h, base' := NextHole(bits, base);
      forall i | 0 <= i < base' && !bits[i] ensures ListedAt(hs + [h], i) {
        if i < base {
          assert ListedAt(hs, i);
          var k :| 0 <= k < |hs| && hs[k].base <= i < hs[k].End();
          assert (hs + [h])[k] == hs[k];
        } else {
          assert (hs + [h])[|hs|] == h;
        }
      }
      hs, base := hs + [h], base';
    }
  }

  function SumHoles(hs: seq<Hole>, k: nat): nat
    requires k <= |hs|
  {
    if k == 0 then 0 else SumHoles(hs, k - 1) + hs[k - 1].limite
  }

  /** Where the first `k` runs end. */
  function EndOf(hs: seq<Hole>, k: nat): nat
    requires k <= |hs|
  {
    if k == 0 then 0 else hs[k - 1].End()
  }

  /** Between two consecutive runs everything is occupied. */
  lemma OccupiedBetween(b: seq<bool>, hs: seq<Hole>, e: nat, k: nat)
    requires ScanTo(b, hs, e) && k < |hs|
    ensures EndOf(hs, k) <= hs[k].base
    ensures forall i :: EndOf(hs, k) <= i < hs[k].base ==> b[i]
  {
    forall i | EndOf(hs, k) <= i < hs[k].base ensures b[i] {
      forall j | 0 <= j < |hs| ensures !(hs[j].base <= i < hs[j].End()) {
        if j < k - 1 {
          assert hs[j].End() < hs[k - 1].base;
        }
      }
      assert !ListedAt(hs, i);
    }
  }

  /** The lengths of the first `k` runs add up to the number of clear bits before the end of the last. */
  lemma {:induction false} HolesSumUpTo(b: seq<bool>, hs: seq<Hole>, e: nat, k: nat)
    requires ScanTo(b, hs, e) && k <= |hs|
    ensures EndOf(hs, k) <= |b| && SumHoles(hs, k) == FreeUpTo(b, EndOf(hs, k))
  {
    if k > 0 {
      HolesSumUpTo(b, hs, e, k - 1);
      OccupiedBetween(b, hs, e, k - 1);
      assert IsRun(b, hs[k - 1]);
      FreeStretch(b, EndOf(hs, k - 1), hs[k - 1].base, hs[k - 1].End());
    }
  }

  /** The lengths of all listed runs add up to the total free space. */
  lemma HolesSumToFree(b: seq<bool>, hs: seq<Hole>)
    requires ScanTo(b, hs, |b|)
    ensures SumHoles(hs, |hs|) == FreeCount(b)
  {
    HolesSumUpTo(b, hs, |b|, |hs|);
  }

  /** The scan lists every run there is, and nothing else. */
  lemma RunsListed(b: seq<bool>, hs: seq<Hole>, h: Hole)
    requires |b| > 0 && ScanTo(b, hs, |b|)
    ensures IsRun(b, h) <==> h in hs
  {
    if IsRun(b, h) {
      var k: nat;
      if h.limite > 0 {
        assert ListedAt(hs, h.base);
        k :| k < |hs| && hs[k].base <= h.base < hs[k].End();
        assert h.base == hs[k].base;
        assert h.End() == hs[k].End();
      } else {
        k := |hs| - 1;
        assert b[h.base - 1];
      }
      assert hs[k] == h;
    }
  }

  /** A bitmap whose first `p` bits are the only ones set. */
  function Prefix(p: nat, n: nat): (b: seq<bool>)
    ensures |b| == n
  {
    seq(n, i => i < p)
  }

  /** When everything occupied sits at the front there is exactly one run, at the end. */
  lemma PrefixHasOneRun(p: nat, n: nat, h: Hole)
    requires p <= n && n > 0
    ensures IsRun(Prefix(p, n), h) <==> h == Hole(p, n - p)
    ensures FreeCount(Prefix(p, n)) == n - p
  {
    var b := Prefix(p, n);
    assert ScanTo(b, [Hole(p, n - p)], n);
    RunsListed(b, [Hole(p, n - p)], h);
    FreeStretch(b, 0, p, n);
  }

  ghost predicate FitsNow(b: seq<bool>, size: nat) {
    exists h :: IsRun(b, h) && h.limite >= size
  }

  /** A run is never longer than the total free space. */
  lemma FitsNowHasRoom(b: seq<bool>, size: nat)
    requires |b| > 0 && FitsNow(b, size)
    ensures size <= FreeCount(b)
  {
    var h :| IsRun(b, h) && h.limite >= size;
    FreeStretch(b, h.base, h.base, h.End());
    FreeMonotone(b, h.End(), |b|);
  }

  /** Whether a policy prefers `h` to `g`; of two equally good ones the lower address wins. */
  predicate Prefers(p: Policy, h: Hole, g: Hole) {
    match p
    case First => h.base <= g.base
    case Best => h.limite < g.limite || (h.limite == g.limite && h.base <= g.base)
    case Worst => h.limite > g.limite || (h.limite == g.limite && h.base <= g.base)
  }

  /** What the search promises: a run that is big enough, and no other such run is preferred. */
  ghost predicate Chosen(p: Policy, b: seq<bool>, size: nat, h: Hole) {
    && IsRun(b, h) && h.limite >= size
    && forall g :: IsRun(b, g) && g.limite >= size ==> Prefers(p, h, g)
  }

  /** `puedenGuardar`: the runs that are big enough, in the same order. */
  method Fitting(hs: seq<Hole>, size: nat) returns (cs: seq<Hole>)
    requires Increasing(hs)
    ensures forall h :: h in cs <==> h in hs && h.limite >= size
    ensures Increasing(cs)
  {
    cs := [];
    for i := 0 to |hs|
      invariant forall h :: h in cs <==> h in hs[..i] && h.limite >= size
      invariant Increasing(cs)
    {
      assert forall h :: h in hs[..i + 1] <==> h in hs[..i] || h == hs[i];
      if hs[i].limite >= size {
        assert forall j :: 0 <= j < |cs| ==> cs[j] in hs[..i];
        cs := cs + [hs[i]];
      }
    }
    assert hs[..|hs|] == hs;
  }

  /** `bestFit`: a run of exactly the requested size if there is one, otherwise the smallest. */
  method BestFit(cs: seq<Hole>, size: nat) returns (h: Hole)
    requires cs != [] && forall k :: 0 <= k < |cs| ==> cs[k].limite >= size
    requires Increasing(cs)
    ensures h in cs && forall g :: g in cs ==> Prefers(Best, h, g)
    ensures forall g :: g in cs ==> h.limite <= g.limite
  {
    for i := 0 to |cs|
      invariant forall k :: 0 <= k < i ==> cs[k].limite > size
    {
      if cs[i].limite == size {
        return cs[i];
      }
    }
    h := cs[0];
    for i := 1 to |cs|
      invariant h in cs && forall k :: 0 <= k < i ==> Prefers(Best, h, cs[k])
      invariant forall k :: i <= k < |cs| ==> h.base < cs[k].base
    {
      if cs[i].limite < h.limite {
        h := cs[i];
      }
    }
  }

  /** `worstFit`: the largest run. */
  method WorstFit(cs: seq<Hole>) returns (h: Hole)
    requires cs != []
    requires Increasing(cs)
    ensures h in cs && forall g :: g in cs ==> Prefers(Worst, h, g)
    ensures forall g :: g in cs ==> h.limite >= g.limite
  {
    h := cs[0];
    for i := 1 to |cs|
      invariant h in cs && forall k :: 0 <= k < i ==> Prefers(Worst, h, cs[k])
      invariant forall k :: i <= k < |cs| ==> h.base < cs[k].base
    {
      if cs[i].limite > h.limite {
        h := cs[i];
      }
    }
  }

  /** `elegirSegunCriterio`. */
  method Elect(p: Policy, cs: seq<Hole>, size: nat) returns (h: Hole)
    requires cs != [] && forall k :: 0 <= k < |cs| ==> cs[k].limite >= size
    requires Increasing(cs)
    ensures h in cs && forall g :: g in cs ==> Prefers(p, h, g)
    ensures forall g :: g in cs ==> match p
              case First => h.base <= g.base
              case Best => h.limite <= g.limite
              case Worst => h.limite >= g.limite
  {
    match p {
      case First => h := cs[0];
      case Best => h := BestFit(cs, size);
      case Worst => h := WorstFit(cs);
    }
  }
}
