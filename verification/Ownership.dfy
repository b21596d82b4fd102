/** How block ownership and contents change when a file gains or loses a block. */
module Ownership {
  import opened Bytes
  import opened Blocks
  import opened Geometry

  /** Slots after growing: the old ones stay where they were, the additional ones are on the blocks of `news`. */
  ghost predicate GrownSlots(fs: Fs, fs': Fs, bs: nat, name: string, news: map<nat, Slot>) {
    && name in fs.files && fs'.files.Keys == fs.files.Keys
    && (forall m, s {:trigger BlockAt(fs'.disk, fs'.files[m], s)} :: Owns(fs, bs, m, s) ==>
          Owns(fs', bs, m, s) && BlockAt(fs'.disk, fs'.files[m], s) == BlockAt(fs.disk, fs.files[m], s))
    && (forall s {:trigger Owns(fs', bs, name, s)} :: Owns(fs', bs, name, s) && !Owns(fs, bs, name, s) ==>
          var b := BlockAt(fs'.disk, fs'.files[name], s); b in news && news[b] == s)
    && (forall m, s {:trigger Owns(fs', bs, m, s)} :: Owns(fs', bs, m, s) && m != name ==> Owns(fs, bs, m, s))
  }

  /** The owner map after growing: `news` are blocks nobody owned. */
  ghost predicate GrownOwner(fs: Fs, fs': Fs, bs: nat, name: string, news: map<nat, Slot>) {
    && fs'.owner.Keys == fs.owner.Keys + news.Keys
    && (forall b {:trigger fs'.owner[b]} :: b in fs'.owner ==>
          fs'.owner[b] == if b in news then (name, news[b]) else fs.owner[b])
    && (forall b {:trigger news[b]} :: b in news ==> b !in fs.owner && Uses(fs', bs, name, news[b], b))
  }

  /** File `name` gains the slots `news`, on blocks that were free. */
  ghost predicate Grown(fs: Fs, fs': Fs, bs: nat, name: string, news: map<nat, Slot>) {
    && bs > 0 && |fs'.disk| == |fs.disk| && Shaped(fs'.disk, bs) && SizesOk(fs'.files, bs)
    && GrownSlots(fs, fs', bs, name, news) && GrownOwner(fs, fs', bs, name, news)
  }

  lemma GrownLayout(fs: Fs, fs': Fs, bs: nat, name: string, news: map<nat, Slot>)
    requires Layout(fs, bs) && Grown(fs, fs', bs, name, news)
    ensures Layout(fs', bs)
  {
    forall b | b in news ensures b !in fs.owner {
      var slot := news[b];
    }
    forall m, s | Owns(fs', bs, m, s)
      ensures var b := BlockAt(fs'.disk, fs'.files[m], s); b in fs'.owner && fs'.owner[b] == (m, s)
    {
      if Owns(fs, bs, m, s) {
        var b := BlockAt(fs.disk, fs.files[m], s);
        assert fs.owner[b] == (m, s);
      }
    }
    forall b | b in fs'.owner ensures Uses(fs', bs, fs'.owner[b].0, fs'.owner[b].1, b) {
      if b in news {
        assert Uses(fs', bs, name, news[b], b);
      } else {
        assert Uses(fs, bs, fs.owner[b].0, fs.owner[b].1, b);
        assert BlockAt(fs'.disk, fs'.files[fs.owner[b].0], fs.owner[b].1) == b;
      }
    }
  }

  /** File `name` keeps its pointers but now has fewer slots; the blocks of the lost ones are released. */
  ghost predicate Shrunk(fs: Fs, fs': Fs, bs: nat, name: string, gone: set<nat>) {
    && bs > 0 && name in fs.files && name in fs'.files && fs'.disk == fs.disk && SizesOk(fs'.files, bs)
    && fs'.files == fs.files[name := fs.files[name].(size := fs'.files[name].size)]
    && (forall s {:trigger Has(Count(fs'.files[name], bs), s)} ::
          Has(Count(fs'.files[name], bs), s) ==> Has(Count(fs.files[name], bs), s))
    && fs'.owner == fs.owner - gone
    && (forall b {:trigger fs.owner[b]} :: b in fs.owner ==>
          (b in gone <==> fs.owner[b].0 == name && !Has(Count(fs'.files[name], bs), fs.owner[b].1)))
  }

  lemma ShrunkLayout(fs: Fs, fs': Fs, bs: nat, name: string, gone: set<nat>)
    requires Layout(fs, bs) && name in fs'.files && Shrunk(fs, fs', bs, name, gone)
    ensures Layout(fs', bs)
  {
    forall m, s | Owns(fs', bs, m, s)
      ensures var b := BlockAt(fs'.disk, fs'.files[m], s); b in fs'.owner && fs'.owner[b] == (m, s)
    {
      assert Owns(fs, bs, m, s);
      var b := BlockAt(fs.disk, fs.files[m], s);
      assert BlockAt(fs'.disk, fs'.files[m], s) == b;
      assert fs.owner[b] == (m, s);
    }
    forall b | b in fs'.owner ensures Uses(fs', bs, fs'.owner[b].0, fs'.owner[b].1, b) {
      assert Uses(fs, bs, fs.owner[b].0, fs.owner[b].1, b);
    }
  }

  // ----- pointer words -----

  /** The pointer block with word `j` replaced. */
  function PutEntry(d: Disk, p: nat, j: nat, w: nat): (d': Disk)
    requires p < |d| && 4 * j + 4 <= |d[p]| && w < WORD_LIMIT
    ensures |d'| == |d|
  {
    d[p := Splice(d[p], 4 * j, Word(w))]
  }

  lemma EntryAfterPut(d: Disk, p: nat, j: nat, w: nat, i: nat)
    requires p < |d| && 4 * j + 4 <= |d[p]| && w < WORD_LIMIT
    ensures Entry(PutEntry(d, p, j, w), p, i) == if i == j then w else Entry(d, p, i)
  {
    var x := Splice(d[p], 4 * j, Word(w));
    if i == j {
      assert x[4 * j..4 * j + 4] == Word(w);
      WordRoundTrip(w, Word(w));
    } else if 4 * i + 4 <= |x| {
      assert x[4 * i..4 * i + 4] == d[p][4 * i..4 * i + 4];
    }
  }

  // ----- contents -----

  /** If the first `m` data slots name the same unchanged blocks, the first `m` blocks of contents are the same. */
  lemma PrefixKept(fs: Fs, fs': Fs, bs: nat, name: string, m: nat)
    requires Layout(fs, bs) && Layout(fs', bs) && name in fs.files && name in fs'.files
    requires m <= Count(fs.files[name], bs) && m <= Count(fs'.files[name], bs)
    requires forall k {:trigger BlockAt(fs'.disk, fs'.files[name], Data(k))} :: 0 <= k < m ==>
               BlockAt(fs'.disk, fs'.files[name], Data(k)) == BlockAt(fs.disk, fs.files[name], Data(k))
    requires forall k {:trigger BlockAt(fs.disk, fs.files[name], Data(k))} :: 0 <= k < m ==>
               var b := BlockAt(fs.disk, fs.files[name], Data(k));
                   b < |fs.disk| && b < |fs'.disk| && fs'.disk[b] == fs.disk[b]
    ensures Offset(m, bs) <= |FileBytes(fs, bs, name)| && Offset(m, bs) <= |FileBytes(fs', bs, name)|
    ensures FileBytes(fs', bs, name)[..Offset(m, bs)] == FileBytes(fs, bs, name)[..Offset(m, bs)]
  {
    var ps, qs := PtrsOf(fs, bs, name), PtrsOf(fs', bs, name);
    forall k | 0 <= k < m
          ensures ps[k] == qs[k] && ps[k] < |fs.disk| && ps[k] < |fs'.disk| && fs.disk[ps[k]] == fs'.disk[ps[k]] {
      assert qs[k] == BlockAt(fs'.disk, fs'.files[name], Data(k));
      assert ps[k] == BlockAt(fs.disk, fs.files[name], Data(k));
    }
    CatSame(fs.disk, fs'.disk, ps, qs, m);
    FilePtrs(fs, bs, name);
    CatLength(fs.disk, ps, m, bs);
    CatPrefix(fs.disk, ps, m, |ps|);
    CatPrefix(fs'.disk, qs, m, |qs|);
  }

  /** What both directions of truncation promise: the common prefix, the surviving slots and every other file. */
  ghost predicate Truncated(fs: Fs, fs': Fs, bs: nat, name: string, m: nat) {
    && bs > 0 && name in fs.files && name in fs'.files
    && OthersUntouched(fs, fs', bs, name)
    && (forall s {:trigger BlockAt(fs'.disk, fs'.files[name], s)} :: Has(m, s) ==>
          BlockAt(fs'.disk, fs'.files[name], s) == BlockAt(fs.disk, fs.files[name], s))
    && Offset(m, bs) <= |FileBytes(fs, bs, name)| && Offset(m, bs) <= |FileBytes(fs', bs, name)|
    && FileBytes(fs', bs, name)[..Offset(m, bs)] == FileBytes(fs, bs, name)[..Offset(m, bs)]
  }

  lemma TruncatedTransitive(fs: Fs, fs1: Fs, fs2: Fs, bs: nat, name: string, m1: nat, m2: nat, m: nat)
    requires Truncated(fs, fs1, bs, name, m1) && Truncated(fs1, fs2, bs, name, m2) && m <= m1 && m <= m2
    ensures Truncated(fs, fs2, bs, name, m)
  {
    OffsetMonotone(m, m1, bs);
    OffsetMonotone(m, m2, bs);
    PrefixTransitive(FileBytes(fs, bs, name), FileBytes(fs1, bs, name), FileBytes(fs2, bs, name),
                     Offset(m1, bs), Offset(m2, bs), Offset(m, bs));
    forall s | Has(m, s) ensures BlockAt(fs2.disk, fs2.files[name], s) == BlockAt(fs.disk, fs.files[name], s) {
      assert Has(m1, s) && Has(m2, s);
      assert BlockAt(fs2.disk, fs2.files[name], s) == BlockAt(fs1.disk, fs1.files[name], s);
      assert BlockAt(fs1.disk, fs1.files[name], s) == BlockAt(fs.disk, fs.files[name], s);
    }
    OthersTransitive(fs, fs1, fs2, bs, name);
  }

  lemma PrefixTransitive(a: seq<byte>, b: seq<byte>, c: seq<byte>, i: nat, j: nat, k: nat)
    requires k <= i <= |a| && i <= |b| && k <= j <= |b| && j <= |c|
    requires b[..i] == a[..i] && c[..j] == b[..j]
    ensures c[..k] == a[..k]
  {
    assert c[..k] == c[..j][..k] && b[..k] == b[..j][..k] == b[..i][..k] && a[..k] == a[..i][..k];
  }

  lemma OthersTransitive(fs: Fs, fs1: Fs, fs2: Fs, bs: nat, name: string)
    requires OthersUntouched(fs, fs1, bs, name) && OthersUntouched(fs1, fs2, bs, name)
    ensures OthersUntouched(fs, fs2, bs, name)
  {
    forall f | f in fs.files && f != name ensures Untouched(fs, fs2, bs, f) {
      assert Untouched(fs, fs1, bs, f) && Untouched(fs1, fs2, bs, f);
      UntouchedTransitive(fs, fs1, fs2, bs, f);
    }
  }

  lemma UntouchedTransitive(fs: Fs, fs1: Fs, fs2: Fs, bs: nat, m: string)
    requires Untouched(fs, fs1, bs, m) && Untouched(fs1, fs2, bs, m)
    ensures Untouched(fs, fs2, bs, m)
  {
    forall s | Has(Count(fs.files[m], bs), s)
      ensures BlockAt(fs2.disk, fs2.files[m], s) == BlockAt(fs.disk, fs.files[m], s)
    {
      assert BlockAt(fs2.disk, fs2.files[m], s) == BlockAt(fs1.disk, fs1.files[m], s);
      assert BlockAt(fs1.disk, fs1.files[m], s) == BlockAt(fs.disk, fs.files[m], s);
    }
  }

  /** Two states in which every file has the same slots on the same blocks have the same bitmap. */
  lemma SlotsGiveBits(fs: Fs, fs': Fs, bs: nat)
    requires Inv(fs, bs) && Inv(fs', bs) && |fs.disk| == |fs'.disk|
    requires forall m, s :: Owns(fs, bs, m, s) <==> Owns(fs', bs, m, s)
    requires forall m, s {:trigger BlockAt(fs'.disk, fs'.files[m], s)} {:trigger BlockAt(fs.disk, fs.files[m], s)} ::
               Owns(fs, bs, m, s) && Owns(fs', bs, m, s) ==>
                     BlockAt(fs'.disk, fs'.files[m], s) == BlockAt(fs.disk, fs.files[m], s)
    ensures fs.bits == fs'.bits
  {
    forall b | 0 <= b < |fs.bits| ensures fs.bits[b] == fs'.bits[b] {
      if fs.bits[b] {
        assert Uses(fs, bs, fs.owner[b].0, fs.owner[b].1, b);
      }
      if fs'.bits[b] {
        assert Uses(fs', bs, fs'.owner[b].0, fs'.owner[b].1, b);
      }
    }
  }
}
