/** `truncar_archivo` as it stands in the source, and exactly when block ownership survives it. */
module TruncationAsWritten {
  import opened Bytes
  import opened Bitmap
  import opened Geometry
  import opened Blocks
  import opened Ownership
  import opened FileSystemModule

  /** The bits set and the control blocks stored are those of files that share no block: some owner map explains
      them. */
  ghost predicate Ownable(fs: Fs, bs: nat) {
    exists owner: map<nat, (string, Slot)> :: Explains(fs, bs, owner)
  }

  ghost predicate Explains(fs: Fs, bs: nat, owner: map<nat, (string, Slot)>) {
    Blocks.Inv(fs.(owner := owner), bs)
  }

  ghost predicate Apart(qs: seq<nat>) {
    forall i, j :: 0 <= i < j < |qs| ==> qs[i] != qs[j]
  }

  /** Different numbers, all in a list, are no more than its length. */
  lemma {:induction false} Pigeonhole(qs: seq<nat>, ps: seq<nat>)
    requires Apart(qs) && forall i :: 0 <= i < |qs| ==> qs[i] in ps
    ensures |qs| <= |ps|
  {
    if qs != [] {
      var q := qs[|qs| - 1];
      var k :| 0 <= k < |ps| && ps[k] == q;
      var rest := ps[..k] + ps[k + 1..];
      forall i | 0 <= i < |qs| - 1 ensures qs[i] in rest {
        var j :| 0 <= j < |ps| && ps[j] == qs[i];
        assert rest[if j < k then j else j - 1] == qs[i];
      }
      Pigeonhole(qs[..|qs| - 1], rest);
    }
  }

  // ----- growing -----

  /** Words `j0`, `j0` + 1, ... of the pointer block replaced by the first `k` block numbers. */
  function PutEntries(d: Disk, p: nat, j0: nat, got: seq<nat>, k: nat): (r: Disk)
    requires k <= |got| && p < |d| && 4 * (j0 + k) <= |d[p]| && forall i :: 0 <= i < k ==> got[i] < WORD_LIMIT
    ensures |r| == |d| && |r[p]| == |d[p]| && forall b :: 0 <= b < |d| && b != p ==> r[b] == d[b]
  {
    if k == 0 then d else PutEntry(PutEntries(d, p, j0, got, k - 1), p, j0 + k - 1, got[k - 1])
  }

  lemma {:induction false} EntryAfterPuts(d: Disk, p: nat, j0: nat, got: seq<nat>, k: nat, i: nat)
    requires k <= |got| && p < |d| && 4 * (j0 + k) <= |d[p]| && forall i :: 0 <= i < k ==> got[i] < WORD_LIMIT
    ensures Entry(PutEntries(d, p, j0, got, k), p, i) == if j0 <= i < j0 + k then got[i - j0] else Entry(d, p, i)
  {
    if k > 0 {
      EntryAfterPuts(d, p, j0, got, k - 1, i);
      EntryAfterPut(PutEntries(d, p, j0, got, k - 1), p, j0 + k - 1, got[k - 1], i);
    }
  }

  /** The control block after one turn of the growing loop, which looks at the number of blocks from before the loop. */
  function Pointed(f: Fcb, n0: nat, b: nat): Fcb {
    if n0 == 0 then f.(direct := b) else if n0 == 1 then f.(indirect := b) else f
  }

  /** Blocks that can be given to a file: different ones, none of them in use. */
  ghost predicate Fresh(fs: Fs, got: seq<nat>) {
    Apart(got) && |fs.bits| == |fs.disk| && forall i :: 0 <= i < |got| ==> got[i] < |fs.bits| && !fs.bits[got[i]]
  }

  /** A file and the blocks it is to grow by, from two blocks on within what the loop's offset leaves of its pointer
      block. */
  ghost predicate CanTake(fs: Fs, bs: nat, name: string, got: seq<nat>) {
    && bs >= 4 && |fs.disk| < WORD_LIMIT && name in fs.files && Fresh(fs, got)
    && var n0 := Count(fs.files[name], bs);
       n0 + |got| <= 1 + bs / 4
       && (n0 >= 2 ==> fs.files[name].indirect < |fs.disk| && 4 * (n0 + |got|) <= |fs.disk[fs.files[name].indirect]|)
  }

  /** The state after the loop: the file has been given the blocks `got`. */
  ghost predicate GrownAsWritten(fs: Fs, g: Fs, bs: nat, name: string, got: seq<nat>) {
    && CanTake(fs, bs, name, got) && got != []
    && var f, n0, m := fs.files[name], Count(fs.files[name], bs), |got|;
       && g.files == fs.files[name := Pointed(f, n0, got[m - 1]).(size := Offset(n0 + m, bs))]
       && g.disk == (if n0 < 2 then fs.disk else PutEntries(fs.disk, f.indirect, n0, got, m))
       && |g.bits| == |fs.bits|
       && forall b {:trigger g.bits[b]} :: 0 <= b < |g.bits| ==> (g.bits[b] <==> fs.bits[b] || b in got)
  }

  /** The other files do not notice. */
  lemma OthersLeft(fs: Fs, g: Fs, bs: nat, name: string, got: seq<nat>)
    requires Blocks.Inv(fs, bs) && GrownAsWritten(fs, g, bs, name, got)
    ensures OthersUntouched(fs, g, bs, name)
  {
    var f, n0 := fs.files[name], Count(fs.files[name], bs);
    if n0 >= 2 { SlotOwner(fs, bs, name, Pointer); }
    forall m | m in fs.files && m != name ensures Untouched(fs, g, bs, m) {
      if n0 >= 2 {
        assert g.disk == fs.disk[f.indirect := g.disk[f.indirect]];
        ForeignBlock(fs, bs, m, f.indirect, g.disk[f.indirect]);
      }
    }
  }

  /** A slot of a file whose pointer block has `got` in its words from `n0` on. */
  lemma SlotIn(d: Disk, e: Disk, f: Fcb, f': Fcb, n0: nat, got: seq<nat>, s: Slot, at: nat, was: nat)
    requires n0 >= 2 && f'.direct == f.direct && f'.indirect == f.indirect
    requires at == BlockAt(e, f', s) && was == BlockAt(d, f, s)
    requires s.Data? && s.k > 0 ==> at == if n0 < s.k <= n0 + |got| then got[s.k - 1 - n0] else was
    ensures Has(n0, s) ==> at == was
    ensures s == Data(n0) ==> at == was
    ensures s.Data? && n0 < s.k < n0 + |got| ==> at == got[s.k - n0 - 1]
  {
    if s.Data? && s.k > 0 {
    } else if s.Data? {
      assert at == f.direct && was == f.direct;
    } else {
      assert at == f.indirect && was == f.indirect;
    }
  }

  lemma EntryLater(d: Disk, e: Disk, f: Fcb, f': Fcb, n0: nat, got: seq<nat>, k: nat)
    requires f.indirect < |d| && 4 * (n0 + |got|) <= |d[f.indirect]| && forall i ::
               0 <= i < |got| ==> got[i] < WORD_LIMIT
    requires e == PutEntries(d, f.indirect, n0, got, |got|) && f'.indirect == f.indirect && k > 0
    ensures BlockAt(e, f', Data(k)) == if n0 < k <= n0 + |got| then got[k - 1 - n0] else BlockAt(d, f, Data(k))
  {
    var j := k - 1;
    EntryAfterPuts(d, f.indirect, n0, got, |got|, j);
  }

  /** Where the slots of the grown file are: those it had stay, and from two blocks on the first additional block is
      named by the word behind the last one, which nobody wrote, and every other by the word meant for the block before
      it. */
  lemma SlotsAsWritten(fs: Fs, g: Fs, bs: nat, name: string, got: seq<nat>, f: Fcb, n0: nat, s: Slot)
    requires GrownAsWritten(fs, g, bs, name, got) && f == fs.files[name] && n0 == Count(f, bs) >= 2
    ensures Has(n0, s) ==> BlockAt(g.disk, g.files[name], s) == BlockAt(fs.disk, f, s)
    ensures s == Data(n0) ==> BlockAt(g.disk, g.files[name], s) == Entry(fs.disk, f.indirect, n0 - 1)
    ensures s.Data? && n0 < s.k < n0 + |got| ==> BlockAt(g.disk, g.files[name], s) == got[s.k - n0 - 1]
  {
    if s.Data? && s.k > 0 {
      EntryLater(fs.disk, g.disk, f, g.files[name], n0, got, s.k);
    }
    SlotIn(fs.disk, g.disk, f, g.files[name], n0, got, s, BlockAt(g.disk, g.files[name], s), BlockAt(fs.disk, f, s));
  }

  lemma CountAfter(fs: Fs, g: Fs, bs: nat, name: string, got: seq<nat>)
    requires GrownAsWritten(fs, g, bs, name, got)
    ensures Count(g.files[name], bs) == Count(fs.files[name], bs) + |got|
  {
    QuotUnique(Offset(Count(fs.files[name], bs) + |got|, bs), Count(fs.files[name], bs) + |got|, bs);
  }

  /** If some owner map explains the grown state, every slot of the grown file is on a block it was given or already
      had. */
  lemma SlotAmong(fs: Fs, g: Fs, bs: nat, name: string, got: seq<nat>, owner: map<nat, (string, Slot)>, s: Slot)
    requires Blocks.Inv(fs, bs) && GrownAsWritten(fs, g, bs, name, got) && Explains(g, bs, owner)
    requires Has(Count(g.files[name], bs), s)
    ensures var b := BlockAt(g.disk, g.files[name], s);
            b in owner && owner[b] == (name, s) && (b in got || (b in fs.owner && fs.owner[b].0 == name))
  {
    var h := g.(owner := owner);
    SlotOwner(h, bs, name, s);
    var b := BlockAt(g.disk, g.files[name], s);
    assert h.bits[b];
    if b !in got {
      assert fs.bits[b];
      var (m, t) := fs.owner[b];
      assert Uses(fs, bs, m, t, b);
      if m != name {
        OthersLeft(fs, g, bs, name, got);
        assert Untouched(fs, g, bs, m);
        SlotOwner(h, bs, m, t);
      }
    }
  }

  /** The first block of a file without blocks. */
  lemma FirstBlock(fs: Fs, g: Fs, bs: nat, name: string, got: seq<nat>)
    requires Blocks.Inv(fs, bs) && GrownAsWritten(fs, g, bs, name, got) && Count(fs.files[name], bs) == 0 && |got| == 1
    ensures Ownable(g, bs)
  {
    var b, f := got[0], fs.files[name];
    var owner := fs.owner[b := (name, Data(0))];
    assert g.bits == fs.bits[b := true];
    assert Pointed(f, 0, b).(size := Offset(1, bs)) == Fcb(Offset(1, bs), b, f.indirect);
    GrowCorrect(fs, g.(owner := owner), bs, name, 0, b, f.indirect);
    assert Explains(g, bs, owner);
  }

  /** A pointer block and additional data blocks, all different and one more than were given, were not all given. */
  lemma TooMany(ps: seq<nat>, p: nat, n0: nat, got: seq<nat>, name: string, owner: map<nat, (string, Slot)>)
    requires |ps| == n0 + |got| && p in owner && owner[p] == (name, Pointer)
    requires forall k {:trigger ps[k]} :: 0 <= k < |ps| ==> ps[k] in owner && owner[ps[k]] == (name, Data(k))
    ensures p in got ==> exists k :: n0 <= k < |ps| && ps[k] !in got
  {
    var qs := [p] + ps[n0..];
    assert forall i :: 0 < i < |qs| ==> qs[i] == ps[n0 + i - 1];
    if forall i :: 0 <= i < |qs| ==> qs[i] in got {
      Pigeonhole(qs, got);
    }
  }

  /** No owner map explains a file that had fewer than two blocks and got its second one. */
  lemma NeedsMore(fs: Fs, g: Fs, bs: nat, name: string, got: seq<nat>, n0: nat, owner: map<nat, (string, Slot)>)
    requires Blocks.Inv(fs, bs) && GrownAsWritten(fs, g, bs, name, got)
             && n0 == Count(fs.files[name], bs) < 2 <= n0 + |got|
    ensures !Explains(g, bs, owner)
  {
    if Explains(g, bs, owner) {
      CountAfter(fs, g, bs, name, got);
      var ps := PtrsOf(g, bs, name);
      forall k | 0 <= k < |ps| ensures ps[k] in owner && owner[ps[k]] == (name, Data(k)) && (k >= n0 ==> ps[k] in got) {
        NeededInGot(fs, g, bs, name, got, n0, owner, Data(k));
      }
      NeededInGot(fs, g, bs, name, got, n0, owner, Pointer);
      TooMany(ps, g.files[name].indirect, n0, got, name, owner);
    }
  }

  lemma NeededInGot(fs: Fs, g: Fs, bs: nat, name: string, got: seq<nat>, n0: nat, owner: map<nat, (string, Slot)>,
                    s: Slot)
    requires Blocks.Inv(fs, bs) && GrownAsWritten(fs, g, bs, name, got)
             && n0 == Count(fs.files[name], bs) < 2 <= n0 + |got|
    requires Explains(g, bs, owner) && Count(g.files[name], bs) == n0 + |got| && Has(n0 + |got|, s)
    ensures var b := BlockAt(g.disk, g.files[name], s);
            b in owner && owner[b] == (name, s) && (s.Pointer? || s.k >= n0 ==> b in got)
  {
    SlotAmong(fs, g, bs, name, got, owner, s);
    var b := BlockAt(g.disk, g.files[name], s);
    if b !in got {
      OwnedSlots(fs, bs, name, b);
      SlotOwner(fs, bs, name, Data(0));
      SlotAmong(fs, g, bs, name, got, owner, Data(0));
    }
  }

  // ----- a file that already has its pointer block -----

  /** Somebody is recorded for the last block given; nobody can be but the word nobody wrote. */
  lemma LastIsStale(fs: Fs, g: Fs, bs: nat, name: string, got: seq<nat>, f: Fcb, n0: nat,
                    owner: map<nat, (string, Slot)>)
    requires Blocks.Inv(fs, bs) && GrownAsWritten(fs, g, bs, name, got) && f == fs.files[name]
             && n0 == Count(f, bs) >= 2
    requires Explains(g, bs, owner)
    ensures Entry(fs.disk, f.indirect, n0 - 1) == got[|got| - 1]
  {
    var b, h := got[|got| - 1], g.(owner := owner);
    assert g.bits[b] && b in owner;
    var (m, s) := owner[b];
    assert Uses(h, bs, m, s, b);
    OthersLeft(fs, g, bs, name, got);
    if m != name {
      assert Untouched(fs, g, bs, m);
      SlotOwner(fs, bs, m, s);
    } else {
      CountAfter(fs, g, bs, name, got);
      SlotsAsWritten(fs, g, bs, name, got, f, n0, s);
      if Has(n0, s) { SlotOwner(fs, bs, name, s); }
    }
  }

  /** Where the blocks given go when the stale word names the last of them. */
  function SlotOf(got: seq<nat>, n0: nat, b: nat): Slot
    requires b in got
  {
    var j := Position(got, b);
    Data(if j == |got| - 1 then n0 else n0 + 1 + j)
  }

  function Position(got: seq<nat>, b: nat): (j: nat)
    requires b in got
    ensures j < |got| && got[j] == b
  {
    if got[0] == b then 0 else 1 + Position(got[1..], b)
  }

  function Given(got: seq<nat>, n0: nat): (news: map<nat, Slot>) {
    map b | b in got :: SlotOf(got, n0, b)
  }

  lemma StaleSlots(fs: Fs, g: Fs, bs: nat, name: string, got: seq<nat>, f: Fcb, n0: nat)
    requires Blocks.Inv(fs, bs) && GrownAsWritten(fs, g, bs, name, got) && f == fs.files[name]
             && n0 == Count(f, bs) >= 2
    requires Entry(fs.disk, f.indirect, n0 - 1) == got[|got| - 1]
    ensures GrownSlots(fs, g, bs, name, Given(got, n0))
  {
    CountAfter(fs, g, bs, name, got);
    OthersLeft(fs, g, bs, name, got);
    forall m, s | Owns(fs, bs, m, s)
      ensures Owns(g, bs, m, s) && BlockAt(g.disk, g.files[m], s) == BlockAt(fs.disk, fs.files[m], s)
    {
      if m == name { SlotsAsWritten(fs, g, bs, name, got, f, n0, s); } else { assert Untouched(fs, g, bs, m); }
    }
    forall s | Owns(g, bs, name, s) && !Owns(fs, bs, name, s)
      ensures var b := BlockAt(g.disk, g.files[name], s); b in Given(got, n0) && Given(got, n0)[b] == s
    {
      SlotsAsWritten(fs, g, bs, name, got, f, n0, s);
    }
  }

  /** The owner map that explains it. */
  function WithGiven(owner: map<nat, (string, Slot)>, name: string, news: map<nat, Slot>): map<nat, (string, Slot)> {
    owner + map b | b in news :: (name, news[b])
  }

  lemma StaleUse(fs: Fs, g: Fs, bs: nat, name: string, got: seq<nat>, f: Fcb, n0: nat, b: nat)
    requires Blocks.Inv(fs, bs) && GrownAsWritten(fs, g, bs, name, got) && f == fs.files[name]
             && n0 == Count(f, bs) >= 2
    requires Entry(fs.disk, f.indirect, n0 - 1) == got[|got| - 1] && b in got
    ensures b !in fs.owner && Uses(g, bs, name, SlotOf(got, n0, b), b)
  {
    CountAfter(fs, g, bs, name, got);
    SlotsAsWritten(fs, g, bs, name, got, f, n0, SlotOf(got, n0, b));
  }

  lemma StaleOwner(fs: Fs, g: Fs, bs: nat, name: string, got: seq<nat>, f: Fcb, n0: nat, news: map<nat, Slot>)
    requires Blocks.Inv(fs, bs) && GrownAsWritten(fs, g, bs, name, got) && f == fs.files[name]
             && n0 == Count(f, bs) >= 2
    requires Entry(fs.disk, f.indirect, n0 - 1) == got[|got| - 1] && news == Given(got, n0)
             && g.owner == WithGiven(fs.owner, name, news)
    ensures GrownOwner(fs, g, bs, name, news)
  {
    forall b | b in news ensures b !in fs.owner && Uses(g, bs, name, news[b], b) {
      StaleUse(fs, g, bs, name, got, f, n0, b);
    }
  }

  lemma StillShaped(fs: Fs, g: Fs, bs: nat, name: string, got: seq<nat>)
    requires Blocks.Inv(fs, bs) && GrownAsWritten(fs, g, bs, name, got)
    ensures |g.disk| == |fs.disk| && Shaped(g.disk, bs) && SizesOk(g.files, bs)
  {
    CountAfter(fs, g, bs, name, got);
  }

  /** If the stale word names the last block given, the file owns all it was given, in another order. */
  lemma StaleServes(fs: Fs, g: Fs, bs: nat, name: string, got: seq<nat>, f: Fcb, n0: nat, news: map<nat, Slot>)
    requires Blocks.Inv(fs, bs) && GrownAsWritten(fs, g, bs, name, got) && f == fs.files[name]
             && n0 == Count(f, bs) >= 2
    requires Entry(fs.disk, f.indirect, n0 - 1) == got[|got| - 1] && news == Given(got, n0)
             && g.owner == WithGiven(fs.owner, name, news)
    ensures Blocks.Inv(g, bs)
  {
    StillShaped(fs, g, bs, name, got);
    StaleSlots(fs, g, bs, name, got, f, n0);
    StaleOwner(fs, g, bs, name, got, f, n0, news);
    GrownLayout(fs, g, bs, name, news);
    assert g.owner.Keys == fs.owner.Keys + news.Keys;
  }

  lemma StaleOwnable(fs: Fs, g: Fs, bs: nat, name: string, got: seq<nat>, f: Fcb, n0: nat)
    requires Blocks.Inv(fs, bs) && GrownAsWritten(fs, g, bs, name, got) && f == fs.files[name]
             && n0 == Count(f, bs) >= 2
    requires Entry(fs.disk, f.indirect, n0 - 1) == got[|got| - 1]
    ensures Ownable(g, bs)
  {
    var owner := WithGiven(fs.owner, name, Given(got, n0));
    StaleServes(fs, g.(owner := owner), bs, name, got, f, n0, Given(got, n0));
    assert Explains(g, bs, owner);
  }

  /** The file had no block and gets one, or it has its pointer block already and the word behind its last entry, which
      the loop skips, happens to name the last block taken. */
  ghost predicate GrowsRight(fs: Fs, bs: nat, name: string, got: seq<nat>)
    requires bs > 0 && name in fs.files && got != []
  {
    var f, n0 := fs.files[name], Count(fs.files[name], bs);
    (n0 == 0 && |got| == 1) || (n0 >= 2 && Entry(fs.disk, f.indirect, n0 - 1) == got[|got| - 1])
  }

  /** Growing as written keeps every block in at most one file, and every used block in some file, if and only if it
      `GrowsRight`; in particular it never does when a file gets its second block. */
  lemma GrowsRightIff(fs: Fs, g: Fs, bs: nat, name: string, got: seq<nat>)
    requires Blocks.Inv(fs, bs) && GrownAsWritten(fs, g, bs, name, got)
    ensures Ownable(g, bs) <==> GrowsRight(fs, bs, name, got)
  {
    var f, n0 := fs.files[name], Count(fs.files[name], bs);
    if n0 == 0 && |got| == 1 {
      FirstBlock(fs, g, bs, name, got);
    } else if n0 < 2 {
      forall owner ensures !Explains(g, bs, owner) {
        NeedsMore(fs, g, bs, name, got, n0, owner);
      }
    } else {
      if Entry(fs.disk, f.indirect, n0 - 1) == got[|got| - 1] { StaleOwnable(fs, g, bs, name, got, f, n0); }
      forall owner | Explains(g, bs, owner) ensures Entry(fs.disk, f.indirect, n0 - 1) == got[|got| - 1] {
        LastIsStale(fs, g, bs, name, got, f, n0, owner);
      }
    }
  }

  // ----- the growing loop -----

  lemma {:induction false} PutEntriesSame(d: Disk, p: nat, j0: nat, got: seq<nat>, b: nat, k: nat)
    requires k <= |got| && p < |d| && 4 * (j0 + k) <= |d[p]| && forall i :: 0 <= i < k ==> got[i] < WORD_LIMIT
    ensures PutEntries(d, p, j0, got + [b], k) == PutEntries(d, p, j0, got, k)
  {
    if k > 0 { PutEntriesSame(d, p, j0, got, b, k - 1); }
  }

  /** The state inside the loop: the control block is still in hand. */
  ghost predicate Taking(fs: Fs, g: Fs, bs: nat, name: string, got: seq<nat>, f: Fcb) {
    && CanTake(fs, bs, name, got)
    && var f0, n0, m := fs.files[name], Count(fs.files[name], bs), |got|;
       && f == (if m == 0 then f0 else Pointed(f0, n0, got[m - 1]))
       && g.files == fs.files && |g.bits| == |fs.bits|
       && g.disk == (if n0 < 2 then fs.disk else PutEntries(fs.disk, f0.indirect, n0, got, m))
       && forall b {:trigger g.bits[b]} :: 0 <= b < |g.bits| ==> (g.bits[b] <==> fs.bits[b] || b in got)
  }

  lemma TakesOne(fs: Fs, g: Fs, h: Fs, bs: nat, name: string, got: seq<nat>, f: Fcb, b: nat)
    requires Taking(fs, g, bs, name, got, f) && b < |g.bits| && !g.bits[b]
    requires CanTake(fs, bs, name, got + [b]) && h.files == g.files && h.bits == g.bits[b := true]
    requires var n0 := Count(fs.files[name], bs);
             if n0 < 2 then h.disk == g.disk
             else
               && f.indirect < |g.disk| && 4 * (n0 + |got|) + 4 <= |g.disk[f.indirect]|
               && h.disk == PutEntry(g.disk, f.indirect, n0 + |got|, b)
    ensures Taking(fs, h, bs, name, got + [b], Pointed(f, Count(fs.files[name], bs), b))
  {
    var f0, n0 := fs.files[name], Count(fs.files[name], bs);
    if n0 >= 2 { PutEntriesSame(fs.disk, f0.indirect, n0, got, b, |got|); }
  }

  lemma CanTakeOne(fs: Fs, g: Fs, bs: nat, name: string, got: seq<nat>, f: Fcb, b: nat)
    requires Taking(fs, g, bs, name, got, f) && b < |g.bits| && !g.bits[b]
    requires Count(fs.files[name], bs) + |got| < 1 + bs / 4
    requires Count(fs.files[name], bs) >= 2 ==> 4 * (Count(fs.files[name], bs) + |got|) + 4 <= |fs.disk[f.indirect]|
    ensures CanTake(fs, bs, name, got + [b])
  {
    var more := got + [b];
    forall i | 0 <= i < |more| ensures more[i] < |fs.bits| && !fs.bits[more[i]] && (i < |got| ==> more[i] != b) {
      assert i < |got| ==> more[i] in got;
    }
  }

  // ----- the blocks taken -----

  /** The blocks up to `l` that are free are those of `got`, and `l` is the last of as many as `got` has. */
  ghost predicate FreeThrough(bits: seq<bool>, got: seq<nat>, l: nat) {
    && l < |bits| && !bits[l] && FreeUpTo(bits, l) + 1 == |got|
    && (forall q: nat {:trigger q in got} :: q in got ==> q <= l)
    && (forall i: nat {:trigger bits[i]} :: i <= l ==> bits[i] || i in got)
  }

  /** `got` are the first free blocks. */
  ghost predicate FirstFrees(bits: seq<bool>, got: seq<nat>) {
    got == [] || FreeThrough(bits, got, got[|got| - 1])
  }

  /** The bitmap in which these are marked. */
  ghost predicate MarkedToo(bits: seq<bool>, g: seq<bool>, got: seq<nat>) {
    |g| == |bits| && forall i: nat {:trigger g[i]} :: i < |g| ==> (g[i] <==> bits[i] || i in got)
  }

  ghost predicate FirstClear(g: seq<bool>, b: nat) {
    b < |g| && !g[b] && forall i: nat {:trigger g[i]} :: i < b ==> g[i]
  }

  /** From `lo` on nothing up to the next block is free, so it is the next in the count. */
  lemma CountTo(bits: seq<bool>, lo: nat, b: nat)
    requires lo <= b <= |bits| && forall i: nat {:trigger bits[i]} :: lo <= i < b ==> bits[i]
    ensures FreeUpTo(bits, b) == FreeUpTo(bits, lo)
  {
    FreeStretch(bits, lo, b, b);
  }

  lemma NextCount(bits: seq<bool>, g: seq<bool>, got: seq<nat>, l: nat, b: nat)
    requires FreeThrough(bits, got, l) && MarkedToo(bits, g, got) && FirstClear(g, b)
    ensures l < b && FreeUpTo(bits, b) == |got|
  {
    assert !bits[b] && b !in got;
    forall i: nat | l + 1 <= i < b ensures bits[i] {
      assert g[i];
    }
    CountTo(bits, l + 1, b);
  }

  /** The first clear block of that bitmap is the next one. */
  lemma NextFree(bits: seq<bool>, g: seq<bool>, got: seq<nat>, b: nat)
    requires FirstFrees(bits, got) && MarkedToo(bits, g, got) && FirstClear(g, b)
    ensures FirstFrees(bits, got + [b])
  {
    var more := got + [b];
    assert !bits[b] by { assert !g[b]; }
    if got == [] {
      forall i: nat | i < b ensures bits[i] { assert g[i]; }
      CountTo(bits, 0, b);
    } else {
      NextCount(bits, g, got, got[|got| - 1], b);
    }
    forall i: nat | i <= b ensures bits[i] || i in more {
      if i < b { assert g[i]; } else { assert more[|got|] == b; }
    }
    assert FreeThrough(bits, more, b);
  }

  /** Block `b` is the `m`-th free one. */
  ghost predicate NthFree(bits: seq<bool>, m: nat, b: nat) {
    b < |bits| && !bits[b] && FreeUpTo(bits, b) + 1 == m
  }

  lemma LastTaken(bits: seq<bool>, got: seq<nat>, l: nat, b: nat)
    requires FreeThrough(bits, got, l)
    ensures b == l <==> NthFree(bits, |got|, b)
  {
    if b < l && b < |bits| { FreeMonotone(bits, b + 1, l); }
    if l < b < |bits| { FreeMonotone(bits, l + 1, b); }
  }

  /** What can be seen before the call: the file has no block and is to get one, or it has its pointer block already and
      the word behind its last entry, which the loop skips, names the last of the free blocks that will be taken. */
  ghost predicate WillGrowRight(fs: Fs, bs: nat, name: string, n: nat)
    requires bs > 0 && name in fs.files && Count(fs.files[name], bs) < n
  {
    var f, n0 := fs.files[name], Count(fs.files[name], bs);
    (n0 == 0 && n == 1) || (n0 >= 2 && NthFree(fs.bits, n - n0, Entry(fs.disk, f.indirect, n0 - 1)))
  }

  lemma SeenBefore(fs: Fs, bs: nat, name: string, n: nat, got: seq<nat>)
    requires bs > 0 && name in fs.files && n == Count(fs.files[name], bs) + |got| && got != []
             && FirstFrees(fs.bits, got)
    ensures GrowsRight(fs, bs, name, got) <==> WillGrowRight(fs, bs, name, n)
  {
    var f, n0 := fs.files[name], Count(fs.files[name], bs);
    if n0 >= 2 { LastTaken(fs.bits, got, got[|got| - 1], Entry(fs.disk, f.indirect, n0 - 1)); }
  }

  /** One turn of the growing loop. */
  method TakeBlock(d: FileSystem, ghost fs: Fs, name: string, ghost got: seq<nat>, f: Fcb, n0: nat, i: nat)
    returns (f': Fcb, ghost b: nat)
    requires d.Sized() && Taking(fs, d.State(), d.bs, name, got, f) && n0 == Count(fs.files[name], d.bs) && i == |got|
    requires FreeCount(d.bitmap[..]) > 0 && n0 + i < 1 + d.bs / 4 && (n0 >= 2 ==> 4 * (n0 + i) + 4 <= d.bs)
             && Shaped(fs.disk, d.bs)
    requires FirstFrees(fs.bits, got)
    modifies d.bitmap, d.blocks
    ensures Taking(fs, d.State(), d.bs, name, got + [b], f') && FirstFrees(fs.bits, got + [b])
    ensures FreeCount(d.bitmap[..]) == old(FreeCount(d.bitmap[..])) - 1
  {
    ghost var g := d.State();
    var free := d.FindFree();
    b := free;
    CanTakeOne(fs, g, d.bs, name, got, f, b);
    NextFree(fs.bits, g.bits, got, b);
    SetOne(d.bitmap[..], free);
    d.bitmap[free] := true;
    f' := Pointed(f, n0, free);
    if n0 >= 2 {
      d.PutChunk(f.indirect, 4 * (n0 + i), Word(free));
    }
    TakesOne(fs, g, d.State(), d.bs, name, got, f, b);
  }

  lemma CanStart(fs: Fs, bs: nat, name: string, f: Fcb, n: nat)
    requires Blocks.Inv(fs, bs) && bs >= 4 && |fs.disk| < WORD_LIMIT && name in fs.files && f == fs.files[name]
    requires Count(f, bs) <= n <= 1 + bs / 4 && (Count(f, bs) >= 2 ==> 4 * n <= bs)
    ensures Taking(fs, fs, bs, name, [], f)
  {
    if Count(f, bs) >= 2 { SlotOwner(fs, bs, name, Pointer); }
  }

  lemma AllTaken(fs: Fs, g: Fs, h: Fs, bs: nat, name: string, got: seq<nat>, f: Fcb, n: nat)
    requires Taking(fs, g, bs, name, got, f) && got != [] && n == Count(fs.files[name], bs) + |got|
    requires h == g.(files := g.files[name := f.(size := Offset(n, bs))])
    ensures GrownAsWritten(fs, h, bs, name, got)
  {
  }

  method TakeBlocks(d: FileSystem, ghost fs: Fs, name: string, n0: nat, n: nat) returns (f: Fcb, ghost got: seq<nat>)
    requires d.Sized() && d.State() == fs && Shaped(fs.disk, d.bs) && name in d.files
             && n0 == Count(d.files[name], d.bs) <= n <= 1 + d.bs / 4
    requires Taking(fs, fs, d.bs, name, [], d.files[name])
    requires n - n0 <= FreeCount(d.bitmap[..]) && (n0 >= 2 ==> 4 * n <= d.bs)
    modifies d.bitmap, d.blocks
    ensures |got| == n - n0 && Taking(fs, d.State(), d.bs, name, got, f) && FirstFrees(fs.bits, got)
    ensures FreeCount(d.bitmap[..]) == old(FreeCount(d.bitmap[..])) - (n - n0)
  {
    f, got := d.files[name], [];
    for i := 0 to n - n0
      invariant |got| == i && Taking(fs, d.State(), d.bs, name, got, f) && FirstFrees(fs.bits, got)
      invariant FreeCount(d.bitmap[..]) == old(FreeCount(d.bitmap[..])) - i
    {
      ghost var b;
      f, b := TakeBlock(d, fs, name, got, f, n0, i);
      got := got + [b];
    }
  }

  /** `truncar_archivo` upwards: the loop over the additional blocks, and the control block stored at the end. */
  method GrowAsWritten(d: FileSystem, name: string, n: nat) returns (ghost got: seq<nat>)
    requires d.Inv() && name in d.files && Count(d.files[name], d.bs) < n <= 1 + d.bs / 4
    requires n - Count(d.files[name], d.bs) <= FreeCount(d.bitmap[..])
             && (Count(d.files[name], d.bs) >= 2 ==> 4 * n <= d.bs)
    modifies d`files, d.bitmap, d.blocks
    ensures |got| == n - Count(old(d.files[name]), d.bs) && GrownAsWritten(old(d.State()), d.State(), d.bs, name, got)
    ensures FirstFrees(old(d.bitmap[..]), got)
    ensures Ownable(d.State(), d.bs) <==> WillGrowRight(old(d.State()), d.bs, name, n)
  {
    ghost var fs := d.State();
    var f, n0 := d.files[name], Count(d.files[name], d.bs);
    CanStart(fs, d.bs, name, f, n);
    f, got := TakeBlocks(d, fs, name, n0, n);
    ghost var g := d.State();
    d.files := d.files[name := f.(size := Offset(n, d.bs))];
    AllTaken(fs, g, d.State(), d.bs, name, got, f, n);
    GrowsRightIff(fs, d.State(), d.bs, name, got);
    SeenBefore(fs, d.bs, name, n, got);
  }

  // ----- shrinking -----

  /** The word at byte `at` of the block file. */
  function WordAt(flat: seq<byte>, at: nat): nat {
    if at + 4 <= |flat| then FromWord(flat[at..at + 4]) else 0
  }

  /** The words whose blocks the shrinking loop releases: from the one behind the last entry's successor downwards. `at`
      is where the block named by the indirect pointer starts; a full pointer block's words reach behind it. */
  function WordsRead(flat: seq<byte>, at: nat, n0: nat, turns: nat): (ws: seq<nat>)
    requires turns <= n0
    ensures |ws| == turns
  {
    seq(turns, i requires 0 <= i < turns => WordAt(flat, at + 4 * (n0 - i)))
  }

  /** A file, and a smaller number of blocks, all of whose words lie inside the block file `flat`. */
  ghost predicate CanLose(fs: Fs, bs: nat, name: string, n: nat, flat: seq<byte>) {
    && bs >= 4 && name in fs.files && n < Count(fs.files[name], bs)
    && Offset(fs.files[name].indirect, bs) + 4 * Count(fs.files[name], bs) + 4 <= |flat|
  }

  /** The words for a file that shrinks to `n` blocks. */
  function WordsOf(f: Fcb, bs: nat, n: nat, flat: seq<byte>): (ws: seq<nat>)
    requires bs > 0 && n <= Count(f, bs)
    ensures |ws| == Count(f, bs) - n
  {
    WordsRead(flat, Offset(f.indirect, bs), Count(f, bs), Count(f, bs) - n)
  }

  /** The word read in turn `i`, if the pointer block holds it, is the pointer of the block two behind the one which
      that turn should give up; `at` is where the pointer block lies in the block file. */
  lemma WordsTwoBehind(flat: seq<byte>, d: Disk, at: nat, bs: nat, f: Fcb, n0: nat, turns: nat, i: nat)
    requires f.indirect < |d| && at + bs <= |flat| && d[f.indirect] == flat[at..at + bs]
    requires i < turns <= n0 && 4 * (n0 - i) + 4 <= bs
    ensures WordsRead(flat, at, n0, turns)[i] == BlockAt(d, f, Data(n0 - 1 - i + 2))
  {
    WordIsEntry(flat, d, f.indirect, at, bs, n0 - i);
  }

  lemma WordIsEntry(flat: seq<byte>, d: Disk, p: nat, at: nat, bs: nat, j: nat)
    requires p < |d| && at + bs <= |flat| && d[p] == flat[at..at + bs] && 4 * j + 4 <= bs
    ensures WordAt(flat, at + 4 * j) == Entry(d, p, j)
  {
    SubSlice(flat, at, at + bs, 4 * j, 4);
  }

  /** The state after the loop. */
  ghost predicate ShrunkAsWritten(fs: Fs, g: Fs, bs: nat, name: string, n: nat, flat: seq<byte>) {
    && CanLose(fs, bs, name, n, flat)
    && var f := fs.files[name];
       && g.files == fs.files[name := f.(size := Offset(n, bs))] && g.disk == fs.disk && |g.bits| == |fs.bits|
       && forall b {:trigger g.bits[b]} ::
             0 <= b < |g.bits| ==> (g.bits[b] <==> fs.bits[b] && b !in WordsOf(f, bs, n, flat))
  }

  /** A block the file has to give up. */
  ghost predicate Lost(fs: Fs, name: string, n: nat, b: nat) {
    b in fs.owner && fs.owner[b].0 == name && !Has(n, fs.owner[b].1)
  }

  /** Among the blocks in use the words name exactly those the file has to give up. */
  ghost predicate WordsNameLost(fs: Fs, bs: nat, name: string, n: nat, flat: seq<byte>)
    requires CanLose(fs, bs, name, n, flat)
  {
    forall b {:trigger fs.owner[b]} ::
          b in fs.owner ==> (b in WordsOf(fs.files[name], bs, n, flat) <==> Lost(fs, name, n, b))
  }

  lemma CountLess(fs: Fs, g: Fs, bs: nat, name: string, n: nat, flat: seq<byte>)
    requires ShrunkAsWritten(fs, g, bs, name, n, flat)
    ensures Count(g.files[name], bs) == n
  {
    QuotUnique(Offset(n, bs), n, bs);
  }

  lemma LosesRightly(fs: Fs, g: Fs, bs: nat, name: string, n: nat, flat: seq<byte>)
    requires Blocks.Inv(fs, bs) && ShrunkAsWritten(fs, g, bs, name, n, flat) && WordsNameLost(fs, bs, name, n, flat)
    ensures Ownable(g, bs)
  {
    CountLess(fs, g, bs, name, n, flat);
    var gone := set b | b in fs.owner && Lost(fs, name, n, b);
    var h := g.(owner := fs.owner - gone);
    ShrunkLayout(fs, h, bs, name, gone);
    assert Explains(g, bs, h.owner);
  }

  lemma LosesOnlyRightly(fs: Fs, g: Fs, bs: nat, name: string, n: nat, flat: seq<byte>, owner: map<nat, (string, Slot)>,
                         b: nat)
    requires Blocks.Inv(fs, bs) && ShrunkAsWritten(fs, g, bs, name, n, flat) && Explains(g, bs, owner) && b in fs.owner
    ensures g.bits[b] <==> !Lost(fs, name, n, b)
  {
    CountLess(fs, g, bs, name, n, flat);
    var (m, s) := fs.owner[b];
    assert Uses(fs, bs, m, s, b);
    if g.bits[b] {
      var (m', s') := owner[b];
      assert Uses(g.(owner := owner), bs, m', s', b);
      SlotOwner(fs, bs, m', s');
    } else if !Lost(fs, name, n, b) {
      SlotOwner(g.(owner := owner), bs, m, s);
    }
  }

  /** Shrinking as written keeps every block in at most one file, and every used block in some file, if and only if
      among the blocks in use the words it reads, two entries behind the last block, name exactly those the file gives
      up. */
  lemma ShrinksRightIff(fs: Fs, g: Fs, bs: nat, name: string, n: nat, flat: seq<byte>)
    requires Blocks.Inv(fs, bs) && ShrunkAsWritten(fs, g, bs, name, n, flat)
    ensures Ownable(g, bs) <==> WordsNameLost(fs, bs, name, n, flat)
  {
    if WordsNameLost(fs, bs, name, n, flat) { LosesRightly(fs, g, bs, name, n, flat); }
    if Ownable(g, bs) {
      var owner :| Explains(g, bs, owner);
      forall b | b in fs.owner ensures g.bits[b] <==> !Lost(fs, name, n, b) {
        LosesOnlyRightly(fs, g, bs, name, n, flat, owner, b);
      }
    }
  }

  /** So it never does when the file loses its pointer block, which no word names. */
  lemma PointerBlockKept(fs: Fs, g: Fs, bs: nat, name: string, n: nat, flat: seq<byte>)
    requires Blocks.Inv(fs, bs) && ShrunkAsWritten(fs, g, bs, name, n, flat) && n < 2 <= Count(fs.files[name], bs)
    ensures !Ownable(g, bs)
  {
    ShrinksRightIff(fs, g, bs, name, n, flat);
    var f, ps := fs.files[name], PtrsOf(fs, bs, name);
    var words := WordsOf(f, bs, n, flat);
    SlotOwner(fs, bs, name, Pointer);
    forall k | 0 <= k < |ps| ensures ps[k] in fs.owner && fs.owner[ps[k]] == (name, Data(k)) {
      SlotOwner(fs, bs, name, Data(k));
    }
    TooMany(ps, f.indirect, n, words, name, fs.owner);
    assert Lost(fs, name, n, f.indirect);
    assert forall k :: n <= k < |ps| ==> Lost(fs, name, n, ps[k]);
  }

  // ----- the shrinking loop -----

  /** The state inside the loop. */
  ghost predicate Releasing(fs: Fs, g: Fs, flat: seq<byte>, at: nat, n0: nat, i: nat) {
    && i <= n0 && g.files == fs.files && g.disk == fs.disk && |g.bits| == |fs.bits|
    && forall b {:trigger g.bits[b]} ::
          0 <= b < |g.bits| ==> (g.bits[b] <==> fs.bits[b] && b !in WordsRead(flat, at, n0, i))
  }

  lemma OneMoreWord(flat: seq<byte>, at: nat, n0: nat, i: nat, b: nat)
    requires i < n0 && b == WordAt(flat, at + 4 * (n0 - i))
    ensures WordsRead(flat, at, n0, i + 1) == WordsRead(flat, at, n0, i) + [b]
  {
  }

  method ReadWord(d: FileSystem, at: nat) returns (b: nat)
    requires at + 4 <= d.blocks.Length
    ensures b == WordAt(d.blocks[..], at)
  {
    assert d.blocks[..][at..at + 4] == d.blocks[at..at + 4];
    b := FromWord(d.blocks[at..at + 4]);
  }

  /** One turn of the shrinking loop. A word that names no block releases none. */
  method ReleaseBlock(d: FileSystem, ghost fs: Fs, at: nat, n0: nat, i: nat)
    requires d.Sized() && Releasing(fs, d.State(), d.blocks[..], at, n0, i) && i < n0
             && at + 4 * n0 + 4 <= d.blocks.Length
    modifies d.bitmap
    ensures Releasing(fs, d.State(), d.blocks[..], at, n0, i + 1)
  {
    var b := ReadWord(d, at + 4 * (n0 - i));
    OneMoreWord(d.blocks[..], at, n0, i, b);
    if b < d.bc {
      d.bitmap[b] := false;
    }
  }

  /** `truncar_archivo` downwards. */
  method ShrinkAsWritten(d: FileSystem, name: string, n: nat)
    requires d.Inv() && CanLose(d.State(), d.bs, name, n, d.blocks[..])
    modifies d`files, d.bitmap
    ensures ShrunkAsWritten(old(d.State()), d.State(), d.bs, name, n, d.blocks[..])
    ensures Ownable(d.State(), d.bs) <==> WordsNameLost(old(d.State()), d.bs, name, n, d.blocks[..])
    ensures n < 2 <= Count(old(d.files[name]), d.bs) ==> !Ownable(d.State(), d.bs)
  {
    ghost var fs := d.State();
    var f, n0 := d.files[name], Count(d.files[name], d.bs);
    var at := Offset(f.indirect, d.bs);
    for i := 0 to n0 - n
      invariant Releasing(fs, d.State(), d.blocks[..], at, n0, i)
    {
      ReleaseBlock(d, fs, at, n0, i);
    }
    d.files := d.files[name := f.(size := Offset(n, d.bs))];
    ShrinksRightIff(fs, d.State(), d.bs, name, n, d.blocks[..]);
    if n < 2 <= n0 { PointerBlockKept(fs, d.State(), d.bs, name, n, d.blocks[..]); }
  }
}
