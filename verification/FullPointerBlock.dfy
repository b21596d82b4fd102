/** `truncar_archivo` as it stands in the source when it fills the pointer block: the last word goes behind it. */
module FullPointerBlock {
  import opened Bytes
  import opened Bitmap
  import opened Geometry
  import opened Blocks
  import opened FileSystemModule
  import opened TruncationAsWritten

  // ----- the last word -----

  /** How many bytes of the pointer block are behind its last whole word. */
  function Spare(bs: nat): (r: nat)
    ensures r < 4 && bs == 4 * (bs / 4) + r
  {
    bs % 4
  }

  /** The word behind the last one: what fits goes to the end of block `p`, the rest to the start of the next block. */
  function PutBehind(d: Disk, bs: nat, p: nat, b: nat): (r: Disk)
    requires bs >= 4 && p + 1 < |d| && |d[p]| == bs && |d[p + 1]| == bs && b < WORD_LIMIT
    ensures |r| == |d| && |r[p]| == bs && |r[p + 1]| == bs && forall i ::
              0 <= i < |d| && i != p && i != p + 1 ==> r[i] == d[i]
  {
    d[p := Splice(d[p], bs - Spare(bs), Word(b)[..Spare(bs)])][p + 1 := Splice(d[p + 1], 0, Word(b)[Spare(bs)..])]
  }

  lemma EntryLeft(x: seq<byte>, y: seq<byte>, j: nat)
    requires |x| == |y| && (4 * j + 4 <= |x| ==> forall i :: 4 * j <= i < 4 * j + 4 ==> x[i] == y[i])
    ensures 4 * j + 4 <= |x| ==> FromWord(x[4 * j..4 * j + 4]) == FromWord(y[4 * j..4 * j + 4])
  {
    if 4 * j + 4 <= |x| { assert x[4 * j..4 * j + 4] == y[4 * j..4 * j + 4]; }
  }

  /** No entry changes but the first of the next block. */
  lemma EntryBehind(d: Disk, bs: nat, p: nat, b: nat, q: nat, j: nat)
    requires bs >= 4 && p + 1 < |d| && |d[p]| == bs && |d[p + 1]| == bs && b < WORD_LIMIT && !(q == p + 1 && j == 0)
    ensures Entry(PutBehind(d, bs, p, b), q, j) == Entry(d, q, j)
  {
    var e := PutBehind(d, bs, p, b);
    if q < |d| {
      if q == p { assert 4 * j + 4 <= bs ==> 4 * j + 4 <= bs - Spare(bs); }
      EntryLeft(e[q], d[q], j);
    }
  }

  // ----- the state after the loop -----

  /** A file with its pointer block, the free blocks that fill it, and a block behind it. */
  ghost predicate CanFill(fs: Fs, bs: nat, name: string, got: seq<nat>) {
    && bs >= 4 && |fs.disk| < WORD_LIMIT && Shaped(fs.disk, bs) && name in fs.files && Fresh(fs, got) && got != []
    && var f, n0 := fs.files[name], Count(fs.files[name], bs);
       n0 >= 2 && n0 + |got| == 1 + bs / 4 && f.indirect + 1 < |fs.disk|
  }

  /** The disk: all words but the last in the pointer block, the last behind it. */
  ghost function FilledDisk(fs: Fs, bs: nat, name: string, got: seq<nat>): Disk
    requires CanFill(fs, bs, name, got)
  {
    var f, n0, m := fs.files[name], Count(fs.files[name], bs), |got|;
    PutBehind(PutEntries(fs.disk, f.indirect, n0, got, m - 1), bs, f.indirect, got[m - 1])
  }

  /** The state after the loop. */
  ghost predicate Filled(fs: Fs, g: Fs, bs: nat, name: string, got: seq<nat>) {
    && CanFill(fs, bs, name, got)
    && g.files == fs.files[name := fs.files[name].(size := Offset(1 + bs / 4, bs))]
    && g.disk == FilledDisk(fs, bs, name, got) && |g.bits| == |fs.bits|
    && forall b {:trigger g.bits[b]} :: 0 <= b < |g.bits| ==> (g.bits[b] <==> fs.bits[b] || b in got)
  }

  /** The entries after the loop. */
  lemma EntryFilled(fs: Fs, bs: nat, name: string, got: seq<nat>, p: nat, n0: nat, q: nat, j: nat)
    requires CanFill(fs, bs, name, got) && p == fs.files[name].indirect && n0 == Count(fs.files[name], bs)
    requires !(q == p + 1 && j == 0)
    ensures Entry(FilledDisk(fs, bs, name, got), q, j)
         == if q == p && n0 <= j < n0 + |got| - 1 then got[j - n0] else Entry(fs.disk, q, j)
  {
    EntryAfterFill(fs.disk, bs, p, n0, got, |got| - 1, q, j, FilledDisk(fs, bs, name, got));
  }

  lemma EntryAfterFill(d: Disk, bs: nat, p: nat, n0: nat, got: seq<nat>, k: nat, q: nat, j: nat, e: Disk)
    requires bs >= 4 && Shaped(d, bs) && p + 1 < |d| && k + 1 == |got| && 4 * (n0 + k) <= bs && !(q == p + 1 && j == 0)
    requires forall i :: 0 <= i < |got| ==> got[i] < WORD_LIMIT
    requires e == PutBehind(PutEntries(d, p, n0, got, k), bs, p, got[k])
    ensures Entry(e, q, j) == if q == p && n0 <= j < n0 + k then got[j - n0] else Entry(d, q, j)
  {
    var c := PutEntries(d, p, n0, got, k);
    EntryBehind(c, bs, p, got[k], q, j);
    if q == p { EntryAfterPuts(d, p, n0, got, k, j); } else { EntryElsewhere(d, c, q, j); }
  }

  lemma EntryElsewhere(d: Disk, c: Disk, q: nat, j: nat)
    requires |c| == |d| && (q < |d| ==> c[q] == d[q])
    ensures Entry(c, q, j) == Entry(d, q, j)
  {
  }

  lemma CountFilled(fs: Fs, g: Fs, bs: nat, name: string, got: seq<nat>)
    requires Filled(fs, g, bs, name, got)
    ensures Count(g.files[name], bs) == 1 + bs / 4
  {
    QuotUnique(Offset(1 + bs / 4, bs), 1 + bs / 4, bs);
  }

  /** The word the loop skips. */
  function Skipped(fs: Fs, bs: nat, name: string): nat
    requires bs > 0 && name in fs.files && Count(fs.files[name], bs) > 0
  {
    Entry(fs.disk, fs.files[name].indirect, Count(fs.files[name], bs) - 1)
  }

  /** Slot `s` of file `x` is named by the first word behind the pointer block of `name`. */
  predicate Behind(fs: Fs, name: string, x: string, s: Slot)
    requires name in fs.files && x in fs.files
  {
    x != name && s == Data(1) && fs.files[x].indirect == fs.files[name].indirect + 1
  }

  /** A data block behind the first is where the entry says. */
  lemma ByEntry(d: Disk, f: Fcb, k: nat, p: nat, j: nat)
    requires k > 0 && p == f.indirect && j == k - 1
    ensures BlockAt(d, f, Data(k)) == Entry(d, p, j)
  {
  }

  lemma OwnEntry(fs: Fs, g: Fs, bs: nat, name: string, got: seq<nat>, k: nat, j: nat, n0: nat)
    requires Filled(fs, g, bs, name, got) && j + 1 == k && n0 == Count(fs.files[name], bs)
    ensures BlockAt(g.disk, g.files[name], Data(k))
         == if n0 <= j < n0 + |got| - 1 then got[j - n0] else Entry(fs.disk, fs.files[name].indirect, j)
  {
    var p := fs.files[name].indirect;
    ByEntry(g.disk, g.files[name], k, p, j);
    EntryFilled(fs, bs, name, got, p, n0, p, j);
  }

  /** The slots it had. */
  lemma OwnOld(fs: Fs, g: Fs, bs: nat, name: string, got: seq<nat>, k: nat, j: nat, n0: nat)
    requires Filled(fs, g, bs, name, got) && n0 == Count(fs.files[name], bs) && j + 1 == k < n0
    ensures BlockAt(g.disk, g.files[name], Data(k)) == BlockAt(fs.disk, fs.files[name], Data(k))
  {
    OwnEntry(fs, g, bs, name, got, k, j, n0);
    ByEntry(fs.disk, fs.files[name], k, fs.files[name].indirect, j);
  }

  /** The slot behind them. */
  lemma OwnSkipped(fs: Fs, g: Fs, bs: nat, name: string, got: seq<nat>, n0: nat)
    requires Filled(fs, g, bs, name, got) && n0 == Count(fs.files[name], bs)
    ensures BlockAt(g.disk, g.files[name], Data(n0)) == Skipped(fs, bs, name)
  {
    var j: nat := n0 - 1;
    OwnEntry(fs, g, bs, name, got, n0, j, n0);
  }

  /** The slots of the file itself. */
  lemma OwnSlot(fs: Fs, g: Fs, bs: nat, name: string, got: seq<nat>, s: Slot, n0: nat)
    requires Filled(fs, g, bs, name, got) && Has(n0 + |got|, s) && n0 == Count(fs.files[name], bs)
    ensures Has(n0, s) ==> BlockAt(g.disk, g.files[name], s) == BlockAt(fs.disk, fs.files[name], s)
    ensures s == Data(n0) ==> BlockAt(g.disk, g.files[name], s) == Skipped(fs, bs, name)
    ensures !Has(n0, s) && s != Data(n0) ==> s.k > n0 && BlockAt(g.disk, g.files[name], s) == got[s.k - n0 - 1]
  {
    match s {
      case Pointer =>
      case Data(k) =>
        if 0 < k < n0 {
          OwnOld(fs, g, bs, name, got, k, k - 1, n0);
        } else if k == n0 {
          OwnSkipped(fs, g, bs, name, got, n0);
        } else if k > n0 {
          OwnEntry(fs, g, bs, name, got, k, k - 1, n0);
        }
    }
  }

  /** The slots of the other files stay, but for one. */
  lemma OtherSlot(fs: Fs, g: Fs, bs: nat, name: string, got: seq<nat>, x: string, s: Slot)
    requires Blocks.Inv(fs, bs) && Filled(fs, g, bs, name, got) && x in fs.files && x != name
             && Has(Count(fs.files[x], bs), s)
    requires !Behind(fs, name, x, s)
    ensures BlockAt(g.disk, g.files[x], s) == BlockAt(fs.disk, fs.files[x], s)
  {
    if s.Data? && s.k > 0 {
      SlotOwner(fs, bs, x, Pointer);
      SlotOwner(fs, bs, name, Pointer);
      OtherEntry(fs, g, bs, name, got, x, s.k, s.k - 1, fs.files[x].indirect);
    }
  }

  lemma OtherEntry(fs: Fs, g: Fs, bs: nat, name: string, got: seq<nat>, x: string, k: nat, j: nat, q: nat)
    requires Filled(fs, g, bs, name, got) && x in fs.files && x != name && j + 1 == k && q == fs.files[x].indirect
    requires q != fs.files[name].indirect && !(q == fs.files[name].indirect + 1 && j == 0)
    ensures BlockAt(g.disk, g.files[x], Data(k)) == BlockAt(fs.disk, fs.files[x], Data(k))
  {
    ByEntry(g.disk, g.files[x], k, q, j);
    ByEntry(fs.disk, fs.files[x], k, q, j);
    EntryFilled(fs, bs, name, got, fs.files[name].indirect, Count(fs.files[name], bs), q, j);
  }

  // ----- when ownership survives -----

  /** The first word behind the pointer block. */
  function FirstBehind(d: Disk, p: nat): nat {
    Entry(d, p + 1, 0)
  }

  /** The block behind the pointer block is another file's pointer block. */
  ghost predicate PointerBehind(fs: Fs, name: string)
    requires name in fs.files
  {
    var q := fs.files[name].indirect + 1;
    q in fs.owner && fs.owner[q].1 == Pointer
  }

  /** With `last` the last block taken, `w` the word skipped, and `e` and `e'` the first word behind the pointer block
      before and after. */
  predicate Fits(pointer: bool, w: nat, last: nat, e: nat, e': nat) {
    if pointer then (w == last && e' == e) || (w == e && e' == last) else w == last
  }

  /** What is behind belongs to another file. */
  lemma BehindIs(fs: Fs, bs: nat, name: string, x: string, s: Slot)
    requires Layout(fs, bs) && name in fs.files && Count(fs.files[name], bs) >= 2
    requires x in fs.files && Has(Count(fs.files[x], bs), s) && Behind(fs, name, x, s)
    ensures var q := fs.files[name].indirect + 1;
            PointerBehind(fs, name) && fs.owner[q] == (x, Pointer)
    ensures var e := FirstBehind(fs.disk, fs.files[name].indirect); e in fs.owner && fs.owner[e] == (x, Data(1))
  {
    SlotOwner(fs, bs, x, Pointer);
    SlotOwner(fs, bs, x, s);
  }

  lemma PointerBehindIs(fs: Fs, bs: nat, name: string) returns (x: string)
    requires Layout(fs, bs) && name in fs.files && Count(fs.files[name], bs) >= 2 && PointerBehind(fs, name)
    ensures x in fs.files && Has(Count(fs.files[x], bs), Data(1)) && Behind(fs, name, x, Data(1))
  {
    var q := fs.files[name].indirect + 1;
    x := fs.owner[q].0;
    assert Uses(fs, bs, x, Pointer, q);
  }

  /** Where a slot is that some owner map records for block `b`. */
  lemma SlotCases(fs: Fs, g: Fs, bs: nat, name: string, got: seq<nat>, y: string, t: Slot)
    requires Blocks.Inv(fs, bs) && Filled(fs, g, bs, name, got) && Owns(g, bs, y, t)
    ensures var b, n0 := BlockAt(g.disk, g.files[y], t), Count(fs.files[name], bs);
            || (y == name && t == Data(n0) && b == Skipped(fs, bs, name))
            || (y == name && t.Data? && n0 < t.k < n0 + |got| && b == got[t.k - n0 - 1])
            || (Behind(fs, name, y, t) && Owns(fs, bs, y, t) && b == FirstBehind(g.disk, fs.files[name].indirect))
            || (!Behind(fs, name, y, t) && Owns(fs, bs, y, t) && b in fs.owner && fs.owner[b] == (y, t))
  {
    CountFilled(fs, g, bs, name, got);
    if y == name {
      OwnCases(fs, g, bs, name, got, t, Count(fs.files[name], bs));
    } else {
      SlotOwner(fs, bs, y, t);
      if !Behind(fs, name, y, t) { OtherSlot(fs, g, bs, name, got, y, t); }
    }
  }

  lemma OwnCases(fs: Fs, g: Fs, bs: nat, name: string, got: seq<nat>, t: Slot, n0: nat)
    requires Blocks.Inv(fs, bs) && Filled(fs, g, bs, name, got) && n0 == Count(fs.files[name], bs) && Has(n0 + |got|, t)
    ensures var b := BlockAt(g.disk, g.files[name], t);
            || (t == Data(n0) && b == Skipped(fs, bs, name))
            || (t.Data? && n0 < t.k < n0 + |got| && b == got[t.k - n0 - 1])
            || (Owns(fs, bs, name, t) && b in fs.owner && fs.owner[b] == (name, t))
  {
    OwnSlot(fs, g, bs, name, got, t, n0);
    if Has(n0, t) { SlotOwner(fs, bs, name, t); }
  }

  /** Somebody is recorded for the last block taken. */
  lemma LastNamed(fs: Fs, g: Fs, bs: nat, name: string, got: seq<nat>, owner: map<nat, (string, Slot)>)
    requires Blocks.Inv(fs, bs) && Filled(fs, g, bs, name, got) && Explains(g, bs, owner)
    ensures var last := got[|got| - 1];
            Skipped(fs, bs, name) == last || (PointerBehind(fs, name)
                && FirstBehind(g.disk, fs.files[name].indirect) == last)
  {
    var last := got[|got| - 1];
    assert g.bits[last] && last in owner;
    var (y, t) := owner[last];
    assert Uses(g.(owner := owner), bs, y, t, last);
    SlotCases(fs, g, bs, name, got, y, t);
    if Behind(fs, name, y, t) && Owns(fs, bs, y, t) { BehindIs(fs, bs, name, y, t); }
  }

  /** And for the block that was the second of the file whose pointer block is behind. */
  lemma SecondNamed(fs: Fs, g: Fs, bs: nat, name: string, got: seq<nat>, owner: map<nat, (string, Slot)>)
    requires Blocks.Inv(fs, bs) && Filled(fs, g, bs, name, got) && Explains(g, bs, owner) && PointerBehind(fs, name)
    ensures var p := fs.files[name].indirect; var e := FirstBehind(fs.disk, p);
            e != got[|got| - 1] && (Skipped(fs, bs, name) == e || FirstBehind(g.disk, p) == e)
  {
    var e := FirstBehind(fs.disk, fs.files[name].indirect);
    var x := PointerBehindIs(fs, bs, name);
    BehindIs(fs, bs, name, x, Data(1));
    assert e < |fs.bits| by { assert Uses(fs, bs, x, Data(1), e); }
    assert fs.bits[e] && g.bits[e] && e in owner;
    var (y, t) := owner[e];
    assert Uses(g.(owner := owner), bs, y, t, e);
    SlotCases(fs, g, bs, name, got, y, t);
  }

  lemma FitsThen(fs: Fs, g: Fs, bs: nat, name: string, got: seq<nat>, owner: map<nat, (string, Slot)>)
    requires Blocks.Inv(fs, bs) && Filled(fs, g, bs, name, got) && Explains(g, bs, owner)
    ensures var p := fs.files[name].indirect;
            Fits(PointerBehind(fs, name), Skipped(fs, bs, name), got[|got| - 1], FirstBehind(fs.disk, p),
                FirstBehind(g.disk, p))
  {
    LastNamed(fs, g, bs, name, got, owner);
    if PointerBehind(fs, name) { SecondNamed(fs, g, bs, name, got, owner); }
  }

  // ----- the owner map -----

  /** Slot `s` of file `x` is recorded where it is. */
  ghost predicate Recorded(g: Fs, bs: nat, owner: map<nat, (string, Slot)>, x: string, s: Slot)
    requires x in g.files
  {
    var b := BlockAt(g.disk, g.files[x], s);
    b in owner && owner[b] == (x, s)
  }

  lemma StillShaped(fs: Fs, g: Fs, bs: nat, name: string, got: seq<nat>)
    requires Blocks.Inv(fs, bs) && Filled(fs, g, bs, name, got)
    ensures |g.disk| == |fs.disk| && Shaped(g.disk, bs) && SizesOk(g.files, bs)
  {
    CountFilled(fs, g, bs, name, got);
  }

  /** An owner map that covers the marked blocks, agrees with every slot, and records slots only, explains the state. */
  lemma Explained(fs: Fs, g: Fs, bs: nat, name: string, got: seq<nat>, owner: map<nat, (string, Slot)>)
    requires Blocks.Inv(fs, bs) && Filled(fs, g, bs, name, got)
    requires owner.Keys == fs.owner.Keys + set b | b in got
    requires forall x, s :: Owns(g, bs, x, s) ==> Recorded(g, bs, owner, x, s)
    requires forall b {:trigger owner[b]} :: b in owner ==> Uses(g, bs, owner[b].0, owner[b].1, b)
    ensures Explains(g, bs, owner)
  {
    StillShaped(fs, g, bs, name, got);
    var h := g.(owner := owner);
    forall b | b in owner ensures Uses(h, bs, owner[b].0, owner[b].1, b) {
      assert Uses(g, bs, owner[b].0, owner[b].1, b);
    }
    forall x, s | Owns(h, bs, x, s) ensures var b := BlockAt(h.disk, h.files[x], s); b in owner && owner[b] == (x, s) {
      assert Owns(g, bs, x, s);
      assert Recorded(g, bs, owner, x, s);
    }
  }

  /** The owner map after the loop: the blocks taken, the word skipped, and what is behind the pointer block. */
  function OwnerAfter(owner: map<nat, (string, Slot)>, name: string, got: seq<nat>, n0: nat, w: nat, behind: bool,
                      e': nat, x: string):
      map<nat, (string, Slot)>
  {
    var own := WithGiven(owner, name, Given(got, n0))[w := (name, Data(n0))];
    if behind then own[e' := (x, Data(1))] else own
  }

  /** The values it is made from: `last` is the last block taken, `e` the second block of file `x`, whose pointer block
      is behind, if `behind`. */
  ghost predicate Values(owner: map<nat, (string, Slot)>, got: seq<nat>, w: nat, last: nat, behind: bool, e: nat,
                         e': nat, x: string) {
    && Apart(got) && got != [] && last == got[|got| - 1] && Fits(behind, w, last, e, e')
    && (forall b :: b in got ==> b !in owner)
    && (behind ==> e in owner && owner[e] == (x, Data(1)))
  }

  /** What it says of the word skipped and of what is behind. */
  lemma OwnerOfWords(owner: map<nat, (string, Slot)>, name: string, got: seq<nat>, n0: nat, w: nat, last: nat,
                     behind: bool, e: nat, e': nat, x: string)
    requires Values(owner, got, w, last, behind, e, e', x)
    ensures var o := OwnerAfter(owner, name, got, n0, w, behind, e', x);
            && w in o && o[w] == (name, Data(n0))
            && (behind ==> e' in o && o[e'] == (x, Data(1)))
  {
  }

  /** Of the other blocks taken. */
  lemma OwnerOfTaken(owner: map<nat, (string, Slot)>, name: string, got: seq<nat>, n0: nat, w: nat, last: nat,
                     behind: bool, e: nat, e': nat, x: string, j: nat)
    requires Values(owner, got, w, last, behind, e, e', x) && j < |got| - 1
    ensures var o := OwnerAfter(owner, name, got, n0, w, behind, e', x);
            got[j] in o && o[got[j]] == (name, Data(n0 + 1 + j))
  {
    PositionIs(got, j);
    assert got[j] in got && got[j] != last;
    assert Given(got, n0)[got[j]] == SlotOf(got, n0, got[j]);
  }

  /** And of the other blocks in use. */
  lemma OwnerOfOthers(owner: map<nat, (string, Slot)>, name: string, got: seq<nat>, n0: nat, w: nat, last: nat,
                      behind: bool, e: nat, e': nat, x: string, b: nat)
    requires Values(owner, got, w, last, behind, e, e', x) && b in owner && !(behind && b == e)
    ensures var o := OwnerAfter(owner, name, got, n0, w, behind, e', x);
            b in o && o[b] == owner[b]
  {
    assert last in got;
  }

  /** All of that: what an owner map has to say after the loop. */
  ghost predicate Agrees(o: map<nat, (string, Slot)>, owner: map<nat, (string, Slot)>, name: string, got: seq<nat>,
                         n0: nat, w: nat, behind: bool, e: nat, e': nat, x: string) {
    && o.Keys == owner.Keys + (set b | b in got)
    && w in o && o[w] == (name, Data(n0))
    && (behind ==> e' in o && o[e'] == (x, Data(1)))
    && (forall j {:trigger got[j]} :: 0 <= j < |got| - 1 ==> got[j] in o && o[got[j]] == (name, Data(n0 + 1 + j)))
    && (forall b {:trigger owner[b]} :: b in owner && !(behind && b == e) ==> b in o && o[b] == owner[b])
  }

  lemma OwnerAgrees(owner: map<nat, (string, Slot)>, name: string, got: seq<nat>, n0: nat, w: nat, last: nat,
                    behind: bool, e: nat, e': nat, x: string)
    requires Values(owner, got, w, last, behind, e, e', x)
    ensures Agrees(OwnerAfter(owner, name, got, n0, w, behind, e', x), owner, name, got, n0, w, behind, e, e', x)
  {
    OwnerOfWords(owner, name, got, n0, w, last, behind, e, e', x);
    var o := OwnerAfter(owner, name, got, n0, w, behind, e', x);
    forall j | 0 <= j < |got| - 1 ensures got[j] in o && o[got[j]] == (name, Data(n0 + 1 + j)) {
      OwnerOfTaken(owner, name, got, n0, w, last, behind, e, e', x, j);
    }
    forall b | b in owner && !(behind && b == e) ensures b in o && o[b] == owner[b] {
      OwnerOfOthers(owner, name, got, n0, w, last, behind, e, e', x, b);
    }
  }

  ghost predicate FitsAfter(fs: Fs, g: Fs, bs: nat, name: string, got: seq<nat>) {
    && Filled(fs, g, bs, name, got)
    && var p := fs.files[name].indirect;
       Fits(PointerBehind(fs, name), Skipped(fs, bs, name), got[|got| - 1], FirstBehind(fs.disk, p),
           FirstBehind(g.disk, p))
  }

  lemma PositionIs(got: seq<nat>, j: nat)
    requires Apart(got) && j < |got|
    ensures Position(got, got[j]) == j
  {
  }

  /** The values for a state. */
  ghost predicate ValuesOf(fs: Fs, g: Fs, bs: nat, name: string, got: seq<nat>, w: nat, last: nat, behind: bool, e: nat,
                           e': nat, x: string) {
    && bs > 0 && name in fs.files && Count(fs.files[name], bs) > 0
    && (var p := fs.files[name].indirect;
        && w == Skipped(fs, bs, name) && behind == PointerBehind(fs, name)
        && e == FirstBehind(fs.disk, p) && e' == FirstBehind(g.disk, p)
        && (behind ==> p + 1 in fs.owner && fs.owner[p + 1] == (x, Pointer)))
    && Values(fs.owner, got, w, last, behind, e, e', x) && Filled(fs, g, bs, name, got)
  }

  lemma TheValues(fs: Fs, g: Fs, bs: nat, name: string, got: seq<nat>) returns (x: string)
    requires Blocks.Inv(fs, bs) && FitsAfter(fs, g, bs, name, got)
    ensures var p := fs.files[name].indirect;
            ValuesOf(fs, g, bs, name, got, Skipped(fs, bs, name), got[|got| - 1], PointerBehind(fs, name),
                     FirstBehind(fs.disk, p), FirstBehind(g.disk, p), x)
  {
    forall b | b in got ensures b !in fs.owner {
      assert !fs.bits[b];
    }
    x := "";
    if PointerBehind(fs, name) {
      x := PointerBehindIs(fs, bs, name);
      BehindIs(fs, bs, name, x, Data(1));
    }
  }

  lemma AllRecorded(fs: Fs, g: Fs, bs: nat, name: string, got: seq<nat>, n0: nat, w: nat, last: nat, behind: bool,
                    e: nat, e': nat, x: string, o: map<nat, (string, Slot)>, y: string, t: Slot)
    requires Blocks.Inv(fs, bs) && ValuesOf(fs, g, bs, name, got, w, last, behind, e, e', x)
    requires Agrees(o, fs.owner, name, got, n0, w, behind, e, e', x) && Owns(g, bs, y, t)
             && n0 == Count(fs.files[name], bs)
    ensures Recorded(g, bs, o, y, t)
  {
    SlotCases(fs, g, bs, name, got, y, t);
    if Owns(fs, bs, y, t) && Behind(fs, name, y, t) { BehindIs(fs, bs, name, y, t); }
    if behind {
      assert Uses(fs, bs, x, Pointer, fs.files[name].indirect + 1);
      SlotOwner(fs, bs, name, Pointer);
    }
  }

  /** The inverse of `SlotCases`. */
  lemma SlotStays(fs: Fs, g: Fs, bs: nat, name: string, got: seq<nat>, y: string, t: Slot, b: nat)
    requires Blocks.Inv(fs, bs) && Filled(fs, g, bs, name, got) && Uses(fs, bs, y, t, b) && !Behind(fs, name, y, t)
    ensures Uses(g, bs, y, t, b)
  {
    CountFilled(fs, g, bs, name, got);
    if y == name {
      OwnSlot(fs, g, bs, name, got, t, Count(fs.files[name], bs));
    } else {
      OtherSlot(fs, g, bs, name, got, y, t);
    }
  }

  lemma OwnUse(fs: Fs, g: Fs, bs: nat, name: string, got: seq<nat>, n0: nat, k: nat, b: nat)
    requires Blocks.Inv(fs, bs) && Filled(fs, g, bs, name, got) && n0 == Count(fs.files[name], bs) <= k < n0 + |got|
    requires b == (if k == n0 then Skipped(fs, bs, name) else got[k - n0 - 1]) && b < |fs.disk|
    ensures Uses(g, bs, name, Data(k), b)
  {
    CountFilled(fs, g, bs, name, got);
    OwnSlot(fs, g, bs, name, got, Data(k), n0);
  }

  lemma InRange(fs: Fs, bs: nat, got: seq<nat>, b: nat)
    requires Blocks.Inv(fs, bs) && Fresh(fs, got) && (b in fs.owner || b in got)
    ensures b < |fs.disk|
  {
    if b in fs.owner { assert Uses(fs, bs, fs.owner[b].0, fs.owner[b].1, b); }
  }

  lemma BehindUse(fs: Fs, g: Fs, bs: nat, name: string, got: seq<nat>, x: string, b: nat)
    requires Blocks.Inv(fs, bs) && Filled(fs, g, bs, name, got)
    requires PointerBehind(fs, name) && fs.owner[fs.files[name].indirect + 1] == (x, Pointer)
    requires b == FirstBehind(g.disk, fs.files[name].indirect) && b < |fs.disk|
    ensures Uses(g, bs, x, Data(1), b)
  {
    assert Uses(fs, bs, x, Pointer, fs.files[name].indirect + 1);
    SlotOwner(fs, bs, name, Pointer);
  }

  lemma NotLast(owner: map<nat, (string, Slot)>, got: seq<nat>, w: nat, last: nat, behind: bool, e: nat, e': nat,
                x: string, j: nat)
    requires Values(owner, got, w, last, behind, e, e', x) && j < |got| && got[j] != w && !(behind && got[j] == e')
    ensures j < |got| - 1
  {
  }

  lemma TakenUse(fs: Fs, g: Fs, bs: nat, name: string, got: seq<nat>, n0: nat, w: nat, last: nat, behind: bool, e: nat,
                 e': nat, x: string, o: map<nat, (string, Slot)>, j: nat, b: nat)
    requires Blocks.Inv(fs, bs) && ValuesOf(fs, g, bs, name, got, w, last, behind, e, e', x)
    requires Agrees(o, fs.owner, name, got, n0, w, behind, e, e', x) && n0 == Count(fs.files[name], bs)
    requires j < |got| && b == got[j] && b != w && !(behind && b == e')
    ensures b in o && Uses(g, bs, o[b].0, o[b].1, b)
  {
    NotLast(fs.owner, got, w, last, behind, e, e', x, j);
    OwnUse(fs, g, bs, name, got, n0, n0 + 1 + j, b);
  }

  lemma InUseStays(fs: Fs, g: Fs, bs: nat, name: string, got: seq<nat>, n0: nat, w: nat, last: nat, behind: bool,
                   e: nat, e': nat, x: string, o: map<nat, (string, Slot)>, b: nat)
    requires Blocks.Inv(fs, bs) && ValuesOf(fs, g, bs, name, got, w, last, behind, e, e', x)
    requires Agrees(o, fs.owner, name, got, n0, w, behind, e, e', x)
    requires b in fs.owner && b != w && !(behind && b == e')
    ensures b in o && Uses(g, bs, o[b].0, o[b].1, b)
  {
    StillUsed(fs, g, bs, name, got, behind, e, x, b);
  }

  lemma AllUsed(fs: Fs, g: Fs, bs: nat, name: string, got: seq<nat>, n0: nat, w: nat, last: nat, behind: bool, e: nat,
                e': nat, x: string, o: map<nat, (string, Slot)>, b: nat)
    requires Blocks.Inv(fs, bs) && ValuesOf(fs, g, bs, name, got, w, last, behind, e, e', x)
    requires Agrees(o, fs.owner, name, got, n0, w, behind, e, e', x) && b in o && n0 == Count(fs.files[name], bs)
    ensures Uses(g, bs, o[b].0, o[b].1, b)
  {
    InRange(fs, bs, got, b);
    if b == w {
      OwnUse(fs, g, bs, name, got, n0, n0, b);
    } else if behind && b == e' {
      BehindUse(fs, g, bs, name, got, x, b);
    } else if b in fs.owner {
      InUseStays(fs, g, bs, name, got, n0, w, last, behind, e, e', x, o, b);
    } else {
      var j :| 0 <= j < |got| && got[j] == b;
      TakenUse(fs, g, bs, name, got, n0, w, last, behind, e, e', x, o, j, b);
    }
  }

  lemma StillUsed(fs: Fs, g: Fs, bs: nat, name: string, got: seq<nat>, behind: bool, e: nat, x: string, b: nat)
    requires Blocks.Inv(fs, bs) && Filled(fs, g, bs, name, got) && b in fs.owner && behind == PointerBehind(fs, name)
    requires behind ==> e in fs.owner && b != e && e == FirstBehind(fs.disk, fs.files[name].indirect)
    ensures Uses(g, bs, fs.owner[b].0, fs.owner[b].1, b)
  {
    var (y, t) := fs.owner[b];
    assert Uses(fs, bs, y, t, b);
    if Behind(fs, name, y, t) { BehindIs(fs, bs, name, y, t); }
    SlotStays(fs, g, bs, name, got, y, t, b);
  }

  lemma ThenFits(fs: Fs, g: Fs, bs: nat, name: string, got: seq<nat>)
    requires Blocks.Inv(fs, bs) && FitsAfter(fs, g, bs, name, got)
    ensures Ownable(g, bs)
  {
    var x := TheValues(fs, g, bs, name, got);
    var p, n0 := fs.files[name].indirect, Count(fs.files[name], bs);
    var w, last, behind, e, e' :=
      Skipped(fs, bs, name), got[|got| - 1], PointerBehind(fs, name), FirstBehind(fs.disk, p), FirstBehind(g.disk, p);
    OwnerAgrees(fs.owner, name, got, n0, w, last, behind, e, e', x);
    ThenExplained(fs, g, bs, name, got, n0, w, last, behind, e, e', x,
        OwnerAfter(fs.owner, name, got, n0, w, behind, e', x));
  }

  lemma ThenExplained(fs: Fs, g: Fs, bs: nat, name: string, got: seq<nat>, n0: nat, w: nat, last: nat, behind: bool,
                      e: nat, e': nat, x: string, o: map<nat, (string, Slot)>)
    requires Blocks.Inv(fs, bs) && ValuesOf(fs, g, bs, name, got, w, last, behind, e, e', x)
    requires Agrees(o, fs.owner, name, got, n0, w, behind, e, e', x) && n0 == Count(fs.files[name], bs)
    ensures Ownable(g, bs)
  {
    forall y, t | Owns(g, bs, y, t) ensures Recorded(g, bs, o, y, t) {
      AllRecorded(fs, g, bs, name, got, n0, w, last, behind, e, e', x, o, y, t);
    }
    forall b | b in o ensures Uses(g, bs, o[b].0, o[b].1, b) {
      AllUsed(fs, g, bs, name, got, n0, w, last, behind, e, e', x, o, b);
    }
    Explained(fs, g, bs, name, got, o);
  }

  /** Growing as written to a full pointer block keeps every used block in exactly one slot of one file if and only if
      the word skipped names the last block taken; or, when the block behind is another file's pointer block, whose
      first word the loop overwrites, that word keeps its value, or it comes to name the last block taken and the word
      skipped names the block it named before. */
  lemma FillsRightIff(fs: Fs, g: Fs, bs: nat, name: string, got: seq<nat>)
    requires Blocks.Inv(fs, bs) && Filled(fs, g, bs, name, got)
    ensures Ownable(g, bs) <==> FitsAfter(fs, g, bs, name, got)
  {
    if FitsAfter(fs, g, bs, name, got) { ThenFits(fs, g, bs, name, got); }
    forall owner | Explains(g, bs, owner) ensures FitsAfter(fs, g, bs, name, got) {
      FitsThen(fs, g, bs, name, got, owner);
    }
  }

  // ----- the loop -----

  /** The first word behind the pointer block depends on the last block taken alone. */
  lemma BehindAfter(fs: Fs, bs: nat, name: string, got: seq<nat>, p: nat, last: nat)
    requires CanFill(fs, bs, name, got) && p == fs.files[name].indirect && last == got[|got| - 1]
    ensures FirstBehind(FilledDisk(fs, bs, name, got), p) == FirstBehind(PutBehind(fs.disk, bs, p, last), p)
  {
    var c := PutEntries(fs.disk, p, Count(fs.files[name], bs), got, |got| - 1);
    assert c[p + 1] == fs.disk[p + 1];
    EntryElsewhere(PutBehind(fs.disk, bs, p, last), PutBehind(c, bs, p, last), p + 1, 0);
  }

  /** What can be seen before the call: the `m`-th free block is the last that will be taken, and it fits. */
  ghost predicate WillFillRight(fs: Fs, bs: nat, name: string, m: nat) {
    && bs >= 4 && name in fs.files && Count(fs.files[name], bs) > 0 && Shaped(fs.disk, bs)
    && exists b: nat :: NthFree(fs.bits, m, b) && FitsWith(fs, bs, name, b)
  }

  ghost predicate FitsWith(fs: Fs, bs: nat, name: string, b: nat)
    requires bs >= 4 && name in fs.files && Count(fs.files[name], bs) > 0 && Shaped(fs.disk, bs)
  {
    var p := fs.files[name].indirect;
    && b < WORD_LIMIT && p + 1 < |fs.disk|
    && Fits(PointerBehind(fs, name), Skipped(fs, bs, name), b, FirstBehind(fs.disk, p),
        FirstBehind(PutBehind(fs.disk, bs, p, b), p))
  }

  lemma FillSeenBefore(fs: Fs, g: Fs, bs: nat, name: string, got: seq<nat>, m: nat)
    requires Filled(fs, g, bs, name, got) && FirstFrees(fs.bits, got) && m == |got|
    ensures FitsAfter(fs, g, bs, name, got) <==> WillFillRight(fs, bs, name, m)
  {
    var last := got[|got| - 1];
    BehindAfter(fs, bs, name, got, fs.files[name].indirect, last);
    forall b: nat ensures b == last <==> NthFree(fs.bits, m, b) {
      LastTaken(fs.bits, got, last, b);
    }
    assert FitsAfter(fs, g, bs, name, got) <==> FitsWith(fs, bs, name, last);
  }

  /** The last block marked, its number stored behind the pointer block and the control block stored. */
  lemma FilledNow(fs: Fs, g: Fs, h: Fs, bs: nat, name: string, got: seq<nat>, f: Fcb, b: nat)
    requires Blocks.Inv(fs, bs) && Taking(fs, g, bs, name, got, f) && CanFill(fs, bs, name, got + [b])
             && |g.disk| == |fs.disk|
    requires Shaped(g.disk, bs) && b < |g.bits| && h.bits == g.bits[b := true]
             && h.disk == PutBehind(g.disk, bs, f.indirect, b)
    requires h.files == g.files[name := f.(size := Offset(1 + bs / 4, bs))]
    ensures Filled(fs, h, bs, name, got + [b])
  {
    var more := got + [b];
    PutEntriesSame(fs.disk, fs.files[name].indirect, Count(fs.files[name], bs), got, b, |got|);
    assert more[|got|] == b;
  }

  lemma CanFillNow(fs: Fs, g: Fs, bs: nat, name: string, got: seq<nat>, f: Fcb, b: nat)
    requires Blocks.Inv(fs, bs) && Taking(fs, g, bs, name, got, f) && b < |g.bits| && !g.bits[b]
    requires Count(fs.files[name], bs) >= 2 && Count(fs.files[name], bs) + |got| == bs / 4
             && fs.files[name].indirect + 1 < |fs.disk|
    ensures CanFill(fs, bs, name, got + [b]) && f.indirect == fs.files[name].indirect
  {
    var more := got + [b];
    forall i | 0 <= i < |more| ensures more[i] < |fs.bits| && !fs.bits[more[i]] && (i < |got| ==> more[i] != b) {
      assert i < |got| ==> more[i] in got;
    }
  }

  /** The last turn. */
  method TakeLast(d: FileSystem, ghost fs: Fs, name: string, ghost got: seq<nat>, f: Fcb) returns (ghost b: nat)
    requires d.Sized() && Blocks.Inv(fs, d.bs) && Taking(fs, d.State(), d.bs, name, got, f) && FirstFrees(fs.bits, got)
    requires Count(fs.files[name], d.bs) >= 2 && Count(fs.files[name], d.bs) + |got| == d.bs / 4
    requires fs.files[name].indirect + 1 < |fs.disk| == d.bc && FreeCount(d.bitmap[..]) > 0
    modifies d`files, d.bitmap, d.blocks
    ensures Filled(fs, d.State(), d.bs, name, got + [b]) && FirstFrees(fs.bits, got + [b])
  {
    ghost var g := d.State();
    var free := d.FindFree();
    b := free;
    CanFillNow(fs, g, d.bs, name, got, f, b);
    NextFree(fs.bits, g.bits, got, b);
    d.bitmap[free] := true;
    assert d.bitmap[..] == g.bits[free := true];
    ghost var marked := d.State();
    assert marked == g.(bits := g.bits[free := true]);
    StoreBehind(d, f.indirect, free);
    assert d.State().disk == PutBehind(g.disk, d.bs, f.indirect, b) && d.bitmap[..] == g.bits[b := true];
    d.files := d.files[name := f.(size := Offset(1 + d.bs / 4, d.bs))];
    FilledNow(fs, g, d.State(), d.bs, name, got, f, b);
  }

  /** `memcpy` of the word behind the last one. */
  method StoreBehind(d: FileSystem, p: nat, b: nat)
    requires d.Sized() && p + 1 < d.bc && b < WORD_LIMIT
    modifies d.blocks
    ensures d.State() == old(d.State()).(disk := PutBehind(old(d.State()).disk, d.bs, p, b))
  {
    d.PutChunk(p, d.bs - Spare(d.bs), Word(b)[..Spare(d.bs)]);
    d.PutChunk(p + 1, 0, Word(b)[Spare(d.bs)..]);
  }

  /** `truncar_archivo` upwards to a full pointer block. */
  method FillAsWritten(d: FileSystem, name: string) returns (ghost got: seq<nat>)
    requires d.Inv() && name in d.files && 2 <= Count(d.files[name], d.bs) <= d.bs / 4
             && d.files[name].indirect + 1 < d.bc
    requires 1 + d.bs / 4 - Count(d.files[name], d.bs) <= FreeCount(d.bitmap[..])
    modifies d`files, d.bitmap, d.blocks
    ensures |got| == 1 + d.bs / 4 - Count(old(d.files[name]), d.bs) && FirstFrees(old(d.bitmap[..]), got)
    ensures Filled(old(d.State()), d.State(), d.bs, name, got)
    ensures Ownable(d.State(), d.bs)
            <==> WillFillRight(old(d.State()), d.bs, name, 1 + d.bs / 4 - Count(old(d.files[name]), d.bs))
  {
    ghost var fs := d.State();
    var n0 := Count(d.files[name], d.bs);
    CanStart(fs, d.bs, name, d.files[name], d.bs / 4);
    var f;
    f, got := TakeBlocks(d, fs, name, n0, d.bs / 4);
    ghost var b := TakeLast(d, fs, name, got, f);
    got := got + [b];
    FillsRightIff(fs, d.State(), d.bs, name, got);
    FillSeenBefore(fs, d.State(), d.bs, name, got, |got|);
  }
}
