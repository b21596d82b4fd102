/** Parts of the filesystem module as they stand in the source, and exactly when they do what is meant. */
module FilesAsWritten {
  import opened Bitmap
  import opened Blocks
  import opened FileSystemModule
  import opened Geometry

  /** `buscar_proximo_bloque_libre` as written, from turn `i` of its loop on: another turn only while the last block
      looked at was in use. */
  function SearchFrom(bits: seq<bool>, i: nat, used: bool, free: nat): nat
    requires i <= |bits|
    decreases |bits| - i
  {
    if i < |bits| && used then SearchFrom(bits, i + 1, bits[i], i) else free
  }

  /** The first free block, if there is one. */
  ghost predicate FirstFree(bits: seq<bool>, b: nat) {
    b < |bits| && !bits[b] && forall i :: 0 <= i < b ==> bits[i]
  }

  /** The search starts with no block looked at, and so it finds the first free block exactly when that is block 0. */
  lemma FreeSearchIff(bits: seq<bool>)
    requires |bits| > 0
    ensures FirstFree(bits, SearchFrom(bits, 0, false, 0)) <==> !bits[0]
  {
  }

  /** Started as if a block in use had just been looked at, the same loop finds the first free block of any bitmap that
      has one, though only after looking at it. */
  lemma {:induction false} FreeSearchStarted(bits: seq<bool>, i: nat, free: nat, b: nat)
    requires i <= b && FirstFree(bits, b)
    ensures SearchFrom(bits, i, true, free) == b
    decreases b - i
  {
    if i < b { FreeSearchStarted(bits, i + 1, i, b); }
  }

  // ----- the boot-time rebuild -----

  /** `marcarBloques` for one file as written: the pointer block is marked whatever the size. A bit behind the bitmap is
      outside the model. */
  method MarkAsWritten(d: FileSystem, name: string)
    requires d.Sized() && Layout(d.State(), d.bs) && name in d.files && Count(d.files[name], d.bs) > 0
    modifies d.bitmap
    ensures Layout(d.State(), d.bs)
    ensures forall b {:trigger d.bitmap[b]} :: 0 <= b < d.bc ==>
              (d.bitmap[b] <==>
                old(d.bitmap[b]) || (b in d.owner && d.owner[b].0 == name) || b == d.files[name].indirect)
  {
    ghost var fs := d.State();
    var f, n := d.files[name], Count(d.files[name], d.bs);
    SlotOwner(fs, d.bs, name, Data(0));
    d.bitmap[f.direct] := true;
    if f.indirect < d.bc {
      d.bitmap[f.indirect] := true;
    }
    if n >= 2 { SlotOwner(fs, d.bs, name, Pointer); }
    d.MarkPointers(fs, name, n);
    LayoutIgnoresBits(fs, d.State(), d.bs);
    forall b | b in d.owner && d.owner[b].0 == name ensures Has(n, d.owner[b].1) {
      OwnedSlots(fs, d.bs, name, b);
    }
  }

  predicate Dot(name: string) {
    name == "." || name == ".."
  }

  /** Where a listing first shows a directory, `.` or `..`. */
  function FirstDot(listing: seq<string>): (k: nat)
    ensures k <= |listing| && (k < |listing| ==> Dot(listing[k]))
    ensures forall i :: 0 <= i < k ==> !Dot(listing[i])
  {
    if listing == [] || Dot(listing[0]) then 0 else 1 + FirstDot(listing[1..])
  }

  function Names(listing: seq<string>, k: nat): (names: set<string>)
    requires k <= |listing|
  {
    if k == 0 then {} else Names(listing, k - 1) + {listing[k - 1]}
  }

  /** The files read: those listed before the first directory. */
  function Before(listing: seq<string>): set<string> {
    Names(listing, FirstDot(listing))
  }

  /** A listing of the control blocks' directory: every file, and the directory itself. */
  ghost predicate Lists(listing: seq<string>, files: map<string, Fcb>) {
    && (exists i :: 0 <= i < |listing| && Dot(listing[i]))
    && (forall i :: 0 <= i < |listing| && !Dot(listing[i]) ==> listing[i] in files)
  }

  /** `b` is the unused indirect pointer of a file of one block among those read. */
  ghost predicate Stray(files: map<string, Fcb>, bs: nat, read: set<string>, b: nat)
    requires bs > 0
  {
    exists name :: name in read && name in files && Count(files[name], bs) == 1 && files[name].indirect == b
  }

  /** What the rebuild marks, once the files in `read` have been read. */
  ghost predicate Marked(fs: Fs, bs: nat, read: set<string>, b: nat)
    requires bs > 0
  {
    (b in fs.owner && fs.owner[b].0 in read) || Stray(fs.files, bs, read, b)
  }

  /** One more file read. */
  lemma MarkedMore(fs: Fs, bs: nat, read: set<string>, name: string, b: nat)
    requires Layout(fs, bs) && name in fs.files
    ensures Marked(fs, bs, read + {name}, b) <==>
              Marked(fs, bs, read, b)
              || (Count(fs.files[name], bs) > 0
                  && ((b in fs.owner && fs.owner[b].0 == name) || b == fs.files[name].indirect))
  {
    var n := Count(fs.files[name], bs);
    if b in fs.owner && fs.owner[b].0 == name {
      OwnedSlots(fs, bs, name, b);
    }
    if n >= 2 { SlotOwner(fs, bs, name, Pointer); }
    if n == 1 && b == fs.files[name].indirect { assert Stray(fs.files, bs, read + {name}, b); }
    assert Stray(fs.files, bs, read, b) ==> Stray(fs.files, bs, read + {name}, b);
  }

  /** `leerFCBs` as written: files are read until the listing shows a directory. */
  method RebuildAsWritten(d: FileSystem, listing: seq<string>)
    requires d.Sized() && Layout(d.State(), d.bs) && Lists(listing, d.files)
    modifies d.bitmap
    ensures d.State() == old(d.State()).(bits := d.bitmap[..])
    ensures forall b {:trigger d.bitmap[b]} ::
              0 <= b < d.bc ==> (d.bitmap[b] <==> Marked(d.State(), d.bs, Before(listing), b))
  {
    ghost var fs := d.State();
    Paint(d.bitmap, 0, d.bc, false);
    LayoutIgnoresBits(fs, d.State(), d.bs);
    assert forall b :: !Marked(fs, d.bs, Names(listing, 0), b);
    var k := 0;
    while !Dot(listing[k])
      invariant k <= FirstDot(listing) < |listing|
      invariant d.State() == fs.(bits := d.bitmap[..])
      invariant forall b {:trigger d.bitmap[b]} ::
                  0 <= b < d.bc ==> (d.bitmap[b] <==> Marked(fs, d.bs, Names(listing, k), b))
      decreases |listing| - k
    {
      ReadOne(d, fs, Names(listing, k), listing[k]);
      k := k + 1;
    }
  }

  /** One control block read. */
  method ReadOne(d: FileSystem, ghost fs: Fs, ghost read: set<string>, name: string)
    requires d.Sized() && Layout(fs, d.bs) && name in d.files && d.State() == fs.(bits := d.bitmap[..])
    requires forall b {:trigger d.bitmap[b]} :: 0 <= b < d.bc ==> (d.bitmap[b] <==> Marked(fs, d.bs, read, b))
    modifies d.bitmap
    ensures d.State() == fs.(bits := d.bitmap[..])
    ensures forall b {:trigger d.bitmap[b]} :: 0 <= b < d.bc ==> (d.bitmap[b] <==> Marked(fs, d.bs, read + {name}, b))
  {
    LayoutIgnoresBits(fs, d.State(), d.bs);
    if Count(d.files[name], d.bs) > 0 {
      MarkAsWritten(d, name);
    }
    forall b | 0 <= b < d.bc ensures d.bitmap[b] <==> Marked(fs, d.bs, read + {name}, b) {
      MarkedMore(fs, d.bs, read, name, b);
    }
  }

  /** Every live block belongs to a file that is read or is some read file's stray pointer, and no stray pointer names a
      block nobody owns: what can be seen of the rebuild before it runs. */
  ghost predicate ReadsEnough(fs: Fs, bs: nat, read: set<string>)
    requires bs > 0
  {
    && (forall b :: b in fs.owner && b < |fs.disk| ==> fs.owner[b].0 in read || Stray(fs.files, bs, read, b))
    && (forall name ::
          name in read && name in fs.files && Count(fs.files[name], bs) == 1 && fs.files[name].indirect < |fs.disk| ==>
            fs.files[name].indirect in fs.owner)
  }

  /** The rebuild as written ends with the live bitmap if and only if it reads enough. */
  method BootAsWritten(d: FileSystem, listing: seq<string>)
    requires d.Sized() && Layout(d.State(), d.bs) && Lists(listing, d.files)
    modifies d.bitmap
    ensures d.Inv() <==> ReadsEnough(old(d.State()), d.bs, Before(listing))
  {
    ghost var fs := d.State();
    RebuildAsWritten(d, listing);
    LayoutIgnoresBits(fs, d.State(), d.bs);
    RightIff(d.State(), d.bs, Before(listing));
  }

  lemma RightIff(fs: Fs, bs: nat, read: set<string>)
    requires Layout(fs, bs) && |fs.bits| == |fs.disk|
    requires forall b {:trigger fs.bits[b]} :: 0 <= b < |fs.bits| ==> (fs.bits[b] <==> Marked(fs, bs, read, b))
    ensures BitsMatch(fs) <==> ReadsEnough(fs, bs, read)
  {
    if BitsMatch(fs) {
      forall b | b in fs.owner && b < |fs.disk| ensures fs.owner[b].0 in read || Stray(fs.files, bs, read, b) {
        assert fs.bits[b];
      }
      forall name | name in read && name in fs.files && Count(fs.files[name], bs) == 1
          && fs.files[name].indirect < |fs.disk|
        ensures fs.files[name].indirect in fs.owner
      {
        assert Stray(fs.files, bs, read, fs.files[name].indirect);
        assert fs.bits[fs.files[name].indirect];
      }
    }
  }

  /** When the listing shows its directories last, the rebuild is right exactly when the unused indirect pointer of
      every file of one block names a block in use. */
  lemma AllReadIff(fs: Fs, bs: nat, read: set<string>)
    requires Layout(fs, bs) && fs.files.Keys <= read
    ensures ReadsEnough(fs, bs, read) <==>
              forall name ::
                    name in fs.files && Count(fs.files[name], bs) == 1 && fs.files[name].indirect < |fs.disk| ==>
                fs.files[name].indirect in fs.owner
  {
    forall b | b in fs.owner ensures fs.owner[b].0 in fs.files {
      assert Uses(fs, bs, fs.owner[b].0, fs.owner[b].1, b);
    }
  }

  /** A file of one block, not block 0, while block 0 is free: the rebuild as written marks block 0. */
  lemma StrayZero() returns (fs: Fs)
    ensures Blocks.Inv(fs, 4) && fs.files.Keys == {"a"} && !ReadsEnough(fs, 4, {"a"})
  {
    var f := Fcb(4, 1, 0);
    fs := Fs([[0, 0, 0, 0], [0, 0, 0, 0]], [false, true], map["a" := f], map[1 := ("a", Data(0))]);
    assert Count(f, 4) == 1 by { assert Quot(0, 4) == 0; }
    assert Offset(1, 4) == 4;
    assert Uses(fs, 4, "a", Data(0), 1);
    assert "a" in {"a"} && fs.files["a"].indirect !in fs.owner;
  }
}
