/** Layout of files on the block device, as a value: pointers, contents and block ownership. */
module Blocks {
  import opened Bytes
  import opened Geometry

  /** The block file, cut into blocks. */
  type Disk = seq<seq<byte>>

  /** A file control block: size in bytes, the direct pointer and the pointer to the pointer block. */
  datatype Fcb = Fcb(size: nat, direct: nat, indirect: nat)

  /** What a block can be to a file: its data block number `k`, or its pointer block. */
  datatype Slot = Data(k: nat) | Pointer

  /** Word `j` of block `p`. */
  function Entry(d: Disk, p: nat, j: nat): nat {
    if p < |d| && 4 * j + 4 <= |d[p]| then FromWord(d[p][4 * j..4 * j + 4]) else 0
  }

  /** A file of `n` blocks needs the pointer block from its second block on. */
  predicate Has(n: nat, s: Slot) {
    match s
    case Data(k) => k < n
    case Pointer => n >= 2
  }

  /** `encontrar_bloque_n`: block 0 is direct, block k is entry k - 1 of the pointer block. */
  function BlockAt(d: Disk, f: Fcb, s: Slot): nat {
    match s
    case Data(k) => if k == 0 then f.direct else Entry(d, f.indirect, k - 1)
    case Pointer => f.indirect
  }

  /** The numbers of the first `n` data blocks. */
  function Ptrs(d: Disk, f: Fcb, n: nat): (ps: seq<nat>)
    ensures |ps| == n
    ensures forall k {:trigger ps[k]} :: 0 <= k < n ==> ps[k] == BlockAt(d, f, Data(k))
  {
    seq(n, k requires 0 <= k < n => BlockAt(d, f, Data(k)))
  }

  /** The first `n` listed blocks, one after the other. */
  function Cat(d: Disk, ps: seq<nat>, n: nat): seq<byte>
    requires n <= |ps|
  {
    if n == 0 then [] else Cat(d, ps, n - 1) + if ps[n - 1] < |d| then d[ps[n - 1]] else []
  }

  /** The contents of a file of `n` blocks. */
  function Contents(d: Disk, f: Fcb, n: nat): seq<byte> {
    Cat(d, Ptrs(d, f, n), n)
  }

  datatype Fs = Fs(disk: Disk, bits: seq<bool>, files: map<string, Fcb>, owner: map<nat, (string, Slot)>)

  function Count(f: Fcb, bs: nat): nat
    requires bs > 0
  {
    Quot(f.size, bs)
  }

  ghost predicate Shaped(d: Disk, bs: nat) {
    forall b :: 0 <= b < |d| ==> |d[b]| == bs
  }

  /** Every file has a whole number of blocks, at most as many as one pointer block can name. */
  ghost predicate SizesOk(files: map<string, Fcb>, bs: nat)
    requires bs > 0
  {
    forall name {:trigger files[name]} :: name in files ==>
      files[name].size == Offset(Count(files[name], bs), bs) && Count(files[name], bs) <= 1 + bs / 4
  }

  /** `owner` is the inverse of `BlockAt`: every slot of every file has a block of its own. */
  ghost predicate Layout(fs: Fs, bs: nat) {
    && bs > 0
    && Shaped(fs.disk, bs)
    && SizesOk(fs.files, bs)
    && (forall name, s {:trigger BlockAt(fs.disk, fs.files[name], s)} :: Owns(fs, bs, name, s) ==>
          var b := BlockAt(fs.disk, fs.files[name], s); b in fs.owner && fs.owner[b] == (name, s))
    && (forall b {:trigger fs.owner[b]} :: b in fs.owner ==> Uses(fs, bs, fs.owner[b].0, fs.owner[b].1, b))
  }

  /** File `name` has a slot `s`. */
  ghost predicate Owns(fs: Fs, bs: nat, name: string, s: Slot) {
    bs > 0 && name in fs.files && Has(Count(fs.files[name], bs), s)
  }

  /** Block `b` is slot `s` of file `name`. */
  ghost predicate Uses(fs: Fs, bs: nat, name: string, s: Slot, b: nat) {
    Owns(fs, bs, name, s) && BlockAt(fs.disk, fs.files[name], s) == b && b < |fs.disk|
  }

  /** The set bits are exactly the owned blocks. */
  ghost predicate BitsMatch(fs: Fs) {
    |fs.bits| == |fs.disk| && forall b {:trigger fs.bits[b]} :: 0 <= b < |fs.bits| ==> (fs.bits[b] <==> b in fs.owner)
  }

  ghost predicate Inv(fs: Fs, bs: nat) {
    Layout(fs, bs) && BitsMatch(fs)
  }

  /** A bit is set exactly when its block belongs to some file, and then to one slot of one file only. */
  lemma BitMeansOneOwner(fs: Fs, bs: nat, b: nat)
    requires Inv(fs, bs) && b < |fs.bits|
    ensures fs.bits[b] <==> exists name, s :: Uses(fs, bs, name, s, b)
    ensures forall name, s, name', s' ::
              Uses(fs, bs, name, s, b) && Uses(fs, bs, name', s', b) ==> name == name' && s == s'
  {
    if fs.bits[b] {
      var (name, s) := fs.owner[b];
      assert Uses(fs, bs, name, s, b);
    }
  }

  /** No file is larger than one direct block plus one pointer block full of words. */
  lemma MaxFileSize(fs: Fs, bs: nat, name: string)
    requires Inv(fs, bs) && name in fs.files
    ensures fs.files[name].size <= (1 + bs / 4) * bs
  {
    OffsetMonotone(Count(fs.files[name], bs), 1 + bs / 4, bs);
    OffsetIsProduct(1 + bs / 4, bs);
    assert SizesOk(fs.files, bs);
  }

  // ----- slots and contents when blocks change -----

  /** A block that is not the pointer block of `f` can change without moving any of its slots. */
  lemma SlotsKept(d: Disk, f: Fcb, b: nat, x: seq<byte>, s: Slot)
    requires b < |d| && |x| == |d[b]|
    requires s.Data? && s.k > 0 ==> f.indirect != b
    ensures BlockAt(d[b := x], f, s) == BlockAt(d, f, s)
  {
  }

  lemma PtrsKept(d: Disk, f: Fcb, n: nat, b: nat, x: seq<byte>)
    requires b < |d| && |x| == |d[b]|
    requires n >= 2 ==> f.indirect != b
    ensures Ptrs(d[b := x], f, n) == Ptrs(d, f, n)
  {
    forall k | 0 <= k < n ensures Ptrs(d[b := x], f, n)[k] == Ptrs(d, f, n)[k] {
      SlotsKept(d, f, b, x, Data(k));
    }
  }

  /** Contents depend only on the listed blocks. */
  lemma {:induction false} CatSame(d: Disk, e: Disk, ps: seq<nat>, qs: seq<nat>, n: nat)
    requires n <= |ps| && n <= |qs|
    requires forall k {:trigger ps[k]} ::
               0 <= k < n ==> ps[k] == qs[k] && ps[k] < |d| && ps[k] < |e| && d[ps[k]] == e[ps[k]]
    ensures Cat(d, ps, n) == Cat(e, qs, n)
  {
    if n > 0 {
      CatSame(d, e, ps, qs, n - 1);
      assert ps[n - 1] == qs[n - 1];
    }
  }

  ghost predicate InRange(d: Disk, ps: seq<nat>, bs: nat) {
    forall k {:trigger ps[k]} :: 0 <= k < |ps| ==> ps[k] < |d| && |d[ps[k]]| == bs
  }

  lemma {:induction false} CatLength(d: Disk, ps: seq<nat>, n: nat, bs: nat)
    requires InRange(d, ps, bs) && n <= |ps|
    ensures |Cat(d, ps, n)| == Offset(n, bs)
  {
    if n > 0 {
      CatLength(d, ps, n - 1, bs);
      assert ps[n - 1] < |d|;
    }
  }

  /** Fewer blocks give a prefix. */
  lemma {:induction false} CatPrefix(d: Disk, ps: seq<nat>, m: nat, n: nat)
    requires m <= n <= |ps|
    ensures |Cat(d, ps, m)| <= |Cat(d, ps, n)|
    ensures Cat(d, ps, n)[..|Cat(d, ps, m)|] == Cat(d, ps, m)
  {
    if m < n {
      CatPrefix(d, ps, m, n - 1);
    }
  }

  /** Bytes inside the `k`-th block are the corresponding bytes of the whole. */
  lemma {:induction false} CatSlice(d: Disk, ps: seq<nat>, n: nat, bs: nat, k: nat, at: nat, o: nat, len: nat)
    requires InRange(d, ps, bs) && k < n <= |ps| && o + len <= bs && at == |Cat(d, ps, k)|
    ensures at + o + len <= |Cat(d, ps, n)|
    ensures Cat(d, ps, n)[at + o..at + o + len] == d[ps[k]][o..o + len]
  {
    assert ps[n - 1] < |d|;
    if k < n - 1 {
      CatSlice(d, ps, n - 1, bs, k, at, o, len);
    } else {
      AppendSlice(Cat(d, ps, n - 1), d[ps[k]], o, len);
    }
  }

  /** Writing inside the `k`-th block, when it is listed only once, is a splice of the whole. */
  lemma {:induction false} CatSplice(d: Disk, d': Disk, ps: seq<nat>, n: nat, bs: nat, k: nat, at: nat, o: nat,
                                     x: seq<byte>)
    requires InRange(d, ps, bs) && k < n <= |ps| && o + |x| <= bs && at == |Cat(d, ps, k)|
    requires forall j {:trigger ps[j]} :: 0 <= j < n && j != k ==> ps[j] != ps[k]
    requires d' == d[ps[k] := Splice(d[ps[k]], o, x)]
    ensures at + o + |x| <= |Cat(d, ps, n)|
    ensures Cat(d', ps, n) == Splice(Cat(d, ps, n), at + o, x)
  {
    if k < n - 1 {
      CatSplice(d, d', ps, n - 1, bs, k, at, o, x);
      assert d'[ps[n - 1]] == d[ps[n - 1]];
      SpliceLeft(Cat(d, ps, n - 1), d[ps[n - 1]], at + o, x);
    } else {
      CatLast(d, ps, k, d'[ps[k]], d');
      SpliceRight(Cat(d, ps, k), d[ps[k]], at, o, x);
    }
  }

  /** The same with the position in bytes. */
  lemma CatSpliceAt(d: Disk, d': Disk, ps: seq<nat>, n: nat, bs: nat, k: nat, p: nat, o: nat, x: seq<byte>)
    requires InRange(d, ps, bs) && k < n == |ps| && o + |x| <= bs && p == Offset(k, bs)
    requires forall j {:trigger ps[j]} :: 0 <= j < n && j != k ==> ps[j] != ps[k]
    requires d' == d[ps[k] := Splice(d[ps[k]], o, x)]
    ensures p + o + |x| <= |Cat(d, ps, n)|
    ensures Cat(d', ps, n) == Splice(Cat(d, ps, n), p + o, x)
  {
    CatLength(d, ps, k, bs);
    CatSplice(d, d', ps, n, bs, k, p, o, x);
  }

  /** The same for the contents of a file whose `k`-th data block is none of its other blocks. */
  lemma ContentsSplice(d: Disk, d': Disk, f: Fcb, ps: seq<nat>, n: nat, bs: nat, k: nat, p: nat, o: nat, x: seq<byte>)
    requires ps == Ptrs(d, f, n) && InRange(d, ps, bs) && k < n && o + |x| <= bs && p == Offset(k, bs)
    requires forall j {:trigger ps[j]} :: 0 <= j < n && j != k ==> ps[j] != ps[k]
    requires n >= 2 ==> f.indirect != ps[k]
    requires d' == d[ps[k] := Splice(d[ps[k]], o, x)]
    ensures p + o + |x| <= |Contents(d, f, n)|
    ensures Contents(d', f, n) == Splice(Contents(d, f, n), p + o, x)
  {
    PtrsKept(d, f, n, ps[k], d'[ps[k]]);
    CatSpliceAt(d, d', ps, n, bs, k, p, o, x);
  }

  /** Bytes inside data block `k` are the corresponding bytes of the contents. */
  lemma ContentsSlice(d: Disk, f: Fcb, n: nat, bs: nat, k: nat, o: nat, len: nat)
    requires InRange(d, Ptrs(d, f, n), bs) && k < n && o + len <= bs
    ensures BlockAt(d, f, Data(k)) < |d| && |d[BlockAt(d, f, Data(k))]| == bs
    ensures Offset(k, bs) + o + len <= |Contents(d, f, n)|
    ensures Contents(d, f, n)[Offset(k, bs) + o..Offset(k, bs) + o + len] == d[BlockAt(d, f, Data(k))][o..o + len]
  {
    assert Ptrs(d, f, n)[k] == BlockAt(d, f, Data(k));
    CatSliceAt(d, Ptrs(d, f, n), n, bs, k, o, len);
  }

  /** `CatSlice` with the position in bytes. */
  lemma CatSliceAt(d: Disk, ps: seq<nat>, n: nat, bs: nat, k: nat, o: nat, len: nat)
    requires InRange(d, ps, bs) && k < n == |ps| && o + len <= bs
    ensures Offset(k, bs) + o + len <= |Cat(d, ps, n)|
    ensures Cat(d, ps, n)[Offset(k, bs) + o..Offset(k, bs) + o + len] == d[ps[k]][o..o + len]
  {
    CatLength(d, ps, k, bs);
    CatSlice(d, ps, n, bs, k, Offset(k, bs), o, len);
  }

  lemma CatLast(d: Disk, ps: seq<nat>, k: nat, y: seq<byte>, d': Disk)
    requires k < |ps| && ps[k] < |d| && d' == d[ps[k] := y]
    requires forall j {:trigger ps[j]} :: 0 <= j < k ==> ps[j] < |d| && ps[j] != ps[k]
    ensures Cat(d', ps, k + 1) == Cat(d, ps, k) + y
  {
    CatSame(d, d', ps, ps, k);
  }

  lemma AppendSlice(s: seq<byte>, x: seq<byte>, o: nat, len: nat)
    requires o + len <= |x|
    ensures (s + x)[|s| + o..|s| + o + len] == x[o..o + len]
  {
  }

  lemma SpliceLeft(s: seq<byte>, t: seq<byte>, at: nat, x: seq<byte>)
    requires at + |x| <= |s|
    ensures Splice(s + t, at, x) == Splice(s, at, x) + t
  {
  }

  lemma SpliceRight(s: seq<byte>, t: seq<byte>, at: nat, o: nat, x: seq<byte>)
    requires o + |x| <= |t| && at == |s|
    ensures Splice(s + t, at + o, x) == s + Splice(t, o, x)
  {
  }

  // ----- the flat block file -----

  /** The flat block file cut into `n` blocks of `bs` bytes. */
  function Chop(flat: seq<byte>, bs: nat, n: nat): (d: Disk)
    requires Offset(n, bs) <= |flat|
    ensures |d| == n && forall b :: 0 <= b < n ==> |d[b]| == bs
  {
    if n == 0 then []
    else
      Chop(flat, bs, n - 1) + [flat[Offset(n - 1, bs)..Offset(n, bs)]]
  }

  lemma {:induction false} ChopAt(flat: seq<byte>, bs: nat, n: nat, b: nat)
    requires Offset(n, bs) <= |flat| && b < n
    ensures Offset(b, bs) + bs <= |flat| && Chop(flat, bs, n)[b] == flat[Offset(b, bs)..Offset(b, bs) + bs]
  {
    OffsetMonotone(b + 1, n, bs);
    if b < n - 1 {
      ChopAt(flat, bs, n - 1, b);
    }
  }

  /** Copying bytes into the flat file at block `b`, offset `o`, changes that block and no other. */
  lemma ChopSplice(flat: seq<byte>, bs: nat, n: nat, b: nat, o: nat, x: seq<byte>)
    requires Offset(n, bs) <= |flat| && b < n && o + |x| <= bs
    ensures Offset(b, bs) + o + |x| <= |flat|
    ensures Chop(Splice(flat, Offset(b, bs) + o, x), bs, n)
            == Chop(flat, bs, n)[b := Splice(Chop(flat, bs, n)[b], o, x)]
  {
    ChopAt(flat, bs, n, b);
    var flat' := Splice(flat, Offset(b, bs) + o, x);
    forall c | 0 <= c < n
      ensures Chop(flat', bs, n)[c] == Chop(flat, bs, n)[b := Splice(Chop(flat, bs, n)[b], o, x)][c]
    {
      ChopAt(flat, bs, n, c);
      ChopAt(flat', bs, n, c);
      OffsetApart(b, c, bs);
      SpliceWindow(flat, flat', Offset(b, bs), Offset(c, bs), bs, o, x);
    }
  }

  /** What a splice inside the window at `lo` does to the window at `at`, equal to it or disjoint from it. */
  lemma SpliceWindow(flat: seq<byte>, flat': seq<byte>, lo: nat, at: nat, bs: nat, o: nat, x: seq<byte>)
    requires lo + bs <= |flat| && at + bs <= |flat| && o + |x| <= bs && flat' == Splice(flat, lo + o, x)
    ensures at + bs <= lo || lo + bs <= at ==> flat'[at..at + bs] == flat[at..at + bs]
    ensures at == lo ==> flat'[at..at + bs] == Splice(flat[lo..lo + bs], o, x)
  {
  }

  // ----- the file system as a whole -----

  /** The bytes of a file. */
  function FileBytes(fs: Fs, bs: nat, name: string): seq<byte>
    requires bs > 0 && name in fs.files
  {
    Contents(fs.disk, fs.files[name], Count(fs.files[name], bs))
  }

  function PtrsOf(fs: Fs, bs: nat, name: string): (ps: seq<nat>)
    requires bs > 0 && name in fs.files
    ensures |ps| == Count(fs.files[name], bs)
  {
    Ptrs(fs.disk, fs.files[name], Count(fs.files[name], bs))
  }

  /** The data blocks of a file exist, differ from one another and from its pointer block. */
  lemma FilePtrs(fs: Fs, bs: nat, name: string)
    requires Layout(fs, bs) && name in fs.files
    ensures InRange(fs.disk, PtrsOf(fs, bs, name), bs)
    ensures forall i, j {:trigger PtrsOf(fs, bs, name)[i], PtrsOf(fs, bs, name)[j]} ::
              0 <= i < |PtrsOf(fs, bs, name)| && 0 <= j < |PtrsOf(fs, bs, name)| && i != j ==>
                    PtrsOf(fs, bs, name)[i] != PtrsOf(fs, bs, name)[j]
    ensures |PtrsOf(fs, bs, name)| >= 2 ==>
              forall k {:trigger PtrsOf(fs, bs, name)[k]} ::
                    0 <= k < |PtrsOf(fs, bs, name)| ==> PtrsOf(fs, bs, name)[k] != fs.files[name].indirect
  {
    var ps, f := PtrsOf(fs, bs, name), fs.files[name];
    forall k | 0 <= k < |ps| ensures ps[k] in fs.owner && fs.owner[ps[k]] == (name, Data(k)) && ps[k] < |fs.disk| {
      assert Owns(fs, bs, name, Data(k)) && ps[k] == BlockAt(fs.disk, f, Data(k));
      assert Uses(fs, bs, name, Data(k), ps[k]);
    }
    if |ps| >= 2 {
      assert Owns(fs, bs, name, Pointer) && BlockAt(fs.disk, f, Pointer) == f.indirect;
    }
  }

  /** The length of a file's contents is its recorded size. */
  lemma FileLength(fs: Fs, bs: nat, name: string)
    requires Layout(fs, bs) && name in fs.files
    ensures |FileBytes(fs, bs, name)| == fs.files[name].size
  {
    FilePtrs(fs, bs, name);
    CatLength(fs.disk, PtrsOf(fs, bs, name), Count(fs.files[name], bs), bs);
  }

  /** File `m` is exactly as before: control block, blocks and bytes. */
  ghost predicate Untouched(fs: Fs, fs': Fs, bs: nat, m: string) {
    && bs > 0 && m in fs.files && m in fs'.files && fs'.files[m] == fs.files[m]
    && (forall s {:trigger BlockAt(fs'.disk, fs'.files[m], s)} :: Has(Count(fs.files[m], bs), s) ==>
          BlockAt(fs'.disk, fs'.files[m], s) == BlockAt(fs.disk, fs.files[m], s))
    && FileBytes(fs', bs, m) == FileBytes(fs, bs, m)
  }

  ghost predicate OthersUntouched(fs: Fs, fs': Fs, bs: nat, name: string) {
    fs'.files.Keys == fs.files.Keys && forall m {:trigger Untouched(fs, fs', bs, m)} ::
          m in fs.files && m != name ==> Untouched(fs, fs', bs, m)
  }

  /** A block that `m` does not own can be overwritten without `m` noticing. */
  lemma ForeignBlock(fs: Fs, bs: nat, m: string, b: nat, x: seq<byte>)
    requires Layout(fs, bs) && m in fs.files && b < |fs.disk| && |x| == bs
    requires b in fs.owner ==> fs.owner[b].0 != m
    ensures Untouched(fs, fs.(disk := fs.disk[b := x]), bs, m)
  {
    var f := fs.files[m];
    var n, ps := Count(f, bs), PtrsOf(fs, bs, m);
    FilePtrs(fs, bs, m);
    forall s | Has(n, s) ensures BlockAt(fs.disk, f, s) != b {
      assert Owns(fs, bs, m, s);
    }
    if n >= 2 { assert Has(n, Pointer) && BlockAt(fs.disk, f, Pointer) != b; }
    PtrsKept(fs.disk, f, n, b, x);
    forall k | 0 <= k < n ensures ps[k] != b {
      assert Has(n, Data(k)) && BlockAt(fs.disk, f, Data(k)) != b;
    }
    CatSame(fs.disk, fs.disk[b := x], ps, ps, n);
    forall s | Has(n, s) ensures BlockAt(fs.disk[b := x], f, s) == BlockAt(fs.disk, f, s) {
      SlotsKept(fs.disk, f, b, x, s);
    }
  }

  /** `fs'` is `fs` with `x` written at offset `o` of data block `k` of file `name`. */
  ghost predicate ChunkWritten(fs: Fs, fs': Fs, bs: nat, name: string, k: nat, o: nat, x: seq<byte>) {
    && bs > 0 && name in fs.files && k < Count(fs.files[name], bs) && o + |x| <= bs
    && var b := BlockAt(fs.disk, fs.files[name], Data(k));
       b < |fs.disk| && |fs.disk[b]| == bs && fs' == fs.(disk := fs.disk[b := Splice(fs.disk[b], o, x)])
  }

  /** Writing inside one data block splices the contents of its file and of no other. */
  lemma WriteChunk(fs: Fs, fs': Fs, bs: nat, name: string, k: nat, o: nat, x: seq<byte>)
    requires Inv(fs, bs) && ChunkWritten(fs, fs', bs, name, k, o, x)
    ensures Inv(fs', bs) && OthersUntouched(fs, fs', bs, name)
    ensures Offset(k, bs) + o + |x| <= |FileBytes(fs, bs, name)|
    ensures FileBytes(fs', bs, name) == Splice(FileBytes(fs, bs, name), Offset(k, bs) + o, x)
  {
    var b := BlockAt(fs.disk, fs.files[name], Data(k));
    assert Owns(fs, bs, name, Data(k));
    forall m | m in fs.files && m != name ensures Untouched(fs, fs', bs, m) {
      ForeignBlock(fs, bs, m, b, fs'.disk[b]);
    }
    SlotsAfterWrite(fs, bs, name, k, fs'.disk[b]);
    OwnSplice(fs, fs', bs, name, k, o, x);
  }

  lemma OwnSplice(fs: Fs, fs': Fs, bs: nat, name: string, k: nat, o: nat, x: seq<byte>)
    requires Layout(fs, bs) && ChunkWritten(fs, fs', bs, name, k, o, x)
    ensures Offset(k, bs) + o + |x| <= |FileBytes(fs, bs, name)|
    ensures FileBytes(fs', bs, name) == Splice(FileBytes(fs, bs, name), Offset(k, bs) + o, x)
  {
    FilePtrs(fs, bs, name);
    ContentsSplice(fs.disk, fs'.disk, fs.files[name], PtrsOf(fs, bs, name), Count(fs.files[name], bs), bs, k,
        Offset(k, bs), o, x);
  }

  /** No slot of any file moves when a data block is written. */
  lemma SlotsAfterWrite(fs: Fs, bs: nat, name: string, k: nat, y: seq<byte>)
    requires Inv(fs, bs) && name in fs.files && k < Count(fs.files[name], bs) && |y| == bs
    requires BlockAt(fs.disk, fs.files[name], Data(k)) < |fs.disk|
    ensures Inv(fs.(disk := fs.disk[BlockAt(fs.disk, fs.files[name], Data(k)) := y]), bs)
  {
    var b := BlockAt(fs.disk, fs.files[name], Data(k));
    assert Owns(fs, bs, name, Data(k));
    var fs' := fs.(disk := fs.disk[b := y]);
    forall m, s | Owns(fs, bs, m, s)
      ensures BlockAt(fs'.disk, fs'.files[m], s) == BlockAt(fs.disk, fs.files[m], s)
    {
      if s.Data? && s.k > 0 {
        assert Owns(fs, bs, m, Pointer) && BlockAt(fs.disk, fs.files[m], Pointer) == fs.files[m].indirect;
      }
      SlotsKept(fs.disk, fs.files[m], b, y, s);
    }
    SameSlots(fs, fs', bs);
  }

  /** Ownership carries over to a disk on which every slot still names the same block. */
  lemma SameSlots(fs: Fs, fs': Fs, bs: nat)
    requires Layout(fs, bs) && Shaped(fs'.disk, bs) && |fs'.disk| == |fs.disk|
    requires fs'.files == fs.files && fs'.owner == fs.owner
    requires forall m, s {:trigger BlockAt(fs'.disk, fs'.files[m], s)} :: Owns(fs, bs, m, s) ==>
               BlockAt(fs'.disk, fs'.files[m], s) == BlockAt(fs.disk, fs.files[m], s)
    ensures Layout(fs', bs)
  {
    forall m, s | Owns(fs', bs, m, s)
      ensures var b := BlockAt(fs'.disk, fs'.files[m], s); b in fs'.owner && fs'.owner[b] == (m, s)
    {
      assert Owns(fs, bs, m, s);
    }
    forall b | b in fs'.owner ensures Uses(fs', bs, fs'.owner[b].0, fs'.owner[b].1, b) {
      assert Uses(fs, bs, fs.owner[b].0, fs.owner[b].1, b);
    }
  }
}
