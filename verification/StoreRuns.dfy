/** Whole runs of the file system against the map from file names to byte sequences it stands for. */
module StoreRuns {
  import opened Bytes
  import opened Bitmap
  import opened Geometry
  import opened Blocks
  import opened Ownership
  import opened FileSystemModule

  type Store = map<string, seq<byte>>

  /** The file system without its blocks: what every file holds. */
  ghost function StoreOf(fs: Fs, bs: nat): (m: Store)
    requires bs > 0
    ensures m.Keys == fs.files.Keys
  {
    map name | name in fs.files :: FileBytes(fs, bs, name)
  }

  /** The live bitmap: the blocks some file has as data or pointer block. */
  ghost function LiveBits(fs: Fs, bs: nat): (bits: seq<bool>)
    ensures |bits| == |fs.disk|
  {
    seq(|fs.disk|, b requires 0 <= b < |fs.disk| => InUse(fs, bs, b))
  }

  ghost predicate InUse(fs: Fs, bs: nat, b: nat) {
    exists name, s :: Uses(fs, bs, name, s, b)
  }

  lemma BitsAreLive(fs: Fs, bs: nat)
    requires Blocks.Inv(fs, bs)
    ensures fs.bits == LiveBits(fs, bs)
  {
    forall b | 0 <= b < |fs.bits| ensures fs.bits[b] == LiveBits(fs, bs)[b] {
      BitMeansOneOwner(fs, bs, b);
    }
  }

  /** It depends on the control blocks and pointer blocks alone. */
  lemma LiveIgnoresBits(fs: Fs, fs': Fs, bs: nat)
    requires fs'.disk == fs.disk && fs'.files == fs.files
    ensures LiveBits(fs', bs) == LiveBits(fs, bs)
  {
    forall b | 0 <= b < |fs.disk| ensures InUse(fs', bs, b) <==> InUse(fs, bs, b) {
      if InUse(fs, bs, b) {
        var name, s :| Uses(fs, bs, name, s, b);
        assert Uses(fs', bs, name, s, b);
      }
      if InUse(fs', bs, b) {
        var name, s :| Uses(fs', bs, name, s, b);
        assert Uses(fs, bs, name, s, b);
      }
    }
  }

  datatype Op =
    | CreateOp(name: string)
    | TruncateOp(name: string, size: nat)
    | WriteOp(name: string, p: nat, data: seq<byte>)

  /** The map and the number of free blocks: all that decides whether an operation can be done. */
  datatype Volume = Volume(files: Store, free: nat)

  ghost function VolumeOf(fs: Fs, bs: nat): Volume
    requires bs > 0
  {
    Volume(StoreOf(fs, bs), FreeCount(fs.bits))
  }

  /** An operation whose caller keeps the rules: a new name, an existing file, whole blocks, enough free blocks, a
      range inside the file. */
  ghost predicate Allowed(v: Volume, bs: nat, op: Op)
    requires bs > 0
  {
    match op
    case CreateOp(name) => name !in v.files
    case TruncateOp(name, size) =>
      && name in v.files && WholeBlocks(size, bs) && Quot(size, bs) <= 1 + bs / 4
      && Cost(Quot(size, bs)) <= Cost(Quot(|v.files[name]|, bs)) + v.free
    case WriteOp(name, p, data) => name in v.files && p + |data| <= |v.files[name]|
  }

  /** What an operation does to the map and to the free blocks. Growing adds bytes nobody promises anything about. */
  ghost predicate Does(v: Volume, bs: nat, op: Op, v': Volume)
    requires bs > 0
  {
    var m, m' := v.files, v'.files;
    match op
    case CreateOp(name) => m' == m[name := []] && v'.free == v.free
    case TruncateOp(name, size) =>
      && name in m && m'.Keys == m.Keys
      && (forall f :: f in m && f != name ==> m'[f] == m[f])
      && |m'[name]| == size
      && (if size <= |m[name]| then m'[name] == m[name][..size] else m'[name][..|m[name]|] == m[name])
      && v'.free + Cost(Quot(size, bs)) == v.free + Cost(Quot(|m[name]|, bs))
    case WriteOp(name, p, data) =>
      name in m && p + |data| <= |m[name]| && m' == m[name := Splice(m[name], p, data)] && v'.free == v.free
  }

  /** An operation takes place if and only if it is allowed. */
  ghost predicate Turn(v: Volume, bs: nat, op: Op, ok: bool, v': Volume)
    requires bs > 0
  {
    ok == Allowed(v, bs, op) && if ok then Does(v, bs, op, v') else v' == v
  }

  /** The same test on the stored control blocks and the bitmap. */
  predicate Legal(d: FileSystem, op: Op)
    requires d.Sized()
    reads d, d.bitmap
  {
    match op
    case CreateOp(name) => name !in d.files
    case TruncateOp(name, size) =>
      && name in d.files && WholeBlocks(size, d.bs) && Quot(size, d.bs) <= 1 + d.bs / 4
      && Cost(Quot(size, d.bs)) <= Cost(Count(d.files[name], d.bs)) + FreeCount(d.bitmap[..])
    case WriteOp(name, p, data) => name in d.files && p + |data| <= d.files[name].size
  }

  lemma LegalIsAllowed(d: FileSystem, op: Op)
    requires d.Inv()
    ensures Legal(d, op) <==> Allowed(VolumeOf(d.State(), d.bs), d.bs, op)
  {
    if op.name in d.files { BytesAreSize(d.State(), d.bs, op.name); }
  }

  lemma BytesAreSize(fs: Fs, bs: nat, name: string)
    requires Blocks.Inv(fs, bs) && name in fs.files
    ensures |FileBytes(fs, bs, name)| == fs.files[name].size
            && Quot(|FileBytes(fs, bs, name)|, bs) == Count(fs.files[name], bs)
  {
    FileLength(fs, bs, name);
    SizeIsOffset(fs, bs, name);
  }

  lemma OthersInStore(fs: Fs, fs': Fs, bs: nat, name: string)
    requires bs > 0 && OthersUntouched(fs, fs', bs, name)
    ensures forall f :: f in fs.files && f != name ==> f in fs'.files && StoreOf(fs', bs)[f] == StoreOf(fs, bs)[f]
  {
    forall f | f in fs.files && f != name ensures f in fs'.files && StoreOf(fs', bs)[f] == StoreOf(fs, bs)[f] {
      assert Untouched(fs, fs', bs, f);
    }
  }

  lemma PrefixesMeet(a: seq<byte>, b: seq<byte>, k: nat)
    requires k <= |a| && k <= |b| && b[..k] == a[..k]
    ensures k == |b| ==> b == a[..k]
    ensures k == |a| ==> b[..k] == a
  {
  }

  method ServeCreate(d: FileSystem, name: string)
    requires d.Inv() && Legal(d, CreateOp(name))
    modifies d`files
    ensures d.Inv() && Does(VolumeOf(old(d.State()), d.bs), d.bs, CreateOp(name), VolumeOf(d.State(), d.bs))
  {
    ghost var fs := d.State();
    d.CreateFile(name);
    assert StoreOf(d.State(), d.bs) == StoreOf(fs, d.bs)[name := []];
  }

  method ServeWrite(d: FileSystem, name: string, p: nat, data: seq<byte>)
    requires d.Inv() && Legal(d, WriteOp(name, p, data))
    modifies d.blocks
    ensures d.Inv() && Does(VolumeOf(old(d.State()), d.bs), d.bs, WriteOp(name, p, data), VolumeOf(d.State(), d.bs))
  {
    ghost var fs := d.State();
    d.WriteFile(name, p, data);
    WroteInStore(fs, d.State(), d.bs, name, p, data);
  }

  lemma WroteInStore(fs: Fs, fs': Fs, bs: nat, name: string, p: nat, data: seq<byte>)
    requires bs > 0 && name in fs.files && OthersUntouched(fs, fs', bs, name) && fs'.bits == fs.bits
    requires Wrote(fs', bs, name, FileBytes(fs, bs, name), p, data, |data|)
    ensures Does(VolumeOf(fs, bs), bs, WriteOp(name, p, data), VolumeOf(fs', bs))
  {
    assert data[..|data|] == data;
    OthersInStore(fs, fs', bs, name);
    OneEntry(StoreOf(fs, bs), StoreOf(fs', bs), name, Splice(FileBytes(fs, bs, name), p, data));
  }

  lemma OneEntry(m: Store, m': Store, name: string, x: seq<byte>)
    requires name in m && m'.Keys == m.Keys && m'[name] == x && forall f :: f in m && f != name ==> m'[f] == m[f]
    ensures m' == m[name := x]
  {
  }

  method ServeTruncate(d: FileSystem, name: string, size: nat)
    requires d.Inv() && Legal(d, TruncateOp(name, size))
    modifies d`files, d`owner, d.bitmap, d.blocks
    ensures d.Inv() && Does(VolumeOf(old(d.State()), d.bs), d.bs, TruncateOp(name, size), VolumeOf(d.State(), d.bs))
  {
    ghost var fs := d.State();
    d.Truncate(name, size);
    TruncatedInStore(fs, d.State(), d.bs, name, size, Count(fs.files[name], d.bs), Quot(size, d.bs));
  }

  lemma TruncatedInStore(fs: Fs, fs': Fs, bs: nat, name: string, size: nat, m: nat, n: nat)
    requires Blocks.Inv(fs, bs) && Blocks.Inv(fs', bs) && name in fs.files && name in fs'.files
             && fs'.files[name].size == size
    requires m == Count(fs.files[name], bs) && n == Quot(size, bs)
    requires Truncated(fs, fs', bs, name, if m <= n then m else n)
    requires FreeCount(fs'.bits) + Cost(n) == FreeCount(fs.bits) + Cost(m)
    ensures Does(VolumeOf(fs, bs), bs, TruncateOp(name, size), VolumeOf(fs', bs))
  {
    BytesAreSize(fs, bs, name);
    BytesAreSize(fs', bs, name);
    OthersInStore(fs, fs', bs, name);
    TruncatedBytes(fs, fs', bs, name, size, m, n);
  }

  lemma TruncatedBytes(fs: Fs, fs': Fs, bs: nat, name: string, size: nat, m: nat, n: nat)
    requires Blocks.Inv(fs, bs) && Blocks.Inv(fs', bs) && name in fs.files && name in fs'.files
             && fs'.files[name].size == size
    requires m == Count(fs.files[name], bs) && n == Quot(size, bs)
    requires Truncated(fs, fs', bs, name, if m <= n then m else n)
    ensures var a, b := FileBytes(fs, bs, name), FileBytes(fs', bs, name);
            |b| == size && if size <= |a| then b == a[..size] else b[..|a|] == a
  {
    FileLength(fs, bs, name);
    FileLength(fs', bs, name);
    SizeIsOffset(fs', bs, name);
    if m <= n { OffsetMonotone(m, n, bs); } else { OffsetMonotone(n, m, bs); }
    PrefixesMeet(FileBytes(fs, bs, name), FileBytes(fs', bs, name), Offset(if m <= n then m else n, bs));
  }

  /** Creates, truncates and writes take place exactly when they are allowed, do to the map and to the free blocks what
      they should, and keep every block in one file. */
  method Serve(d: FileSystem, op: Op) returns (ok: bool)
    requires d.Inv()
    modifies d`files, d`owner, d.bitmap, d.blocks
    ensures d.Inv()
    ensures Turn(VolumeOf(old(d.State()), d.bs), d.bs, op, ok, VolumeOf(d.State(), d.bs))
  {
    LegalIsAllowed(d, op);
    ok := Legal(d, op);
    if ok {
      match op {
        case CreateOp(name) => ServeCreate(d, name);
        case TruncateOp(name, size) => ServeTruncate(d, name, size);
        case WriteOp(name, p, data) => ServeWrite(d, name, p, data);
      }
    }
  }

  /** Boot: whatever the bitmap was, it becomes the live one, and no file is touched. */
  method Boot(d: FileSystem)
    requires d.Sized() && Layout(d.State(), d.bs)
    modifies d.bitmap
    ensures d.Inv() && d.State() == old(d.State()).(bits := d.bitmap[..])
    ensures d.bitmap[..] == LiveBits(old(d.State()), d.bs)
  {
    ghost var fs := d.State();
    d.Rebuild();
    BitsAreLive(d.State(), d.bs);
    LiveIgnoresBits(fs, d.State(), d.bs);
  }

  /** `volumes` is a history under the operations, of which those marked in `done` took place. */
  ghost predicate History(volumes: seq<Volume>, bs: nat, ops: seq<Op>, done: seq<bool>)
    requires bs > 0
  {
    && |volumes| == |done| + 1 && |done| <= |ops|
    && forall k :: 0 <= k < |done| ==> Turn(volumes[k], bs, ops[k], done[k], volumes[k + 1])
  }

  lemma HistoryGrows(volumes: seq<Volume>, bs: nat, ops: seq<Op>, done: seq<bool>, ok: bool, v: Volume)
    requires bs > 0 && History(volumes, bs, ops, done) && |done| < |ops|
             && Turn(volumes[|done|], bs, ops[|done|], ok, v)
    ensures History(volumes + [v], bs, ops, done + [ok])
  {
  }

  /** A file system right after a boot: every file as before, the live bitmap. */
  ghost function Booted(fs: Fs, bs: nat): (v: Volume)
    requires bs > 0
  {
    Volume(StoreOf(fs, bs), FreeCount(LiveBits(fs, bs)))
  }

  /** A boot (the bitmap is rebuilt from the stored control blocks) and then any run of operations: those that are
      allowed take place, each does to the map from names to bytes and to the free blocks what `Does` says; at the end
      block ownership holds and the bitmap is the live one. */
  method Run(d: FileSystem, ops: seq<Op>) returns (done: seq<bool>, ghost volumes: seq<Volume>)
    requires d.Sized() && Layout(d.State(), d.bs)
    modifies d`files, d`owner, d.bitmap, d.blocks
    ensures d.Inv() && d.bitmap[..] == LiveBits(d.State(), d.bs)
    ensures |done| == |ops| && History(volumes, d.bs, ops, done)
    ensures volumes[0] == Booted(old(d.State()), d.bs) && volumes[|ops|] == Booted(d.State(), d.bs)
  {
    ghost var start := Booted(d.State(), d.bs);
    Boot(d);
    done, volumes := [], [start];
    for k := 0 to |ops|
      invariant d.Inv() && |done| == k && History(volumes, d.bs, ops, done)
      invariant volumes[0] == start && volumes[k] == VolumeOf(d.State(), d.bs)
    {
      var ok := Serve(d, ops[k]);
      ghost var v := VolumeOf(d.State(), d.bs);
      HistoryGrows(volumes, d.bs, ops, done, ok, v);
      done, volumes := done + [ok], volumes + [v];
    }
    BitsAreLive(d.State(), d.bs);
  }

  /** A second boot after the run: every file is what the run made of it, and the bitmap is the live one. */
  method RunThenBoot(d: FileSystem, ops: seq<Op>) returns (done: seq<bool>, ghost volumes: seq<Volume>)
    requires d.Sized() && Layout(d.State(), d.bs)
    modifies d`files, d`owner, d.bitmap, d.blocks
    ensures d.Inv() && d.bitmap[..] == LiveBits(d.State(), d.bs)
    ensures |done| == |ops| && History(volumes, d.bs, ops, done)
    ensures volumes[0] == Booted(old(d.State()), d.bs) && volumes[|ops|] == Booted(d.State(), d.bs)
  {
    done, volumes := Run(d, ops);
    ghost var fs := d.State();
    Boot(d);
    LiveIgnoresBits(fs, d.State(), d.bs);
    assert StoreOf(fs, d.bs) == StoreOf(d.State(), d.bs);
  }

  /** Operations on other files leave a file alone. */
  method ServeOthers(d: FileSystem, name: string, others: seq<Op>)
    requires d.Inv() && name in d.files && forall k :: 0 <= k < |others| ==> others[k].name != name
    modifies d`files, d`owner, d.bitmap, d.blocks
    ensures d.Inv() && name in d.files && FileBytes(d.State(), d.bs, name) == FileBytes(old(d.State()), d.bs, name)
  {
    ghost var x := StoreOf(d.State(), d.bs)[name];
    for k := 0 to |others|
      invariant d.Inv() && name in d.files && StoreOf(d.State(), d.bs)[name] == x
    {
      ghost var v := VolumeOf(d.State(), d.bs);
      var ok := Serve(d, others[k]);
      OtherStays(v, d.bs, others[k], ok, VolumeOf(d.State(), d.bs), name);
    }
  }

  lemma OtherStays(v: Volume, bs: nat, op: Op, ok: bool, v': Volume, name: string)
    requires bs > 0 && Turn(v, bs, op, ok, v') && name in v.files && op.name != name
    ensures name in v'.files && v'.files[name] == v.files[name]
  {
  }

  /** What a process writes to a file it reads back, whatever is created, truncated and written in other files
      meanwhile. */
  method WriteThenRead(d: FileSystem, name: string, p: nat, data: seq<byte>, others: seq<Op>) returns (got: seq<byte>)
    requires d.Inv() && name in d.files && p + |data| <= d.files[name].size
    requires forall k :: 0 <= k < |others| ==> others[k].name != name
    modifies d`files, d`owner, d.bitmap, d.blocks
    ensures d.Inv() && name in d.files && got == data
    ensures var was := FileBytes(old(d.State()), d.bs, name);
            p + |data| <= |was| && FileBytes(d.State(), d.bs, name) == Splice(was, p, data)
  {
    ghost var was := FileBytes(d.State(), d.bs, name);
    BytesAreSize(d.State(), d.bs, name);
    d.WriteFile(name, p, data);
    assert data[..|data|] == data;
    ServeOthers(d, name, others);
    BytesAreSize(d.State(), d.bs, name);
    got := d.ReadFile(name, p, |data|);
    ReadBack(was, p, data);
  }
}
