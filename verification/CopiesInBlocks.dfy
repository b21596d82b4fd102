/** `escribir_archivo` and `leer_archivo` with their copies as written, in the blocks of a file wherever they are: on
    the ranges for which the copies are right in the order of blocks they are right in any order. */
module CopiesInBlocks {
  import opened Bytes
  import opened Geometry
  import opened Blocks
  import opened FileSystemModule
  import C = CopiesAsWritten

  /** The offset of byte `p` in its block. */
  function OffsetIn(p: nat, bs: nat): (o: nat)
    requires bs > 0
    ensures o < bs && p == Offset(Quot(p, bs), bs) + o
  {
    QuotBounds(p, bs);
    p - Offset(Quot(p, bs), bs)
  }

  /** With blocks of four bytes a middle copy fills the next block. */
  lemma MiddleAt(p: nat, k: nat, o: nat, bs: nat, i: nat, done: nat)
    requires bs >= 4 && o < bs && p == Offset(k, bs) + o && done == bs - o + 4 * i && (i == 0 || bs == 4)
    ensures AtBlock(p + done, k + 1 + i, bs)
  {
    if i > 0 {
      MiddleAt(p, k, o, bs, i - 1, done - 4);
    }
  }

  /** The copies of four bytes. */
  method WriteMiddles(d: FileSystem, ghost fs: Fs, ghost was: seq<byte>, name: string, p: nat, data: seq<byte>, k: nat,
                      o: nat, turns: nat) returns (done: nat)
    requires d.Inv() && name in d.files && p + |data| <= d.files[name].size == |was|
    requires o < d.bs && p == Offset(k, d.bs) + o && (turns == 0 || d.bs == 4) && d.bs - o + 4 * turns <= |data|
    requires OthersUntouched(fs, d.State(), d.bs, name) && Wrote(d.State(), d.bs, name, was, p, data, d.bs - o)
    modifies d.blocks
    ensures d.Inv() && OthersUntouched(fs, d.State(), d.bs, name)
    ensures done == d.bs - o + 4 * turns && Wrote(d.State(), d.bs, name, was, p, data, done)
  {
    done := d.bs - o;
    for i := 0 to turns
      invariant d.Inv() && OthersUntouched(fs, d.State(), d.bs, name)
      invariant done == d.bs - o + 4 * i && Wrote(d.State(), d.bs, name, was, p, data, done)
    {
      MiddleAt(p, k, o, d.bs, i, done);
      done := d.WriteNext(fs, was, name, p, data, done, k + 1 + i, 4);
    }
  }

  /** What is left for the last copy fits a block. */
  lemma TailFits(n: nat, o: nat, bs: nat)
    requires bs >= 4 && o < bs && C.WritesRight(n, o, bs)
    ensures C.Tail(n, o, bs) <= bs
  {
    if bs == 4 && n > o { QuotBounds(n - o, bs); OffsetIsProduct(Quot(n - o, bs), bs); }
  }

  /** The last copy, if anything is left. */
  method WriteTail(d: FileSystem, ghost fs: Fs, ghost was: seq<byte>, name: string, p: nat, data: seq<byte>, k: nat,
                   done: nat, len: nat)
    requires d.Inv() && name in d.files && p + |data| <= d.files[name].size == |was|
    requires len <= d.bs && done + len == |data| && (len > 0 ==> AtBlock(p + done, k, d.bs))
    requires OthersUntouched(fs, d.State(), d.bs, name) && Wrote(d.State(), d.bs, name, was, p, data, done)
    modifies d.blocks
    ensures d.Inv() && OthersUntouched(fs, d.State(), d.bs, name) && Wrote(d.State(), d.bs, name, was, p, data, |data|)
  {
    if len > 0 {
      var next := d.WriteNext(fs, was, name, p, data, done, k, len);
    }
  }

  /** Everything after the first copy. */
  method WriteRest(d: FileSystem, ghost fs: Fs, ghost was: seq<byte>, name: string, p: nat, data: seq<byte>, k: nat,
                   o: nat)
    requires d.Inv() && name in d.files && p + |data| <= d.files[name].size == |was|
    requires o < d.bs && p == Offset(k, d.bs) + o && C.WritesRight(|data|, o, d.bs)
    requires OthersUntouched(fs, d.State(), d.bs, name) && Wrote(d.State(), d.bs, name, was, p, data, d.bs - o)
    modifies d.blocks
    ensures d.Inv() && OthersUntouched(fs, d.State(), d.bs, name) && Wrote(d.State(), d.bs, name, was, p, data, |data|)
  {
    var turns := C.CountTurns(|data|, o, d.bs);
    C.AddsUp(|data|, o, d.bs);
    var done := WriteMiddles(d, fs, was, name, p, data, k, o, turns);
    TailFits(|data|, o, d.bs);
    MiddleAt(p, k, o, d.bs, turns, done);
    WriteTail(d, fs, was, name, p, data, k + 1 + turns, done, C.Tail(|data|, o, d.bs));
  }

  /** The write as written: the first copy up to the end of its block, the copies of four bytes, the rest. On every
      range that meets `WritesRight` it changes exactly the bytes asked for, wherever the file's blocks are, and no
      other file. */
  method WriteInBlocks(d: FileSystem, name: string, p: nat, data: seq<byte>)
    requires d.Inv() && name in d.files && p + |data| <= d.files[name].size
    requires C.WritesRight(|data|, OffsetIn(p, d.bs), d.bs)
    modifies d.blocks
    ensures d.Inv() && OthersUntouched(old(d.State()), d.State(), d.bs, name)
    ensures Wrote(d.State(), d.bs, name, FileBytes(old(d.State()), d.bs, name), p, data, |data|)
  {
    ghost var fs, was := d.State(), FileBytes(d.State(), d.bs, name);
    FileLength(fs, d.bs, name);
    var k, o := Locate(p, d.bs);
    C.AddsUp(|data|, o, d.bs);
    d.WriteFirst(name, p, data, k, o, d.bs - o);
    WriteRest(d, fs, was, name, p, data, k, o);
  }

  /** The read as written, on the ranges for which it is right: the first copy alone. */
  method ReadInBlocks(d: FileSystem, name: string, p: nat, n: nat) returns (data: seq<byte>)
    requires d.Inv() && name in d.files && p + n <= d.files[name].size
    requires n <= OffsetIn(p, d.bs) && OffsetIn(p, d.bs) + n == d.bs
    ensures |data| == n && ReadSoFar(d.State(), d.bs, name, p, data)
  {
    FileLength(d.State(), d.bs, name);
    var k, o := Locate(p, d.bs);
    data := d.ReadFirst(name, p, k, o, d.bs - o);
  }
}
