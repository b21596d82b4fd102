/** The filesystem module: truncation, reads and writes at any offset, and the boot-time bitmap. */
module FileSystemModule {
  import opened Bytes
  import opened Bitmap
  import opened Blocks
  import opened Geometry
  import opened Ownership

  /** Blocks a file of `n` data blocks occupies. */
  function Cost(n: nat): nat {
    if n >= 2 then n + 1 else n
  }

  /** A size without a partial last block. */
  predicate WholeBlocks(size: nat, bs: nat)
    requires bs > 0
  {
    size == Offset(Quot(size, bs), bs)
  }

  class FileSystem {
    /** `block_size` and `block_count` of the superblock. */
    const bs: nat
    const bc: nat
    const bitmap: array<bool>
    /** `archivo_bloques`, one flat array. */
    const blocks: array<byte>
    /** The stored file control blocks by file name. */
    var files: map<string, Fcb>
    /** Which file and slot each used block belongs to. */
    ghost var owner: map<nat, (string, Slot)>

    predicate Sized() {
      bs >= 4 && bc < WORD_LIMIT && bitmap.Length == bc && blocks.Length == Offset(bc, bs)
    }

    ghost function State(): (fs: Fs)
      requires Sized()
      reads this, bitmap, blocks
      ensures |fs.disk| == |fs.bits| == bc && Shaped(fs.disk, bs)
    {
      Fs(Chop(blocks[..], bs, bc), bitmap[..], files, owner)
    }

    ghost predicate Inv()
      reads this, bitmap, blocks
    {
      Sized() && Blocks.Inv(State(), bs)
    }

    /** An empty file system. */
    constructor (blockSize: nat, blockCount: nat)
      requires blockSize >= 4 && blockCount < WORD_LIMIT
      ensures Inv() && fresh(bitmap) && fresh(blocks)
      ensures bs == blockSize && bc == blockCount && files == map[]
    {
      bs, bc := blockSize, blockCount;
      bitmap := new bool[blockCount](_ => false);
      blocks := new byte[Offset(blockCount, blockSize)](_ => 0);
      files, owner := map[], map[];
    }

    /** Bytes stored inside one block. */
    method PutChunk(b: nat, o: nat, x: seq<byte>)
      requires Sized() && b < bc && o + |x| <= bs
      modifies blocks
      ensures State() == old(State()).(disk := old(State()).disk[b := Splice(old(State()).disk[b], o, x)])
    {
      ChopSplice(blocks[..], bs, bc, b, o, x);
      CopyInto(blocks, Offset(b, bs) + o, x);
    }

    /** Bytes of one block. */
    method GetChunk(b: nat, o: nat, n: nat) returns (x: seq<byte>)
      requires Sized() && b < bc && o + n <= bs
      ensures x == State().disk[b][o..o + n]
    {
      ChopAt(blocks[..], bs, bc, b);
      WindowSlice(blocks[..], Offset(b, bs), bs, o, n);
      x := blocks[Offset(b, bs) + o..Offset(b, bs) + o + n];
    }

    /** `encontrar_bloque_n`. */
    method FindBlock(name: string, k: nat) returns (b: nat)
      requires Sized() && Layout(State(), bs) && name in files && k < Count(files[name], bs)
      ensures b == BlockAt(State().disk, files[name], Data(k)) && b < bc
    {
      SlotFacts(State(), bs, name, k);
      b := files[name].direct;
      if k != 0 {
        var w := GetChunk(files[name].indirect, 4 * (k - 1), 4);
        b := FromWord(w);
      }
    }

    /** `buscar_proximo_bloque_libre`: the first free block. */
    method FindFree() returns (b: nat)
      requires Sized() && FreeCount(bitmap[..]) > 0
      ensures b < bc && !bitmap[b] && forall i :: 0 <= i < b ==> bitmap[i]
    {
      b := 0;
      while b < bc && bitmap[b]
        invariant b <= bc && forall i :: 0 <= i < b ==> bitmap[i]
      {
        b := b + 1;
      }
      if b == bc {
        FreeStretch(bitmap[..], 0, bc, bc);
      }
    }

    /** One turn of the growing loop of `truncar_archivo`. */
    method AddBlock(name: string)
      requires Inv() && name in files && Count(files[name], bs) < 1 + bs / 4
      requires FreeCount(bitmap[..]) >= Cost(Count(files[name], bs) + 1) - Cost(Count(files[name], bs))
      modifies `files, `owner, bitmap, blocks
      ensures Inv() && name in files && Count(files[name], bs) == Count(old(files[name]), bs) + 1
      ensures Truncated(old(State()), State(), bs, name, Count(old(files[name]), bs))
      ensures FreeCount(bitmap[..]) == old(FreeCount(bitmap[..]))
              - (Cost(Count(files[name], bs)) - Cost(Count(files[name], bs) - 1))
    {
      ghost var fs := State();
      var f := files[name];
      var n := Count(f, bs);
      QuotUnique(Offset(n + 1, bs), n + 1, bs);
      if n == 1 {
        var p := FindFree();
        SetOne(bitmap[..], p);
        bitmap[p] := true;
        f := f.(indirect := p);
        owner := owner[p := (name, Pointer)];
      }
      var b := FindFree();
      SetOne(bitmap[..], b);
      bitmap[b] := true;
      owner := owner[b := (name, Data(n))];
      if n == 0 {
        f := f.(direct := b);
      } else {
        assert f.indirect < bc by {
          if n >= 2 { assert Owns(fs, bs, name, Pointer) && BlockAt(fs.disk, fs.files[name], Pointer) == f.indirect; }
        }
        PutChunk(f.indirect, 4 * (n - 1), Word(b));
      }
      files := files[name := f.(size := Offset(n + 1, bs))];
      GrowCorrect(fs, State(), bs, name, n, b, f.indirect);
    }

    /** One turn of the shrinking loop: release the last data block, and the pointer block with the second. */
    method RemoveBlock(name: string)
      requires Inv() && name in files && Count(files[name], bs) > 0
      modifies `files, `owner, bitmap
      ensures Inv() && name in files && Count(files[name], bs) == Count(old(files[name]), bs) - 1
      ensures Truncated(old(State()), State(), bs, name, Count(files[name], bs))
      ensures FreeCount(bitmap[..]) == old(FreeCount(bitmap[..]))
              + (Cost(Count(files[name], bs) + 1) - Cost(Count(files[name], bs)))
    {
      ghost var fs := State();
      var f := files[name];
      var n := Count(f, bs);
      QuotUnique(Offset(n - 1, bs), n - 1, bs);
      LastSlots(fs, bs, name, n);
      var b := FindBlock(name, n - 1);
      ClearOne(bitmap[..], b);
      bitmap[b] := false;
      ghost var gone := {b};
      if n == 2 {
        ClearOne(bitmap[..], f.indirect);
        bitmap[f.indirect] := false;
        gone := gone + {f.indirect};
      }
      owner := owner - gone;
      files := files[name := f.(size := Offset(n - 1, bs))];
      ShrinkCorrect(fs, State(), bs, name, n, gone);
    }

    /** The growing loop of `truncar_archivo`. */
    method GrowTo(name: string, n: nat)
      requires Inv() && name in files && Count(files[name], bs) <= n <= 1 + bs / 4
      requires Cost(n) <= Cost(Count(files[name], bs)) + FreeCount(bitmap[..])
      modifies `files, `owner, bitmap, blocks
      ensures Inv() && name in files && Count(files[name], bs) == n
      ensures Truncated(old(State()), State(), bs, name, Count(old(files[name]), bs))
      ensures FreeCount(bitmap[..]) + Cost(n) == old(FreeCount(bitmap[..])) + Cost(Count(old(files[name]), bs))
    {
      ghost var fs, free, m := State(), FreeCount(bitmap[..]), Count(files[name], bs);
      TruncatedRefl(fs, bs, name, m);
      while Count(files[name], bs) < n
        invariant Inv() && name in files && m <= Count(files[name], bs) <= n
        invariant Truncated(fs, State(), bs, name, m)
        invariant FreeCount(bitmap[..]) + Cost(Count(files[name], bs)) == free + Cost(m)
        decreases n - Count(files[name], bs)
      {
        GrowAfter(fs, m, name);
      }
    }

    /** One more turn of the growing loop, seen from the state `fs` in which it began. */
    method GrowAfter(ghost fs: Fs, ghost m: nat, name: string)
      requires Inv() && name in files && m <= Count(files[name], bs) < 1 + bs / 4
      requires FreeCount(bitmap[..]) >= Cost(Count(files[name], bs) + 1) - Cost(Count(files[name], bs))
      requires Truncated(fs, State(), bs, name, m)
      modifies `files, `owner, bitmap, blocks
      ensures Inv() && name in files && Count(files[name], bs) == Count(old(files[name]), bs) + 1
      ensures Truncated(fs, State(), bs, name, m)
      ensures FreeCount(bitmap[..]) == old(FreeCount(bitmap[..]))
              - (Cost(Count(files[name], bs)) - Cost(Count(files[name], bs) - 1))
    {
      ghost var fs1, n := State(), Count(files[name], bs);
      AddBlock(name);
      TruncatedTransitive(fs, fs1, State(), bs, name, m, n, m);
    }

    /** The shrinking loop of `truncar_archivo`. */
    method ShrinkTo(name: string, n: nat)
      requires Inv() && name in files && n <= Count(files[name], bs)
      modifies `files, `owner, bitmap
      ensures Inv() && name in files && Count(files[name], bs) == n
      ensures Truncated(old(State()), State(), bs, name, n)
      ensures FreeCount(bitmap[..]) + Cost(n) == old(FreeCount(bitmap[..])) + Cost(Count(old(files[name]), bs))
    {
      ghost var fs, free, m := State(), FreeCount(bitmap[..]), Count(files[name], bs);
      TruncatedRefl(fs, bs, name, m);
      while Count(files[name], bs) > n
        invariant Inv() && name in files && n <= Count(files[name], bs) <= m
        invariant Truncated(fs, State(), bs, name, Count(files[name], bs))
        invariant FreeCount(bitmap[..]) + Cost(Count(files[name], bs)) == free + Cost(m)
        decreases Count(files[name], bs)
      {
        ShrinkAfter(fs, name);
      }
    }

    /** One more turn of the shrinking loop, seen from the state `fs` in which it began. */
    method ShrinkAfter(ghost fs: Fs, name: string)
      requires Inv() && name in files && Count(files[name], bs) > 0
      requires Truncated(fs, State(), bs, name, Count(files[name], bs))
      modifies `files, `owner, bitmap
      ensures Inv() && name in files && Count(files[name], bs) == Count(old(files[name]), bs) - 1
      ensures Truncated(fs, State(), bs, name, Count(files[name], bs))
      ensures FreeCount(bitmap[..]) == old(FreeCount(bitmap[..]))
              + (Cost(Count(files[name], bs) + 1) - Cost(Count(files[name], bs)))
    {
      ghost var fs1, n := State(), Count(files[name], bs);
      RemoveBlock(name);
      TruncatedTransitive(fs, fs1, State(), bs, name, n, Count(files[name], bs), Count(files[name], bs));
    }

    /** `truncar_archivo`: both directions, block by block. */
    method Truncate(name: string, size: nat)
      requires Inv() && name in files
      requires WholeBlocks(size, bs) && Quot(size, bs) <= 1 + bs / 4
      requires Cost(Quot(size, bs)) <= Cost(Count(files[name], bs)) + FreeCount(bitmap[..])
      modifies `files, `owner, bitmap, blocks
      ensures Inv() && name in files && files[name].size == size
      ensures var m, n := Count(old(files[name]), bs), Quot(size, bs);
              && (m <= n ==> Truncated(old(State()), State(), bs, name, m))
              && (n < m ==> Truncated(old(State()), State(), bs, name, n))
              && FreeCount(bitmap[..]) + Cost(n) == old(FreeCount(bitmap[..])) + Cost(m)
    {
      var n, rest := Locate(size, bs);
      if n < Count(files[name], bs) {
        ShrinkTo(name, n);
      } else {
        GrowTo(name, n);
      }
      SizeIsOffset(State(), bs, name);
    }

    /** Growing a file, to the state `grown`, and then shrinking it back restores the bitmap and the file's contents. */
    method GrowThenShrink(name: string, size: nat) returns (ghost grown: Fs)
      requires Inv() && name in files && files[name].size < size
      requires WholeBlocks(size, bs) && Quot(size, bs) <= 1 + bs / 4
      requires Cost(Quot(size, bs)) <= Cost(Count(files[name], bs)) + FreeCount(bitmap[..])
      modifies `files, `owner, bitmap, blocks
      ensures Blocks.Inv(grown, bs) && name in grown.files && grown.files[name].size == size
      ensures Truncated(old(State()), grown, bs, name, Count(old(files[name]), bs))
      ensures FreeCount(grown.bits) + Cost(Quot(size, bs))
              == old(FreeCount(bitmap[..])) + Cost(Count(old(files[name]), bs))
      ensures Inv() && name in files && bitmap[..] == old(bitmap[..])
      ensures OthersUntouched(old(State()), State(), bs, name)
      ensures FileBytes(State(), bs, name) == FileBytes(old(State()), bs, name)
    {
      ghost var fs := State();
      var before := files[name].size;
      ghost var n0 := Count(files[name], bs);
      SizeIsOffset(fs, bs, name);
      OffsetApart(Quot(size, bs), n0, bs);
      assert n0 < Quot(size, bs);
      Truncate(name, size);
      grown := State();
      Truncate(name, before);
      TruncatedTransitive(fs, grown, State(), bs, name, n0, n0, n0);
      BackToStart(fs, State(), bs, name, n0);
    }

    /** `crearBitMap` and `leerFCBs`: clear the bitmap and mark the blocks of every stored file. Whatever the
        bitmap was before, it ends up as the one that truncation maintains. */
    method Rebuild()
      requires Sized() && Layout(State(), bs)
      modifies bitmap
      ensures Inv()
      ensures old(BitsMatch(State())) ==> bitmap[..] == old(bitmap[..])
    {
      ghost var fs := State();
      Paint(bitmap, 0, bc, false);
      LayoutIgnoresBits(fs, State(), bs);
      var todo := files.Keys;
      while todo != {}
        invariant todo <= files.Keys && Layout(State(), bs)
        invariant forall b {:trigger bitmap[b]} :: 0 <= b < bc ==> (bitmap[b] <==> b in owner && owner[b].0 !in todo)
      {
        var name :| name in todo;
        MarkFile(name);
        todo := todo - {name};
      }
      assert forall b {:trigger owner[b]} :: b in owner ==> Uses(State(), bs, owner[b].0, owner[b].1, b);
    }

    /** `leerFCBs` and `marcarBloques` for one file: the direct block, the pointer block if there is one, and
        the blocks it names. */
    method MarkFile(name: string)
      requires Sized() && Layout(State(), bs) && name in files
      modifies bitmap
      ensures Layout(State(), bs)
      ensures forall b {:trigger bitmap[b]} :: 0 <= b < bc ==>
                (bitmap[b] <==> old(bitmap[b]) || (b in owner && owner[b].0 == name))
    {
      ghost var fs := State();
      var n := Count(files[name], bs);
      if n > 0 {
        SlotOwner(fs, bs, name, Data(0));
        bitmap[files[name].direct] := true;
        if n >= 2 {
          SlotOwner(fs, bs, name, Pointer);
          bitmap[files[name].indirect] := true;
        }
        MarkPointers(fs, name, n);
      }
      LayoutIgnoresBits(fs, State(), bs);
      forall b | b in owner && owner[b].0 == name ensures Has(n, owner[b].1) {
        OwnedSlots(fs, bs, name, b);
      }
    }

    /** The loop of `marcarBloques` over the pointer block. */
    method MarkPointers(ghost fs: Fs, name: string, n: nat)
      requires Sized() && Layout(fs, bs) && name in files && n == Count(files[name], bs) > 0
      requires State() == fs.(bits := bitmap[..])
      modifies bitmap
      ensures forall b {:trigger bitmap[b]} :: 0 <= b < bc ==>
                (bitmap[b] <==>
                  old(bitmap[b])
                  || (b in owner && owner[b].0 == name && owner[b].1.Data? && 0 < owner[b].1.k < n))
    {
      for i := 1 to n
        invariant State() == fs.(bits := bitmap[..])
        invariant forall b {:trigger bitmap[b]} :: 0 <= b < bc ==>
                    (bitmap[b] <==>
                      old(bitmap[b])
                      || (b in owner && owner[b].0 == name && owner[b].1.Data? && 0 < owner[b].1.k < i))
      {
        LayoutIgnoresBits(fs, State(), bs);
        SlotOwner(fs, bs, name, Data(i));
        var b := FindBlock(name, i);
        bitmap[b] := true;
      }
    }

    /** `crearFCB`: a new file is empty. */
    method CreateFile(name: string)
      requires Inv() && name !in files
      modifies `files
      ensures Inv() && files == old(files)[name := Fcb(0, 0, 0)]
      ensures FileBytes(State(), bs, name) == []
      ensures forall m :: m in old(files) ==> FileBytes(State(), bs, m) == FileBytes(old(State()), bs, m)
    {
      ghost var fs := State();
      files := files[name := Fcb(0, 0, 0)];
      NewFileLayout(fs, State(), bs, name);
    }

    /** Bytes written inside data block `k`. */
    method WriteAt(name: string, k: nat, o: nat, x: seq<byte>)
      requires Inv() && name in files && k < Count(files[name], bs) && o + |x| <= bs
      modifies blocks
      ensures Inv() && OthersUntouched(old(State()), State(), bs, name)
      ensures Offset(k, bs) + o + |x| <= |FileBytes(old(State()), bs, name)|
      ensures FileBytes(State(), bs, name) == Splice(FileBytes(old(State()), bs, name), Offset(k, bs) + o, x)
    {
      var b := FindBlock(name, k);
      ghost var fs := State();
      PutChunk(b, o, x);
      WriteChunk(fs, State(), bs, name, k, o, x);
    }

    /** `escribir_archivo`: a first piece up to the end of its block, whole blocks, and the rest. */
    method WriteFile(name: string, p: nat, data: seq<byte>)
      requires Inv() && name in files && p + |data| <= files[name].size
      modifies blocks
      ensures Inv() && OthersUntouched(old(State()), State(), bs, name)
      ensures Wrote(State(), bs, name, FileBytes(old(State()), bs, name), p, data, |data|)
    {
      FileLength(State(), bs, name);
      if data == [] {
        OthersRefl(State(), bs, name);
      } else {
        WriteSome(name, p, data);
      }
    }

    method WriteSome(name: string, p: nat, data: seq<byte>)
      requires Inv() && name in files && p + |data| <= files[name].size == |FileBytes(State(), bs, name)| && data != []
      modifies blocks
      ensures Inv() && OthersUntouched(old(State()), State(), bs, name)
      ensures Wrote(State(), bs, name, FileBytes(old(State()), bs, name), p, data, |data|)
    {
      ghost var fs, was := State(), FileBytes(State(), bs, name);
      var k, o := Locate(p, bs);
      var first := if |data| < bs - o then |data| else bs - o;
      WriteFirst(name, p, data, k, o, first);
      var whole, rest := Locate(|data| - first, bs);
      FirstPiece(p, k, o, first, |data|, bs);
      WriteOthers(fs, was, name, p, data, first, k, whole, rest);
    }

    /** The whole blocks behind the first piece and what is left after them. */
    method WriteOthers(ghost fs: Fs, ghost was: seq<byte>, name: string, p: nat, data: seq<byte>, from: nat, k0: nat,
                       whole: nat, ghost rest: nat)
      requires Inv() && name in files && p + |data| <= files[name].size == |was| && from <= |data|
      requires Left(|data| - from, whole, rest, bs) && (from < |data| ==> AtBlock(p + from, k0 + 1, bs))
      requires OthersUntouched(fs, State(), bs, name) && Wrote(State(), bs, name, was, p, data, from)
      modifies blocks
      ensures Inv() && OthersUntouched(fs, State(), bs, name)
      ensures Wrote(State(), bs, name, was, p, data, |data|)
    {
      var done, k := WriteWhole(fs, was, name, p, data, from, k0, whole, rest);
      if done < |data| {
        done := WriteNext(fs, was, name, p, data, done, k + 1, |data| - done);
      }
    }

    /** The loop over the whole blocks of `escribir_archivo`; it leaves only the rest. */
    method WriteWhole(ghost fs: Fs, ghost was: seq<byte>, name: string, p: nat, data: seq<byte>, from: nat, k0: nat,
                      blocks0: nat, ghost rest: nat)
      returns (done: nat, k: nat)
      requires Inv() && name in files && p + |data| <= files[name].size == |was|
      requires OthersUntouched(fs, State(), bs, name) && Wrote(State(), bs, name, was, p, data, from)
      requires Left(|data| - from, blocks0, rest, bs) && (from < |data| ==> AtBlock(p + from, k0 + 1, bs))
      modifies blocks
      ensures Inv() && OthersUntouched(fs, State(), bs, name) && Wrote(State(), bs, name, was, p, data, done)
      ensures Left(|data| - done, 0, rest, bs) && (done < |data| ==> AtBlock(p + done, k + 1, bs))
    {
      done, k := from, k0;
      var whole := blocks0;
      while whole > 0
        invariant Inv() && OthersUntouched(fs, State(), bs, name) && Wrote(State(), bs, name, was, p, data, done)
        invariant Left(|data| - done, whole, rest, bs) && (done < |data| ==> AtBlock(p + done, k + 1, bs))
      {
        done := WriteBlock(fs, was, name, p, data, done, k, whole, rest);
        k := k + 1;
        whole := whole - 1;
      }
    }

    /** One turn of that loop: the block after block `k` is written as a whole. */
    method WriteBlock(ghost fs: Fs, ghost was: seq<byte>, name: string, p: nat, data: seq<byte>, from: nat, k: nat,
                      ghost whole: nat, ghost rest: nat)
      returns (done: nat)
      requires Inv() && name in files && p + |data| <= files[name].size == |was|
      requires OthersUntouched(fs, State(), bs, name) && Wrote(State(), bs, name, was, p, data, from)
      requires Left(|data| - from, whole, rest, bs) && whole > 0 && (from < |data| ==> AtBlock(p + from, k + 1, bs))
      modifies blocks
      ensures Inv() && OthersUntouched(fs, State(), bs, name) && Wrote(State(), bs, name, was, p, data, done)
      ensures Left(|data| - done, whole - 1, rest, bs) && AtBlock(p + done, k + 1 + 1, bs)
    {
      LeftFits(|data| - from, whole, rest, bs);
      done := WriteNext(fs, was, name, p, data, from, k + 1, bs);
      LeftNext(|data| - from, |data| - done, whole, rest, bs);
      AtBlockNext(p + from, p + done, k + 1, bs);
    }

    /** The first piece: from the position to the end of its block, or less. */
    method WriteFirst(name: string, p: nat, data: seq<byte>, k: nat, o: nat, len: nat)
      requires Inv() && name in files && p + |data| <= files[name].size == |FileBytes(State(), bs, name)|
      requires p == Offset(k, bs) + o && 0 < len <= |data| && o + len <= bs
      modifies blocks
      ensures Inv() && OthersUntouched(old(State()), State(), bs, name)
      ensures Wrote(State(), bs, name, FileBytes(old(State()), bs, name), p, data, len)
    {
      SizeIsOffset(State(), bs, name);
      BlockInFile(files[name].size, bs, k, o, Count(files[name], bs));
      WriteAt(name, k, o, data[..len]);
    }

    /** Bytes written at the start of a block, which is byte `at` of the file. */
    method WriteStart(name: string, k: nat, ghost at: nat, x: seq<byte>)
      requires Inv() && name in files && k < Count(files[name], bs) && |x| <= bs && AtBlock(at, k, bs)
      modifies blocks
      ensures Inv() && OthersUntouched(old(State()), State(), bs, name)
              && SplicedAt(old(State()), State(), bs, name, at, x)
    {
      WriteAt(name, k, 0, x);
    }

    /** The next `len` bytes of `data` go to the start of data block `k`. */
    method WriteNext(ghost fs: Fs, ghost was: seq<byte>, name: string, p: nat, data: seq<byte>, done: nat, k: nat,
                     len: nat) returns (next: nat)
      requires Inv() && name in files && p + |data| <= files[name].size == |was|
      requires 0 < len <= bs && done + len <= |data| && AtBlock(p + done, k, bs)
      requires OthersUntouched(fs, State(), bs, name) && Wrote(State(), bs, name, was, p, data, done)
      modifies blocks
      ensures Inv() && OthersUntouched(fs, State(), bs, name)
      ensures next == done + len && Wrote(State(), bs, name, was, p, data, next)
    {
      next := done + len;
      ghost var fs1 := State();
      SizeIsOffset(fs1, bs, name);
      BlockInFile(files[name].size, bs, k, 0, Count(files[name], bs));
      ghost var at := p + done;
      var x := data[done..next];
      WriteStart(name, k, at, x);
      WroteNext(fs, fs1, State(), bs, name, was, p, data, done, at, next, x);
    }

    /** Bytes of data block `k`. */
    method ReadAt(name: string, k: nat, o: nat, len: nat) returns (x: seq<byte>)
      requires Inv() && name in files && k < Count(files[name], bs) && o + len <= bs
      ensures Offset(k, bs) + o + len <= |FileBytes(State(), bs, name)|
      ensures x == FileBytes(State(), bs, name)[Offset(k, bs) + o..Offset(k, bs) + o + len]
    {
      var b := FindBlock(name, k);
      x := GetChunk(b, o, len);
      ChunkOfFile(State(), bs, name, k, o, len);
    }

    /** The next `len` bytes are read from the start of data block `k`. */
    method ReadNext(name: string, p: nat, data: seq<byte>, k: nat, len: nat) returns (more: seq<byte>)
      requires Inv() && name in files && 0 < len <= bs && AtBlock(p + |data|, k, bs)
      requires p + |data| + len <= files[name].size == |FileBytes(State(), bs, name)|
      requires ReadSoFar(State(), bs, name, p, data)
      ensures |more| == |data| + len && ReadSoFar(State(), bs, name, p, more)
    {
      SizeIsOffset(State(), bs, name);
      BlockInFile(files[name].size, bs, k, 0, Count(files[name], bs));
      var piece := ReadAt(name, k, 0, len);
      more := data + piece;
      SliceAppend(FileBytes(State(), bs, name), p, p + |data|, len);
    }

    /** `leer_archivo`, with the destination advanced after every piece. */
    method ReadFile(name: string, p: nat, size: nat) returns (data: seq<byte>)
      requires Inv() && name in files && p + size <= files[name].size
      ensures |data| == size && ReadSoFar(State(), bs, name, p, data)
    {
      FileLength(State(), bs, name);
      data := [];
      if size == 0 {
        return;
      }
      var k, o := Locate(p, bs);
      var first := if size < bs - o then size else bs - o;
      data := ReadFirst(name, p, k, o, first);
      var whole, rest := Locate(size - first, bs);
      data, k := ReadWhole(name, p, size, data, k, whole, rest);
      if |data| < size {
        data := ReadNext(name, p, data, k + 1, size - |data|);
      }
    }

    /** The loop over the whole blocks of `leer_archivo`; it leaves only the rest. */
    method ReadWhole(name: string, p: nat, size: nat, from: seq<byte>, k0: nat, blocks0: nat, ghost rest: nat)
      returns (data: seq<byte>, k: nat)
      requires Inv() && name in files && p + size <= files[name].size == |FileBytes(State(), bs, name)|
      requires ReadSoFar(State(), bs, name, p, from)
      requires Left(size - |from|, blocks0, rest, bs) && (|from| < size ==> AtBlock(p + |from|, k0 + 1, bs))
      ensures ReadSoFar(State(), bs, name, p, data)
      ensures Left(size - |data|, 0, rest, bs) && (|data| < size ==> AtBlock(p + |data|, k + 1, bs))
    {
      data, k := from, k0;
      var whole := blocks0;
      while whole > 0
        invariant ReadSoFar(State(), bs, name, p, data)
        invariant Left(size - |data|, whole, rest, bs) && (|data| < size ==> AtBlock(p + |data|, k + 1, bs))
      {
        ghost var left, start := size - |data|, p + |data|;
        LeftFits(left, whole, rest, bs);
        k := k + 1;
        data := ReadNext(name, p, data, k, bs);
        LeftNext(left, size - |data|, whole, rest, bs);
        AtBlockNext(start, p + |data|, k, bs);
        whole := whole - 1;
      }
    }

    /** The first piece: from the position to the end of its block, or less. */
    method ReadFirst(name: string, p: nat, k: nat, o: nat, len: nat) returns (data: seq<byte>)
      requires Inv() && name in files && p == Offset(k, bs) + o && 0 < len && o + len <= bs
      requires p + len <= files[name].size == |FileBytes(State(), bs, name)|
      ensures |data| == len && ReadSoFar(State(), bs, name, p, data)
    {
      SizeIsOffset(State(), bs, name);
      BlockInFile(files[name].size, bs, k, o, Count(files[name], bs));
      data := ReadAt(name, k, o, len);
    }
  }

  /** The first `n` bytes of `data` have been written at `p` into a file that held `was`. */
  ghost predicate Wrote(fs: Fs, bs: nat, name: string, was: seq<byte>, p: nat, data: seq<byte>, n: nat) {
    bs > 0 && name in fs.files && n <= |data| && p + n <= |was| && FileBytes(fs, bs, name) == Splice(was, p, data[..n])
  }

  /** `data` is what the file holds from `p` on. */
  ghost predicate ReadSoFar(fs: Fs, bs: nat, name: string, p: nat, data: seq<byte>) {
    bs > 0 && name in fs.files && p + |data| <= |FileBytes(fs, bs, name)|
        && data == FileBytes(fs, bs, name)[p..p + |data|]
  }

  /** The bytes `x` have been put into the file at `at`. */
  ghost predicate SplicedAt(fs: Fs, fs': Fs, bs: nat, name: string, at: nat, x: seq<byte>) {
    && bs > 0 && name in fs.files && name in fs'.files && at + |x| <= |FileBytes(fs, bs, name)|
    && FileBytes(fs', bs, name) == Splice(FileBytes(fs, bs, name), at, x)
  }

  /** Writing the next piece behind what has been written. */
  lemma WroteMore(fs: Fs, fs': Fs, bs: nat, name: string, was: seq<byte>, p: nat, data: seq<byte>, done: nat, at: nat,
                  next: nat)
    requires Wrote(fs, bs, name, was, p, data, done)
    requires done <= next <= |data| && at == p + done && p + |data| <= |was|
    requires SplicedAt(fs, fs', bs, name, at, data[done..next])
    ensures Wrote(fs', bs, name, was, p, data, next)
  {
    SpliceAppend(was, p, data, done, next);
  }

  lemma WroteNext(fs: Fs, fs1: Fs, fs2: Fs, bs: nat, name: string, was: seq<byte>, p: nat, data: seq<byte>, done: nat,
                  at: nat, next: nat, x: seq<byte>)
    requires Wrote(fs1, bs, name, was, p, data, done) && SplicedAt(fs1, fs2, bs, name, at, x)
    requires done <= next <= |data| && at == p + done && p + |data| <= |was| && x == data[done..next]
    requires OthersUntouched(fs, fs1, bs, name) && OthersUntouched(fs1, fs2, bs, name)
    ensures Wrote(fs2, bs, name, was, p, data, next) && OthersUntouched(fs, fs2, bs, name)
  {
    WroteMore(fs1, fs2, bs, name, was, p, data, done, at, next);
    OthersTransitive(fs, fs1, fs2, bs, name);
  }

  lemma SliceAppend(s: seq<byte>, p: nat, q: nat, len: nat)
    requires p <= q && q + len <= |s|
    ensures s[p..q] + s[q..q + len] == s[p..q + len]
  {
  }

  lemma LayoutIgnoresBits(fs: Fs, fs': Fs, bs: nat)
    requires Layout(fs, bs) && fs'.disk == fs.disk && fs'.files == fs.files && fs'.owner == fs.owner
    ensures Layout(fs', bs)
  {
    forall b | b in fs'.owner ensures Uses(fs', bs, fs'.owner[b].0, fs'.owner[b].1, b) {
      assert Uses(fs, bs, fs.owner[b].0, fs.owner[b].1, b);
    }
    forall m, s | Owns(fs', bs, m, s)
      ensures var b := BlockAt(fs'.disk, fs'.files[m], s); b in fs'.owner && fs'.owner[b] == (m, s)
    {
      assert Owns(fs, bs, m, s);
      var b := BlockAt(fs.disk, fs.files[m], s);
    }
  }

  /** The block of a slot is the only one recorded for it. */
  lemma SlotOwner(fs: Fs, bs: nat, name: string, s: Slot)
    requires Layout(fs, bs) && Owns(fs, bs, name, s)
    ensures var b := BlockAt(fs.disk, fs.files[name], s); b < |fs.disk| && b in fs.owner && fs.owner[b] == (name, s)
    ensures forall b {:trigger fs.owner[b]} ::
              b in fs.owner && fs.owner[b] == (name, s) ==> b == BlockAt(fs.disk, fs.files[name], s)
  {
    var b := BlockAt(fs.disk, fs.files[name], s);
    assert Uses(fs, bs, name, s, b);
    forall c | c in fs.owner && fs.owner[c] == (name, s) ensures c == b {
      assert Uses(fs, bs, fs.owner[c].0, fs.owner[c].1, c);
    }
  }

  /** A file without blocks owns nothing; one with a single block owns only that one. */
  lemma OwnedSlots(fs: Fs, bs: nat, name: string, b: nat)
    requires Layout(fs, bs) && name in fs.files && b in fs.owner && fs.owner[b].0 == name
    ensures Has(Count(fs.files[name], bs), fs.owner[b].1)
  {
    assert Uses(fs, bs, fs.owner[b].0, fs.owner[b].1, b);
  }

  lemma WindowSlice(flat: seq<byte>, lo: nat, bs: nat, o: nat, n: nat)
    requires lo + bs <= |flat| && o + n <= bs
    ensures flat[lo..lo + bs][o..o + n] == flat[lo + o..lo + o + n]
  {
    var a, b := flat[lo..lo + bs][o..o + n], flat[lo + o..lo + o + n];
    assert |a| == |b| && forall i :: 0 <= i < n ==> a[i] == b[i];
  }

  lemma ChunkOfFile(fs: Fs, bs: nat, name: string, k: nat, o: nat, len: nat)
    requires Layout(fs, bs) && name in fs.files && k < Count(fs.files[name], bs) && o + len <= bs
    ensures BlockAt(fs.disk, fs.files[name], Data(k)) < |fs.disk|
    ensures Offset(k, bs) + o + len <= |FileBytes(fs, bs, name)|
    ensures FileBytes(fs, bs, name)[Offset(k, bs) + o..Offset(k, bs) + o + len]
         == fs.disk[BlockAt(fs.disk, fs.files[name], Data(k))][o..o + len]
  {
    FilePtrs(fs, bs, name);
    ContentsSlice(fs.disk, fs.files[name], Count(fs.files[name], bs), bs, k, o, len);
  }

  /** Reading back the range that was written gives what was written. */
  lemma ReadBack(was: seq<byte>, p: nat, data: seq<byte>)
    requires p + |data| <= |was|
    ensures Splice(was, p, data)[p..p + |data|] == data
  {
  }

  lemma SizeIsOffset(fs: Fs, bs: nat, name: string)
    requires Layout(fs, bs) && name in fs.files
    ensures fs.files[name].size == Offset(Count(fs.files[name], bs), bs)
    ensures WholeBlocks(fs.files[name].size, bs) && Count(fs.files[name], bs) <= 1 + bs / 4
  {
    assert SizesOk(fs.files, bs);
  }

  lemma SpliceAppend(s: seq<byte>, p: nat, x: seq<byte>, i: nat, j: nat)
    requires i <= j <= |x| && p + |x| <= |s|
    ensures Splice(Splice(s, p, x[..i]), p + i, x[i..j]) == Splice(s, p, x[..j])
  {
  }

  /** Position `p` is where block `k` starts. */
  ghost predicate AtBlock(p: nat, k: nat, bs: nat) {
    p == Offset(k, bs)
  }

  /** `n` bytes are `whole` blocks and a rest that is smaller than a block. */
  ghost predicate Left(n: int, whole: nat, rest: nat, bs: nat) {
    rest < bs && n == Offset(whole, bs) + rest
  }

  lemma FirstPiece(p: nat, k: nat, o: nat, first: nat, n: nat, bs: nat)
    requires p == Offset(k, bs) + o && o < bs && first == if n < bs - o then n else bs - o
    ensures first < n ==> AtBlock(p + first, k + 1, bs)
  {
  }

  lemma LeftFits(n: int, whole: nat, rest: nat, bs: nat)
    requires Left(n, whole, rest, bs) && whole > 0
    ensures n >= bs
  {
  }

  lemma LeftNext(n: int, m: int, whole: nat, rest: nat, bs: nat)
    requires Left(n, whole, rest, bs) && whole > 0 && m == n - bs
    ensures Left(m, whole - 1, rest, bs)
  {
  }

  lemma AtBlockNext(p: nat, q: nat, k: nat, bs: nat)
    requires AtBlock(p, k, bs) && q == p + bs
    ensures AtBlock(q, k + 1, bs)
  {
  }

  /** A byte position inside the file lies in one of its blocks. */
  lemma BlockInFile(size: nat, bs: nat, k: nat, o: nat, n: nat)
    requires bs > 0 && size == Offset(n, bs) && Offset(k, bs) + o < size
    ensures k < n
  {
    OffsetApart(n, k, bs);
  }

  lemma TruncatedRefl(fs: Fs, bs: nat, name: string, n: nat)
    requires Layout(fs, bs) && name in fs.files && n == Count(fs.files[name], bs)
    ensures Truncated(fs, fs, bs, name, n)
  {
    FileLength(fs, bs, name);
    OthersRefl(fs, bs, name);
  }

  lemma OthersRefl(fs: Fs, bs: nat, name: string)
    requires bs > 0
    ensures OthersUntouched(fs, fs, bs, name)
  {
  }

  lemma BackToStart(fs: Fs, fs': Fs, bs: nat, name: string, n: nat)
    requires Blocks.Inv(fs, bs) && Blocks.Inv(fs', bs) && |fs.disk| == |fs'.disk| && Truncated(fs, fs', bs, name, n)
    requires fs.files[name].size == fs'.files[name].size && n == Count(fs.files[name], bs)
    ensures fs.bits == fs'.bits && FileBytes(fs, bs, name) == FileBytes(fs', bs, name)
  {
    FileLength(fs, bs, name);
    FileLength(fs', bs, name);
    SizeIsOffset(fs, bs, name);
    SameSlotsSameBits(fs, fs', bs, name, n);
  }

  lemma SameSlotsSameBits(fs: Fs, fs': Fs, bs: nat, name: string, n: nat)
    requires Blocks.Inv(fs, bs) && Blocks.Inv(fs', bs) && |fs.disk| == |fs'.disk| && Truncated(fs, fs', bs, name, n)
    requires Count(fs.files[name], bs) == n == Count(fs'.files[name], bs)
    ensures fs.bits == fs'.bits
  {
    forall m, s ensures Owns(fs, bs, m, s) <==> Owns(fs', bs, m, s) {
      assert m in fs.files && m != name ==> Untouched(fs, fs', bs, m);
    }
    forall m, s | Owns(fs, bs, m, s) && Owns(fs', bs, m, s)
      ensures BlockAt(fs'.disk, fs'.files[m], s) == BlockAt(fs.disk, fs.files[m], s)
    {
      assert m != name ==> Untouched(fs, fs', bs, m);
    }
    SlotsGiveBits(fs, fs', bs);
  }

  lemma NewFileLayout(fs: Fs, fs': Fs, bs: nat, name: string)
    requires Blocks.Inv(fs, bs) && name !in fs.files && fs' == fs.(files := fs.files[name := Fcb(0, 0, 0)])
    ensures Blocks.Inv(fs', bs)
    ensures FileBytes(fs', bs, name) == []
    ensures forall m :: m in fs.files ==> FileBytes(fs', bs, m) == FileBytes(fs, bs, m)
  {
    forall m, s | Owns(fs', bs, m, s)
      ensures var b := BlockAt(fs'.disk, fs'.files[m], s); b in fs'.owner && fs'.owner[b] == (m, s)
    {
      assert Owns(fs, bs, m, s);
      var b := BlockAt(fs.disk, fs.files[m], s);
    }
    forall b | b in fs'.owner ensures Uses(fs', bs, fs'.owner[b].0, fs'.owner[b].1, b) {
      assert Uses(fs, bs, fs.owner[b].0, fs.owner[b].1, b);
    }
  }

  /** Data slot `k` names an existing block, through a pointer block that exists and is long enough. */
  lemma SlotFacts(fs: Fs, bs: nat, name: string, k: nat)
    requires Layout(fs, bs) && name in fs.files && k < Count(fs.files[name], bs)
    ensures BlockAt(fs.disk, fs.files[name], Data(k)) < |fs.disk|
    ensures k > 0 ==> fs.files[name].indirect < |fs.disk| && 4 * (k - 1) + 4 <= bs
  {
    var f := fs.files[name];
    assert Owns(fs, bs, name, Data(k));
    assert Uses(fs, bs, name, Data(k), BlockAt(fs.disk, f, Data(k)));
    if k > 0 {
      assert Owns(fs, bs, name, Pointer) && BlockAt(fs.disk, f, Pointer) == f.indirect;
      assert Uses(fs, bs, name, Pointer, f.indirect);
    }
  }

  /** The last data slot of a file, and the pointer slot of a file of two blocks, are owned and distinct. */
  lemma LastSlots(fs: Fs, bs: nat, name: string, n: nat)
    requires Blocks.Inv(fs, bs) && name in fs.files && n == Count(fs.files[name], bs) && n > 0
    ensures var b := BlockAt(fs.disk, fs.files[name], Data(n - 1));
            b < |fs.bits| && fs.bits[b] && fs.owner[b] == (name, Data(n - 1))
    ensures n == 2 ==> var p := fs.files[name].indirect;
            p < |fs.bits| && fs.bits[p] && fs.owner[p] == (name, Pointer)
                && p != BlockAt(fs.disk, fs.files[name], Data(n - 1))
  {
    assert Owns(fs, bs, name, Data(n - 1));
    if n == 2 {
      assert Owns(fs, bs, name, Pointer) && BlockAt(fs.disk, fs.files[name], Pointer) == fs.files[name].indirect;
    }
  }

  /** `fs'` is `fs` with one more block `b` in file `name` (and, for the second block, a pointer block `p`). */
  ghost predicate OneMore(fs: Fs, fs': Fs, bs: nat, name: string, n: nat, b: nat, p: nat) {
    && bs >= 4 && |fs.disk| < WORD_LIMIT && |fs.bits| == |fs.disk| && Shaped(fs.disk, bs)
    && name in fs.files && n == Count(fs.files[name], bs) && n < 1 + bs / 4
    && b < |fs.disk| && !fs.bits[b]
    && (n == 1 ==> p < |fs.disk| && !fs.bits[p] && p != b)
    && (n >= 2 ==> p == fs.files[name].indirect && p < |fs.disk|)
    && fs'.disk == (if n == 0 then fs.disk else PutEntry(fs.disk, p, n - 1, b))
    && fs'.owner == (if n == 1 then fs.owner[p := (name, Pointer)] else fs.owner)[b := (name, Data(n))]
    && fs'.files == fs.files[name := Fcb(Offset(n + 1, bs), if n == 0 then b else fs.files[name].direct,
                                         if n == 0 then fs.files[name].indirect else p)]
  }

  lemma GrowCorrect(fs: Fs, fs': Fs, bs: nat, name: string, n: nat, b: nat, p: nat)
    requires Blocks.Inv(fs, bs) && OneMore(fs, fs', bs, name, n, b, p)
    requires fs'.bits == (if n == 1 then fs.bits[p := true][b := true] else fs.bits[b := true])
    ensures Blocks.Inv(fs', bs) && Truncated(fs, fs', bs, name, n)
  {
    QuotUnique(Offset(n + 1, bs), n + 1, bs);
    GrowOthers(fs, fs', bs, name, n, b, p);
    GrowNewSlots(fs, fs', bs, name, n, b, p);
    GrowOwner(fs, fs', bs, name, n, b, p);
    GrowSizes(fs, fs', bs, name, n, b, p);
    GrownLayout(fs, fs', bs, name, News(n, b, p));
    GrowPrefix(fs, fs', bs, name, n, b, p);
    GrowBits(fs, fs', bs, name, n, b, p);
  }

  /** The bits set are those of the new blocks. */
  lemma GrowBits(fs: Fs, fs': Fs, bs: nat, name: string, n: nat, b: nat, p: nat)
    requires Blocks.Inv(fs, bs) && OneMore(fs, fs', bs, name, n, b, p)
    requires fs'.bits == (if n == 1 then fs.bits[p := true][b := true] else fs.bits[b := true])
    ensures BitsMatch(fs')
  {
  }

  /** Where the slots of the growing file are. */
  lemma GrowSlots(fs: Fs, fs': Fs, bs: nat, name: string, n: nat, b: nat, p: nat, s: Slot)
    requires OneMore(fs, fs', bs, name, n, b, p)
    ensures Has(n, s) ==> BlockAt(fs'.disk, fs'.files[name], s) == BlockAt(fs.disk, fs.files[name], s)
    ensures s == Data(n) ==> BlockAt(fs'.disk, fs'.files[name], s) == b
    ensures n == 1 && s == Pointer ==> BlockAt(fs'.disk, fs'.files[name], s) == p
  {
    if n > 0 && s.Data? && s.k > 0 {
      EntryAfterPut(fs.disk, p, n - 1, b, s.k - 1);
    }
  }

  /** The other files do not notice: the pointer block that is written is not theirs. */
  lemma GrowOthers(fs: Fs, fs': Fs, bs: nat, name: string, n: nat, b: nat, p: nat)
    requires Blocks.Inv(fs, bs) && OneMore(fs, fs', bs, name, n, b, p)
    ensures OthersUntouched(fs, fs', bs, name)
  {
    forall m | m in fs.files && m != name ensures Untouched(fs, fs', bs, m) {
      if n >= 2 {
        assert Owns(fs, bs, name, Pointer) && BlockAt(fs.disk, fs.files[name], Pointer) == p;
      }
      if n > 0 {
        ForeignBlock(fs, bs, m, p, fs'.disk[p]);
      }
    }
  }

  function News(n: nat, b: nat, p: nat): map<nat, Slot> {
    if n == 1 then map[p := Pointer, b := Data(1)] else map[b := Data(n)]
  }

  lemma GrowNewSlots(fs: Fs, fs': Fs, bs: nat, name: string, n: nat, b: nat, p: nat)
    requires Blocks.Inv(fs, bs) && OneMore(fs, fs', bs, name, n, b, p) && OthersUntouched(fs, fs', bs, name)
    requires Count(fs'.files[name], bs) == n + 1
    ensures GrownSlots(fs, fs', bs, name, News(n, b, p))
  {
    forall m, s | Owns(fs, bs, m, s)
      ensures Owns(fs', bs, m, s) && BlockAt(fs'.disk, fs'.files[m], s) == BlockAt(fs.disk, fs.files[m], s)
    {
      GrowOld(fs, fs', bs, name, n, b, p, m, s);
    }
    forall s | Owns(fs', bs, name, s) && !Owns(fs, bs, name, s)
      ensures var c := BlockAt(fs'.disk, fs'.files[name], s); c in News(n, b, p) && News(n, b, p)[c] == s
    {
      assert s == Data(n) || (n == 1 && s == Pointer);
      GrowSlots(fs, fs', bs, name, n, b, p, s);
    }
  }

  lemma GrowOwner(fs: Fs, fs': Fs, bs: nat, name: string, n: nat, b: nat, p: nat)
    requires Blocks.Inv(fs, bs) && OneMore(fs, fs', bs, name, n, b, p)
    requires Count(fs'.files[name], bs) == n + 1
    ensures GrownOwner(fs, fs', bs, name, News(n, b, p))
  {
    GrowSlots(fs, fs', bs, name, n, b, p, Data(n));
    GrowSlots(fs, fs', bs, name, n, b, p, Pointer);
  }

  lemma GrowOld(fs: Fs, fs': Fs, bs: nat, name: string, n: nat, b: nat, p: nat, m: string, s: Slot)
    requires OneMore(fs, fs', bs, name, n, b, p) && OthersUntouched(fs, fs', bs, name)
    requires Count(fs'.files[name], bs) == n + 1 && Owns(fs, bs, m, s)
    ensures Owns(fs', bs, m, s) && BlockAt(fs'.disk, fs'.files[m], s) == BlockAt(fs.disk, fs.files[m], s)
  {
    if m == name {
      GrowSlots(fs, fs', bs, name, n, b, p, s);
    } else {
      assert Untouched(fs, fs', bs, m);
    }
  }

  lemma GrowSizes(fs: Fs, fs': Fs, bs: nat, name: string, n: nat, b: nat, p: nat)
    requires Layout(fs, bs) && OneMore(fs, fs', bs, name, n, b, p) && Count(fs'.files[name], bs) == n + 1
    ensures SizesOk(fs'.files, bs) && Shaped(fs'.disk, bs)
  {
  }

  /** The old contents are a prefix of the new ones. */
  lemma GrowPrefix(fs: Fs, fs': Fs, bs: nat, name: string, n: nat, b: nat, p: nat)
    requires Blocks.Inv(fs, bs) && Layout(fs', bs) && OneMore(fs, fs', bs, name, n, b, p)
    requires OthersUntouched(fs, fs', bs, name) && Count(fs'.files[name], bs) == n + 1
    ensures Truncated(fs, fs', bs, name, n)
  {
    forall s | Has(n, s) ensures BlockAt(fs'.disk, fs'.files[name], s) == BlockAt(fs.disk, fs.files[name], s) {
      GrowSlots(fs, fs', bs, name, n, b, p, s);
    }
    forall k | 0 <= k < n
      ensures var c := BlockAt(fs.disk, fs.files[name], Data(k)); c < |fs.disk| && fs'.disk[c] == fs.disk[c]
    {
      assert Owns(fs, bs, name, Data(k));
      if n >= 2 {
        assert Owns(fs, bs, name, Pointer) && BlockAt(fs.disk, fs.files[name], Pointer) == p;
      }
    }
    PrefixKept(fs, fs', bs, name, n);
  }

  /** `fs'` is `fs` without the last block of file `name`. */
  ghost predicate OneLess(fs: Fs, fs': Fs, bs: nat, name: string, n: nat, gone: set<nat>) {
    && bs > 0 && name in fs.files && n == Count(fs.files[name], bs) && n > 0
    && gone == {BlockAt(fs.disk, fs.files[name], Data(n - 1))} + (if n == 2 then {fs.files[name].indirect} else {})
    && fs'.disk == fs.disk && fs'.owner == fs.owner - gone
    && fs'.files == fs.files[name := fs.files[name].(size := Offset(n - 1, bs))]
  }

  lemma ShrinkCorrect(fs: Fs, fs': Fs, bs: nat, name: string, n: nat, gone: set<nat>)
    requires Blocks.Inv(fs, bs) && OneLess(fs, fs', bs, name, n, gone)
    requires |fs'.bits| == |fs.bits| && forall b {:trigger fs'.bits[b]} ::
               0 <= b < |fs.bits| ==> fs'.bits[b] == (fs.bits[b] && b !in gone)
    ensures Blocks.Inv(fs', bs) && Truncated(fs, fs', bs, name, n - 1)
  {
    QuotUnique(Offset(n - 1, bs), n - 1, bs);
    ShrinkGone(fs, bs, name, n, gone);
    ShrunkLayout(fs, fs', bs, name, gone);
    ShrinkPrefix(fs, fs', bs, name, n, gone);
  }

  lemma ShrinkPrefix(fs: Fs, fs': Fs, bs: nat, name: string, n: nat, gone: set<nat>)
    requires Layout(fs, bs) && Layout(fs', bs) && OneLess(fs, fs', bs, name, n, gone)
    requires Count(fs'.files[name], bs) == n - 1
    ensures Truncated(fs, fs', bs, name, n - 1)
  {
    ShrinkBytes(fs, fs', bs, name, n, gone);
    ShrinkOthers(fs, fs', bs, name, n, gone);
  }

  lemma ShrinkBytes(fs: Fs, fs': Fs, bs: nat, name: string, n: nat, gone: set<nat>)
    requires Layout(fs, bs) && Layout(fs', bs) && OneLess(fs, fs', bs, name, n, gone)
    requires Count(fs'.files[name], bs) == n - 1
    ensures forall s {:trigger BlockAt(fs'.disk, fs'.files[name], s)} :: Has(n - 1, s) ==>
              BlockAt(fs'.disk, fs'.files[name], s) == BlockAt(fs.disk, fs.files[name], s)
    ensures Offset(n - 1, bs) <= |FileBytes(fs, bs, name)| && Offset(n - 1, bs) <= |FileBytes(fs', bs, name)|
    ensures FileBytes(fs', bs, name)[..Offset(n - 1, bs)] == FileBytes(fs, bs, name)[..Offset(n - 1, bs)]
  {
    ShrinkSlots(fs, fs', bs, name, n, gone);
    forall k | 0 <= k < n - 1 ensures BlockAt(fs.disk, fs.files[name], Data(k)) < |fs.disk| {
      SlotFacts(fs, bs, name, k);
    }
    PrefixKept(fs, fs', bs, name, n - 1);
  }

  lemma ShrinkSlots(fs: Fs, fs': Fs, bs: nat, name: string, n: nat, gone: set<nat>)
    requires OneLess(fs, fs', bs, name, n, gone)
    ensures forall s {:trigger BlockAt(fs'.disk, fs'.files[name], s)} :: Has(n - 1, s) ==>
              BlockAt(fs'.disk, fs'.files[name], s) == BlockAt(fs.disk, fs.files[name], s)
  {
  }

  lemma ShrinkOthers(fs: Fs, fs': Fs, bs: nat, name: string, n: nat, gone: set<nat>)
    requires OneLess(fs, fs', bs, name, n, gone)
    ensures OthersUntouched(fs, fs', bs, name)
  {
    forall m | m in fs.files && m != name ensures Untouched(fs, fs', bs, m) {
    }
  }

  /** The released blocks are exactly those of the lost slots. */
  lemma ShrinkGone(fs: Fs, bs: nat, name: string, n: nat, gone: set<nat>)
    requires Blocks.Inv(fs, bs) && name in fs.files && n == Count(fs.files[name], bs) && n > 0
    requires gone == {BlockAt(fs.disk, fs.files[name], Data(n - 1))} + if n == 2 then {fs.files[name].indirect} else {}
    ensures forall b {:trigger fs.owner[b]} ::
              b in fs.owner ==> (b in gone <==> fs.owner[b].0 == name && !Has(n - 1, fs.owner[b].1))
  {
    LastSlots(fs, bs, name, n);
    forall b | b in fs.owner ensures b in gone <==> fs.owner[b].0 == name && !Has(n - 1, fs.owner[b].1) {
      assert Uses(fs, bs, fs.owner[b].0, fs.owner[b].1, b);
    }
  }
}
