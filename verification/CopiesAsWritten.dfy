/** `escribir_archivo` and `leer_archivo` as they stand in the source, over the bytes of a file in the order of its
    blocks, and exactly when they do what is meant. When they do, no copy leaves its block, so it does not matter where
    the blocks are. */
module CopiesAsWritten {
  import opened Bytes
  import opened Geometry

  /** How many turns the loop over middle blocks takes: the size less the offset, in blocks. */
  function Turns(n: nat, o: nat, bs: nat): nat
    requires bs > 0
  {
    if n > o then Quot(n - o, bs) else 0
  }

  lemma {:induction false} TurnsFit(m: nat, bs: nat)
    requires bs >= 4
    ensures 4 * Quot(m, bs) <= m && Quot(m, bs) <= m
  {
    if m >= bs { TurnsFit(m - bs, bs); }
  }

  /** What is left for the tail. */
  function Tail(n: nat, o: nat, bs: nat): nat
    requires bs >= 4
  {
    if n > o then
      TurnsFit(n - o, bs);
      n - o - 4 * Turns(n, o, bs)
    else 0
  }

  /** The array and the memory behind the data are large enough for every copy. */
  ghost predicate Room(disk: seq<byte>, other: seq<byte>, n: nat, k: nat, o: nat, bs: nat)
    requires bs >= 4
  {
    && o < bs
    && |disk| >= Offset(k + 2 + Turns(n, o, bs), bs) + n
    && |other| >= n + bs
  }

  lemma RoomFor(disk: seq<byte>, other: seq<byte>, n: nat, k: nat, o: nat, bs: nat, i: nat)
    requires bs >= 4 && Room(disk, other, n, k, o, bs) && i <= Turns(n, o, bs)
    ensures Offset(k, bs) + bs + n <= |disk| && Offset(k + 1 + i, bs) + bs + n <= |disk|
    ensures bs - o + 4 * i + Tail(n, o, bs) <= n + bs
  {
    OffsetMonotone(k + 1 + i, k + 1 + Turns(n, o, bs), bs);
    OffsetMonotone(k, k + 1 + i, bs);
    if n > o { TurnsFit(n - o, bs); }
  }

  /** One `memcpy`, as far as it stays inside both sides; with `Room` it always does. */
  function Put(d: seq<byte>, at: nat, src: seq<byte>, from: nat, len: nat): (r: seq<byte>)
    ensures |r| == |d|
    ensures forall x :: 0 <= x < |d| ==>
      r[x] == if at <= x < at + len <= |d| && from + len <= |src| then src[from + (x - at)] else d[x]
  {
    if at + len <= |d| && from + len <= |src| then Splice(d, at, src[from..from + len]) else d
  }

  method PutInto(dst: array<byte>, at: nat, src: seq<byte>, from: nat, len: nat)
    requires at + len <= dst.Length && from + len <= |src|
    modifies dst
    ensures dst[..] == Put(old(dst[..]), at, src, from, len)
  {
    CopyInto(dst, at, src[from..from + len]);
  }

  // ----- writing -----

  /** The disk after the copy into the first block and `i` copies of four bytes. `src` is the data and whatever lies
      behind it. */
  function Written(disk: seq<byte>, src: seq<byte>, k: nat, o: nat, bs: nat, i: nat): (d: seq<byte>)
    requires o < bs
    ensures |d| == |disk|
  {
    if i == 0 then Put(disk, Offset(k, bs) + o, src, 0, bs - o)
    else Put(Written(disk, src, k, o, bs, i - 1), Offset(k + i, bs), src, bs - o + 4 * (i - 1), 4)
  }

  function WrittenAll(disk: seq<byte>, src: seq<byte>, n: nat, k: nat, o: nat, bs: nat): (d: seq<byte>)
    requires bs >= 4 && o < bs
    ensures |d| == |disk|
  {
    var c := Turns(n, o, bs);
    Put(Written(disk, src, k, o, bs, c), Offset(k + 1 + c, bs), src, bs - o + 4 * c, Tail(n, o, bs))
  }

  lemma WrittenNext(disk: seq<byte>, src: seq<byte>, k: nat, o: nat, bs: nat, i: nat, at: nat, from: nat)
    requires o < bs && at == Offset(k + (i + 1), bs) && from == bs - o + 4 * i
    ensures Written(disk, src, k, o, bs, i + 1) == Put(Written(disk, src, k, o, bs, i), at, src, from, 4)
  {
  }

  /** One copy of four bytes to the next block. */
  method CopyMiddle(disk: array<byte>, ghost was: seq<byte>, src: seq<byte>, ghost n: nat, k: nat, ghost o: nat,
                    bs: nat, i: nat, written: nat)
    requires bs >= 4 && Room(was, src, n, k, o, bs) && i < Turns(n, o, bs) && written == bs - o + 4 * i
    requires disk[..] == Written(was, src, k, o, bs, i)
    modifies disk
    ensures disk[..] == Written(was, src, k, o, bs, i + 1)
  {
    RoomFor(was, src, n, k, o, bs, i + 1);
    var at := Offset(k + (i + 1), bs);
    WrittenNext(was, src, k, o, bs, i, at, written);
    PutInto(disk, at, src, written, 4);
  }

  method CopyMiddles(disk: array<byte>, ghost was: seq<byte>, src: seq<byte>, ghost n: nat, k: nat, o: nat, bs: nat,
                     turns: nat)
    requires bs >= 4 && Room(was, src, n, k, o, bs) && turns == Turns(n, o, bs)
             && disk[..] == Written(was, src, k, o, bs, 0)
    modifies disk
    ensures disk[..] == Written(was, src, k, o, bs, turns)
  {
    for i := 0 to turns
      invariant disk[..] == Written(was, src, k, o, bs, i)
    {
      CopyMiddle(disk, was, src, n, k, o, bs, i, bs - o + 4 * i);
    }
  }

  /** The last copy, of what the loop left over. */
  method CopyTail(disk: array<byte>, ghost was: seq<byte>, src: seq<byte>, n: nat, k: nat, o: nat, bs: nat, turns: nat)
    requires bs >= 4 && Room(was, src, n, k, o, bs) && turns == Turns(n, o, bs)
             && disk[..] == Written(was, src, k, o, bs, turns)
    modifies disk
    ensures disk[..] == WrittenAll(was, src, n, k, o, bs)
  {
    RoomFor(was, src, n, k, o, bs, turns);
    PutInto(disk, Offset(k + 1 + turns, bs), src, bs - o + 4 * turns, Tail(n, o, bs));
  }

  /** `escribir_archivo`: the copies in their order. */
  method WriteAsWritten(disk: array<byte>, src: seq<byte>, n: nat, k: nat, o: nat, bs: nat)
    requires bs >= 4 && Room(disk[..], src, n, k, o, bs)
    modifies disk
    ensures disk[..] == WrittenAll(old(disk[..]), src, n, k, o, bs)
  {
    ghost var was := disk[..];
    RoomFor(was, src, n, k, o, bs, 0);
    PutInto(disk, Offset(k, bs) + o, src, 0, bs - o);
    var turns := CountTurns(n, o, bs);
    CopyMiddles(disk, was, src, n, k, o, bs, turns);
    CopyTail(disk, was, src, n, k, o, bs, turns);
  }

  /** `cant_bloques_acceder`, with C's division of a size that may be negative. */
  method CountTurns(n: nat, o: nat, bs: nat) returns (turns: nat)
    requires bs >= 4 && o < bs
    ensures turns == Turns(n, o, bs)
  {
    var size := n - o;
    if size > 0 {
      QuotIsDivision(size, bs);
      turns := size / bs;
    } else {
      turns := 0;
    }
  }

  /** The range ends with its first block and is no longer than its offset; or it is longer, the offset is half a block,
      and blocks have four bytes or the range ends before the next block does. */
  predicate WritesRight(n: nat, o: nat, bs: nat) {
    (n <= o && o + n == bs) || (n > o && 2 * o == bs && (bs == 4 || n < o + bs))
  }

  /** The disk after the write is the disk before it with the data at the place asked for, and nothing else changed. */
  ghost predicate Asked(disk: seq<byte>, src: seq<byte>, n: nat, k: nat, o: nat, bs: nat)
    requires bs >= 4 && o < bs
  {
    && Offset(k, bs) + o + n <= |disk| && n <= |src|
    && WrittenAll(disk, src, n, k, o, bs) == Put(disk, Offset(k, bs) + o, src, 0, n)
  }

  /** Two pieces of the data, one behind the other. */
  lemma TwoPieces(d: seq<byte>, p: nat, src: seq<byte>, i: nat, at: nat, len: nat)
    requires at == p + i && p + i + len <= |d| && i + len <= |src|
    ensures Put(Put(d, p, src, 0, i), at, src, i, len) == Put(d, p, src, 0, i + len)
  {
    var a, b := Put(Put(d, p, src, 0, i), at, src, i, len), Put(d, p, src, 0, i + len);
    forall x | 0 <= x < |d| ensures a[x] == b[x] {
      assert Put(d, p, src, 0, i)[x] == if p <= x < p + i then src[x - p] else d[x];
    }
  }

  /** With blocks of four bytes the middle copies are whole blocks. */
  lemma {:induction false} SmallBlocks(disk: seq<byte>, src: seq<byte>, n: nat, k: nat, o: nat, bs: nat, i: nat)
    requires bs >= 4 && Room(disk, src, n, k, o, bs) && i <= Turns(n, o, bs) && (i == 0 || bs == 4)
    ensures Offset(k + 1 + i, bs) == Offset(k, bs) + bs + 4 * i
    ensures Written(disk, src, k, o, bs, i) == Put(disk, Offset(k, bs) + o, src, 0, bs - o + 4 * i)
  {
    if i > 0 {
      RoomFor(disk, src, n, k, o, bs, i);
      SmallBlocks(disk, src, n, k, o, bs, i - 1);
      TwoPieces(disk, Offset(k, bs) + o, src, bs - o + 4 * (i - 1), Offset(k + i, bs), 4);
    }
  }

  lemma WritesRightly(disk: seq<byte>, src: seq<byte>, n: nat, k: nat, o: nat, bs: nat)
    requires bs >= 4 && Room(disk, src, n, k, o, bs) && WritesRight(n, o, bs)
    ensures Asked(disk, src, n, k, o, bs)
  {
    var c := Turns(n, o, bs);
    RoomFor(disk, src, n, k, o, bs, c);
    SmallBlocks(disk, src, n, k, o, bs, c);
    AddsUp(n, o, bs);
    AskedWhen(disk, src, n, k, o, bs, c, Offset(k, bs) + o, bs - o + 4 * c, Offset(k + 1 + c, bs), Tail(n, o, bs));
  }

  /** On such a range the copies together take as many bytes as were asked for, and more than one middle copy is made
      with blocks of four bytes only. */
  lemma AddsUp(n: nat, o: nat, bs: nat)
    requires bs >= 4 && o < bs && WritesRight(n, o, bs)
    ensures bs - o + 4 * Turns(n, o, bs) + Tail(n, o, bs) == n
    ensures Turns(n, o, bs) == 0 || bs == 4
  {
  }

  lemma AllWritten(disk: seq<byte>, src: seq<byte>, n: nat, k: nat, o: nat, bs: nat, w: seq<byte>, i: nat, at: nat,
                   len: nat)
    requires bs >= 4 && o < bs && i == bs - o + 4 * Turns(n, o, bs) && at == Offset(k + 1 + Turns(n, o, bs), bs)
    requires len == Tail(n, o, bs) && w == Written(disk, src, k, o, bs, Turns(n, o, bs))
    ensures WrittenAll(disk, src, n, k, o, bs) == Put(w, at, src, i, len)
  {
  }

  lemma AskedWhen(disk: seq<byte>, src: seq<byte>, n: nat, k: nat, o: nat, bs: nat, c: nat, p: nat, i: nat, at: nat,
                  len: nat)
    requires bs >= 4 && o < bs && c == Turns(n, o, bs) && p == Offset(k, bs) + o && i == bs - o + 4 * c
    requires at == Offset(k + 1 + c, bs) && len == Tail(n, o, bs) && at == p + i && i + len == n
    requires p + n <= |disk| && n <= |src| && Written(disk, src, k, o, bs, c) == Put(disk, p, src, 0, i)
    ensures Asked(disk, src, n, k, o, bs)
  {
    var w := Written(disk, src, k, o, bs, c);
    AllWritten(disk, src, n, k, o, bs, w, i, at, len);
    Together(disk, src, p, i, at, len, w, n);
  }

  lemma Together(d: seq<byte>, src: seq<byte>, p: nat, i: nat, at: nat, len: nat, w: seq<byte>, n: nat)
    requires w == Put(d, p, src, 0, i) && at == p + i && i + len == n && p + n <= |d| && n <= |src|
    ensures Put(w, at, src, i, len) == Put(d, p, src, 0, n)
  {
    TwoPieces(d, p, src, i, at, len);
  }

  // ----- only then -----

  function Zeros(n: nat): seq<byte> { seq(n, i => 0) }
  function Ones(n: nat): seq<byte> { seq(n, i => 1) }

  /** With larger blocks the middle copies leave everything from the fifth byte to the end of the next block alone. */
  lemma {:induction false} GapLeft(disk: seq<byte>, src: seq<byte>, n: nat, k: nat, o: nat, bs: nat, i: nat, x: nat)
    requires bs >= 4 && Room(disk, src, n, k, o, bs) && i <= Turns(n, o, bs) && x < |disk|
    requires Offset(k + 1, bs) + 4 <= x < Offset(k + 2, bs)
    ensures Written(disk, src, k, o, bs, i)[x] == disk[x]
  {
    RoomFor(disk, src, n, k, o, bs, i);
    if i > 0 {
      if i > 1 { OffsetMonotone(k + 2, k + i, bs); }
      GapLeft(disk, src, n, k, o, bs, i - 1, x);
    }
  }

  /** A place where zeros overwritten with ones show that the copies were not the ones asked for. */
  lemma Misplaced(n: nat, k: nat, o: nat, bs: nat, disk: seq<byte>, src: seq<byte>) returns (x: nat)
    requires bs >= 4 && o < bs && !WritesRight(n, o, bs)
    requires Room(disk, src, n, k, o, bs) && disk == Zeros(|disk|) && src == Ones(|src|)
    ensures x < |disk| && WrittenAll(disk, src, n, k, o, bs)[x] != Put(disk, Offset(k, bs) + o, src, 0, n)[x]
  {
    var p, c, s := Offset(k, bs) + o, Turns(n, o, bs), Tail(n, o, bs);
    RoomFor(disk, src, n, k, o, bs, c);
    if c == 0 || bs == 4 {
      SmallBlocks(disk, src, n, k, o, bs, c);
      x := p + if bs - o + 4 * c + s < n then bs - o + 4 * c + s else n;
    } else {
      x := MisplacedFar(n, k, o, bs, disk, src);
    }
  }

  lemma MisplacedFar(n: nat, k: nat, o: nat, bs: nat, disk: seq<byte>, src: seq<byte>) returns (x: nat)
    requires bs > 4 && o < bs && Turns(n, o, bs) > 0
    requires Room(disk, src, n, k, o, bs) && disk == Zeros(|disk|) && src == Ones(|src|)
    ensures x < |disk| && WrittenAll(disk, src, n, k, o, bs)[x] != Put(disk, Offset(k, bs) + o, src, 0, n)[x]
  {
    if n > bs - o + 4 {
      x := MisplacedGap(n, k, o, bs, disk, src);
    } else {
      x := MisplacedTail(n, k, o, bs, disk, src);
    }
  }

  lemma MisplacedGap(n: nat, k: nat, o: nat, bs: nat, disk: seq<byte>, src: seq<byte>) returns (x: nat)
    requires bs > 4 && o < bs && Turns(n, o, bs) > 0 && n > bs - o + 4
    requires Room(disk, src, n, k, o, bs) && disk == Zeros(|disk|) && src == Ones(|src|)
    ensures x < |disk| && WrittenAll(disk, src, n, k, o, bs)[x] != Put(disk, Offset(k, bs) + o, src, 0, n)[x]
  {
    var c := Turns(n, o, bs);
    RoomFor(disk, src, n, k, o, bs, c);
    OffsetMonotone(k + 2, k + 1 + c, bs);
    x := Offset(k + 1, bs) + 4;
    GapLeft(disk, src, n, k, o, bs, c, x);
  }

  lemma MisplacedTail(n: nat, k: nat, o: nat, bs: nat, disk: seq<byte>, src: seq<byte>) returns (x: nat)
    requires bs > 4 && o < bs && Turns(n, o, bs) > 0 && n <= bs - o + 4
    requires Room(disk, src, n, k, o, bs) && disk == Zeros(|disk|) && src == Ones(|src|)
    ensures x < |disk| && WrittenAll(disk, src, n, k, o, bs)[x] != Put(disk, Offset(k, bs) + o, src, 0, n)[x]
  {
    OneTurn(n, o, bs);
    RoomFor(disk, src, n, k, o, bs, 1);
    x := Offset(k + 2, bs);
  }

  /** A range that ends in the four bytes after its first block and still has a middle copy has exactly one. */
  lemma OneTurn(n: nat, o: nat, bs: nat)
    requires bs > 4 && o < bs && Turns(n, o, bs) > 0 && n <= bs - o + 4
    ensures Turns(n, o, bs) == 1 && Tail(n, o, bs) > 0
  {
    QuotBounds(n - o, bs);
    assert n - o < 2 * bs;
    assert Quot(n - o - bs, bs) == 0;
  }

  /** `escribir_archivo` as written changes exactly the bytes asked for, whatever the disk holds and whatever is
      written, if and only if the range meets `WritesRight`. */
  lemma WritesRightIff(n: nat, k: nat, o: nat, bs: nat)
    requires bs >= 4 && o < bs
    ensures (forall disk: seq<byte>, src: seq<byte> {:trigger Room(disk, src, n, k, o, bs)} ::
               Room(disk, src, n, k, o, bs) ==> Asked(disk, src, n, k, o, bs))
            <==> WritesRight(n, o, bs)
  {
    if WritesRight(n, o, bs) {
      forall disk: seq<byte>, src: seq<byte> | Room(disk, src, n, k, o, bs)
        ensures Asked(disk, src, n, k, o, bs)
      {
        WritesRightly(disk, src, n, k, o, bs);
      }
    } else {
      var disk, src := Zeros(Offset(k + 2 + Turns(n, o, bs), bs) + n), Ones(n + bs);
      assert Room(disk, src, n, k, o, bs);
      var x := Misplaced(n, k, o, bs, disk, src);
    }
  }

  // ----- reading -----

  /** The buffer after the copy from the first block and `i` copies of four bytes, none of which moves on in the buffer.
      `buf` is the buffer of `n` bytes and whatever lies behind it. */
  function Read(buf: seq<byte>, disk: seq<byte>, k: nat, o: nat, bs: nat, i: nat): (b: seq<byte>)
    requires o < bs
    ensures |b| == |buf|
  {
    if i == 0 then Put(buf, 0, disk, Offset(k, bs) + o, bs - o)
    else Put(Read(buf, disk, k, o, bs, i - 1), 0, disk, Offset(k + i, bs), 4)
  }

  function ReadAll(buf: seq<byte>, disk: seq<byte>, n: nat, k: nat, o: nat, bs: nat): (b: seq<byte>)
    requires bs >= 4 && o < bs
    ensures |b| == |buf|
  {
    var c := Turns(n, o, bs);
    Put(Read(buf, disk, k, o, bs, c), 0, disk, Offset(k + 1 + c, bs), Tail(n, o, bs))
  }

  /** One copy of four bytes from the next block, to the start of the buffer. */
  method ReadMiddle(buf: array<byte>, ghost was: seq<byte>, disk: seq<byte>, ghost n: nat, k: nat, ghost o: nat,
                    bs: nat, i: nat)
    requires bs >= 4 && Room(disk, was, n, k, o, bs) && i < Turns(n, o, bs) && buf[..] == Read(was, disk, k, o, bs, i)
    modifies buf
    ensures buf[..] == Read(was, disk, k, o, bs, i + 1)
  {
    RoomFor(disk, was, n, k, o, bs, i + 1);
    PutInto(buf, 0, disk, Offset(k + (i + 1), bs), 4);
  }

  method ReadMiddles(buf: array<byte>, ghost was: seq<byte>, disk: seq<byte>, ghost n: nat, k: nat, ghost o: nat,
                     bs: nat, turns: nat)
    requires bs >= 4 && Room(disk, was, n, k, o, bs) && turns == Turns(n, o, bs)
             && buf[..] == Read(was, disk, k, o, bs, 0)
    modifies buf
    ensures buf[..] == Read(was, disk, k, o, bs, turns)
  {
    for i := 0 to turns
      invariant buf[..] == Read(was, disk, k, o, bs, i)
    {
      ReadMiddle(buf, was, disk, n, k, o, bs, i);
    }
  }

  /** The last copy, of what the loop left over, to the start of the buffer as well. */
  method ReadTail(buf: array<byte>, ghost was: seq<byte>, disk: seq<byte>, n: nat, k: nat, o: nat, bs: nat, turns: nat)
    requires bs >= 4 && Room(disk, was, n, k, o, bs) && turns == Turns(n, o, bs)
             && buf[..] == Read(was, disk, k, o, bs, turns)
    modifies buf
    ensures buf[..] == ReadAll(was, disk, n, k, o, bs)
  {
    RoomFor(disk, was, n, k, o, bs, turns);
    PutInto(buf, 0, disk, Offset(k + 1 + turns, bs), Tail(n, o, bs));
  }

  /** `leer_archivo`: the copies in their order. */
  method ReadAsWritten(buf: array<byte>, disk: seq<byte>, n: nat, k: nat, o: nat, bs: nat)
    requires bs >= 4 && Room(disk, buf[..], n, k, o, bs)
    modifies buf
    ensures buf[..] == ReadAll(old(buf[..]), disk, n, k, o, bs)
  {
    ghost var was := buf[..];
    RoomFor(disk, was, n, k, o, bs, 0);
    PutInto(buf, 0, disk, Offset(k, bs) + o, bs - o);
    var turns := CountTurns(n, o, bs);
    ReadMiddles(buf, was, disk, n, k, o, bs, turns);
    ReadTail(buf, was, disk, n, k, o, bs, turns);
  }

  /** Zeros up to the end of block `k` and ones behind it. */
  function Step(k: nat, bs: nat, n: nat): seq<byte> {
    seq(n, i => if i < Offset(k + 1, bs) then 0 else 1)
  }

  /** After any middle copy the buffer starts with a byte of a later block. */
  lemma {:induction false} StartsLate(buf: seq<byte>, disk: seq<byte>, n: nat, k: nat, o: nat, bs: nat, i: nat)
    requires bs >= 4 && Room(disk, buf, n, k, o, bs) && 0 < i <= Turns(n, o, bs) && disk == Step(k, bs, |disk|)
    ensures Read(buf, disk, k, o, bs, i)[0] == 1
  {
    RoomFor(disk, buf, n, k, o, bs, i);
    OffsetMonotone(k + 1, k + i, bs);
  }

  /** A range longer than its offset: the buffer ends up starting with a byte of a later block. */
  lemma ReadsLate(buf: seq<byte>, disk: seq<byte>, n: nat, k: nat, o: nat, bs: nat)
    requires bs >= 4 && Room(disk, buf, n, k, o, bs) && n > o && disk == Step(k, bs, |disk|)
    ensures ReadAll(buf, disk, n, k, o, bs)[0] == 1
  {
    var c, s := Turns(n, o, bs), Tail(n, o, bs);
    RoomFor(disk, buf, n, k, o, bs, c);
    OffsetMonotone(k + 1, k + 1 + c, bs);
    if s == 0 { StartsLate(buf, disk, n, k, o, bs, c); }
  }

  /** The buffer holds exactly the bytes asked for, and what lies behind it is as before. */
  ghost predicate Got(buf: seq<byte>, disk: seq<byte>, n: nat, k: nat, o: nat, bs: nat)
    requires bs >= 4 && o < bs
  {
    && Offset(k, bs) + o + n <= |disk| && n <= |buf|
    && ReadAll(buf, disk, n, k, o, bs) == Put(buf, 0, disk, Offset(k, bs) + o, n)
  }

  /** A range no longer than its offset is read by the first copy alone. */
  lemma ReadsShort(buf: seq<byte>, disk: seq<byte>, n: nat, k: nat, o: nat, bs: nat)
    requires bs >= 4 && Room(disk, buf, n, k, o, bs) && n <= o
    ensures ReadAll(buf, disk, n, k, o, bs) == Put(buf, 0, disk, Offset(k, bs) + o, bs - o)
  {
    assert Put(Read(buf, disk, k, o, bs, 0), 0, disk, Offset(k + 1, bs), 0) == Read(buf, disk, k, o, bs, 0);
  }

  /** A disk and a buffer on which a wrong range shows. */
  lemma ReadsWrong(buf: seq<byte>, disk: seq<byte>, n: nat, k: nat, o: nat, bs: nat) returns (x: nat)
    requires bs >= 4 && Room(disk, buf, n, k, o, bs) && !(n <= o && o + n == bs)
    requires disk == Step(k, bs, |disk|) && buf == if bs - o < n then Zeros(|buf|) else Ones(|buf|)
    ensures x < |buf| && ReadAll(buf, disk, n, k, o, bs)[x] != Put(buf, 0, disk, Offset(k, bs) + o, n)[x]
  {
    RoomFor(disk, buf, n, k, o, bs, 0);
    if n > o {
      ReadsLate(buf, disk, n, k, o, bs);
      x := 0;
    } else {
      ReadsShort(buf, disk, n, k, o, bs);
      x := if bs - o < n then bs - o else n;
    }
  }

  /** `leer_archivo` as written fills the buffer with exactly the bytes asked for, whatever the disk holds, if and only
      if the range ends with its first block and is no longer than its offset. */
  lemma ReadsRightIff(n: nat, k: nat, o: nat, bs: nat)
    requires bs >= 4 && o < bs
    ensures (forall disk: seq<byte>, buf: seq<byte> {:trigger Room(disk, buf, n, k, o, bs)} ::
               Room(disk, buf, n, k, o, bs) ==> Got(buf, disk, n, k, o, bs))
            <==> n <= o && o + n == bs
  {
    if n <= o && o + n == bs {
      forall disk: seq<byte>, buf: seq<byte> | Room(disk, buf, n, k, o, bs) ensures Got(buf, disk, n, k, o, bs) {
        RoomFor(disk, buf, n, k, o, bs, 0);
        ReadsShort(buf, disk, n, k, o, bs);
      }
    } else {
      var disk := Step(k, bs, Offset(k + 2 + Turns(n, o, bs), bs) + n);
      var buf := if bs - o < n then Zeros(n + bs) else Ones(n + bs);
      assert Room(disk, buf, n, k, o, bs);
      var x := ReadsWrong(buf, disk, n, k, o, bs);
    }
  }
}
