/** Bytes, 32-bit little-endian words and in-place copies, shared by every module. */
module Bytes {

  datatype Option<+T> = None | Some(value: T)

  type byte = x: int | 0 <= x < 256

  /** One past the largest value of a `uint32_t`. */
  const WORD_LIMIT := 0x1_0000_0000

  /** The four bytes of a word, least significant first. */
  function Word(n: nat): (w: seq<byte>)
    requires n < WORD_LIMIT
    ensures |w| == 4
  {
    [n % 256, n / 256 % 256, n / 256 / 256 % 256, n / 256 / 256 / 256]
  }

  function FromWord(w: seq<byte>): (n: nat)
    requires |w| == 4
    ensures n < WORD_LIMIT
  {
    w[0] as nat + 256 * (w[1] as nat + 256 * (w[2] as nat + 256 * w[3] as nat))
  }

  /** A low-order byte and the number above it. */
  lemma Splits(low: byte, high: nat, n: nat)
    requires n == low as nat + 256 * high
    ensures n % 256 == low as nat && n / 256 == high
  {
  }

  /** Storing a word and loading it back are inverse to each other, in both directions. */
  lemma WordRoundTrip(n: nat, w: seq<byte>)
    requires n < WORD_LIMIT && |w| == 4
    ensures FromWord(Word(n)) == n
    ensures Word(FromWord(w)) == w
  {
    var c := w[2] as nat + 256 * w[3] as nat;
    var b := w[1] as nat + 256 * c;
    Splits(w[2], w[3] as nat, c);
    Splits(w[1], c, b);
    Splits(w[0], b, FromWord(w));
  }

  /** The bytes of a word weigh 1, 256, 65536 and 16777216, in the order in which they are stored. */
  lemma LittleEndian(n: nat, w: seq<byte>)
    requires n < WORD_LIMIT && w == Word(n)
    ensures n == w[0] as nat + 256 * w[1] as nat + 65536 * w[2] as nat + 16777216 * w[3] as nat
  {
    WordRoundTrip(n, w);
    assert n == FromWord(w);
  }

  /** `s` with `x` written over it from position `at` on: what `memcpy` does. */
  function Splice<T>(s: seq<T>, at: nat, x: seq<T>): (r: seq<T>)
    requires at + |x| <= |s|
    ensures |r| == |s|
    ensures forall i :: 0 <= i < |s| ==> r[i] == if at <= i < at + |x| then x[i - at] else s[i]
  {
    seq(|s|, i requires 0 <= i < |s| => if at <= i < at + |x| then x[i - at] else s[i])
  }

  /** `memcpy` into an array. */
  method CopyInto(dst: array<byte>, at: nat, src: seq<byte>)
    requires at + |src| <= dst.Length
    modifies dst
    ensures dst[..] == Splice(old(dst[..]), at, src)
  {
    for i := 0 to |src|
      invariant dst[..] == Splice(old(dst[..]), at, src[..i])
    {
      dst[at + i] := src[i];
    }
    assert src[..|src|] == src;
  }

  /** A slice of a slice. */
  lemma SubSlice(s: seq<byte>, lo: nat, hi: nat, off: nat, n: nat)
    requires lo <= hi <= |s| && lo + off + n <= hi
    ensures s[lo..hi][off..off + n] == s[lo + off..lo + off + n]
  {
    var a, b := s[lo..hi][off..off + n], s[lo + off..lo + off + n];
    assert |a| == |b|;
    assert forall i :: 0 <= i < n ==> a[i] == b[i];
  }
}
