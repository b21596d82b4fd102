/** Byte positions and block numbers. Multiples and quotients of the block size are defined by repeated
    addition and subtraction, and equal C's `*`, `/` and `%`. */
module Geometry {

  /** Where block `k` starts when every block has `bs` bytes. */
  function Offset(k: nat, bs: nat): (at: nat) {
    if k == 0 then 0 else Offset(k - 1, bs) + bs
  }

  /** The block that contains byte `n`, and the number of whole blocks in `n` bytes. */
  function Quot(n: nat, bs: nat): (k: nat)
    requires bs > 0
  {
    if n < bs then 0 else 1 + Quot(n - bs, bs)
  }

  lemma {:induction false} OffsetIsProduct(k: nat, bs: nat)
    ensures Offset(k, bs) == k * bs
  {
    if k > 0 {
      OffsetIsProduct(k - 1, bs);
    }
  }

  lemma {:induction false} OffsetMonotone(a: nat, b: nat, bs: nat)
    requires a <= b
    ensures Offset(a, bs) <= Offset(b, bs)
  {
    if a < b {
      OffsetMonotone(a, b - 1, bs);
    }
  }

  lemma {:induction false} OffsetAdd(a: nat, b: nat, bs: nat)
    ensures Offset(a, bs) + Offset(b, bs) == Offset(a + b, bs)
  {
    if b > 0 {
      OffsetAdd(a, b - 1, bs);
    }
  }

  /** Different blocks do not overlap. */
  lemma OffsetApart(b: nat, c: nat, bs: nat)
    ensures b < c ==> Offset(b, bs) + bs <= Offset(c, bs)
    ensures c < b ==> Offset(c, bs) + bs <= Offset(b, bs)
  {
    if b < c {
      OffsetMonotone(b + 1, c, bs);
    } else if c < b {
      OffsetMonotone(c + 1, b, bs);
    }
  }

  lemma {:induction false} QuotBounds(n: nat, bs: nat)
    requires bs > 0
    ensures Offset(Quot(n, bs), bs) <= n < Offset(Quot(n, bs), bs) + bs
  {
    if n >= bs {
      QuotBounds(n - bs, bs);
    }
  }

  /** Only one block number brackets a position. */
  lemma QuotUnique(n: nat, q: nat, bs: nat)
    requires bs > 0 && Offset(q, bs) <= n < Offset(q, bs) + bs
    ensures Quot(n, bs) == q
  {
    QuotBounds(n, bs);
    OffsetApart(q, Quot(n, bs), bs);
  }

  lemma QuotIsDivision(n: nat, bs: nat)
    requires bs > 0
    ensures Quot(n, bs) == n / bs && n - Offset(Quot(n, bs), bs) == n % bs
  {
    var q, r := n / bs, n % bs;
    assert n == bs * q + r;
    OffsetIsProduct(q, bs);
    QuotUnique(n, q, bs);
  }

  /** Block and offset of a byte position, computed with C's operators. */
  method Locate(p: nat, bs: nat) returns (k: nat, o: nat)
    requires bs > 0
    ensures k == Quot(p, bs) && p == Offset(k, bs) + o && o < bs
  {
    k, o := p / bs, p % bs;
    QuotIsDivision(p, bs);
  }
}
