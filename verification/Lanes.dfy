/**
 64-bit lanes as machine words, and the bits they stand for. Bit positions are counted with the
 wrapping 6-bit type, so that position arithmetic modulo 64 is the type's own arithmetic.
 */
module Lanes {

  predicate BitAt(v: bv64, k: bv6) { (v >> k) & 1 == 1 }

  // A 64-bit unsigned word, with the operators the permutation uses.
  datatype Word = Word(v: bv64)

  function Xor(a: Word, b: Word): Word { Word(Xor64(a.v, b.v)) }

  function AndNot(a: Word, b: Word): Word { Word(AndNot64(a.v, b.v)) }

  function Xor64(a: bv64, b: bv64): bv64 { a ^ b }

  function AndNot64(a: bv64, b: bv64): bv64 { !a & b }

  // (a << n) | (a >> (64 - n)), the amount taken as a 6-bit number.
  function Rotl(a: Word, n: nat): Word
    requires 0 < n < 64
  {
    Word(Rotl64(a.v, Position(n)))
  }

  function Rotl64(v: bv64, n: bv6): bv64 { Left(v, n) | Right(v, n) }

  function Left(v: bv64, n: bv6): bv64 { v << n }

  function Right(v: bv64, n: bv6): bv64 { v >> (64 - n as bv64) }

  // ---- Positions: the 6-bit counter after z increments ---------------------------

  function Position(z: nat): bv6 {
    if z == 0 then 0 else Position(z - 1) + 1
  }

  lemma {:induction false} PositionAdd(a: nat, b: nat)
    ensures Position(a + b) == Position(a) + Position(b)
  {
    if b > 0 { PositionAdd(a, b - 1); }
  }

  lemma {:induction false} PositionValue(z: nat)
    requires z < 64
    ensures Position(z) as int == z
  {
    if z > 0 { PositionValue(z - 1); }
  }

  lemma PositionNonZero(z: nat)
    requires 0 < z < 64
    ensures Position(z) != 0
  {
    PositionValue(z);
  }

  lemma PositionLast()
    ensures Position(63) == 63 && Position(64) == 0
  {
    PositionAdd(1, 1);
    PositionAdd(2, 2);
    PositionAdd(4, 4);
    PositionAdd(8, 8);
    PositionAdd(16, 16);
    PositionAdd(32, 32);
  }

  lemma PositionBack(z: nat, n: nat)
    requires n <= z
    ensures Position(z - n) == Position(z) - Position(n)
  {
    hide Position;
    PositionAdd(z - n, n);
  }

  lemma {:induction false} PositionPeriod(z: nat)
    ensures Position(z) == Position(z % 64)
  {
    if z >= 64 {
      PositionPeriod(z - 64);
      assert Position(z) == Position(z - 64) by { PositionAdd(z - 64, 64); PositionLast(); }
    }
  }

  lemma PositionWrap(z: nat, n: nat)
    requires n < 64
    ensures Position(z + 64 - n) == Position(z) - Position(n)
  {
    assert Position(64) == 0 by { PositionLast(); }
    hide Position;
    PositionAdd(z, 64);
    PositionAdd(z + 64 - n, n);
  }

  // (z - offset) modulo 64.
  function Back(z: nat, offset: nat): (i: nat)
    requires z < 64
    ensures i < 64 && i == (z - offset) % 64
  {
    var n := offset % 64;
    if n <= z then z - n else z + 64 - n
  }

  lemma PositionOfBack(z: nat, offset: nat)
    requires z < 64
    ensures Position(Back(z, offset)) == Position(z) - Position(offset)
  {
    PositionPeriod(offset);
    hide Position;
    var n := offset % 64;
    if n <= z { PositionBack(z, n); } else { PositionWrap(z, n); }
  }

  // ---- Bits of the word operations -------------------------------------------------

  lemma BitOfXor(a: bv64, b: bv64, k: bv6)
    ensures BitAt(a ^ b, k) == (BitAt(a, k) != BitAt(b, k))
  {
  }

  lemma BitOfOr(a: bv64, b: bv64, k: bv6)
    ensures BitAt(a | b, k) == (BitAt(a, k) || BitAt(b, k))
  {
  }

  lemma BitOfAndNot(a: bv64, b: bv64, k: bv6)
    ensures BitAt(!a & b, k) == (!BitAt(a, k) && BitAt(b, k))
  {
  }

  lemma SetBitMovesLeft(v: bv64, n: bv6, k: bv6)
    requires n <= k && BitAt(v, k - n)
    ensures BitAt(v << n, k)
  {
  }

  lemma ClearBitMovesLeft(v: bv64, n: bv6, k: bv6)
    requires n <= k && !BitAt(v, k - n)
    ensures !BitAt(v << n, k)
  {
  }

  lemma BitOfLeft(v: bv64, n: bv6, k: bv6)
    requires n <= k
    ensures BitAt(Left(v, n), k) == BitAt(v, k - n)
  {
    hide BitAt;
    if BitAt(v, k - n) { SetBitMovesLeft(v, n, k); } else { ClearBitMovesLeft(v, n, k); }
  }

  lemma NoBitOfLeft(v: bv64, n: bv6, k: bv6)
    requires k < n
    ensures !BitAt(Left(v, n), k)
  {
  }

  lemma SetBitMovesRight(v: bv64, n: bv6, k: bv6)
    requires k < n && BitAt(v, k - n)
    ensures BitAt(v >> (64 - n as bv64), k)
  {
  }

  lemma ClearBitMovesRight(v: bv64, n: bv6, k: bv6)
    requires k < n && !BitAt(v, k - n)
    ensures !BitAt(v >> (64 - n as bv64), k)
  {
  }

  lemma BitOfRight(v: bv64, n: bv6, k: bv6)
    requires k < n
    ensures BitAt(Right(v, n), k) == BitAt(v, k - n)
  {
    hide BitAt;
    if BitAt(v, k - n) { SetBitMovesRight(v, n, k); } else { ClearBitMovesRight(v, n, k); }
  }

  lemma NoBitOfRight(v: bv64, n: bv6, k: bv6)
    requires 0 < n <= k
    ensures !BitAt(Right(v, n), k)
  {
  }

  lemma BitOfRotl(v: bv64, n: bv6, k: bv6)
    requires n != 0
    ensures BitAt(Rotl64(v, n), k) == BitAt(v, k - n)
  {
    hide BitAt, Left, Right;
    BitOfOr(Left(v, n), Right(v, n), k);
    if n <= k {
      BitOfLeft(v, n, k);
      NoBitOfRight(v, n, k);
    } else {
      NoBitOfLeft(v, n, k);
      BitOfRight(v, n, k);
    }
  }

  // ---- A lane is its 64 bits ----------------------------------------------------------

  function Bits(w: Word): (bits: seq<bool>)
    ensures |bits| == 64
  {
    seq(64, z requires 0 <= z < 64 => BitAt(w.v, Position(z)))
  }

  predicate ReachesUp(d: bv64, k: bv6) { d >> k != 0 }

  lemma NextBitUp(d: bv64, k: bv6)
    requires ReachesUp(d, k) && !BitAt(d, k)
    ensures k != 63 && ReachesUp(d, k + 1)
  {
  }

  lemma {:induction false} NonZeroHasBit(d: bv64, z: nat) returns (i: nat)
    requires z < 64 && ReachesUp(d, Position(z))
    ensures i < 64 && BitAt(d, Position(i))
    decreases 64 - z
  {
    hide BitAt, ReachesUp;
    if BitAt(d, Position(z)) {
      i := z;
    } else {
      NextBitUp(d, Position(z));
      assert z != 63 by { PositionLast(); }
      i := NonZeroHasBit(d, z + 1);
    }
  }

  lemma DifferenceReachesUp(v: bv64, w: bv64)
    requires v != w
    ensures ReachesUp(v ^ w, Position(0))
  {
  }

  lemma DifferenceHasBit(v: bv64, w: bv64) returns (i: nat)
    requires v != w
    ensures i < 64 && BitAt(v, Position(i)) != BitAt(w, Position(i))
  {
    hide BitAt, ReachesUp;
    DifferenceReachesUp(v, w);
    i := NonZeroHasBit(v ^ w, 0);
    BitOfXor(v, w, Position(i));
  }

  lemma BitsDetermineWord(a: Word, b: Word)
    requires Bits(a) == Bits(b)
    ensures a == b
  {
    hide BitAt;
    forall z | 0 <= z < 64
      ensures BitAt(a.v, Position(z)) == BitAt(b.v, Position(z))
    {
      assert Bits(a)[z] == Bits(b)[z];
    }
    if a.v != b.v {
      var i := DifferenceHasBit(a.v, b.v);
      assert false;
    }
  }

  lemma BitOfXor64(a: bv64, b: bv64, k: bv6)
    ensures BitAt(Xor64(a, b), k) == (BitAt(a, k) != BitAt(b, k))
  {
    hide BitAt;
    BitOfXor(a, b, k);
  }

  lemma BitOfAndNot64(a: bv64, b: bv64, k: bv6)
    ensures BitAt(AndNot64(a, b), k) == (!BitAt(a, k) && BitAt(b, k))
  {
    hide BitAt;
    BitOfAndNot(a, b, k);
  }

  lemma BitOfWordXor(a: Word, b: Word, k: bv6)
    ensures BitAt(Xor(a, b).v, k) == (BitAt(a.v, k) != BitAt(b.v, k))
  {
    hide BitAt, Xor64;
    BitOfXor64(a.v, b.v, k);
  }

  lemma BitOfWordAndNot(a: Word, b: Word, k: bv6)
    ensures BitAt(AndNot(a, b).v, k) == (!BitAt(a.v, k) && BitAt(b.v, k))
  {
    hide BitAt, AndNot64;
    BitOfAndNot64(a.v, b.v, k);
  }

  lemma BitOfWordRotl(a: Word, n: nat, k: bv6)
    requires 0 < n < 64
    ensures BitAt(Rotl(a, n).v, k) == BitAt(a.v, k - Position(n))
  {
    hide BitAt, Rotl64, Position;
    PositionNonZero(n);
    BitOfRotl(a.v, Position(n), k);
  }

  lemma BitsOfXor(a: Word, b: Word)
    ensures forall z :: 0 <= z < 64 ==> Bits(Xor(a, b))[z] == (Bits(a)[z] != Bits(b)[z])
  {
    hide BitAt, Xor;
    forall z | 0 <= z < 64
      ensures Bits(Xor(a, b))[z] == (Bits(a)[z] != Bits(b)[z])
    {
      BitOfWordXor(a, b, Position(z));
    }
  }

  lemma BitsOfAndNot(a: Word, b: Word)
    ensures forall z :: 0 <= z < 64 ==> Bits(AndNot(a, b))[z] == (!Bits(a)[z] && Bits(b)[z])
  {
    hide BitAt, AndNot;
    forall z | 0 <= z < 64
      ensures Bits(AndNot(a, b))[z] == (!Bits(a)[z] && Bits(b)[z])
    {
      BitOfWordAndNot(a, b, Position(z));
    }
  }

  // Rotating a word left by the offset modulo 64 moves bit z - offset to position z.
  lemma BitOfRotlAt(a: Word, n: nat, z: nat)
    requires 0 < n < 64 && z < 64
    ensures Bits(Rotl(a, n))[z] == Bits(a)[Back(z, n)]
  {
    hide BitAt, Rotl, Position, Back;
    BitOfWordRotl(a, n, Position(z));
    PositionOfBack(z, n);
  }

  lemma BitsOfRotl(a: Word, n: nat, offset: nat)
    requires n == offset % 64 && n != 0
    ensures forall z :: 0 <= z < 64 ==> Bits(Rotl(a, n))[z] == Bits(a)[(z - offset) % 64]
  {
    hide Bits, Rotl, Back;
    forall z | 0 <= z < 64
      ensures Bits(Rotl(a, n))[z] == Bits(a)[(z - offset) % 64]
    {
      BitOfRotlAt(a, n, z);
      BackByOffset(z, n, offset);
    }
  }

  lemma BackByOffset(z: nat, n: nat, offset: nat)
    requires z < 64 && n == offset % 64 && n != 0
    ensures Back(z, n) == (z - offset) % 64
  {
  }
}
