/**
 Bytes in memory on a little-endian host: loading eight of them into a word, storing a word back,
 and the bit string a byte string stands for (FIPS 202 section B.1).
 */
module ByteLanes {
  import opened Lanes

  // Bit k of a byte, for k < 8.
  predicate ByteBit(b: bv8, k: nat) { BitAt(b as bv64, Position(k)) }

  function MessageBits(m: seq<bv8>): (bits: seq<bool>)
    ensures |bits| == 8 * |m|
  {
    seq(8 * |m|, i requires 0 <= i < 8 * |m| => ByteBit(m[i / 8], i % 8))
  }

  lemma MessageBitsSlice(m: seq<bv8>, lo: nat, hi: nat)
    requires lo <= hi <= |m|
    ensures MessageBits(m)[8 * lo..8 * hi] == MessageBits(m[lo..hi])
  {
    hide ByteBit;
    forall i | 0 <= i < 8 * (hi - lo)
      ensures MessageBits(m)[8 * lo..8 * hi][i] == MessageBits(m[lo..hi])[i]
    {
      assert (8 * lo + i) / 8 == lo + i / 8 && (8 * lo + i) % 8 == i % 8;
    }
  }

  lemma MessageBitsAppend(m: seq<bv8>, n: seq<bv8>)
    ensures MessageBits(m + n) == MessageBits(m) + MessageBits(n)
  {
    hide ByteBit;
    var k := |m|;
    MessageBitsSlice(m + n, 0, k);
    MessageBitsSlice(m + n, k, |m + n|);
    assert (m + n)[0..k] == m && (m + n)[k..|m + n|] == n;
    var all := MessageBits(m + n);
    assert all == all[0..8 * k] + all[8 * k..|all|];
  }

  // ---- memcpy(&lane, bytes, 8) ------------------------------------------------------

  function Cons(low: bv8, rest: bv64): bv64 { low as bv64 | (rest << 8) }

  lemma LowBitOfCons(low: bv8, rest: bv64, k: bv6)
    requires k < 8
    ensures BitAt(Cons(low, rest), k) == BitAt(low as bv64, k)
  {
  }

  lemma HighBitOfCons(low: bv8, rest: bv64, k: bv6)
    requires 8 <= k
    ensures BitAt(Cons(low, rest), k) == BitAt(rest, k - 8)
  {
  }

  function LoadBytes(b: seq<bv8>): bv64 {
    if b == [] then 0 else Cons(b[0], LoadBytes(b[1..]))
  }

  function Load(b: seq<bv8>): Word
    requires |b| == 8
  {
    Word(LoadBytes(b))
  }

  lemma {:induction false} LoadedBit(b: seq<bv8>, z: nat)
    requires z < 8 * |b| <= 64
    ensures BitAt(LoadBytes(b), Position(z)) == ByteBit(b[z / 8], z % 8)
  {
    PositionBounds(z);
    if z >= 8 { PositionBackEight(z); }
    hide BitAt, Position, Cons;
    if z < 8 {
      LowBitOfCons(b[0], LoadBytes(b[1..]), Position(z));
    } else {
      HighBitOfCons(b[0], LoadBytes(b[1..]), Position(z));
      LoadedBit(b[1..], z - 8);
      assert (z - 8) / 8 == z / 8 - 1 && (z - 8) % 8 == z % 8;
    }
  }

  lemma PositionBounds(z: nat)
    requires z < 64
    ensures z < 8 <==> Position(z) < 8
  {
    PositionValue(z);
  }

  lemma PositionEight()
    ensures Position(8) == 8
  {
    PositionAdd(1, 1);
    PositionAdd(2, 2);
    PositionAdd(4, 4);
  }

  lemma PositionBackEight(z: nat)
    requires 8 <= z
    ensures Position(z - 8) == Position(z) - 8
  {
    PositionBack(z, 8);
    PositionEight();
  }

  lemma BitsOfLoad(b: seq<bv8>)
    requires |b| == 8
    ensures Bits(Load(b)) == MessageBits(b)
  {
    hide LoadBytes, ByteBit, BitAt, Position;
    forall z | 0 <= z < 64
      ensures Bits(Load(b))[z] == MessageBits(b)[z]
    {
      LoadedBit(b, z);
    }
  }

  // ---- memcpy(bytes, &lane, 8) ------------------------------------------------------

  function LowByte(v: bv64): bv8 { (v & 0xff) as bv8 }

  function DropByte(v: bv64): bv64 { v >> 8 }

  lemma BitOfLowByte(v: bv64, k: bv6)
    requires k < 8
    ensures BitAt(LowByte(v) as bv64, k) == BitAt(v, k)
  {
  }

  lemma BitOfDropByte(v: bv64, k: bv6)
    requires k < 56
    ensures BitAt(DropByte(v), k) == BitAt(v, k + 8)
  {
  }

  function StoreBytes(v: bv64, n: nat): (b: seq<bv8>)
    ensures |b| == n
  {
    if n == 0 then [] else [LowByte(v)] + StoreBytes(DropByte(v), n - 1)
  }

  function Store(w: Word): (b: seq<bv8>)
    ensures |b| == 8
  {
    StoreBytes(w.v, 8)
  }

  lemma {:induction false} StoredBit(v: bv64, n: nat, z: nat)
    requires z < 8 * n <= 64
    ensures ByteBit(StoreBytes(v, n)[z / 8], z % 8) == BitAt(v, Position(z))
  {
    if z < 8 {
      PositionBounds(z);
      hide BitAt, Position, LowByte, DropByte;
      BitOfLowByte(v, Position(z));
    } else {
      PositionBackEight(z);
      PositionRoom(z);
      hide BitAt, Position, LowByte, DropByte, ByteBit;
      BitOfDropByte(v, Position(z) - 8);
      StoredBit(DropByte(v), n - 1, z - 8);
      ByteBefore(z);
    }
  }

  lemma ByteBefore(z: nat)
    requires z >= 8
    ensures (z - 8) / 8 == z / 8 - 1 && (z - 8) % 8 == z % 8
  {
  }

  lemma PositionRoom(z: nat)
    requires 8 <= z < 64
    ensures Position(z) - 8 < 56
  {
    PositionValue(z);
  }

  lemma BitsOfStore(w: Word)
    ensures MessageBits(Store(w)) == Bits(w)
  {
    hide StoreBytes, ByteBit, BitAt, Position;
    forall z | 0 <= z < 64
      ensures MessageBits(Store(w))[z] == Bits(w)[z]
    {
      StoredBit(w.v, 8, z);
    }
  }
}
