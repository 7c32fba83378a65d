/**
 keccak256 of src/crypto/keccak256.hpp: absorb whole 136-byte blocks, pad the rest with 0x01 ... 0x80,
 squeeze 32 bytes. It is proved to be the sponge of FIPS 202 on the message's bits, for every length.
 */
module Keccak256 {
  import opened Lanes
  import opened ByteLanes
  import opened Keccak
  import opened KeccakRefinesFips
  import Fips202

  const RATE := 136

  // ---- The state as one bit string ---------------------------------------------------

  function StateBits(s: State): (bits: seq<bool>)
    ensures |bits| == 1600
  {
    Fips202.ToString(Array(s))
  }

  lemma ArrayOfStateBits(s: State)
    ensures Fips202.ToArray(StateBits(s)) == Array(s)
  {
    hide Bits;
    var a := Fips202.ToArray(StateBits(s));
    forall i | 0 <= i < 25
      ensures a[i] == Array(s)[i]
    {
      forall z | 0 <= z < 64
        ensures a[i][z] == Array(s)[i][z]
      {
        assert (64 * i + z) / 64 == i && (64 * i + z) % 64 == z;
      }
    }
  }

  lemma PermutationOfStateBits(s: State)
    ensures Fips202.ToString(Fips202.KeccakF(Fips202.ToArray(StateBits(s)))) == StateBits(Rounds(s, 24))
  {
    hide Fips202.ToString, Fips202.Rounds, Rounds, Array;
    ArrayOfStateBits(s);
    RoundsAreFips(s, 24);
  }

  // ---- One block ------------------------------------------------------------------------

  function Lane(block: seq<bv8>, i: nat): Word
    requires |block| == RATE && i < 17
  {
    Load(block[8 * i..8 * i + 8])
  }

  // The first n lanes have the block added.
  function XorLanes(s: State, block: seq<bv8>, n: nat): State
    requires |block| == RATE && n <= 17
  {
    seq(25, i requires 0 <= i < 25 => if i < n then Xor(s[i], Lane(block, i)) else s[i])
  }

  function BlockBits(block: seq<bv8>): (bits: seq<bool>)
    requires |block| == RATE
    ensures |bits| == 1600
  {
    MessageBits(block) + Fips202.Zeros(512)
  }

  lemma XorLanesIsXorBits(s: State, block: seq<bv8>)
    requires |block| == RATE
    ensures StateBits(XorLanes(s, block, 17)) == Fips202.XorBits(StateBits(s), BlockBits(block))
  {
    hide Bits, Xor, Load, ByteBit;
    var t := XorLanes(s, block, 17);
    forall i | 0 <= i < 1600
      ensures StateBits(t)[i] == Fips202.XorBits(StateBits(s), BlockBits(block))[i]
    {
      var lane, z := i / 64, i % 64;
      if lane < 17 {
        LaneBit(block, lane, z);
        BitsOfXor(s[lane], Lane(block, lane));
      }
    }
  }

  lemma LaneBit(block: seq<bv8>, lane: nat, z: nat)
    requires |block| == RATE && lane < 17 && z < 64
    ensures Bits(Lane(block, lane))[z] == BlockBits(block)[64 * lane + z]
  {
    hide Bits, Load, MessageBits;
    BitsOfLoad(block[8 * lane..8 * lane + 8]);
    MessageBitsSlice(block, 8 * lane, 8 * lane + 8);
    assert BlockBits(block)[64 * lane + z] == MessageBits(block)[64 * lane..64 * lane + 64][z];
  }

  method XorIn(a: array<Word>, block: seq<bv8>)
    requires a.Length == 25 && |block| == RATE
    modifies a
    ensures a[..] == XorLanes(old(a[..]), block, 17)
  {
    hide Xor, Load;
    ghost var s := a[..];
    for i := 0 to 17
      invariant a[..] == XorLanes(s, block, i)
    {
      a[i] := Xor(a[i], Load(block[8 * i..8 * i + 8]));
    }
  }

  // ---- Padding ------------------------------------------------------------------------------

  // The final block of the code: the rest of the message, 0x01, zeros, and 0x80 added to the last byte.
  function PadByte(rest: seq<bv8>, i: nat): bv8
    requires |rest| < RATE && i < RATE
  {
    if i < |rest| then rest[i]
    else (if i == |rest| then 0x01 else 0x00) ^ (if i == RATE - 1 then 0x80 else 0x00)
  }

  function PadBlock(rest: seq<bv8>): (block: seq<bv8>)
    requires |rest| < RATE
    ensures |block| == RATE
  {
    seq(RATE, i requires 0 <= i < RATE => PadByte(rest, i))
  }

  // All the blocks the code absorbs for a message.
  function Padded(m: seq<bv8>): seq<bv8> {
    var whole := |m| / RATE * RATE;
    m[..whole] + PadBlock(m[whole..])
  }

  lemma PadBytesBits(k: nat)
    requires k < 8
    ensures !ByteBit(0x00, k) && (ByteBit(0x01, k) <==> k == 0)
    ensures ByteBit(0x80, k) <==> k == 7
    ensures ByteBit(0x81, k) <==> k == 0 || k == 7
  {
    PositionBounds(k);
    PositionValue(k);
    ByteLiteralBits(Position(k));
  }

  lemma ByteLiteralBits(k: bv6)
    requires k < 8
    ensures !BitAt(0x00, k) && (BitAt(0x01, k) <==> k == 0)
    ensures BitAt(0x80, k) <==> k == 7
    ensures BitAt(0x81, k) <==> k == 0 || k == 7
  {
  }

  lemma PadByteBit(rest: seq<bv8>, i: nat)
    requires |rest| < RATE && i < 8 * RATE
    ensures ByteBit(PadByte(rest, i / 8), i % 8) ==
            if i < 8 * |rest| then MessageBits(rest)[i] else i == 8 * |rest| || i == 8 * RATE - 1
  {
    PadBytesBits(i % 8);
    hide ByteBit;
  }

  // The final block carries the pad10*1 bits of section 5.1 of FIPS 202.
  lemma PadBlockBits(rest: seq<bv8>, length: nat)
    requires |rest| < RATE && length % RATE == |rest|
    ensures MessageBits(PadBlock(rest)) == MessageBits(rest) + Fips202.Pad(Fips202.RATE, 8 * length)
  {
    var zeros := (-(8 * length) - 2) % Fips202.RATE;
    PadZeros(length, |rest|);
    assert zeros == 8 * RATE - 8 * |rest| - 2;
    var bits := MessageBits(rest) + Fips202.Pad(Fips202.RATE, 8 * length);
    hide PadByte, ByteBit;
    forall i | 0 <= i < 8 * RATE
      ensures MessageBits(PadBlock(rest))[i] == bits[i]
    {
      PadByteBit(rest, i);
    }
  }

  lemma PadZeros(length: nat, rest: nat)
    requires rest == length % RATE
    ensures (-(8 * length) - 2) % Fips202.RATE == 8 * RATE - 8 * rest - 2
  {
    var blocks := length / RATE;
    assert length == blocks * RATE + rest;
    assert -(8 * length) - 2 == (-blocks - 1) * Fips202.RATE + (8 * RATE - 8 * rest - 2);
  }

  lemma PaddedBits(m: seq<bv8>)
    ensures MessageBits(Padded(m)) == MessageBits(m) + Fips202.Pad(Fips202.RATE, 8 * |m|)
  {
    hide MessageBits, Fips202.Pad, PadBlock;
    var whole := |m| / RATE * RATE;
    MessageBitsAppend(m[..whole], PadBlock(m[whole..]));
    MessageBitsAppend(m[..whole], m[whole..]);
    assert m == m[..whole] + m[whole..];
    PadBlockBits(m[whole..], |m|);
    var a, b, c := MessageBits(m[..whole]), MessageBits(m[whole..]), Fips202.Pad(Fips202.RATE, 8 * |m|);
    assert a + (b + c) == (a + b) + c;
  }

  // Different messages give different block sequences.
  lemma PaddedInjective(m: seq<bv8>, n: seq<bv8>)
    requires Padded(m) == Padded(n)
    ensures m == n
  {
    if |m| < |n| {
      ShorterPadsDifferently(m, n);
    } else if |n| < |m| {
      ShorterPadsDifferently(n, m);
    } else {
      forall i | 0 <= i < |m|
        ensures m[i] == n[i]
      {
        assert Padded(m)[i] == m[i] && Padded(n)[i] == n[i];
      }
    }
  }

  lemma ShorterPadsDifferently(m: seq<bv8>, n: seq<bv8>)
    requires |m| < |n|
    ensures Padded(m) != Padded(n)
  {
    if |Padded(m)| == |Padded(n)| {
      var whole := |m| / RATE * RATE;
      assert |n| / RATE * RATE == whole;
      LastBlockByte(m, |n|);
      LastBlockByte(n, |n|);
    }
  }

  // Bytes of the last block of a padded message.
  lemma LastBlockByte(m: seq<bv8>, i: nat)
    requires |m| / RATE * RATE <= i < |m| / RATE * RATE + RATE
    ensures i < |Padded(m)|
    ensures Padded(m)[i] == PadByte(m[|m| / RATE * RATE..], i - |m| / RATE * RATE)
  {
    hide PadByte;
  }

  // ---- The sponge ------------------------------------------------------------------------------

  function ZeroState(): State { seq(25, _ => Word(0)) }

  function AbsorbBlock(s: State, block: seq<bv8>): State
    requires |block| == RATE
  {
    Rounds(XorLanes(s, block, 17), 24)
  }

  function Block(p: seq<bv8>, n: nat): (block: seq<bv8>)
    requires (n + 1) * RATE <= |p|
    ensures |block| == RATE
  {
    p[n * RATE..(n + 1) * RATE]
  }

  // The state after n blocks of the padded message.
  function AbsorbBlocks(p: seq<bv8>, n: nat): State
    requires n * RATE <= |p|
  {
    if n == 0 then ZeroState() else AbsorbBlock(AbsorbBlocks(p, n - 1), Block(p, n - 1))
  }

  lemma OneBlockIsFips(p: seq<bv8>, n: nat, s: State)
    requires (n + 1) * RATE <= |p|
    requires StateBits(s) == Fips202.Absorb(MessageBits(p), n)
    ensures StateBits(AbsorbBlock(s, Block(p, n))) == Fips202.Absorb(MessageBits(p), n + 1)
  {
    hide StateBits, MessageBits, XorLanes, Rounds;
    hide Fips202.XorBits, Fips202.KeccakF, Fips202.ToString, Fips202.ToArray;
    MessageBitsSlice(p, n * RATE, (n + 1) * RATE);
    XorLanesIsXorBits(s, Block(p, n));
    PermutationOfStateBits(XorLanes(s, Block(p, n), 17));
  }

  lemma {:induction false} AbsorbBlocksIsFips(p: seq<bv8>, n: nat)
    requires n * RATE <= |p|
    ensures StateBits(AbsorbBlocks(p, n)) == Fips202.Absorb(MessageBits(p), n)
  {
    hide StateBits, MessageBits, AbsorbBlock, Block, ZeroState, Fips202.Absorb;
    if n == 0 {
      ZeroStateBits(p);
    } else {
      AbsorbBlocksIsFips(p, n - 1);
      OneBlockIsFips(p, n - 1, AbsorbBlocks(p, n - 1));
    }
  }

  lemma ZeroStateBits(p: seq<bv8>)
    ensures StateBits(ZeroState()) == Fips202.Absorb(MessageBits(p), 0)
  {
    forall z | 0 <= z < 64
      ensures !Bits(Word(0))[z]
    {
      ZeroHasNoBit(Position(z));
    }
    hide Bits;
  }

  lemma ZeroHasNoBit(k: bv6)
    ensures !BitAt(0, k)
  {
  }

  // Squeezing at most one block takes the front of the state.
  function Digest(s: State): (out: seq<bv8>)
    ensures |out| == 32
  {
    Store(s[0]) + Store(s[1]) + Store(s[2]) + Store(s[3])
  }

  lemma DigestBits(s: State)
    ensures MessageBits(Digest(s)) == StateBits(s)[..256]
  {
    hide MessageBits, Store, Bits;
    MessageBitsAppend(Store(s[0]) + Store(s[1]) + Store(s[2]), Store(s[3]));
    MessageBitsAppend(Store(s[0]) + Store(s[1]), Store(s[2]));
    MessageBitsAppend(Store(s[0]), Store(s[1]));
    BitsOfStore(s[0]);
    BitsOfStore(s[1]);
    BitsOfStore(s[2]);
    BitsOfStore(s[3]);
  }

  function Hash(m: seq<bv8>): (out: seq<bv8>)
    ensures |out| == 32
  {
    Digest(AbsorbBlocks(Padded(m), |m| / RATE + 1))
  }

  // keccak256 is KECCAK[512] of the message bits, truncated to 256 bits, for every message.
  lemma HashIsSponge(m: seq<bv8>)
    ensures MessageBits(Hash(m)) == Fips202.Sponge(MessageBits(m), 256)
  {
    hide MessageBits, StateBits, Digest, AbsorbBlocks, Fips202.Absorb, Fips202.Pad, PadBlock;
    var p, n := Padded(m), |m| / RATE + 1;
    PaddedBits(m);
    AbsorbBlocksIsFips(p, n);
    DigestBits(AbsorbBlocks(p, n));
    var s := Fips202.Absorb(MessageBits(p), n);
    assert |MessageBits(p)| / Fips202.RATE == n;
    assert ([] + s[..Fips202.RATE])[..256] == s[..256];
  }

  lemma WholeBlock(m: seq<bv8>, n: nat)
    requires (n + 1) * RATE <= |m|
    ensures |Padded(m)| >= (n + 1) * RATE
    ensures Block(Padded(m), n) == m[n * RATE..(n + 1) * RATE]
  {
    hide PadBlock;
  }

  lemma LastBlock(m: seq<bv8>, n: nat)
    requires n == |m| / RATE
    ensures |Padded(m)| == (n + 1) * RATE
    ensures Block(Padded(m), n) == PadBlock(m[n * RATE..])
  {
    hide PadBlock;
  }

  method AbsorbInPlace(a: array<Word>, block: seq<bv8>)
    requires a.Length == 25 && |block| == RATE
    modifies a
    ensures a[..] == AbsorbBlock(old(a[..]), block)
  {
    hide XorLanes, Rounds;
    XorIn(a, block);
    KeccakF1600(a);
  }

  method FillPadding(rest: seq<bv8>) returns (buf: array<bv8>)
    requires |rest| < RATE
    ensures fresh(buf) && buf[..] == PadBlock(rest)
  {
    buf := new bv8[RATE](_ => 0);
    for i := 0 to |rest|
      invariant forall k :: 0 <= k < RATE ==> buf[k] == if k < i then rest[k] else 0
    {
      buf[i] := rest[i];
    }
    buf[|rest|] := 0x01;
    buf[RATE - 1] := buf[RATE - 1] ^ 0x80;
  }

  method Keccak256(data: seq<bv8>) returns (out: seq<bv8>)
    ensures |out| == 32
    ensures MessageBits(out) == Fips202.Sponge(MessageBits(data), 256)
  {
    hide AbsorbBlock, Block, ZeroState, PadBlock, Padded, Store, MessageBits, Fips202.Sponge;
    ghost var p, blocks := Padded(data), 0;
    LastBlock(data, |data| / RATE);
    var a := ZeroLanes();
    var offset := 0;
    while offset + RATE <= |data|
      invariant offset == blocks * RATE <= |data|
      invariant a[..] == AbsorbBlocks(p, blocks)
    {
      WholeBlock(data, blocks);
      AbsorbInPlace(a, data[offset..offset + RATE]);
      offset, blocks := offset + RATE, blocks + 1;
    }
    assert blocks == |data| / RATE;
    var buf := FillPadding(data[offset..]);
    AbsorbInPlace(a, buf[..]);
    out := Store(a[0]) + Store(a[1]) + Store(a[2]) + Store(a[3]);
    assert out == Digest(a[..]);
    HashIsSponge(data);
  }

  method ZeroLanes() returns (a: array<Word>)
    ensures fresh(a) && a.Length == 25 && a[..] == ZeroState()
  {
    a := new Word[25](_ => Word(0));
  }
}
