/**
 The Keccak sponge as FIPS 202 defines it, on bits: the state array of section 3.1, the five step
 mappings of section 3.2, the 24-round permutation of section 3.3, the padding rule of section 5.1
 and the sponge of section 4. Nothing here knows about machine words; the code in module Keccak is
 proved equal to these definitions.
 */
module Fips202 {

  // A[x, y, z] is array[x + 5 * y][z]; string and array agree as in section 3.1.2.
  type Lane = l: seq<bool> | |l| == 64 witness seq(64, _ => false)
  type StateArray = a: seq<Lane> | |a| == 25 witness seq(25, _ => seq(64, _ => false))
  type BitString = seq<bool>

  function Xor(a: bool, b: bool): bool { a != b }

  // ---- Section 3.2.1: theta ------------------------------------------------

  function ColumnParity(a: StateArray, x: nat, z: nat): bool
    requires x < 5 && z < 64
  {
    Xor(Xor(Xor(Xor(a[x][z], a[x + 5][z]), a[x + 10][z]), a[x + 15][z]), a[x + 20][z])
  }

  function ThetaEffect(a: StateArray, x: nat, z: nat): bool
    requires x < 5 && z < 64
  {
    Xor(ColumnParity(a, (x + 4) % 5, z), ColumnParity(a, (x + 1) % 5, (z - 1) % 64))
  }

  function Theta(a: StateArray): StateArray {
    seq(25, i requires 0 <= i < 25 =>
      seq(64, z requires 0 <= z < 64 => Xor(a[i][z], ThetaEffect(a, i % 5, z))))
  }

  // ---- Section 3.2.2: rho, the walk of its Algorithm 2 ----------------------

  function RotateLane(l: Lane, offset: nat): Lane {
    seq(64, z requires 0 <= z < 64 => l[(z - offset) % 64])
  }

  function RhoWalk(a: StateArray, acc: StateArray, x: nat, y: nat, t: nat): StateArray
    requires x < 5 && y < 5 && t <= 24
    decreases 24 - t
  {
    if t == 24 then acc
    else RhoWalk(a, acc[x + 5 * y := RotateLane(a[x + 5 * y], (t + 1) * (t + 2) / 2)],
                 y, (2 * x + 3 * y) % 5, t + 1)
  }

  function Rho(a: StateArray): StateArray { RhoWalk(a, a, 1, 0, 0) }

  // ---- Section 3.2.3: pi ---------------------------------------------------

  function PiSource(i: nat): (j: nat)
    requires i < 25
    ensures j < 25
  {
    (i % 5 + 3 * (i / 5)) % 5 + 5 * (i % 5)
  }

  function Pi(a: StateArray): StateArray {
    seq(25, i requires 0 <= i < 25 => a[PiSource(i)])
  }

  // ---- Section 3.2.4: chi --------------------------------------------------

  function ChiBit(a: StateArray, x: nat, y: nat, z: nat): bool
    requires x < 5 && y < 5 && z < 64
  {
    Xor(a[x + 5 * y][z], !a[(x + 1) % 5 + 5 * y][z] && a[(x + 2) % 5 + 5 * y][z])
  }

  function Chi(a: StateArray): StateArray {
    seq(25, i requires 0 <= i < 25 =>
      seq(64, z requires 0 <= z < 64 => ChiBit(a, i % 5, i / 5, z)))
  }

  // ---- Section 3.2.5: iota and the round-constant generator -----------------

  type Register = r: seq<bool> | |r| == 8 witness seq(8, _ => false)

  // One pass of the loop of Algorithm 5.
  function LfsrStep(register: Register): Register {
    var r := [false] + register;
    [Xor(r[0], r[8]), r[1], r[2], r[3], Xor(r[4], r[8]), Xor(r[5], r[8]), Xor(r[6], r[8]), r[7]]
  }

  function LfsrRegister(t: nat): Register {
    if t == 0 then [true, false, false, false, false, false, false, false]
    else LfsrStep(LfsrRegister(t - 1))
  }

  function Rc(t: nat): bool {
    if t % 255 == 0 then true else LfsrRegister(t % 255)[0]
  }

  // RC[2^j - 1] = rc(j + 7 * ir) for j = 0..6; every other bit is 0.
  function RoundConstantBit(ir: nat, z: nat): bool {
    if z == 0 then Rc(7 * ir)
    else if z == 1 then Rc(1 + 7 * ir)
    else if z == 3 then Rc(2 + 7 * ir)
    else if z == 7 then Rc(3 + 7 * ir)
    else if z == 15 then Rc(4 + 7 * ir)
    else if z == 31 then Rc(5 + 7 * ir)
    else if z == 63 then Rc(6 + 7 * ir)
    else false
  }

  function Iota(a: StateArray, ir: nat): StateArray {
    a[0 := seq(64, z requires 0 <= z < 64 => Xor(a[0][z], RoundConstantBit(ir, z)))]
  }

  // ---- Section 3.3: the permutation -----------------------------------------

  function Round(a: StateArray, ir: nat): StateArray {
    Iota(Chi(Pi(Rho(Theta(a)))), ir)
  }

  function Rounds(a: StateArray, n: nat): StateArray {
    if n == 0 then a else Round(Rounds(a, n - 1), n - 1)
  }

  function KeccakF(a: StateArray): StateArray { Rounds(a, 24) }

  // ---- Sections 4 and 5: padding and sponge, as bit strings -----------------

  const WIDTH := 1600
  const RATE := 1088

  function Zeros(n: nat): BitString { seq(n, _ => false) }

  // Section 3.1.2.
  function ToArray(s: BitString): StateArray
    requires |s| == WIDTH
  {
    seq(25, i requires 0 <= i < 25 => s[64 * i .. 64 * i + 64])
  }

  // Section 3.1.3.
  function ToString(a: StateArray): (s: BitString)
    ensures |s| == WIDTH
  {
    seq(WIDTH, i requires 0 <= i < WIDTH => a[i / 64][i % 64])
  }

  // Section 5.1: pad10*1(x, m).
  function Pad(x: nat, m: nat): BitString
    requires x > 0
  {
    [true] + Zeros((-(m as int) - 2) % x) + [true]
  }

  function XorBits(a: BitString, b: BitString): (c: BitString)
    requires |a| == |b|
    ensures |c| == |a|
  {
    seq(|a|, i requires 0 <= i < |a| => Xor(a[i], b[i]))
  }

  // The state after the first n blocks of p (section 4, Algorithm 8, step 6).
  function Absorb(p: BitString, n: nat): (s: BitString)
    requires n * RATE <= |p|
    ensures |s| == WIDTH
  {
    if n == 0 then Zeros(WIDTH)
    else
      var block := p[(n - 1) * RATE .. n * RATE] + Zeros(WIDTH - RATE);
      ToString(KeccakF(ToArray(XorBits(Absorb(p, n - 1), block))))
  }

  // Algorithm 8, steps 7 to 10.
  function Squeeze(s: BitString, z: BitString, d: nat): (out: BitString)
    requires |s| == WIDTH
    ensures |out| == d
    decreases if d <= |z| then 0 else d - |z| + 1
  {
    var z' := z + s[..RATE];
    if d <= |z'| then z'[..d] else Squeeze(ToString(KeccakF(ToArray(s))), z', d)
  }

  // KECCAK[512](message, d): the sponge with rate 1088 and padding pad10*1 (section 5.2), with no
  // domain-separation suffix, which is the variant Ethereum uses.
  function Sponge(message: BitString, d: nat): (out: BitString)
    ensures |out| == d
  {
    var p := message + Pad(RATE, |message|);
    Squeeze(Absorb(p, |p| / RATE), [], d)
  }
}
