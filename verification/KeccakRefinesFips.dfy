/**
 The lane-level permutation is the permutation of FIPS 202: step by step, and then for all 24
 rounds. A state of words stands for the state array of its bits.
 */
module KeccakRefinesFips {
  import opened Lanes
  import opened Keccak
  import Fips202

  function Array(s: State): Fips202.StateArray {
    seq(25, i requires 0 <= i < 25 => Bits(s[i]))
  }

  // ---- theta ---------------------------------------------------------------------

  lemma ColumnBits(s: State, x: nat)
    requires x < 5
    ensures forall z :: 0 <= z < 64 ==>
              Bits(Column(s, x))[z] == Fips202.ColumnParity(Array(s), x, z)
  {
    hide Xor, Bits;
    var c5 := Xor(s[x], s[x + 5]);
    var c10 := Xor(c5, s[x + 10]);
    var c15 := Xor(c10, s[x + 15]);
    BitsOfXor(s[x], s[x + 5]);
    BitsOfXor(c5, s[x + 10]);
    BitsOfXor(c10, s[x + 15]);
    BitsOfXor(c15, s[x + 20]);
  }

  lemma EffectBits(s: State, x: nat)
    requires x < 5
    ensures forall z :: 0 <= z < 64 ==>
              Bits(Effect(s, x))[z] == Fips202.ThetaEffect(Array(s), x, z)
  {
    hide Xor, Bits, Rotl, Column, Fips202.ColumnParity, Array;
    var left, right := Column(s, (x + 4) % 5), Column(s, (x + 1) % 5);
    ColumnBits(s, (x + 4) % 5);
    ColumnBits(s, (x + 1) % 5);
    BitsOfRotl(right, 1, 1);
    BitsOfXor(left, Rotl(right, 1));
  }

  lemma ThetaIsFips(s: State)
    ensures Array(Theta(s)) == Fips202.Theta(Array(s))
  {
    hide Xor, Bits, Effect, Fips202.ThetaEffect;
    forall i, z | 0 <= i < 25 && 0 <= z < 64
      ensures Array(Theta(s))[i][z] == Fips202.Theta(Array(s))[i][z]
    {
      EffectBits(s, i % 5);
      BitsOfXor(s[i], Effect(s, i % 5));
    }
    forall i | 0 <= i < 25
      ensures Array(Theta(s))[i] == Fips202.Theta(Array(s))[i]
    {
    }
  }

  // ---- rho and pi -------------------------------------------------------------------

  // The offset of Algorithm 2 at step t.
  function Offset(t: nat): nat { (t + 1) * (t + 2) / 2 }

  lemma RotationTable(t: nat)
    requires t < 24
    ensures RHO[t] == Offset(t) % 64
  {
    if t < 8 {
    } else if t < 16 {
    } else {
    }
  }

  // When the walk of Algorithm 2 reaches lane j.
  function WalkTime(j: nat): nat
    requires 0 < j < 25
  {
    if j == 1 then 0 else STEP[j] + 1
  }

  // The walk goes through the lanes in the order of the cycle.
  lemma WalkFollowsCycle(t: nat)
    requires t < 24
    ensures var i := Source(t); i / 5 + 5 * ((2 * (i % 5) + 3 * (i / 5)) % 5) == Source(t + 1)
  {
  }

  lemma CycleReadsThroughPi(t: nat)
    requires t < 24
    ensures Fips202.PiSource(PI[t]) == Source(t)
  {
  }

  lemma WalkTimeOfSource(t: nat)
    requires t < 24
    ensures WalkTime(Source(t)) == t
  {
  }

  lemma WalkTimeSource(j: nat)
    requires 0 < j < 25
    ensures WalkTime(j) < 24 && Source(WalkTime(j)) == j
  {
    LaneIsWritten(j);
  }

  function Rotated(a: Fips202.StateArray, j: nat): Fips202.Lane
    requires 0 < j < 25
  {
    Fips202.RotateLane(a[j], Offset(WalkTime(j)))
  }

  // One turn of the walk, at the lane where step t of the cycle reads.
  lemma WalkTurn(a: Fips202.StateArray, acc: Fips202.StateArray, t: nat)
    requires t < 24
    ensures var i, next := Source(t), Source(t + 1);
            Fips202.RhoWalk(a, acc, i % 5, i / 5, t) ==
            Fips202.RhoWalk(a, acc[i := Rotated(a, i)], next % 5, next / 5, t + 1)
  {
    hide Source, WalkTime, Offset, Fips202.RotateLane, Fips202.RhoWalk;
    var i, next := Source(t), Source(t + 1);
    var x, y := i % 5, i / 5;
    WalkFollowsCycle(t);
    WalkTimeOfSource(t);
    WalkUnfolds(a, acc, x, y, t);
    Coordinates(i);
    LaneFromCoordinates(next, y, (2 * x + 3 * y) % 5);
  }

  lemma WalkUnfolds(a: Fips202.StateArray, acc: Fips202.StateArray, x: nat, y: nat, t: nat)
    requires x < 5 && y < 5 && t < 24
    ensures Fips202.RhoWalk(a, acc, x, y, t)
         == Fips202.RhoWalk(a, acc[x + 5 * y := Fips202.RotateLane(a[x + 5 * y], Offset(t))],
                            y, (2 * x + 3 * y) % 5, t + 1)
  {
    hide Fips202.RotateLane;
  }

  lemma Coordinates(i: nat)
    ensures i == i % 5 + 5 * (i / 5)
  {
  }

  lemma LaneFromCoordinates(i: nat, x: nat, y: nat)
    requires x < 5 && y < 5 && x + 5 * y == i
    ensures i % 5 == x && i / 5 == y
  {
  }

  // From step t on, the walk rotates exactly the lanes it has not reached yet.
  lemma {:induction false} WalkRotatesEachLane(a: Fips202.StateArray, acc: Fips202.StateArray, t: nat, j: nat)
    requires t <= 24 && j < 25
    ensures var r := Fips202.RhoWalk(a, acc, Source(t) % 5, Source(t) / 5, t);
            r[j] == if j != 0 && t <= WalkTime(j) then Rotated(a, j) else acc[j]
    decreases 24 - t
  {
    hide Source, WalkTime, Rotated;
    if j != 0 { WalkTimeSource(j); }
    if t < 24 {
      hide Fips202.RhoWalk;
      WalkTurn(a, acc, t);
      WalkTimeOfSource(t);
      WalkRotatesEachLane(a, acc[Source(t) := Rotated(a, Source(t))], t + 1, j);
    }
  }

  lemma RhoPiIsFips(s: State)
    ensures Array(RhoPi(s)) == Fips202.Pi(Fips202.Rho(Array(s)))
  {
    var rho := Fips202.Rho(Array(s));
    forall j | 0 <= j < 25
      ensures Bits(RhoPi(s)[j]) == rho[Fips202.PiSource(j)]
    {
      hide Bits, Rotl, Fips202.Rho, Array;
      RhoPiLaneIsFips(s, j);
    }
    hide Bits, RhoPi, Fips202.Rho;
    assert forall j :: 0 <= j < 25 ==> Array(RhoPi(s))[j] == Fips202.Pi(rho)[j];
  }

  lemma RhoPiLaneIsFips(s: State, j: nat)
    requires j < 25
    ensures Bits(RhoPi(s)[j]) == Fips202.Rho(Array(s))[Fips202.PiSource(j)]
  {
    hide Bits, Rotl, Fips202.RhoWalk, Source;
    var a := Array(s);
    assert Source(0) == 1 by { SourceStart(); }
    if j == 0 {
      WalkRotatesEachLane(a, a, 0, 0);
    } else {
      LaneIsWritten(j);
      var t := STEP[j];
      var i := Source(t);
      CycleReadsThroughPi(t);
      WalkTimeOfSource(t);
      WalkRotatesEachLane(a, a, 0, i);
      AmountInRange(t);
      RotationTable(t);
      BitsOfRotl(s[i], RHO[t], Offset(t));
    }
  }

  lemma SourceStart()
    ensures Source(0) == 1
  {
  }

  // ---- chi --------------------------------------------------------------------------

  lemma ChiLaneBits(s: State, x: nat, y: nat)
    requires x < 5 && y < 5
    ensures forall z :: 0 <= z < 64 ==>
              Bits(ChiLane(s, x, y))[z] == Fips202.ChiBit(Array(s), x, y, z)
  {
    hide Xor, AndNot, Bits;
    var b0, b1, b2 := s[x + 5 * y], s[(x + 1) % 5 + 5 * y], s[(x + 2) % 5 + 5 * y];
    BitsOfAndNot(b1, b2);
    BitsOfXor(b0, AndNot(b1, b2));
  }

  lemma ChiIsFips(s: State)
    ensures Array(Chi(s)) == Fips202.Chi(Array(s))
  {
    hide Bits, ChiLane, Fips202.ChiBit;
    forall i, z | 0 <= i < 25 && 0 <= z < 64
      ensures Array(Chi(s))[i][z] == Fips202.Chi(Array(s))[i][z]
    {
      ChiLaneBits(s, i % 5, i / 5);
    }
    forall i | 0 <= i < 25
      ensures Array(Chi(s))[i] == Fips202.Chi(Array(s))[i]
    {
    }
  }

  // ---- iota: the table RC is what the shift register of Algorithm 5 produces ------------

  datatype Register = Register(b0: bool, b1: bool, b2: bool, b3: bool, b4: bool, b5: bool, b6: bool, b7: bool)

  function RegisterBits(r: Register): Fips202.Register {
    [r.b0, r.b1, r.b2, r.b3, r.b4, r.b5, r.b6, r.b7]
  }

  function Shift(r: Register): Register {
    Register(r.b7, r.b0, r.b1, r.b2, r.b3 != r.b7, r.b4 != r.b7, r.b5 != r.b7, r.b6)
  }

  lemma ShiftIsLfsrStep(r: Register)
    ensures RegisterBits(Shift(r)) == Fips202.LfsrStep(RegisterBits(r))
  {
  }

  function Shift2(r: Register): Register { Shift(Shift(r)) }

  function Seven(r: Register): Register { Shift(Shift2(Shift2(Shift2(r)))) }

  // The seven outputs of a round, at bit positions 2^j - 1.
  function Spread(r: Register): bv64 {
    (if r.b0 then 0x1 else 0) |
    (if Shift(r).b0 then 0x2 else 0) |
    (if Shift2(r).b0 then 0x8 else 0) |
    (if Shift(Shift2(r)).b0 then 0x80 else 0) |
    (if Shift2(Shift2(r)).b0 then 0x8000 else 0) |
    (if Shift(Shift2(Shift2(r))).b0 then 0x8000_0000 else 0) |
    (if Shift2(Shift2(Shift2(r))).b0 then 0x8000_0000_0000_0000 else 0)
  }

  function FromByte(b: bv8): Register {
    Register(b & 1 != 0, b & 2 != 0, b & 4 != 0, b & 8 != 0, b & 16 != 0, b & 32 != 0, b & 64 != 0, b & 128 != 0)
  }

  // A register, the constant spread from it and the register of the next round.
  predicate Row(r: bv8, constant: bv64, next: bv8) {
    Spread(FromByte(r)) == constant && Seven(FromByte(r)) == FromByte(next)
  }

  lemma Rows0To5()
    ensures Row(0x01, 0x0000000000000001, 0x80)
    ensures Row(0x80, 0x0000000000008082, 0xd8)
    ensures Row(0xd8, 0x800000000000808A, 0x1a)
    ensures Row(0x1a, 0x8000000080008000, 0xdf)
    ensures Row(0xdf, 0x000000000000808B, 0x09)
    ensures Row(0x09, 0x0000000080000001, 0x35)
  {
  }

  lemma Rows6To11()
    ensures Row(0x35, 0x8000000080008081, 0x4f)
    ensures Row(0x4f, 0x8000000000008009, 0xca)
    ensures Row(0xca, 0x000000000000008A, 0x70)
    ensures Row(0x70, 0x0000000000000088, 0x41)
    ensures Row(0x41, 0x0000000080008009, 0xec)
    ensures Row(0xec, 0x000000008000000A, 0xd5)
  {
  }

  lemma Rows12To17()
    ensures Row(0xd5, 0x000000008000808B, 0xcd)
    ensures Row(0xcd, 0x800000000000008B, 0x63)
    ensures Row(0x63, 0x8000000000008089, 0xab)
    ensures Row(0xab, 0x8000000000008003, 0xaa)
    ensures Row(0xaa, 0x8000000000008002, 0x2a)
    ensures Row(0x2a, 0x8000000000000080, 0xf2)
  {
  }

  lemma Rows18To23()
    ensures Row(0xf2, 0x000000000000800A, 0xe8)
    ensures Row(0xe8, 0x800000008000000A, 0x37)
    ensures Row(0x37, 0x8000000080008081, 0x3e)
    ensures Row(0x3e, 0x8000000000008080, 0x0b)
    ensures Row(0x0b, 0x0000000080000001, 0x44)
    ensures Row(0x44, 0x8000000080008008, 0x8e)
  {
  }

  // The register at the start of each round.
  function RoundRegister(round: nat): bv8 {
    match round
    case 0 => 0x01
    case 1 => 0x80
    case 2 => 0xd8
    case 3 => 0x1a
    case 4 => 0xdf
    case 5 => 0x09
    case 6 => 0x35
    case 7 => 0x4f
    case 8 => 0xca
    case 9 => 0x70
    case 10 => 0x41
    case 11 => 0xec
    case 12 => 0xd5
    case 13 => 0xcd
    case 14 => 0x63
    case 15 => 0xab
    case 16 => 0xaa
    case 17 => 0x2a
    case 18 => 0xf2
    case 19 => 0xe8
    case 20 => 0x37
    case 21 => 0x3e
    case 22 => 0x0b
    case 23 => 0x44
    case _ => 0x8e
  }

  lemma EveryRow(round: nat)
    requires round < 24
    ensures Row(RoundRegister(round), RoundConstant(round), RoundRegister(round + 1))
  {
    hide Row;
    Rows0To5();
    Rows6To11();
    Rows12To17();
    Rows18To23();
  }

  lemma SpreadBits(r: Register, k: bv6)
    ensures BitAt(Spread(r), k) ==
            if k == 0 then r.b0
            else if k == 1 then Shift(r).b0
            else if k == 3 then Shift2(r).b0
            else if k == 7 then Shift(Shift2(r)).b0
            else if k == 15 then Shift2(Shift2(r)).b0
            else if k == 31 then Shift(Shift2(Shift2(r))).b0
            else k == 63 && Shift2(Shift2(Shift2(r))).b0
  {
    hide Shift, Shift2;
  }

  predicate Holds(r: Register, t: nat) { RegisterBits(r) == Fips202.LfsrRegister(t) }

  lemma ShiftHolds(r: Register, t: nat)
    requires Holds(r, t)
    ensures Holds(Shift(r), t + 1) && Holds(Shift2(r), t + 2)
  {
    hide RegisterBits, Shift, Fips202.LfsrStep;
    ShiftIsLfsrStep(r);
    ShiftIsLfsrStep(Shift(r));
  }

  lemma {:induction false} RoundHolds(round: nat)
    requires round <= 24
    ensures Holds(FromByte(RoundRegister(round)), 7 * round)
  {
    if round == 0 {
      StartHolds();
    } else {
      hide Holds, Shift, Shift2, FromByte, RoundRegister;
      var r, t := FromByte(RoundRegister(round - 1)), 7 * (round - 1);
      RoundHolds(round - 1);
      EveryRow(round - 1);
      ShiftHolds(r, t);
      ShiftHolds(Shift2(r), t + 2);
      ShiftHolds(Shift2(Shift2(r)), t + 4);
      ShiftHolds(Shift2(Shift2(Shift2(r))), t + 6);
    }
  }

  lemma StartHolds()
    ensures Holds(FromByte(RoundRegister(0)), 0)
  {
    hide Fips202.LfsrStep;
    assert FromByte(0x01) == Register(true, false, false, false, false, false, false, false);
  }

  lemma OutputIsRc(r: Register, t: nat)
    requires Holds(r, t) && t < 255
    ensures r.b0 == Fips202.Rc(t)
  {
    hide Fips202.LfsrStep, Shift;
    assert RegisterBits(r)[0] == r.b0;
    assert t % 255 == t;
  }

  lemma OutputsAreRc(round: nat)
    requires round < 24
    ensures var r, t := FromByte(RoundRegister(round)), 7 * round;
            r.b0 == Fips202.Rc(t) &&
            Shift(r).b0 == Fips202.Rc(1 + t) &&
            Shift2(r).b0 == Fips202.Rc(2 + t) &&
            Shift(Shift2(r)).b0 == Fips202.Rc(3 + t) &&
            Shift2(Shift2(r)).b0 == Fips202.Rc(4 + t) &&
            Shift(Shift2(Shift2(r))).b0 == Fips202.Rc(5 + t) &&
            Shift2(Shift2(Shift2(r))).b0 == Fips202.Rc(6 + t)
  {
    hide Holds, Shift, Shift2, FromByte, RoundRegister, Fips202.Rc;
    var r, t := FromByte(RoundRegister(round)), 7 * round;
    RoundHolds(round);
    ShiftHolds(r, t);
    ShiftHolds(Shift2(r), t + 2);
    ShiftHolds(Shift2(Shift2(r)), t + 4);
    OutputIsRc(r, t);
    OutputIsRc(Shift(r), t + 1);
    OutputIsRc(Shift2(r), t + 2);
    OutputIsRc(Shift(Shift2(r)), t + 3);
    OutputIsRc(Shift2(Shift2(r)), t + 4);
    OutputIsRc(Shift(Shift2(Shift2(r))), t + 5);
    OutputIsRc(Shift2(Shift2(Shift2(r))), t + 6);
  }

  lemma RoundConstantIsFips(round: nat, z: nat)
    requires round < 24 && z < 64
    ensures BitAt(RoundConstant(round), Position(z)) == Fips202.RoundConstantBit(round, z)
  {
    hide BitAt, Position, Spread, Shift, Shift2, FromByte, RoundRegister, RoundConstant, Fips202.Rc;
    EveryRow(round);
    SpreadBits(FromByte(RoundRegister(round)), Position(z));
    PositionValue(z);
    OutputsAreRc(round);
  }

  lemma IotaIsFips(s: State, r: nat)
    requires r < 24
    ensures Array(Iota(s, r)) == Fips202.Iota(Array(s), r)
  {
    hide BitAt, Xor, RoundConstant, Fips202.RoundConstantBit;
    var constant := Word(RoundConstant(r));
    forall z | 0 <= z < 64
      ensures Bits(Xor(s[0], constant))[z] == Fips202.Xor(Bits(s[0])[z], Fips202.RoundConstantBit(r, z))
    {
      RoundConstantIsFips(r, z);
      BitsOfXor(s[0], constant);
    }
    hide Bits;
    assert Array(Iota(s, r))[0] == Fips202.Iota(Array(s), r)[0];
  }

  // ---- The permutation -------------------------------------------------------------------

  lemma RoundIsFips(s: State, r: nat)
    requires r < 24
    ensures Array(Round(s, r)) == Fips202.Round(Array(s), r)
  {
    hide Theta, RhoPi, Chi, Iota, Array;
    ThetaIsFips(s);
    RhoPiIsFips(Theta(s));
    ChiIsFips(RhoPi(Theta(s)));
    IotaIsFips(Chi(RhoPi(Theta(s))), r);
  }

  lemma {:induction false} RoundsAreFips(s: State, n: nat)
    requires n <= 24
    ensures Array(Rounds(s, n)) == Fips202.Rounds(Array(s), n)
  {
    hide Round, Array;
    if n > 0 {
      RoundsAreFips(s, n - 1);
      RoundIsFips(Rounds(s, n - 1), n - 1);
    }
  }
}
