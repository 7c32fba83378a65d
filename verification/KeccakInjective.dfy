/**
 The permutation loses nothing: each step mapping is injective on the 1600-bit state, so the 24
 rounds are, and an injective map of a finite set to itself is a bijection.
 */
module KeccakInjective {
  import opened Lanes
  import opened Keccak

  const ZERO := Word(0)

  // ---- theta: two states with one image differ by a parity pattern, which must be zero ----

  lemma XorMoves(a: Word, e: Word, b: Word, f: Word)
    requires Xor(a, e) == Xor(b, f)
    ensures Xor(a, b) == Xor(e, f)
  {
  }

  lemma XorZero(a: Word, b: Word)
    requires Xor(a, b) == ZERO
    ensures a == b
  {
  }

  function Xor5(a: Word, b: Word, c: Word, d: Word, e: Word): Word {
    Xor(Xor(Xor(Xor(a, b), c), d), e)
  }

  lemma XorInterchange(a: Word, b: Word, c: Word, d: Word)
    ensures Xor(Xor(a, b), Xor(c, d)) == Xor(Xor(a, c), Xor(b, d))
  {
    hide Bits, Xor;
    BitsOfXor(a, b);
    BitsOfXor(c, d);
    BitsOfXor(a, c);
    BitsOfXor(b, d);
    BitsOfXor(Xor(a, b), Xor(c, d));
    BitsOfXor(Xor(a, c), Xor(b, d));
    BitsDetermineWord(Xor(Xor(a, b), Xor(c, d)), Xor(Xor(a, c), Xor(b, d)));
  }

  lemma FiveTimes(e: Word)
    ensures Xor5(e, e, e, e, e) == e
  {
  }

  // Five equal differences add up to one of them.
  lemma FiveDifferences(a: seq<Word>, b: seq<Word>, e: Word)
    requires |a| == |b| == 5
    requires Xor(a[0], b[0]) == Xor(a[1], b[1]) == Xor(a[2], b[2]) == Xor(a[3], b[3]) == Xor(a[4], b[4]) == e
    ensures Xor(Xor5(a[0], a[1], a[2], a[3], a[4]), Xor5(b[0], b[1], b[2], b[3], b[4])) == e
  {
    hide Xor;
    var a2, b2 := Xor(a[0], a[1]), Xor(b[0], b[1]);
    var a3, b3 := Xor(a2, a[2]), Xor(b2, b[2]);
    var a4, b4 := Xor(a3, a[3]), Xor(b3, b[3]);
    XorInterchange(a[0], a[1], b[0], b[1]);
    XorInterchange(a2, a[2], b2, b[2]);
    XorInterchange(a3, a[3], b3, b[3]);
    XorInterchange(a4, a[4], b4, b[4]);
    FiveTimes(e);
  }

  lemma RotlXor(a: Word, b: Word)
    ensures Rotl(Xor(a, b), 1) == Xor(Rotl(a, 1), Rotl(b, 1))
  {
    hide Bits, Xor, Rotl;
    BitsOfXor(a, b);
    BitsOfXor(Rotl(a, 1), Rotl(b, 1));
    forall z | 0 <= z < 64
      ensures Bits(Rotl(Xor(a, b), 1))[z] == Bits(Xor(Rotl(a, 1), Rotl(b, 1)))[z]
    {
      BitOfRotlAt(a, 1, z);
      BitOfRotlAt(b, 1, z);
      BitOfRotlAt(Xor(a, b), 1, z);
    }
    BitsDetermineWord(Rotl(Xor(a, b), 1), Xor(Rotl(a, 1), Rotl(b, 1)));
  }

  lemma EffectDifference(a: Word, b: Word, c: Word, d: Word)
    ensures Xor(Xor(a, Rotl(b, 1)), Xor(c, Rotl(d, 1))) == Xor(Xor(a, c), Rotl(Xor(b, d), 1))
  {
    hide Xor, Rotl;
    RotlXor(b, d);
    XorInterchange(a, Rotl(b, 1), c, Rotl(d, 1));
  }

  predicate OwnEffect(left: Word, here: Word, right: Word) {
    here == Xor(left, Rotl(right, 1))
  }

  // The columns of a parity plane that is its own theta effect are all zero.
  lemma ParityKernel(c0: Word, c1: Word, c2: Word, c3: Word, c4: Word)
    requires OwnEffect(c4, c0, c1) && OwnEffect(c0, c1, c2) && OwnEffect(c1, c2, c3)
    requires OwnEffect(c2, c3, c4) && OwnEffect(c3, c4, c0)
    ensures c0 == c1 == c2 == c3 == c4 == ZERO
  {
    assert Position(1) == 1;
  }

  function ParityDifference(s: State, t: State, x: nat): Word
    requires x < 5
  {
    Xor(Column(s, x), Column(t, x))
  }

  lemma LaneDifference(s: State, t: State, x: nat, y: nat)
    requires x < 5 && y < 5 && Theta(s) == Theta(t)
    ensures Xor(s[x + 5 * y], t[x + 5 * y]) == Xor(Effect(s, x), Effect(t, x))
  {
    hide Xor, Effect;
    var i := x + 5 * y;
    assert Theta(s)[i] == Theta(t)[i];
    XorMoves(s[i], Effect(s, x), t[i], Effect(t, x));
  }

  lemma ParityIsOwnEffect(s: State, t: State, x: nat)
    requires x < 5 && Theta(s) == Theta(t)
    ensures ParityDifference(s, t, x) == Xor(Effect(s, x), Effect(t, x))
    ensures OwnEffect(ParityDifference(s, t, (x + 4) % 5), ParityDifference(s, t, x),
                      ParityDifference(s, t, (x + 1) % 5))
  {
    hide Xor, Rotl, Theta;
    var e := Xor(Effect(s, x), Effect(t, x));
    LaneDifference(s, t, x, 0);
    LaneDifference(s, t, x, 1);
    LaneDifference(s, t, x, 2);
    LaneDifference(s, t, x, 3);
    LaneDifference(s, t, x, 4);
    FiveDifferences([s[x], s[x + 5], s[x + 10], s[x + 15], s[x + 20]],
                    [t[x], t[x + 5], t[x + 10], t[x + 15], t[x + 20]], e);
    EffectDifference(Column(s, (x + 4) % 5), Column(s, (x + 1) % 5),
                     Column(t, (x + 4) % 5), Column(t, (x + 1) % 5));
  }

  lemma ThetaInjective(s: State, t: State)
    requires Theta(s) == Theta(t)
    ensures s == t
  {
    hide Xor, Theta, OwnEffect, ParityDifference, Effect;
    ParityIsOwnEffect(s, t, 0);
    ParityIsOwnEffect(s, t, 1);
    ParityIsOwnEffect(s, t, 2);
    ParityIsOwnEffect(s, t, 3);
    ParityIsOwnEffect(s, t, 4);
    ParityKernel(ParityDifference(s, t, 0), ParityDifference(s, t, 1), ParityDifference(s, t, 2),
                 ParityDifference(s, t, 3), ParityDifference(s, t, 4));
    forall i | 0 <= i < 25
      ensures s[i] == t[i]
    {
      LaneDifference(s, t, i % 5, i / 5);
      XorZero(s[i], t[i]);
    }
  }

  // ---- rho and pi: every lane is written once, rotated --------------------------------

  lemma RotlInjective(a: Word, b: Word, n: nat)
    requires 0 < n < 64 && Rotl(a, n) == Rotl(b, n)
    ensures a == b
  {
    hide Bits, Rotl;
    forall z | 0 <= z < 64
      ensures Bits(a)[z] == Bits(b)[z]
    {
      var moved := (z + n) % 64;
      BitOfRotlAt(a, n, moved);
      BitOfRotlAt(b, n, moved);
      assert Back(moved, n) == z;
    }
    BitsDetermineWord(a, b);
  }

  // The step of the cycle that reads lane j.
  function ReadStep(j: nat): (t: nat)
    requires 0 < j < 25
    ensures t < 24 && Source(t) == j
  {
    LaneIsWritten(j);
    if STEP[j] == 23 then 0 else STEP[j] + 1
  }

  lemma RhoPiInjective(s: State, t: State)
    requires RhoPi(s) == RhoPi(t)
    ensures s == t
  {
    forall j | 0 <= j < 25
      ensures s[j] == t[j]
    {
      if j == 0 {
        assert RhoPi(s)[0] == RhoPi(t)[0];
      } else {
        RhoPiLanesEqual(s, t, j);
      }
    }
  }

  lemma RhoPiLanesEqual(s: State, t: State, j: nat)
    requires RhoPi(s) == RhoPi(t) && 0 < j < 25
    ensures s[j] == t[j]
  {
    hide Rotl, Source;
    var step := ReadStep(j);
    StepWritesLane(step);
    assert RhoPi(s)[PI[step]] == RhoPi(t)[PI[step]];
    AmountInRange(step);
    RotlInjective(s[j], t[j], RHO[step]);
  }

  // ---- chi: injective on every row of five bits ------------------------------------------

  predicate ChiBit(b0: bool, b1: bool, b2: bool) { b0 != (!b1 && b2) }

  lemma FiveBits(a0: bool, a1: bool, a2: bool, a3: bool, a4: bool,
                 b0: bool, b1: bool, b2: bool, b3: bool, b4: bool)
    requires ChiBit(a0, a1, a2) == ChiBit(b0, b1, b2) && ChiBit(a1, a2, a3) == ChiBit(b1, b2, b3)
    requires ChiBit(a2, a3, a4) == ChiBit(b2, b3, b4) && ChiBit(a3, a4, a0) == ChiBit(b3, b4, b0)
    requires ChiBit(a4, a0, a1) == ChiBit(b4, b0, b1)
    ensures a0 == b0 && a1 == b1 && a2 == b2 && a3 == b3 && a4 == b4
  {
  }

  predicate RowImage(a: seq<bool>, x: nat)
    requires |a| == 5 && x < 5
  {
    ChiBit(a[x], a[(x + 1) % 5], a[(x + 2) % 5])
  }

  lemma ChiRowInjective(a: seq<bool>, b: seq<bool>)
    requires |a| == |b| == 5
    requires forall x :: 0 <= x < 5 ==> RowImage(a, x) == RowImage(b, x)
    ensures a == b
  {
    hide ChiBit;
    assert RowImage(a, 0) == RowImage(b, 0) && RowImage(a, 1) == RowImage(b, 1) && RowImage(a, 2) == RowImage(b, 2);
    assert RowImage(a, 3) == RowImage(b, 3) && RowImage(a, 4) == RowImage(b, 4);
    FiveBits(a[0], a[1], a[2], a[3], a[4], b[0], b[1], b[2], b[3], b[4]);
  }

  lemma ChiLaneBit(s: State, x: nat, y: nat, z: nat)
    requires x < 5 && y < 5 && z < 64
    ensures Bits(ChiLane(s, x, y))[z] ==
            ChiBit(Bits(s[x + 5 * y])[z], Bits(s[(x + 1) % 5 + 5 * y])[z], Bits(s[(x + 2) % 5 + 5 * y])[z])
  {
    hide Xor, AndNot, Bits;
    var b1, b2 := s[(x + 1) % 5 + 5 * y], s[(x + 2) % 5 + 5 * y];
    BitsOfAndNot(b1, b2);
    BitsOfXor(s[x + 5 * y], AndNot(b1, b2));
  }

  function RowBits(s: State, y: nat, z: nat): seq<bool>
    requires y < 5 && z < 64
  {
    seq(5, x requires 0 <= x < 5 => Bits(s[x + 5 * y])[z])
  }

  lemma RowsEqual(s: State, t: State, y: nat, z: nat)
    requires y < 5 && z < 64 && Chi(s) == Chi(t)
    ensures RowBits(s, y, z) == RowBits(t, y, z)
  {
    hide Bits, ChiLane, ChiBit;
    var a, b := RowBits(s, y, z), RowBits(t, y, z);
    forall x | 0 <= x < 5
      ensures RowImage(a, x) == RowImage(b, x)
    {
      assert Chi(s)[x + 5 * y] == Chi(t)[x + 5 * y];
      ChiLaneBit(s, x, y, z);
      ChiLaneBit(t, x, y, z);
    }
    ChiRowInjective(a, b);
  }

  lemma ChiInjective(s: State, t: State)
    requires Chi(s) == Chi(t)
    ensures s == t
  {
    hide Bits, Chi;
    forall i | 0 <= i < 25
      ensures s[i] == t[i]
    {
      forall z | 0 <= z < 64
        ensures Bits(s[i])[z] == Bits(t[i])[z]
      {
        RowsEqual(s, t, i / 5, z);
        assert RowBits(s, i / 5, z)[i % 5] == RowBits(t, i / 5, z)[i % 5];
      }
      BitsDetermineWord(s[i], t[i]);
    }
  }

  // ---- iota and the whole permutation -----------------------------------------------------

  lemma XorSame(a: Word, b: Word, c: Word)
    requires Xor(a, c) == Xor(b, c)
    ensures a == b
  {
  }

  lemma IotaInjective(s: State, t: State, round: nat)
    requires round < 24 && Iota(s, round) == Iota(t, round)
    ensures s == t
  {
    hide Xor, RoundConstant;
    var constant := Word(RoundConstant(round));
    assert s[0 := Xor(s[0], constant)][0] == t[0 := Xor(t[0], constant)][0];
    XorSame(s[0], t[0], constant);
    forall i | 0 < i < 25
      ensures s[i] == t[i]
    {
      assert Iota(s, round)[i] == Iota(t, round)[i];
    }
  }

  lemma {:induction false} RoundsInjective(s: State, t: State, n: nat)
    requires n <= 24 && Rounds(s, n) == Rounds(t, n)
    ensures s == t
  {
    hide Theta, RhoPi, Chi, Iota;
    if n > 0 {
      var s', t' := Rounds(s, n - 1), Rounds(t, n - 1);
      IotaInjective(Chi(RhoPi(Theta(s'))), Chi(RhoPi(Theta(t'))), n - 1);
      ChiInjective(RhoPi(Theta(s')), RhoPi(Theta(t')));
      RhoPiInjective(Theta(s'), Theta(t'));
      ThetaInjective(s', t');
      RoundsInjective(s, t, n - 1);
    }
  }
}
