/**
 The in-place Keccak-f[1600] permutation of src/crypto/keccak256.hpp: rho and pi fused into one
 24-cycle, chi through a row buffer.
 */
module Keccak {
  import opened Lanes

  type State = s: seq<Word> | |s| == 25 witness seq(25, _ => Word(0))

  // The table RC.
  function RoundConstant(r: nat): bv64
    requires r < 24
  {
    match r
    case 0 => 0x0000000000000001
    case 1 => 0x0000000000008082
    case 2 => 0x800000000000808A
    case 3 => 0x8000000080008000
    case 4 => 0x000000000000808B
    case 5 => 0x0000000080000001
    case 6 => 0x8000000080008081
    case 7 => 0x8000000000008009
    case 8 => 0x000000000000008A
    case 9 => 0x0000000000000088
    case 10 => 0x0000000080008009
    case 11 => 0x000000008000000A
    case 12 => 0x000000008000808B
    case 13 => 0x800000000000008B
    case 14 => 0x8000000000008089
    case 15 => 0x8000000000008003
    case 16 => 0x8000000000008002
    case 17 => 0x8000000000000080
    case 18 => 0x000000000000800A
    case 19 => 0x800000008000000A
    case 20 => 0x8000000080008081
    case 21 => 0x8000000000008080
    case 22 => 0x0000000080000001
    case _ => 0x8000000080008008
  }

  // Destination lane of each step of the cycle that starts at lane 1.
  const PI: seq<nat> := [
    10, 7, 11, 17, 18, 3, 5, 16, 8, 21, 24, 4,
    15, 23, 19, 13, 12, 2, 20, 14, 22, 9, 6, 1
  ]

  // Rotation amount of each step of the same cycle.
  const RHO: seq<nat> := [
    1, 3, 6, 10, 15, 21, 28, 36, 45, 55, 2, 14,
    27, 41, 56, 8, 25, 43, 62, 18, 39, 61, 20, 44
  ]

  // The step of the cycle that writes each lane (lane 0 is not on the cycle).
  const STEP: seq<nat> := [
    24, 23, 17, 5, 11,
    6, 22, 1, 8, 21,
    0, 2, 16, 15, 19,
    12, 7, 3, 4, 14,
    18, 9, 20, 13, 10
  ]

  // ---- What each step computes, lane by lane --------------------------------------

  function Column(s: State, x: nat): Word
    requires x < 5
  {
    Xor(Xor(Xor(Xor(s[x], s[x + 5]), s[x + 10]), s[x + 15]), s[x + 20])
  }

  function Effect(s: State, x: nat): Word
    requires x < 5
  {
    Xor(Column(s, (x + 4) % 5), Rotl(Column(s, (x + 1) % 5), 1))
  }

  // The first n lanes, taken column by column, are updated.
  function ThetaUpTo(s: State, n: nat): State {
    seq(25, i requires 0 <= i < 25 =>
      if 5 * (i % 5) + i / 5 < n then Xor(s[i], Effect(s, i % 5)) else s[i])
  }

  function Theta(s: State): State { ThetaUpTo(s, 25) }

  // The lane read by step t of the cycle.
  function Source(t: nat): (j: nat)
    requires t <= 24
    ensures 0 < j < 25
  {
    if t == 0 then 1 else (StepWritesLane(t - 1); PI[t - 1])
  }

  lemma StepWritesLane(t: nat)
    requires t < 24
    ensures 0 < PI[t] < 25 && STEP[PI[t]] == t
  {
  }

  lemma LaneIsWritten(j: nat)
    requires 0 < j < 25
    ensures STEP[j] < 24 && PI[STEP[j]] == j
  {
  }

  lemma AmountInRange(t: nat)
    requires t < 24
    ensures 0 < RHO[t] < 64
  {
  }

  function RhoPiLane(s: State, t: nat): Word
    requires t < 24
  {
    AmountInRange(t);
    Rotl(s[Source(t)], RHO[t])
  }

  // The first n steps of the cycle are done.
  function RhoPiUpTo(s: State, n: nat): State {
    seq(25, j requires 0 <= j < 25 =>
      if j == 0 then s[0]
      else (LaneIsWritten(j); if STEP[j] < n then RhoPiLane(s, STEP[j]) else s[j]))
  }

  function RhoPi(s: State): State { RhoPiUpTo(s, 24) }

  function ChiLane(s: State, x: nat, y: nat): Word
    requires x < 5 && y < 5
  {
    Xor(s[x + 5 * y], AndNot(s[(x + 1) % 5 + 5 * y], s[(x + 2) % 5 + 5 * y]))
  }

  // The first n lanes, taken row by row, are updated.
  function ChiUpTo(s: State, n: nat): State {
    seq(25, i requires 0 <= i < 25 => if i < n then ChiLane(s, i % 5, i / 5) else s[i])
  }

  function Chi(s: State): State { ChiUpTo(s, 25) }

  function Iota(s: State, round: nat): State
    requires round < 24
  {
    s[0 := Xor(s[0], Word(RoundConstant(round)))]
  }

  function Round(s: State, round: nat): State
    requires round < 24
  {
    Iota(Chi(RhoPi(Theta(s))), round)
  }

  function Rounds(s: State, n: nat): State
    requires n <= 24
  {
    if n == 0 then s else Round(Rounds(s, n - 1), n - 1)
  }

  // ---- One assignment at a time ------------------------------------------------------

  lemma ThetaStart(s: State)
    ensures ThetaUpTo(s, 0) == s
  {
  }

  lemma RhoPiStart(s: State)
    ensures RhoPiUpTo(s, 0) == s
  {
  }

  lemma ChiStart(s: State)
    ensures ChiUpTo(s, 0) == s
  {
  }

  lemma ThetaAdvance(s: State, x: nat, y: nat)
    requires x < 5 && y < 5
    ensures var done := ThetaUpTo(s, 5 * x + y);
            done[x + 5 * y] == s[x + 5 * y] &&
            done[x + 5 * y := Xor(s[x + 5 * y], Effect(s, x))] == ThetaUpTo(s, 5 * x + y + 1)
  {
    hide Xor, Effect;
    var j := x + 5 * y;
    assert j % 5 == x && j / 5 == y;
    var next, after := ThetaUpTo(s, 5 * x + y)[j := Xor(s[j], Effect(s, x))], ThetaUpTo(s, 5 * x + y + 1);
    forall i | 0 <= i < 25
      ensures next[i] == after[i]
    {
      assert i == i % 5 + 5 * (i / 5);
    }
  }

  lemma RhoPiAdvance(s: State, t: nat)
    requires t < 24
    ensures 0 < PI[t] < 25
    ensures var done := RhoPiUpTo(s, t);
            done[PI[t]] == s[PI[t]] && done[PI[t] := RhoPiLane(s, t)] == RhoPiUpTo(s, t + 1)
  {
    StepWritesLane(t);
    var done, next := RhoPiUpTo(s, t), RhoPiUpTo(s, t + 1);
    forall j | 0 <= j < 25
      ensures done[PI[t] := RhoPiLane(s, t)][j] == next[j]
    {
      hide RhoPiLane;
      if j != 0 { LaneIsWritten(j); }
    }
  }

  lemma ChiAdvance(s: State, x: nat, y: nat)
    requires x < 5 && y < 5
    ensures var done := ChiUpTo(s, 5 * y + x);
            done[x + 5 * y := ChiLane(s, x, y)] == ChiUpTo(s, 5 * y + x + 1)
  {
    hide ChiLane;
  }

  lemma ChiRowUntouched(s: State, y: nat)
    requires y < 5
    ensures ChiUpTo(s, 5 * y)[5 * y..5 * y + 5] == s[5 * y..5 * y + 5]
  {
  }

  // ---- The code: every step overwrites the same 25 lanes ----------------------------

  method Columns(a: array<Word>) returns (c: array<Word>)
    requires a.Length == 25
    ensures fresh(c) && c.Length == 5
    ensures forall x :: 0 <= x < 5 ==> c[x] == Column(a[..], x)
  {
    hide Xor;
    c := new Word[5];
    for x := 0 to 5
      invariant forall i :: 0 <= i < x ==> c[i] == Column(a[..], i)
    {
      c[x] := Xor(Xor(Xor(Xor(a[x], a[x + 5]), a[x + 10]), a[x + 15]), a[x + 20]);
    }
  }

  method ThetaInPlace(a: array<Word>)
    requires a.Length == 25
    modifies a
    ensures a[..] == Theta(old(a[..]))
  {
    hide Xor, Rotl, ThetaUpTo, Column;
    ghost var s := a[..];
    var c := Columns(a);
    ThetaStart(s);
    for x := 0 to 5
      invariant forall i :: 0 <= i < 5 ==> c[i] == Column(s, i)
      invariant a[..] == ThetaUpTo(s, 5 * x)
    {
      var d := Xor(c[(x + 4) % 5], Rotl(c[(x + 1) % 5], 1));
      assert d == Effect(s, x);
      for y := 0 to 5
        invariant forall i :: 0 <= i < 5 ==> c[i] == Column(s, i)
        invariant a[..] == ThetaUpTo(s, 5 * x + y)
      {
        ThetaAdvance(s, x, y);
        a[x + 5 * y] := Xor(a[x + 5 * y], d);
      }
    }
  }

  method RhoPiInPlace(a: array<Word>)
    requires a.Length == 25
    modifies a
    ensures a[..] == RhoPi(old(a[..]))
  {
    hide Rotl, RhoPiUpTo;
    ghost var s := a[..];
    RhoPiStart(s);
    var t := a[1];
    for i := 0 to 24
      invariant t == s[Source(i)]
      invariant a[..] == RhoPiUpTo(s, i)
    {
      RhoPiAdvance(s, i);
      var j := PI[i];
      var t2 := a[j];
      AmountInRange(i);
      a[j] := Rotl(t, RHO[i]);
      t := t2;
    }
  }

  method CopyRow(a: array<Word>, y: nat, b: array<Word>)
    requires a.Length == 25 && b.Length == 5 && y < 5 && a != b
    modifies b
    ensures b[..] == a[5 * y..5 * y + 5]
  {
    for x := 0 to 5
      invariant b[..x] == a[5 * y..5 * y + x]
    {
      b[x] := a[x + 5 * y];
    }
  }

  method ChiInPlace(a: array<Word>)
    requires a.Length == 25
    modifies a
    ensures a[..] == Chi(old(a[..]))
  {
    hide Xor, AndNot, ChiUpTo;
    ghost var s := a[..];
    ChiStart(s);
    var b := new Word[5];
    for y := 0 to 5
      invariant a[..] == ChiUpTo(s, 5 * y)
    {
      CopyRow(a, y, b);
      ChiRowUntouched(s, y);
      for x := 0 to 5
        invariant b[..] == s[5 * y..5 * y + 5]
        invariant a[..] == ChiUpTo(s, 5 * y + x)
      {
        ChiAdvance(s, x, y);
        a[x + 5 * y] := Xor(b[x], AndNot(b[(x + 1) % 5], b[(x + 2) % 5]));
      }
    }
  }

  method KeccakF1600(a: array<Word>)
    requires a.Length == 25
    modifies a
    ensures a[..] == Rounds(old(a[..]), 24)
  {
    hide Theta, RhoPi, Chi, Xor, Column, Effect;
    ghost var s := a[..];
    for round := 0 to 24
      invariant a[..] == Rounds(s, round)
    {
      ThetaInPlace(a);
      RhoPiInPlace(a);
      ChiInPlace(a);
      a[0] := Xor(a[0], Word(RoundConstant(round)));
    }
  }
}
