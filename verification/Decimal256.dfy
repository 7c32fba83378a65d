/**
 The decimal printer and parser for 256-bit unsigned integers of src/execution/clob_client.cpp: four
 64-bit limbs, most significant first, divided by ten or multiplied by ten in place.
 */
module Decimal256 {
  import opened Wrappers

  const LIMB := 0x1_0000_0000_0000_0000
  const UINT128 := LIMB * LIMB
  const UINT256 := UINT128 * UINT128

  type Limb = x: nat | x < LIMB
  type Byte = x: nat | x < 256
  type Uint256 = b: seq<Byte> | |b| == 32 witness seq(32, _ => 0)

  datatype ParseError = Empty | NonDecimal | ExceedsUint256

  // ---- What limbs, bytes and digits mean ------------------------------------------------

  function LimbsValue(l: seq<Limb>): nat {
    if l == [] then 0 else LimbsValue(l[..|l| - 1]) * LIMB + l[|l| - 1]
  }

  function BytesValue(b: seq<Byte>): nat {
    if b == [] then 0 else BytesValue(b[..|b| - 1]) * 256 + b[|b| - 1]
  }

  // The n low bytes of x, most significant first.
  function BigEndian(x: nat, n: nat): (b: seq<Byte>)
    ensures |b| == n
  {
    if n == 0 then [] else BigEndian(x / 256, n - 1) + [x % 256]
  }

  predicate IsDigit(c: char) { '0' <= c <= '9' }

  predicate AllDigits(s: string) { forall i :: 0 <= i < |s| ==> IsDigit(s[i]) }

  function DigitValue(c: char): (d: nat)
    requires IsDigit(c)
    ensures d < 10
  {
    (c - '0') as nat
  }

  function DecimalValue(s: string): nat
    requires AllDigits(s)
  {
    if s == "" then 0 else DecimalValue(s[..|s| - 1]) * 10 + DigitValue(s[|s| - 1])
  }

  function Digit(d: nat): (c: char)
    requires d < 10
    ensures IsDigit(c) && DigitValue(c) == d
  {
    '0' + d as char
  }

  function Digits(n: nat): (s: string)
    ensures AllDigits(s)
  {
    if n == 0 then "" else Digits(n / 10) + [Digit(n % 10)]
  }

  function Decimal(n: nat): (s: string)
    ensures AllDigits(s) && s != ""
  {
    if n == 0 then "0" else Digits(n)
  }

  function Pow256(n: nat): (p: nat)
    ensures p > 0
  {
    if n == 0 then 1 else 256 * Pow256(n - 1)
  }

  // ---- Bytes -----------------------------------------------------------------------------

  lemma {:induction false} BytesBound(b: seq<Byte>)
    ensures BytesValue(b) < Pow256(|b|)
  {
    if b != [] { BytesBound(b[..|b| - 1]); }
  }

  lemma {:induction false} BigEndianValue(x: nat, n: nat)
    requires x < Pow256(n)
    ensures BytesValue(BigEndian(x, n)) == x
  {
    if n > 0 {
      BigEndianValue(x / 256, n - 1);
      assert BigEndian(x, n)[..n - 1] == BigEndian(x / 256, n - 1);
    }
  }

  lemma {:induction false} BigEndianOfValue(b: seq<Byte>)
    ensures BigEndian(BytesValue(b), |b|) == b
  {
    if b != [] {
      var front, last := b[..|b| - 1], b[|b| - 1];
      BigEndianOfValue(front);
      assert BytesValue(b) == BytesValue(front) * 256 + last;
      assert BytesValue(b) / 256 == BytesValue(front) && BytesValue(b) % 256 == last;
      hide BytesValue;
      assert b == front + [last];
    }
  }

  lemma {:induction false} BytesAppend(a: seq<Byte>, b: seq<Byte>)
    ensures BytesValue(a + b) == BytesValue(a) * Pow256(|b|) + BytesValue(b)
  {
    if b == [] {
      assert a + b == a;
    } else {
      var front := b[..|b| - 1];
      BytesAppend(a, front);
      assert (a + b)[..|a + b| - 1] == a + front;
      assert (a + b)[|a + b| - 1] == b[|b| - 1];
      Distribute(BytesValue(a), Pow256(|front|), BytesValue(front), b[|b| - 1]);
    }
  }

  lemma Distribute(a: nat, p: nat, f: nat, last: nat)
    ensures (a * p + f) * 256 + last == a * (256 * p) + (f * 256 + last)
  {
  }

  lemma LimbIsEightBytes()
    ensures Pow256(8) == LIMB && Pow256(32) == UINT256
  {
    assert Pow256(8) == LIMB;
    Pow256Add(8, 8);
    Pow256Add(16, 16);
  }

  lemma {:induction false} Pow256Add(m: nat, n: nat)
    ensures Pow256(m + n) == Pow256(m) * Pow256(n)
  {
    if m > 0 {
      Pow256Add(m - 1, n);
      Scale(Pow256(m - 1), Pow256(n));
    }
  }

  lemma Scale(p: nat, q: nat)
    ensures 256 * (p * q) == (256 * p) * q
  {
  }

  // ---- Printing: repeated division of the limbs by ten --------------------------------------

  // One pass of long division; the partial dividend stays below 2^128 and its quotient below 2^64.
  method DivideByTen(l: array<Limb>) returns (rem: nat)
    requires l.Length == 4
    modifies l
    ensures rem < 10
    ensures LimbsValue(old(l[..])) == 10 * LimbsValue(l[..]) + rem
  {
    hide LimbsValue;
    rem := 0;
    ghost var before := l[..];
    NoLimbsValue();
    for i := 0 to 4
      invariant rem < 10
      invariant l[i..] == before[i..]
      invariant LimbsValue(before[..i]) == 10 * LimbsValue(l[..i]) + rem
    {
      var acc := rem * LIMB + l[i];
      assert acc < UINT128 && acc / 10 < LIMB;
      ghost var done := l[..i];
      LimbsAppend(before[..i], before[i]);
      LimbsAppend(done, acc / 10);
      DivideStep(LimbsValue(before[..i]), LimbsValue(done), rem, before[i]);
      l[i] := acc / 10;
      rem := acc % 10;
      assert before[..i + 1] == before[..i] + [before[i]];
      assert l[..i + 1] == done + [acc / 10];
    }
    assert before[..4] == before && l[..4] == l[..];
  }

  lemma NoLimbsValue()
    ensures LimbsValue([]) == 0
  {
  }

  lemma LimbsAppend(l: seq<Limb>, limb: Limb)
    ensures LimbsValue(l + [limb]) == LimbsValue(l) * LIMB + limb
  {
    assert (l + [limb])[..|l|] == l;
  }

  // Long division: bringing down the next limb.
  lemma DivideStep(x: nat, quotient: nat, rem: nat, limb: nat)
    requires x == 10 * quotient + rem
    ensures x * LIMB + limb == 10 * (quotient * LIMB + (rem * LIMB + limb) / 10) + (rem * LIMB + limb) % 10
  {
    var acc := rem * LIMB + limb;
    assert acc == 10 * (acc / 10) + acc % 10;
  }

  lemma {:induction false} LimbsZero(l: seq<Limb>)
    ensures LimbsValue(l) == 0 <==> forall i :: 0 <= i < |l| ==> l[i] == 0
  {
    if l != [] {
      LimbsZero(l[..|l| - 1]);
      assert l == l[..|l| - 1] + [l[|l| - 1]];
    }
  }

  lemma FourLimbsZero(l: seq<Limb>)
    requires |l| == 4
    ensures LimbsValue(l) == 0 <==> l[0] == 0 && l[1] == 0 && l[2] == 0 && l[3] == 0
  {
    hide LimbsValue;
    LimbsZero(l);
  }

  // The inner loop: shift the limb left by a byte and put the next byte in.
  method UnpackLimb(bytes: seq<Byte>) returns (limb: Limb)
    requires |bytes| == 8
    ensures limb == BytesValue(bytes)
  {
    limb := 0;
    for j := 0 to 8
      invariant limb == BytesValue(bytes[..j])
    {
      BytesBound(bytes[..j]);
      ByteFits(j);
      assert bytes[..j + 1] == bytes[..j] + [bytes[j]];
      limb := limb * 256 + bytes[j];
    }
    assert bytes[..8] == bytes;
  }

  method UnpackLimbs(v: Uint256) returns (l: array<Limb>)
    ensures fresh(l) && l.Length == 4
    ensures LimbsValue(l[..]) == BytesValue(v)
  {
    LimbIsEightBytes();
    hide BytesValue, Pow256;
    l := new Limb[4](_ => 0);
    assert BytesValue([]) == 0 by { NoBytes(); }
    for i := 0 to 4
      invariant LimbsValue(l[..i]) == BytesValue(v[..8 * i])
    {
      ghost var done := l[..i];
      var next := v[8 * i..8 * i + 8];
      l[i] := UnpackLimb(next);
      BytesAppend(v[..8 * i], next);
      assert v[..8 * (i + 1)] == v[..8 * i] + next;
      assert l[..i + 1] == done + [l[i]];
    }
    assert v[..32] == v && l[..4] == l[..];
  }

  lemma NoBytes()
    ensures BytesValue([]) == 0
  {
  }

  lemma ByteFits(j: nat)
    requires j < 8
    ensures 256 * Pow256(j) <= LIMB
  {
    LimbIsEightBytes();
    Pow256Add(j + 1, 7 - j);
    assert Pow256(j + 1) == 256 * Pow256(j);
    hide Pow256;
    Grows(Pow256(j + 1), Pow256(7 - j));
  }

  lemma Grows(p: nat, q: nat)
    requires q > 0
    ensures p <= p * q
  {
  }

  function Reverse(s: string): (r: string)
    ensures |r| == |s|
  {
    if s == "" then "" else Reverse(s[1..]) + [s[0]]
  }

  lemma {:induction false} ReverseAppend(s: string, c: char)
    ensures Reverse(s + [c]) == [c] + Reverse(s)
  {
    if s != "" {
      ReverseAppend(s[1..], c);
      assert (s + [c])[1..] == s[1..] + [c];
    }
  }

  method Uint256ToDecimal(v: Uint256) returns (s: string)
    ensures s == Decimal(BytesValue(v))
  {
    hide LimbsValue, BytesValue;
    var l := UnpackLimbs(v);
    ghost var n := BytesValue(v);
    hide Decimal;
    DecimalIs(n);
    FourLimbsZero(l[..]);
    if l[0] == 0 && l[1] == 0 && l[2] == 0 && l[3] == 0 {
      return "0";
    }
    var digits := "";
    hide Digits, Digit, Reverse;
    NothingReversed(n);
    while l[0] != 0 || l[1] != 0 || l[2] != 0 || l[3] != 0
      invariant n > 0
      invariant Digits(n) == Digits(LimbsValue(l[..])) + Reverse(digits)
      decreases LimbsValue(l[..])
    {
      FourLimbsZero(l[..]);
      ghost var dividend := LimbsValue(l[..]);
      var rem := DivideByTen(l);
      OneMoreDigit(n, dividend, LimbsValue(l[..]), rem, digits);
      digits := digits + [Digit(rem)];
    }
    FourLimbsZero(l[..]);
    NothingReversed(0);
    s := Reverse(digits);
  }

  lemma DecimalIs(n: nat)
    ensures Decimal(n) == if n == 0 then "0" else Digits(n)
  {
  }

  lemma DigitsStep(n: nat, quotient: nat, rem: nat)
    requires n > 0 && n == 10 * quotient + rem && rem < 10
    ensures Digits(n) == Digits(quotient) + [Digit(rem)]
  {
    assert n / 10 == quotient && n % 10 == rem;
  }

  lemma OneMoreDigit(n: nat, dividend: nat, quotient: nat, rem: nat, digits: string)
    requires dividend > 0 && dividend == 10 * quotient + rem && rem < 10
    requires Digits(n) == Digits(dividend) + Reverse(digits)
    ensures Digits(n) == Digits(quotient) + Reverse(digits + [Digit(rem)])
  {
    hide Digits, Digit, Reverse;
    ReverseAppend(digits, Digit(rem));
    DigitsStep(dividend, quotient, rem);
  }

  lemma NothingReversed(n: nat)
    ensures Reverse("") == "" && Digits(0) == "" && Digits(n) == Digits(n) + Reverse("")
  {
  }

  // ---- Parsing: multiply the limbs by ten and add a digit -------------------------------------

  // The accepted prefix of length n as a number, or the first fault met on the way.
  function Scan(s: string, n: nat): (r: Result<nat, ParseError>)
    requires n <= |s|
    ensures r.Success? ==> r.value < UINT256
  {
    if n == 0 then Success(0)
    else match Scan(s, n - 1)
         case Failure(e) => Failure(e)
         case Success(v) =>
           if !IsDigit(s[n - 1]) then Failure(NonDecimal)
           else if v * 10 + DigitValue(s[n - 1]) >= UINT256 then Failure(ExceedsUint256)
           else Success(v * 10 + DigitValue(s[n - 1]))
  }

  function Parse(s: string): Result<Uint256, ParseError> {
    if s == "" then Failure(Empty)
    else match Scan(s, |s|)
         case Failure(e) => Failure(e)
         case Success(v) => Success(BigEndian(v, 32))
  }

  // What one unit carried out of limb i is worth: 2^64 to the number of limbs from i on.
  function Place(i: nat): nat
    requires i <= 4
  {
    match i case 4 => 1 case 3 => LIMB case 2 => UINT128 case 1 => UINT128 * LIMB case 0 => UINT256
  }

  function LowValue(l: seq<Limb>, i: nat): nat
    requires |l| == 4 && i <= 4
    decreases 4 - i
  {
    if i == 4 then 0 else l[i] * Place(i + 1) + LowValue(l, i + 1)
  }

  lemma LowValueIsValue(l: seq<Limb>)
    requires |l| == 4
    ensures LowValue(l, 0) == LimbsValue(l)
  {
    assert l[..3][..2] == l[..2] && l[..2][..1] == l[..1];
    assert LimbsValue(l[..1]) == l[0];
    assert LimbsValue(l[..2]) == l[0] * LIMB + l[1];
    assert LimbsValue(l[..3]) == (l[0] * LIMB + l[1]) * LIMB + l[2];
  }

  lemma {:induction false} LowValueFrame(l: seq<Limb>, m: seq<Limb>, i: nat)
    requires |l| == |m| == 4 && i <= 4 && l[i..] == m[i..]
    ensures LowValue(l, i) == LowValue(m, i)
    decreases 4 - i
  {
    if i < 4 {
      assert l[i] == l[i..][0] && m[i] == m[i..][0];
      assert l[i + 1..] == l[i..][1..] && m[i + 1..] == m[i..][1..];
      LowValueFrame(l, m, i + 1);
    }
  }

  // Splitting a product into a limb and a carry keeps the value.
  lemma CarryStep(i: nat, limb: nat, carry: nat, low: nat, high: nat)
    requires i <= 3 && limb * 10 + carry == high * LIMB + low
    ensures low * Place(i + 1) + high * Place(i) == 10 * (limb * Place(i + 1)) + carry * Place(i + 1)
  {
  }

  lemma PassStep(before: seq<Limb>, l: seq<Limb>, i: nat, carry: nat, d: nat)
    requires |before| == |l| == 4 && i < 4 && l[..i + 1] == before[..i + 1]
    requires LowValue(l, i + 1) + carry * Place(i + 1) == 10 * LowValue(before, i + 1) + d
    ensures var acc := l[i] * 10 + carry;
            LowValue(l[i := acc % LIMB], i) + acc / LIMB * Place(i) == 10 * LowValue(before, i) + d
  {
    hide Place;
    var acc := l[i] * 10 + carry;
    var after := l[i := acc % LIMB];
    assert l[i] == l[..i + 1][i] == before[i];
    LowValueFrame(after, l, i + 1);
    CarryStep(i, l[i], carry, acc % LIMB, acc / LIMB);
  }

  // One pass of multiply-and-add, right to left; every product fits 128 bits and every carry a limb.
  method TimesTenPlus(l: array<Limb>, d: nat) returns (carry: nat)
    requires l.Length == 4 && d < 10
    modifies l
    ensures LimbsValue(l[..]) + carry * UINT256 == LimbsValue(old(l[..])) * 10 + d
  {
    hide LowValue;
    ghost var before := l[..];
    carry := d;
    assert LowValue(before, 4) == 0 by { NoLimbs(before); }
    for i := 4 downto 0
      invariant carry < 10
      invariant l[..i] == before[..i]
      invariant LowValue(l[..], i) + carry * Place(i) == 10 * LowValue(before, i) + d
    {
      PassStep(before, l[..], i, carry, d);
      var acc := l[i] * 10 + carry;
      assert acc < UINT128 && acc / LIMB < 10;
      l[i] := acc % LIMB;
      carry := acc / LIMB;
    }
    LowValueIsValue(before);
    LowValueIsValue(l[..]);
  }

  lemma NoLimbs(l: seq<Limb>)
    requires |l| == 4
    ensures LowValue(l, 4) == 0
  {
  }

  // x >> (8 * j).
  function ShiftRightBytes(x: nat, j: nat): nat {
    if j == 0 then x else ShiftRightBytes(x / 256, j - 1)
  }

  lemma {:induction false} BigEndianByte(x: nat, n: nat, j: nat)
    requires j < n
    ensures BigEndian(x, n)[n - 1 - j] == ShiftRightBytes(x, j) % 256
  {
    if j > 0 { BigEndianByte(x / 256, n - 1, j - 1); }
  }

  method PackLimbs(l: array<Limb>) returns (v: Uint256)
    requires l.Length == 4
    ensures v == BigEndian(LimbsValue(l[..]), 32)
  {
    var bytes: seq<Byte> := [];
    for i := 0 to 4
      invariant bytes == BigEndian(LimbsValue(l[..i]), 8 * i)
    {
      ghost var done, digits := bytes, BigEndian(l[i], 8);
      for j := 8 downto 0
        invariant bytes == done + digits[..8 - j]
      {
        BigEndianByte(l[i], 8, j);
        hide BigEndian, ShiftRightBytes;
        assert digits[..8 - j] == digits[..7 - j] + [digits[7 - j]];
        bytes := bytes + [ShiftRightBytes(l[i], j) % 256];
      }
      assert digits[..8] == digits;
      assert l[..i + 1] == l[..i] + [l[i]];
      BigEndianAppend(LimbsValue(l[..i]), l[i], 8 * i);
    }
    assert l[..4] == l[..];
    v := bytes;
  }

  // The bytes of x * 2^64 + low are the bytes of x followed by the eight bytes of low.
  lemma BigEndianAppend(x: nat, low: Limb, n: nat)
    ensures BigEndian(x * LIMB + low, n + 8) == BigEndian(x, n) + BigEndian(low, 8)
  {
    LimbIsEightBytes();
    hide BigEndian, Pow256;
    BigEndianSplit(x, low, n, 8);
  }

  lemma {:induction false} BigEndianSplit(x: nat, low: nat, n: nat, k: nat)
    requires low < Pow256(k)
    ensures BigEndian(x * Pow256(k) + low, n + k) == BigEndian(x, n) + BigEndian(low, k)
  {
    if k == 0 {
    } else {
      var y := x * Pow256(k) + low;
      assert y == 256 * (x * Pow256(k - 1) + low / 256) + low % 256 by {
        Distribute(x, Pow256(k - 1), low / 256, low % 256);
      }
      BigEndianSplit(x, low / 256, n, k - 1);
    }
  }

  method ParseTokenId(s: string) returns (r: Result<Uint256, ParseError>)
    ensures r == Parse(s)
  {
    hide LimbsValue, BigEndian, Scan, DigitValue;
    if s == "" { return Failure(Empty); }
    var l := ZeroLimbs();
    ScanNothing(s);
    for n := 0 to |s|
      invariant Scan(s, n) == Success(LimbsValue(l[..]))
    {
      ghost var v := LimbsValue(l[..]);
      if !IsDigit(s[n]) {
        ScanNonDigit(s, n, v);
        ScanFails(s, n + 1, |s|);
        return Failure(NonDecimal);
      }
      var carry := TimesTenPlus(l, DigitValue(s[n]));
      LimbsBound(l[..]);
      ScanDigit(s, n, v, LimbsValue(l[..]), carry);
      if carry != 0 {
        ScanFails(s, n + 1, |s|);
        return Failure(ExceedsUint256);
      }
    }
    var v := PackLimbs(l);
    r := Success(v);
  }

  lemma ScanNothing(s: string)
    ensures Scan(s, 0) == Success(0)
  {
  }

  lemma ScanNonDigit(s: string, n: nat, v: nat)
    requires n < |s| && Scan(s, n) == Success(v) && !IsDigit(s[n])
    ensures Scan(s, n + 1) == Failure(NonDecimal)
  {
  }

  // A carry out of the top limb is the overflow test.
  lemma ScanDigit(s: string, n: nat, v: nat, next: nat, carry: nat)
    requires n < |s| && Scan(s, n) == Success(v) && IsDigit(s[n])
    requires next < UINT256 && next + carry * UINT256 == v * 10 + DigitValue(s[n])
    ensures Scan(s, n + 1) == if carry == 0 then Success(next) else Failure(ExceedsUint256)
  {
    hide IsDigit, DigitValue;
    CarryDecides(v * 10 + DigitValue(s[n]), next, carry);
    ScanUnfolds(s, n);
    hide Scan;
  }

  lemma ScanUnfolds(s: string, n: nat)
    requires n < |s| && Scan(s, n).Success? && IsDigit(s[n])
    ensures Scan(s, n + 1) == var total := Scan(s, n).value * 10 + DigitValue(s[n]);
                              if total >= UINT256 then Failure(ExceedsUint256) else Success(total)
  {
    hide IsDigit, DigitValue;
  }

  lemma CarryDecides(total: nat, next: nat, carry: nat)
    requires next < UINT256 && next + carry * UINT256 == total
    ensures carry == 0 ==> total == next
    ensures carry > 0 ==> total >= UINT256
  {
  }

  method ZeroLimbs() returns (l: array<Limb>)
    ensures fresh(l) && l.Length == 4 && LimbsValue(l[..]) == 0
  {
    l := new Limb[4](_ => 0);
    LimbsZero(l[..]);
  }

  lemma {:induction false} ScanFails(s: string, m: nat, n: nat)
    requires m <= n <= |s| && Scan(s, m).Failure?
    ensures Scan(s, n) == Scan(s, m)
  {
    if m < n { ScanFails(s, m, n - 1); }
  }

  lemma LimbsBound(l: seq<Limb>)
    requires |l| == 4
    ensures LimbsValue(l) < UINT256
  {
    LowValueIsValue(l);
  }

  // ---- What the parser accepts, and the round trips ------------------------------------------

  lemma {:induction false} ScanIsValue(s: string, n: nat)
    requires n <= |s|
    ensures Scan(s, n).Success? <==> AllDigits(s[..n]) && DecimalValue(s[..n]) < UINT256
    ensures Scan(s, n).Success? ==> Scan(s, n).value == DecimalValue(s[..n])
  {
    if n > 0 {
      ScanIsValue(s, n - 1);
      assert s[..n][..n - 1] == s[..n - 1];
      assert s[..n] == s[..n - 1] + [s[n - 1]];
      if AllDigits(s[..n]) {
        assert s[..n][n - 1] == s[n - 1];
        assert AllDigits(s[..n - 1]);
      }
    }
  }

  // Parsing fails exactly on the empty string, a non-digit or a value of 2^256 or more.
  lemma ParseSucceedsIff(s: string)
    ensures Parse(s).Success? <==> s != "" && AllDigits(s) && DecimalValue(s) < UINT256
    ensures Parse(s).Success? ==> BytesValue(Parse(s).value) == DecimalValue(s)
  {
    ScanIsValue(s, |s|);
    assert s[..|s|] == s;
    if Parse(s).Success? {
      LimbIsEightBytes();
      BigEndianValue(DecimalValue(s), 32);
    }
  }

  // The reported error is the first one met: everything before it is an acceptable prefix.
  lemma {:induction false} ScanReportsFirstFault(s: string, n: nat) returns (i: nat)
    requires n <= |s| && Scan(s, n).Failure?
    ensures i < n && AllDigits(s[..i]) && DecimalValue(s[..i]) < UINT256
    ensures Scan(s, n).error == NonDecimal <==> !IsDigit(s[i])
    ensures Scan(s, n).error == ExceedsUint256 <==>
            AllDigits(s[..i + 1]) && DecimalValue(s[..i + 1]) >= UINT256
  {
    if Scan(s, n - 1).Failure? {
      i := ScanReportsFirstFault(s, n - 1);
    } else {
      i := n - 1;
      ScanIsValue(s, n - 1);
      assert s[..n][..n - 1] == s[..n - 1] && s[..n][n - 1] == s[n - 1];
    }
  }

  lemma {:induction false} DigitsValue(n: nat)
    ensures DecimalValue(Digits(n)) == n
  {
    if n > 0 {
      DigitsValue(n / 10);
      var s := Digits(n);
      assert s[..|s| - 1] == Digits(n / 10);
    }
  }

  lemma DecimalValueOfDecimal(n: nat)
    ensures DecimalValue(Decimal(n)) == n
  {
    DigitsValue(n);
    assert "0"[..0] == "";
    assert DecimalValue("0") == DecimalValue("0"[..0]) * 10 + DigitValue('0');
  }

  lemma PrintThenParse(v: Uint256)
    ensures Parse(Decimal(BytesValue(v))) == Success(v)
  {
    var n := BytesValue(v);
    BytesBound(v);
    LimbIsEightBytes();
    DecimalValueOfDecimal(n);
    ParseSucceedsIff(Decimal(n));
    BigEndianOfValue(v);
    BigEndianOfValue(Parse(Decimal(n)).value);
  }

  // s without its leading zeros, keeping a last one.
  function Canonical(s: string): string
    requires s != ""
  {
    if |s| > 1 && s[0] == '0' then Canonical(s[1..]) else s
  }

  lemma {:induction false} LeadingZero(s: string)
    requires AllDigits(s) && s != "" && s[0] == '0'
    ensures AllDigits(s[1..]) && DecimalValue(s) == DecimalValue(s[1..])
  {
    if |s| > 1 {
      var front := s[..|s| - 1];
      LeadingZero(front);
      assert s[1..][..|s[1..]| - 1] == front[1..];
    } else {
      assert s[..0] == "";
    }
  }

  lemma {:induction false} DigitsOfCanonical(s: string)
    requires AllDigits(s) && s != "" && s[0] != '0'
    ensures DecimalValue(s) > 0 && Digits(DecimalValue(s)) == s
  {
    hide Digits, DecimalValue;
    var front, last := s[..|s| - 1], s[|s| - 1];
    assert s == front + [last];
    if front == "" {
      OneDigit(last);
      assert s == [last];
    } else {
      DigitsOfCanonical(front);
      DigitsOfLonger(front, last);
    }
  }

  lemma DigitsOfLonger(front: string, last: char)
    requires AllDigits(front) && AllDigits(front + [last])
    requires DecimalValue(front) > 0 && Digits(DecimalValue(front)) == front
    ensures DecimalValue(front + [last]) > 0 && Digits(DecimalValue(front + [last])) == front + [last]
  {
    hide Digits, Digit, DigitValue, IsDigit, DecimalValue, AllDigits;
    DecimalAppend(front, last);
    DigitBack(last);
    DigitsStep(DecimalValue(front + [last]), DecimalValue(front), DigitValue(last));
  }

  lemma DecimalAppend(s: string, c: char)
    requires AllDigits(s) && AllDigits(s + [c])
    ensures IsDigit(c) && DecimalValue(s + [c]) == DecimalValue(s) * 10 + DigitValue(c)
  {
    assert (s + [c])[|s|] == c;
    assert (s + [c])[..|s|] == s;
  }

  lemma DigitBack(c: char)
    requires IsDigit(c)
    ensures Digit(DigitValue(c)) == c
  {
  }

  lemma OneDigit(c: char)
    requires IsDigit(c) && c != '0'
    ensures DecimalValue([c]) == DigitValue(c) > 0 && Digits(DigitValue(c)) == [c]
  {
    assert [c][..0] == "";
    DigitBack(c);
    DigitsStep(DigitValue(c), 0, DigitValue(c));
  }

  lemma {:induction false} ParseThenPrint(s: string)
    requires s != "" && AllDigits(s)
    ensures Decimal(DecimalValue(s)) == Canonical(s)
  {
    if s[0] != '0' {
      DigitsOfCanonical(s);
    } else {
      LeadingZero(s);
      if |s| > 1 { ParseThenPrint(s[1..]); } else { assert s == "0" && s[1..] == ""; }
    }
  }

  // Every printed value fits the 78 characters the printer reserves.
  lemma PrintedLength(v: Uint256)
    ensures |Decimal(BytesValue(v))| <= 78
  {
    BytesBound(v);
    LimbIsEightBytes();
    TenToThe78();
    DigitsLength(BytesValue(v), 78);
  }

  function Pow10(n: nat): (p: nat)
    ensures p > 0
  {
    if n == 0 then 1 else 10 * Pow10(n - 1)
  }

  lemma TenToThe78()
    ensures UINT256 <= Pow10(78)
  {
    assert Pow10(13) == 1_00000_00000_000;
    Pow10Add(13, 13);
    Pow10Add(26, 13);
    Pow10Add(39, 39);
  }

  lemma {:induction false} Pow10Add(m: nat, n: nat)
    ensures Pow10(m + n) == Pow10(m) * Pow10(n)
  {
    if m == 0 {
      assert Pow10(0) == 1;
    } else {
      Pow10Add(m - 1, n);
      var a, b := Pow10(m - 1), Pow10(n);
      assert Pow10(m) == 10 * a && Pow10(m + n) == 10 * Pow10(m + n - 1);
      hide Pow10;
      TenTimes(a, b);
      assert m + n - 1 == m - 1 + n;
    }
  }

  lemma TenTimes(p: nat, q: nat)
    ensures 10 * (p * q) == (10 * p) * q
  {
  }

  lemma {:induction false} DigitsLength(n: nat, k: nat)
    requires n < Pow10(k)
    ensures |Digits(n)| <= k
  {
    if n > 0 { DigitsLength(n / 10, k - 1); }
  }
}
