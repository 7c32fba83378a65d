/** Power-of-two index masks: x & (n - 1) picks slot x mod n, and slots less than n apart differ. */
module BitMask {

  function Pow2(k: nat): (p: nat)
    ensures p > 0
  {
    if k == 0 then 1 else 2 * Pow2(k - 1)
  }

  // Bitwise and, bit by bit from the least significant.
  function And(a: nat, b: nat): nat {
    if b == 0 then 0 else a % 2 * (b % 2) + 2 * And(a / 2, b / 2)
  }

  // An all-ones mask keeps the low bit and the same mask, one bit shorter, of the rest.
  lemma OddMask(x: nat, half: nat)
    requires half > 0
    ensures And(x, 2 * half - 1) == x % 2 + 2 * And(x / 2, half - 1)
  {
    var mask := 2 * half - 1;
    assert mask % 2 == 1 && mask / 2 == half - 1;
  }

  lemma {:induction false} MaskIsMod(x: nat, k: nat)
    ensures And(x, Pow2(k) - 1) == x % Pow2(k)
  {
    hide And;
    if k == 0 {
      NoMask(x);
    } else {
      MaskIsMod(x / 2, k - 1);
      var half, n := Pow2(k - 1), Pow2(k);
      hide Pow2;
      MaskStep(x, half, n);
    }
  }

  lemma NoMask(x: nat)
    ensures Pow2(0) == 1 && And(x, 0) == 0 == x % 1
  {
  }

  lemma MaskStep(x: nat, half: nat, n: nat)
    requires half > 0 && n == 2 * half && And(x / 2, half - 1) == x / 2 % half
    ensures And(x, n - 1) == x % n
  {
    hide And;
    OddMask(x, half);
    HalfMod(x, half);
  }

  lemma HalfMod(x: nat, half: nat)
    requires half > 0
    ensures x % (2 * half) == x % 2 + 2 * (x / 2 % half)
  {
    var q, r := x / 2 / half, x / 2 % half;
    assert x / 2 == half * q + r;
    assert x == 2 * half * q + (x % 2 + 2 * r);
    ModUnique(x, 2 * half, q, x % 2 + 2 * r);
  }

  lemma MultipleAtLeast(n: nat, d: int)
    requires d >= 1
    ensures n * d >= n
  {
  }

  lemma MultipleBelow(n: nat, d: int, x: int)
    requires x == n * d && x < n && -x < n
    ensures d == 0
  {
    if d >= 1 {
      MultipleAtLeast(n, d);
    } else if d <= -1 {
      MultipleAtLeast(n, -d);
    }
  }

  lemma ModUnique(x: int, n: nat, q: int, r: nat)
    requires x == n * q + r && r < n
    ensures x % n == r && x / n == q
  {
    var d := q - x / n;
    assert x == n * (x / n) + x % n;
    assert n * q - n * (x / n) == n * d;
    MultipleBelow(n, d, x % n - r);
  }

  lemma {:induction false} Pow2Add(j: nat, k: nat)
    ensures Pow2(j + k) == Pow2(j) * Pow2(k)
  {
    if j == 0 {
      assert Pow2(0) == 1;
    } else {
      Pow2Add(j - 1, k);
      var a, b := Pow2(j - 1), Pow2(k);
      assert Pow2(j) == 2 * a && Pow2(j + k) == 2 * Pow2(j + k - 1);
      hide Pow2;
      Doubled(a, b);
      assert j + k - 1 == j - 1 + k;
    }
  }

  lemma Doubled(a: nat, b: nat)
    ensures 2 * (a * b) == (2 * a) * b
  {
  }

  // Wrapping modulo a multiple of n keeps the slot.
  lemma ModOfMod(x: nat, n: nat, m: nat)
    requires n > 0 && m > 0
    ensures x % (n * m) % n == x % n
  {
    var q, r := x / (n * m), x % (n * m);
    assert r == n * (r / n) + r % n;
    assert x == n * (m * q + r / n) + r % n;
    ModUnique(x, n, m * q + r / n, r % n);
  }

  lemma SlotsDiffer(i: nat, j: nat, n: nat)
    requires i < j < i + n
    ensures i % n != j % n
  {
    var d := j / n - i / n;
    assert i == n * (i / n) + i % n && j == n * (j / n) + j % n;
    assert n * (j / n) - n * (i / n) == n * d;
    if i % n == j % n {
      MultipleBelow(n, d, j - i);
      assert false;
    }
  }
}
