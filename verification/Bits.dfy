/** Bitwise operators on the non-negative integers, given by their binary digits.

    The framework's queue, id generator and codecs are written with `&`, `|`, `^`, `<<` and `>>`.
    Here those operators are defined digit by digit, and the lemmas say what each idiom of the
    framework (mask, disjoint OR, power-of-two test, accumulated XOR) means as arithmetic. */
module Bits {

  function Pow2(k: nat): (p: nat)
    ensures p >= 1
  {
    if k == 0 then 1 else 2 * Pow2(k - 1)
  }

  function And(a: nat, b: nat): nat
  {
    if a == 0 || b == 0 then 0
    else (if a % 2 == 1 && b % 2 == 1 then 1 else 0) + 2 * And(a / 2, b / 2)
  }

  function Or(a: nat, b: nat): nat
  {
    if a == 0 then b else if b == 0 then a
    else (if a % 2 == 1 || b % 2 == 1 then 1 else 0) + 2 * Or(a / 2, b / 2)
  }

  function Xor(a: nat, b: nat): nat
  {
    if a == 0 then b else if b == 0 then a
    else (if a % 2 != b % 2 then 1 else 0) + 2 * Xor(a / 2, b / 2)
  }

  function Shl(a: nat, k: nat): nat { a * Pow2(k) }

  function Shr(a: nat, k: nat): nat
  {
    QuotientNonNegative(a, Pow2(k));
    a / Pow2(k)
  }

  /** The digit of weight 2^i. */
  predicate Bit(a: nat, i: nat)
  {
    if i == 0 then a % 2 == 1 else Bit(a / 2, i - 1)
  }

  lemma {:induction false} BitOfZero(i: nat)
    ensures !Bit(0, i)
  {
    if i > 0 { BitOfZero(i - 1); }
  }

  lemma {:induction false} AndDigit(a: nat, b: nat, i: nat)
    ensures Bit(And(a, b), i) == (Bit(a, i) && Bit(b, i))
    decreases i
  {
    BitOfZero(i);
    if i > 0 && a != 0 && b != 0 {
      AndDigit(a / 2, b / 2, i - 1);
      assert And(a, b) / 2 == And(a / 2, b / 2);
    }
  }

  lemma {:induction false} OrDigit(a: nat, b: nat, i: nat)
    ensures Bit(Or(a, b), i) == (Bit(a, i) || Bit(b, i))
    decreases i
  {
    BitOfZero(i);
    if i > 0 && a != 0 && b != 0 {
      OrDigit(a / 2, b / 2, i - 1);
      assert Or(a, b) / 2 == Or(a / 2, b / 2);
    }
  }

  lemma {:induction false} XorDigit(a: nat, b: nat, i: nat)
    ensures Bit(Xor(a, b), i) == (Bit(a, i) != Bit(b, i))
    decreases i
  {
    BitOfZero(i);
    if i > 0 && a != 0 && b != 0 {
      XorDigit(a / 2, b / 2, i - 1);
      assert Xor(a, b) / 2 == Xor(a / 2, b / 2);
    }
  }

  /** The three operators act digit by digit. */
  lemma BitwiseMeaning(a: nat, b: nat, i: nat)
    ensures Bit(And(a, b), i) == (Bit(a, i) && Bit(b, i))
    ensures Bit(Or(a, b), i) == (Bit(a, i) || Bit(b, i))
    ensures Bit(Xor(a, b), i) == (Bit(a, i) != Bit(b, i))
  {
    AndDigit(a, b, i);
    OrDigit(a, b, i);
    XorDigit(a, b, i);
  }

  lemma QuotientNonNegative(a: nat, m: nat)
    requires m > 0
    ensures a / m >= 0
  {
    var q, r := a / m, a % m;
    assert a == q * m + r;
    if q < 0 { MulMonotone(q, -1, m); }
  }

  // ---- Arithmetic helpers -------------------------------------------------------------------

  lemma {:induction false} Pow2Add(j: nat, k: nat)
    ensures Pow2(j + k) == Pow2(j) * Pow2(k)
  {
    if j > 0 {
      Pow2Add(j - 1, k);
      assert Pow2(j + k) == 2 * Pow2(j - 1 + k) == 2 * (Pow2(j - 1) * Pow2(k));
    }
  }

  lemma {:induction false} Pow2Monotone(j: nat, k: nat)
    requires j < k
    ensures Pow2(j) < Pow2(k)
  {
    if j + 1 < k { Pow2Monotone(j, k - 1); }
  }

  /** Division and remainder are determined by a decomposition. */
  lemma DivModUnique(x: int, m: int, q: int, r: int)
    requires m > 0 && 0 <= r < m && x == q * m + r
    ensures x / m == q && x % m == r
  {
    var q', r' := x / m, x % m;
    assert x == q' * m + r';
    if q' < q { MulMonotone(q' + 1, q, m); }
    if q < q' { MulMonotone(q + 1, q', m); }
  }

  lemma MulMonotone(a: int, b: int, m: int)
    requires a <= b && m >= 0
    ensures a * m <= b * m
  {
    assert (b - a) * m >= 0;
  }

  // ---- What the idioms mean -----------------------------------------------------------------

  lemma MulDouble(q: int, h: int)
    ensures q * (2 * h) == 2 * (q * h)
  {
  }

  /** Halving steps through the binary digits of a remainder. */
  lemma ModStep(x: nat, h: nat, d: nat)
    requires h > 0 && d == 2 * h
    ensures x % d == 2 * ((x / 2) % h) + x % 2
  {
    var y := x / 2;
    var q, r := y / h, y % h;
    assert y == q * h + r;
    MulDouble(q, h);
    DivModUnique(x, d, q, 2 * r + x % 2);
  }

  /** `x & (2^k - 1)` is the remainder modulo 2^k. */
  lemma AndMask(x: nat, k: nat)
    ensures And(x, Pow2(k) - 1) == x % Pow2(k)
  {
    AndMaskOf(x, k, Pow2(k), Pow2(k) - 1);
  }

  lemma {:induction false} AndMaskOf(x: nat, k: nat, p: nat, mask: nat)
    requires p == Pow2(k) && mask == p - 1
    ensures And(x, mask) == x % p
    decreases k
  {
    if k == 0 {
      assert p == 1 && mask == 0;
    } else {
      var h := Pow2(k - 1);
      AndMaskOf(x / 2, k - 1, h, h - 1);
      AndOdd(x, h - 1, mask);
      ModStep(x, h, p);
    }
  }

  /** The lowest digit of an odd operand passes through. */
  lemma AndOdd(x: nat, m: nat, odd: nat)
    requires odd == 2 * m + 1
    ensures And(x, odd) == x % 2 + 2 * And(x / 2, m)
  {
    assert odd / 2 == m && odd % 2 == 1;
  }

  /** OR-ing a value shifted past the width of the other operand adds them. */
  lemma {:induction false} OrDisjoint(hi: nat, lo: nat, k: nat)
    requires lo < Pow2(k)
    ensures Or(Shl(hi, k), lo) == hi * Pow2(k) + lo
    decreases k
  {
    if k == 0 {
      assert lo == 0;
    } else {
      var h := Pow2(k - 1);
      OrDisjoint(hi, lo / 2, k - 1);
      MulDouble(hi, h);
      assert Shl(hi, k - 1) == hi * h && Shl(hi, k) == 2 * (hi * h);
      OrEven(hi * h, lo);
    }
  }

  /** The lowest digit of an even operand does not disturb the other's. */
  lemma OrEven(m: nat, lo: nat)
    ensures Or(2 * m, lo) == lo % 2 + 2 * Or(m, lo / 2)
  {
    assert (2 * m) / 2 == m && (2 * m) % 2 == 0;
  }

  lemma {:induction false} OrBelow(a: nat, b: nat, k: nat)
    requires a < Pow2(k) && b < Pow2(k)
    ensures Or(a, b) < Pow2(k)
    decreases k
  {
    if k > 0 && a > 0 && b > 0 { OrBelow(a / 2, b / 2, k - 1); }
  }

  lemma {:induction false} XorBelow(a: nat, b: nat, k: nat)
    requires a < Pow2(k) && b < Pow2(k)
    ensures Xor(a, b) < Pow2(k)
    decreases k
  {
    if k > 0 && a > 0 && b > 0 { XorBelow(a / 2, b / 2, k - 1); }
  }

  lemma {:induction false} OrZero(a: nat, b: nat)
    ensures Or(a, b) == 0 <==> a == 0 && b == 0
    decreases a
  {
    if a > 0 && b > 0 { OrZero(a / 2, b / 2); }
  }

  lemma {:induction false} XorZero(a: nat, b: nat)
    ensures Xor(a, b) == 0 <==> a == b
    decreases a
  {
    if a > 0 && b > 0 { XorZero(a / 2, b / 2); }
  }

  lemma {:induction false} AndSelf(a: nat)
    ensures And(a, a) == a
  {
    if a > 0 { AndSelf(a / 2); }
  }

  ghost predicate IsPow2(n: nat) { exists k: nat :: n == Pow2(k) }

  /** `n & (n - 1)` clears the lowest set digit, so it is 0 exactly for the powers of two. */
  lemma {:induction false} AndPredecessor(n: nat)
    requires n > 0
    ensures And(n, n - 1) == 0 <==> IsPow2(n)
  {
    if n == 1 {
      assert n == Pow2(0);
    } else if n % 2 == 1 {
      assert (n - 1) / 2 == n / 2;
      AndSelf(n / 2);
      forall k: nat ensures n != Pow2(k) {
        if k > 0 { assert Pow2(k) % 2 == 0; }
      }
    } else {
      assert (n - 1) / 2 == n / 2 - 1;
      AndPredecessor(n / 2);
      if IsPow2(n / 2) {
        var k: nat :| n / 2 == Pow2(k);
        assert n == Pow2(k + 1);
      }
      if IsPow2(n) {
        var k: nat :| n == Pow2(k);
        assert k > 0 && n / 2 == Pow2(k - 1);
      }
    }
  }
}
