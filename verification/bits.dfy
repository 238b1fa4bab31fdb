/** Python's unbounded integer bit operations (`<<`, `>>`, `&`, `|`) on
    non-negative integers, with the facts about single bits that the
    interleaver's proof needs. */
module Bits {

  function Pow2(n: nat): (r: nat)
    ensures r >= 1
  {
    if n == 0 then 1 else 2 * Pow2(n - 1)
  }

  /** `k * x` by repeated addition. Sizes are stated with it so that the
      facts that unfold them stay linear; `TimesIsProduct` gives the product. */
  function Times(k: int, x: int): int
    decreases k
  {
    if k <= 0 then 0 else x + Times(k - 1, x)
  }

  lemma {:induction false} TimesIsProduct(k: nat, x: int)
    ensures Times(k, x) == k * x
    decreases k
  {
    if k > 0 {
      TimesIsProduct(k - 1, x);
      assert k * x == x + (k - 1) * x;
    }
  }

  /** `(k + 1) * b == b + k * b`. */
  lemma MulSucc(k: int, b: int)
    ensures (k + 1) * b == b + k * b
  {
  }

  /** Floor division is determined by its bounds. */
  lemma DivUnique(n: int, b: int, q: int)
    requires b > 0 && q * b <= n < q * b + b
    ensures n / b == q
  {
    var d := n / b - q;
    assert n == (n / b) * b + n % b;
    assert d * b == (n / b) * b - q * b;
  }

  /** `(a * b) / b == a` */
  lemma DivCancel(a: nat, b: nat)
    requires b > 0
    ensures (a * b) / b == a && (a * b) % b == 0
  {
    DivUnique(a * b, b, a);
  }

  /** Bit `p` of `x`, counted from the least significant bit. */
  function Bit(x: nat, p: nat): nat
  {
    if p == 0 then x % 2 else Bit(x / 2, p - 1)
  }

  /** `a << n` */
  function ShiftLeft(a: nat, n: nat): nat
  {
    a * Pow2(n)
  }

  /** `a >> n` */
  function ShiftRight(a: nat, n: nat): nat
  {
    if n == 0 then a else ShiftRight(a / 2, n - 1)
  }

  /** `a & b` */
  function And(a: nat, b: nat): nat
    decreases a
  {
    if a == 0 || b == 0 then 0 else 2 * And(a / 2, b / 2) + (if a % 2 == 1 && b % 2 == 1 then 1 else 0)
  }

  /** `a | b` */
  function Or(a: nat, b: nat): nat
    decreases a + b
  {
    if a == 0 then b
    else if b == 0 then a
    else 2 * Or(a / 2, b / 2) + (if a % 2 == 1 || b % 2 == 1 then 1 else 0)
  }

  lemma {:induction false} BitIsBinary(x: nat, p: nat)
    ensures Bit(x, p) == 0 || Bit(x, p) == 1
    decreases p
  {
    if p > 0 {
      BitIsBinary(x / 2, p - 1);
    }
  }

  lemma {:induction false} BitOfZero(p: nat)
    ensures Bit(0, p) == 0
    decreases p
  {
    if p > 0 {
      BitOfZero(p - 1);
    }
  }

  /** Every bit at or above position `n` of a number below `2^n` is clear. */
  lemma {:induction false} BitAboveBound(x: nat, n: nat, p: nat)
    requires x < Pow2(n) && n <= p
    ensures Bit(x, p) == 0
    decreases n
  {
    if n == 0 {
      BitOfZero(p);
    } else {
      BitAboveBound(x / 2, n - 1, p - 1);
    }
  }

  /** A bit of `a & b` is set exactly when it is set in both. */
  lemma {:induction false} BitOfAnd(a: nat, b: nat, p: nat)
    ensures Bit(And(a, b), p) == (if Bit(a, p) == 1 && Bit(b, p) == 1 then 1 else 0)
    decreases a, p
  {
    BitIsBinary(a, p);
    BitIsBinary(b, p);
    if a == 0 || b == 0 {
      BitOfZero(p);
    } else if p > 0 {
      BitOfAnd(a / 2, b / 2, p - 1);
    }
  }

  /** A bit of `a | b` is set exactly when it is set in either. */
  lemma {:induction false} BitOfOr(a: nat, b: nat, p: nat)
    ensures Bit(Or(a, b), p) == (if Bit(a, p) == 1 || Bit(b, p) == 1 then 1 else 0)
    decreases a + b, p
  {
    BitIsBinary(a, p);
    BitIsBinary(b, p);
    if a == 0 {
      BitOfZero(p);
    } else if b == 0 {
      BitOfZero(p);
    } else if p > 0 {
      BitOfOr(a / 2, b / 2, p - 1);
    }
  }

  /** `a >> n` moves bit `p + n` down to position `p`. */
  lemma {:induction false} BitOfShiftRight(a: nat, n: nat, p: nat)
    ensures Bit(ShiftRight(a, n), p) == Bit(a, p + n)
    decreases n
  {
    if n > 0 {
      BitOfShiftRight(a / 2, n - 1, p);
    }
  }

  /** Numbers below `2^n` that agree on their low `n` bits are equal. */
  lemma {:induction false} BitsDetermine(a: nat, b: nat, n: nat)
    requires a < Pow2(n) && b < Pow2(n)
    requires forall p :: 0 <= p < n ==> Bit(a, p) == Bit(b, p)
    ensures a == b
    decreases n
  {
    if n > 0 {
      assert Bit(a, 0) == Bit(b, 0);
      forall p | 0 <= p < n - 1
        ensures Bit(a / 2, p) == Bit(b / 2, p)
      {
        assert Bit(a, p + 1) == Bit(b, p + 1);
      }
      BitsDetermine(a / 2, b / 2, n - 1);
    }
  }

  /** Placing `b` above a number `a` of `k` bits: the low `k` bits are `a`'s,
      the rest are `b`'s. */
  lemma {:induction false} BitOfPlaced(a: nat, b: nat, k: nat, q: nat)
    requires a < Pow2(k)
    ensures Bit(a + Pow2(k) * b, q) == if q < k then Bit(a, q) else Bit(b, q - k)
    decreases k
  {
    if k > 0 {
      var c := Pow2(k - 1) * b;
      assert Pow2(k) * b == 2 * c;
      var x := a + 2 * c;
      assert x % 2 == a % 2;
      assert x / 2 == a / 2 + c;
      if q > 0 {
        BitOfPlaced(a / 2, b, k - 1, q - 1);
      }
    }
  }

  /** `(1 << p) & s` keeps only bit `p` of `s`. */
  lemma {:induction false} AndSingleBit(p: nat, s: nat)
    ensures And(ShiftLeft(1, p), s) == if Bit(s, p) == 1 then Pow2(p) else 0
    decreases p
  {
    assert ShiftLeft(1, p) == Pow2(p);
    if s == 0 {
      BitOfZero(p);
    } else if p > 0 {
      AndSingleBit(p - 1, s / 2);
      assert ShiftLeft(1, p - 1) == Pow2(p - 1);
    }
  }

  /** `(1 << (k + d)) >> d == 1 << k` */
  lemma {:induction false} ShiftRightPow2(k: nat, d: nat)
    ensures ShiftRight(Pow2(k + d), d) == Pow2(k)
    decreases d
  {
    if d > 0 {
      ShiftRightPow2(k, d - 1);
    }
  }

  lemma {:induction false} ShiftRightZero(d: nat)
    ensures ShiftRight(0, d) == 0
    decreases d
  {
    if d > 0 {
      ShiftRightZero(d - 1);
    }
  }

  lemma OrWithZero(a: nat)
    ensures Or(a, 0) == a
  {
  }

  /** OR-ing a bit in above every set bit of `a` adds it. */
  lemma {:induction false} OrAbove(a: nat, k: nat)
    requires a < Pow2(k)
    ensures Or(a, Pow2(k)) == a + Pow2(k)
    decreases k
  {
    if k > 0 && a != 0 {
      OrAbove(a / 2, k - 1);
    }
  }

  lemma {:induction false} Pow2Add(a: nat, b: nat)
    ensures Pow2(a + b) == Pow2(a) * Pow2(b)
    decreases a
  {
    if a > 0 {
      Pow2Add(a - 1, b);
    }
  }
}
