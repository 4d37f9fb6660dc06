/** Products and quotients of natural numbers, for the integer arithmetic of the firmware. */
module Arith {
  function Times(a: nat, b: nat): nat {
    a * b
  }

  function Quotient(a: nat, b: nat): nat
    requires b > 0
  {
    a / b
  }

  lemma TimesPositive(a: nat, b: nat)
    requires a > 0 && b > 0
    ensures Times(a, b) > 0
  {
  }

  lemma MonoTimes(a: nat, b: nat, c: nat)
    requires a <= b
    ensures a * c <= b * c
  {
  }

  lemma TimesMono(m: nat, a: nat, b: nat)
    requires a <= b
    ensures Times(m, a) <= Times(m, b) && Times(a, m) <= Times(b, m)
  {
    MonoTimes(a, b, m);
  }

  lemma TimesPlus(a: nat, b: nat, c: nat)
    ensures Times(a, b + c) == Times(a, b) + Times(a, c)
    ensures Times(b + c, a) == Times(b, a) + Times(c, a)
    ensures Times(a, 1) == a && Times(1, a) == a && Times(a, 0) == 0 && Times(a, b) == Times(b, a)
  {
  }

  lemma QuotientTimes(a: nat, b: nat)
    requires b > 0
    ensures Times(Quotient(a, b), b) <= a < Times(Quotient(a, b) + 1, b)
  {
    var q, r := a / b, a % b;
    assert a == b * q + r;
    assert (q + 1) * b == b * q + b;
  }

  /** A quotient is the one number with a remainder in range. */
  lemma QuotientIff(a: nat, b: nat, q: nat)
    requires b > 0
    ensures q == Quotient(a, b) <==> q * b <= a < (q + 1) * b
  {
    hide Quotient;
    QuotientTimes(a, b);
    if q * b <= a < (q + 1) * b {
      if q < Quotient(a, b) {
        MonoTimes(q + 1, Quotient(a, b), b);
      } else if Quotient(a, b) < q {
        MonoTimes(Quotient(a, b) + 1, q, b);
      }
    }
  }

  /** A multiple whose factor is `r` in eight bits. */
  lemma RatioOf(n: nat, s: nat, r: nat, i: nat)
    requires s > 0 && r < 256 && n == (256 * i + r) * s
    ensures n % s == 0 && n / s % 256 == r
  {
    var k := 256 * i + r;
    assert n == s * k;
    assert n / s == k && n % s == 0 by {
      QuotientIff(n, s, k);
      assert n == s * (n / s) + n % s;
    }
  }

  lemma RatioBack(n: nat, s: nat, r: nat)
    requires s > 0 && n % s == 0 && n / s % 256 == r
    ensures n == (256 * (n / s / 256) + r) * s
  {
    var k := n / s;
    assert k == 256 * (k / 256) + r;
    assert n == s * k;
  }

  lemma DivideLarge(a: nat, b: nat, q: nat)
    requires b > 0 && a >= Times(q, b)
    ensures Quotient(a, b) >= q
  {
    hide Times, Quotient;
    QuotientTimes(a, b);
    if Quotient(a, b) < q {
      TimesMono(b, Quotient(a, b) + 1, q);
    }
  }

  lemma DivideSmall(a: nat, b: nat, q: nat)
    requires b > 0 && a < Times(q, b)
    ensures Quotient(a, b) < q
  {
    hide Times, Quotient;
    QuotientTimes(a, b);
    if q <= Quotient(a, b) {
      TimesMono(b, q, Quotient(a, b));
    }
  }

  lemma DivideMore(x: nat, d: nat, e: nat)
    requires 0 < d <= e
    ensures Quotient(x, e) <= Quotient(x, d)
  {
    hide Times, Quotient;
    QuotientTimes(x, e);
    TimesMono(Quotient(x, e), d, e);
    DivideLarge(x, d, Quotient(x, e));
  }

  lemma QuotientAtMost(x: nat, d: nat)
    requires d > 0
    ensures Quotient(x, d) <= x
  {
    DivideMore(x, 1, d);
  }
}
