/** Divisibility and primes, as far as trial division needs them. */
module Divisors {
  import opened Bits

  ghost predicate Prime(p: nat) {
    p >= 2 && NoDivisor(p, p)
  }

  /** n has no divisor from 2 up to but excluding f. */
  ghost predicate NoDivisor(n: nat, f: nat) {
    forall d :: 2 <= d < f ==> n % d != 0
  }

  lemma {:induction false} DivisorOf(d: nat, n: nat) returns (q: nat)
    requires d > 0 && n % d == 0
    ensures n == d * q && q == n / d
  {
    q := n / d;
    DivModParts(n, d);
  }

  lemma {:induction false} MultipleMod(d: nat, q: nat)
    requires d > 0
    ensures (d * q) % d == 0
  {
    ModUnique(d * q, d, q, 0);
  }

  lemma {:induction false} DividesTrans(a: nat, b: nat, n: nat)
    requires a > 0 && b > 0 && b % a == 0 && n % b == 0
    ensures n % a == 0
  {
    var x := DivisorOf(a, b);
    var y := DivisorOf(b, n);
    assert n == a * (x * y) by {
      MulAssoc(a, x, y);
    }
    MultipleMod(a, x * y);
  }

  lemma {:induction false} MulAssoc(a: nat, b: nat, c: nat)
    ensures (a * b) * c == a * (b * c)
  {
  }

  /** The smallest divisor of a number is prime. */
  lemma {:induction false} SmallestIsPrime(n: nat, f: nat)
    requires f >= 2 && n % f == 0 && NoDivisor(n, f)
    ensures Prime(f)
  {
    forall d | 2 <= d < f
      ensures f % d != 0
    {
      if f % d == 0 {
        DividesTrans(d, f, n);
      }
    }
  }

  lemma {:induction false} QuotientNoDivisor(n: nat, f: nat, g: nat)
    requires f > 0 && n % f == 0 && NoDivisor(n, g)
    ensures NoDivisor(n / f, g)
  {
    var q := DivisorOf(f, n);
    forall d | 2 <= d < g
      ensures q % d != 0
    {
      if q % d == 0 {
        if q > 0 {
          QuotientDivides(f, q, n);
          DividesTrans(d, q, n);
        } else {
          MultipleMod(f, 0);
          assert n == 0;
          ZeroMod(d);
        }
      }
    }
  }

  lemma {:induction false} ZeroMod(d: nat)
    requires d > 0
    ensures 0 % d == 0
  {
  }

  lemma {:induction false} QuotientDivides(f: nat, q: nat, n: nat)
    requires n == f * q && q > 0
    ensures n % q == 0
  {
    assert q * f == f * q;
    MultipleMod(q, f);
  }

  /** A square root has no smaller divisors than its square. */
  lemma {:induction false} RootNoDivisor(s: nat, g: nat)
    requires s > 0 && NoDivisor(s * s, g)
    ensures NoDivisor(s, g)
  {
    forall d | 2 <= d < g
      ensures s % d != 0
    {
      if s % d == 0 {
        MultipleMod(s, s);
        DividesTrans(d, s, s * s);
      }
    }
  }

  /** Trial division may skip numbers that have a divisor among those already tried. */
  lemma {:induction false} SkipOver(n: nat, f: nat, g: nat)
    requires NoDivisor(n, f + 1) && f >= 2
    requires forall d :: f < d < g ==> HasDivisorUpTo(d, f)
    ensures NoDivisor(n, g)
  {
    forall d | 2 <= d < g
      ensures n % d != 0
    {
      if d > f && n % d == 0 {
        assert HasDivisorUpTo(d, f);
        var q :| 2 <= q <= f && d % q == 0;
        DividesTrans(q, d, n);
      }
    }
  }

  ghost predicate HasDivisorUpTo(d: nat, f: nat) {
    exists q :: 2 <= q <= f && d % q == 0
  }

  lemma {:induction false} ProductBound(a: nat, b: nat, s: nat)
    requires a > s && b > s
    ensures a * b >= (s + 1) * (s + 1)
  {
    MulMono(s + 1, s + 1, b);
    MulMono(b, s + 1, a);
  }

  /** A number without divisors up to its square root is prime; an even root need not be tried. */
  lemma {:induction false} NoSmallDivisor(n: nat, s: nat, f: nat)
    requires n >= 2 && n < (s + 1) * (s + 1) && f >= 2 && NoDivisor(n, f + 1)
    requires f >= s || (s % 2 == 0 && f >= s - 1)
    ensures Prime(n)
  {
    forall d | 2 <= d < n
      ensures n % d != 0
    {
      if n % d == 0 {
        var e := DivisorOf(d, n);
        var m := if d <= e then d else e;
        assert m >= 2 && n % m == 0 by {
          CofactorFacts(d, e, n);
        }
        if m > s {
          ProductBound(d, e, s);
        } else if m == s && s % 2 == 0 && f < s {
          DividesTrans(2, s, n);
        }
      }
    }
  }

  lemma {:induction false} CofactorFacts(d: nat, e: nat, n: nat)
    requires n == d * e && 2 <= d < n
    ensures e >= 2 && n % e == 0 && n % d == 0
  {
    MulMono(d, if e >= 2 then 0 else e, 1);
    if e > 0 {
      QuotientDivides(d, e, n);
      MultipleMod(d, e);
    }
  }

  // --- Powers and products ---

  function Power(b: nat, e: nat): nat {
    if e == 0 then 1 else b * Power(b, e - 1)
  }

  lemma {:induction false} Regroup(a: nat, b: nat, x: nat, y: nat)
    ensures (a * b) * (x * y) == (a * x) * (b * y)
  {
    calc {
      (a * b) * (x * y);
      { MulAssoc(a, b, x * y); }
      a * (b * (x * y));
      { MulAssoc(b, x, y); }
      a * ((b * x) * y);
      a * ((x * b) * y);
      { MulAssoc(x, b, y); }
      a * (x * (b * y));
      { MulAssoc(a, x, b * y); }
      (a * x) * (b * y);
    }
  }

  lemma {:induction false} PowerMul(a: nat, b: nat, e: nat)
    ensures Power(a * b, e) == Power(a, e) * Power(b, e)
  {
    if e > 0 {
      PowerMul(a, b, e - 1);
      Regroup(a, b, Power(a, e - 1), Power(b, e - 1));
    }
  }

  lemma {:induction false} PowerSquare(s: nat, e: nat)
    ensures Power(s * s, e) == Power(s, 2 * e)
  {
    if e > 0 {
      PowerSquare(s, e - 1);
      var x := Power(s, 2 * e - 2);
      assert Power(s, 2 * e) == s * Power(s, 2 * e - 1) == s * (s * x);
      MulAssoc(s, s, x);
    }
  }

  lemma {:induction false} PowerAtLeast(b: nat, e: nat)
    requires b >= 2
    ensures Power(b, e) >= Pow2(e)
  {
    if e > 0 {
      PowerAtLeast(b, e - 1);
      MulMono(Power(b, e - 1), 2, b);
    }
  }

  function Product(s: seq<nat>): nat {
    if s == [] then 1 else Product(s[..|s| - 1]) * s[|s| - 1]
  }

  lemma {:induction false} ProductAppend(s: seq<nat>, x: nat)
    ensures Product(s + [x]) == Product(s) * x
  {
    assert (s + [x])[..|s|] == s;
  }
}
