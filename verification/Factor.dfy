/** factorize: trial division along the wheel, with recursion on perfect squares. */
module Factor {
  import opened Bits
  import opened Divisors
  import opened LittleEndian
  import opened Wheel

  /** The integer square root. */
  ghost predicate IsRoot(s: nat, n: nat) {
    s * s <= n < (s + 1) * (s + 1)
  }

  ghost predicate Sorted(l: seq<nat>) {
    forall i, j :: 0 <= i < j < |l| ==> l[i] <= l[j]
  }

  ghost predicate AllPrime(l: seq<nat>) {
    forall i :: 0 <= i < |l| ==> Prime(l[i])
  }

  /** All printed numbers are at most f. */
  ghost predicate UpTo(l: seq<nat>, f: nat) {
    forall i :: 0 <= i < |l| ==> l[i] <= f
  }

  /** What has been printed, times the rest counted as often as it will be printed, is the number given. */
  ghost predicate Partial(n0: nat, printed: seq<nat>, n: nat, count: nat, f: nat) {
    && n0 == Product(printed) * Power(n, count)
    && AllPrime(printed) && Sorted(printed) && UpTo(printed, f) && NoDivisor(n, f)
    && n >= 1 && count >= 1
  }

  /** The complete factorization. */
  ghost predicate Factored(n0: nat, printed: seq<nat>) {
    n0 == Product(printed) && AllPrime(printed) && Sorted(printed)
  }

  lemma {:induction false} PrintedMore(printed: seq<nat>, p: nat)
    requires AllPrime(printed) && Sorted(printed) && UpTo(printed, p) && Prime(p)
    ensures AllPrime(printed + [p]) && Sorted(printed + [p]) && UpTo(printed + [p], p)
    ensures Product(printed + [p]) == Product(printed) * p
  {
    hide Prime, Product;
    ProductAppend(printed, p);
  }

  class Factorizer {
    const wheelTab: seq<nat>
    var squareCount: nat
    var printed: seq<nat>

    constructor ()
      ensures WheelOk(wheelTab)
    {
      hide Concat, WheelOk;
      squareCount, printed := 1, [];
      ghost var words := WORDS;
      PackedWords();
      var tab := UnpackWheel(PACKED, words);
      TableOk();
      wheelTab := tab;
    }

    /** isqrt_odd: the largest odd number up to the square root, or 0 if the number was a square, which is then
        factorized with every factor counted twice as often. */
    method IsqrtOdd(n: nat, ghost n0: nat, ghost f: nat) returns (r: nat, ghost s: nat)
      requires WheelOk(wheelTab) && Partial(n0, printed, n, squareCount, f) && n0 < TWO64 && n < TWO64
      requires squareCount <= 63
      modifies this
      ensures r == 0 ==> Factored(n0, printed)
      ensures r != 0 ==> printed == old(printed) && squareCount == old(squareCount)
      ensures r != 0 ==> n >= 2 && IsRoot(s, n) && 1 <= s < TWO32 && r == OddUpTo(s)
      decreases if n == 1 then 2 else n, 0
    {
      hide WheelOk, Partial, Factored, IsRoot, Prime, NoDivisor, Sorted, AllPrime, UpTo, Product, Power;
      PartialFacts(n0, printed, n, squareCount, f);
      var root := Isqrt(n);
      s := root;
      RootRange(s, n);
      if root * root == n {
        Rooted(n0, printed, s, squareCount, f);
        squareCount := squareCount * 2 % 256;
        Factorize(root, n0, f);
        return 0, s;
      }
      NotOne(s, n);
      r := if root % 2 == 0 then root - 1 else root;
    }

    /** factorize: prints a nondecreasing list of primes whose product, with what was printed before, is the
        number given. */
    method Factorize(n1: nat, ghost n0: nat, ghost f0: nat)
      requires WheelOk(wheelTab) && n0 < TWO64 && n1 < TWO64 && squareCount <= 126
      requires n1 >= 1 ==> Partial(n0, printed, n1, squareCount, f0)
      modifies this
      ensures n1 == 0 ==> printed == old(printed)
      ensures n1 >= 1 ==> Factored(n0, printed)
      decreases n1, 3
    {
      hide WheelOk, Partial, Factored, IsRoot, OnWheel, Tried;
      var n := n1;
      if n < 4 {
        if n > 1 {
          SmallPrime(n);
          PrintLast(n, n0, f0);
        } else if n == 1 {
          NothingLeft(n0, printed, squareCount, f0);
        }
        return;
      }
      CountBound(n0, printed, n, squareCount, f0);
      var maxFactor;
      ghost var s;
      maxFactor, s := IsqrtOdd(n, n0, f0);
      if maxFactor == 0 {
        return;
      }
      TryDivisors(n, maxFactor, n0, f0, s);
    }

    /** Divides by one candidate as often as possible. */
    method DivideOut(n1: nat, factor: nat, maxFactor1: nat, ghost n0: nat, ghost g: nat, ghost s1: nat)
      returns (done: bool, n: nat, maxFactor: nat, ghost s: nat)
      requires WheelOk(wheelTab) && n0 < TWO64 && 2 <= n1 < TWO64 && 2 <= factor <= g && squareCount <= 63
      requires Partial(n0, printed, n1, squareCount, g) && IsRoot(s1, n1) && 1 <= s1 < TWO32
      requires maxFactor1 == OddUpTo(s1)
      modifies this
      ensures done ==> Factored(n0, printed)
      ensures !done ==> 2 <= n <= n1 && n % factor != 0 && squareCount == old(squareCount)
      ensures !done ==> Partial(n0, printed, n, squareCount, g) && IsRoot(s, n) && 1 <= s < TWO32
      ensures !done ==> maxFactor == OddUpTo(s)
      decreases n1, 1
    {
      hide WheelOk, Partial, Factored, IsRoot, Prime, NoDivisor, Sorted, AllPrime, UpTo, Product, Power;
      done, n, maxFactor, s := false, n1, maxFactor1, s1;
      while n % factor == 0
        invariant 2 <= n <= n1 && squareCount == old(squareCount)
        invariant Partial(n0, printed, n, squareCount, g) && IsRoot(s, n) && 1 <= s < TWO32 && maxFactor == OddUpTo(s)
        decreases n
      {
        PartialFacts(n0, printed, n, squareCount, g);
        FirstDivisor(n, factor, g);
        ghost var before := Product(printed);
        Print(factor);
        Divided(n0, before, printed, n, squareCount, factor);
        n := n / factor;
        maxFactor, s := IsqrtOdd(n, n0, factor);
        if maxFactor == 0 {
          done := true;
          return;
        }
      }
    }

    /** The main loop: candidates along the wheel, up to the square root of what is left. */
    method TryDivisors(n1: nat, maxFactor1: nat, ghost n0: nat, ghost f0: nat, ghost s1: nat)
      requires WheelOk(wheelTab) && n0 < TWO64 && 4 <= n1 < TWO64 && squareCount <= 63
      requires Partial(n0, printed, n1, squareCount, f0) && IsRoot(s1, n1) && 1 <= s1 < TWO32
      requires maxFactor1 == OddUpTo(s1)
      modifies this
      ensures Factored(n0, printed)
      decreases n1, 2
    {
      hide WheelOk, Partial, Factored, IsRoot, OnWheel, NoDivisor, Prime;
      var n, maxFactor, factor: nat, w: nat := n1, maxFactor1, 2, 0;
      ghost var s: nat, g: nat := s1, if f0 > 2 then f0 else 2;
      StartTrial(wheelTab, n0, printed, n, squareCount, f0);
      while true
        invariant 2 <= n <= n1 && squareCount <= 63 && w < WHEEL_SIZE && 2 <= factor <= g && factor < TWO32
        invariant OnWheel(wheelTab, w, factor) && NoDivisor(n, factor)
        invariant Partial(n0, printed, n, squareCount, g) && IsRoot(s, n) && 1 <= s < TWO32 && maxFactor == OddUpTo(s)
        decreases TWO32 - factor
      {
        var done;
        done, n, maxFactor, s := DivideOut(n, factor, maxFactor, n0, g, s);
        if done {
          return;
        }
        NotDividing(n0, printed, n, squareCount, g, factor);
        if factor >= maxFactor {
          RestIsPrime(n, s, factor);
          break;
        }
        NextCandidate(wheelTab, w, factor, n0, printed, n, squareCount, g);
        var fw := (factor + wheelTab[w]) % TWO32;
        if fw < factor {
          AllTried(n, s, factor + wheelTab[w]);
          break;
        }
        g := if g > factor + wheelTab[w] then g else factor + wheelTab[w];
        factor := fw;
        w := w + 1;
        if w == WHEEL_SIZE {
          w := WHEEL_START;
        }
      }
      PrintLast(n, n0, g);
    }

    /** Prints the last factor. */
    method PrintLast(n: nat, ghost n0: nat, ghost g: nat)
      requires Partial(n0, printed, n, squareCount, g) && n >= 2 && Prime(n)
      modifies `printed
      ensures Factored(n0, printed)
    {
      hide Prime, Sorted, AllPrime, UpTo, Product, Power, NoDivisor;
      LastFactor(n0, printed, n, squareCount, g);
      Print(n);
    }

    /** print_w: prints a factor once for every square it comes from. */
    method Print(n: nat)
      requires squareCount >= 1 && Prime(n) && AllPrime(printed) && Sorted(printed) && UpTo(printed, n)
      modifies `printed
      ensures AllPrime(printed) && Sorted(printed) && UpTo(printed, n)
      ensures Product(printed) == old(Product(printed)) * Power(n, squareCount)
    {
      hide Prime, Sorted, AllPrime, UpTo, Product;
      var rep := squareCount;
      ghost var done := 0;
      ghost var before := Product(printed);
      assert before * Power(n, 0) == before;
      while true
        invariant 1 <= rep && rep + done == squareCount
        invariant AllPrime(printed) && Sorted(printed) && UpTo(printed, n)
        invariant Product(printed) == before * Power(n, done)
        decreases rep
      {
        PrintedMore(printed, n);
        PowerNext(before, n, done);
        printed := printed + [n];
        done := done + 1;
        rep := rep - 1;
        if rep == 0 {
          break;
        }
      }
    }
  }

  /** The number without its last k bits. */
  function Leading(n: nat, k: nat): nat {
    if k == 0 then n else Leading(n, k - 1) / 2
  }

  /** isqrt: the root of the leading bits, two of them more in every turn. No step overflows 64 bits, since x stays
      below 2^32. */
  method Isqrt(n: nat) returns (x: nat)
    requires n < TWO64
    ensures IsRoot(x, n) && x < TWO32
  {
    hide IsRoot, Pow2, Leading;
    x := 0;
    var shift := 62;
    NoBits(n);
    while shift >= 0
      invariant -2 <= shift <= 62 && shift % 2 == 0
      invariant IsRoot(x, Leading(n, shift + 2)) && x < Pow2(31 - shift / 2)
      decreases shift
    {
      TwoMoreBits(n, shift, x);
      TwicePow(31 - shift / 2);
      x := 2 * x + 1;
      if x * x > Leading(n, shift) {
        x := x - 1;
      }
      shift := shift - 2;
    }
    AllBits(n);
  }

  lemma {:induction false} LeadingBelow(n: nat, m: nat, k: nat)
    requires n < Pow2(m) && k <= m
    ensures Leading(n, k) < Pow2(m - k)
  {
    if k > 0 {
      LeadingBelow(n, m, k - 1);
      TwicePow(m - k);
    }
  }

  lemma {:induction false} TwicePow(k: nat)
    ensures Pow2(k + 1) == 2 * Pow2(k)
  {
  }

  lemma {:induction false} NoBits(n: nat)
    requires n < TWO64
    ensures IsRoot(0, Leading(n, 64)) && 0 < Pow2(0)
  {
    hide Leading;
    Pow2SixtyFour();
    LeadingBelow(n, 64, 64);
  }

  lemma {:induction false} AllBits(n: nat)
    ensures Leading(n, 0) == n && Pow2(32) == TWO32
  {
    Pow2Values();
  }

  /** From the root of the bits above to the root with two more bits. */
  lemma {:induction false} TwoMoreBits(n: nat, shift: nat, x: nat)
    requires IsRoot(x, Leading(n, shift + 2))
    ensures var y := 2 * x + 1; IsRoot(if y * y > Leading(n, shift) then y - 1 else y, Leading(n, shift))
  {
    hide IsRoot;
    assert Leading(n, shift + 2) == Leading(n, shift + 1) / 2 == Leading(n, shift) / 2 / 2;
    RootDoubles(Leading(n, shift), x);
  }

  lemma {:induction false} RootDoubles(m: nat, x: nat)
    requires IsRoot(x, m / 4)
    ensures var y := 2 * x + 1; IsRoot(if y * y > m then y - 1 else y, m)
  {
    var a := m / 4;
    assert (2 * x) * (2 * x) == 4 * (x * x) <= 4 * a <= m;
    assert (2 * x + 2) * (2 * x + 2) == 4 * ((x + 1) * (x + 1)) > m;
  }

  lemma {:induction false} RootRange(s: nat, n: nat)
    requires IsRoot(s, n) && 1 <= n < TWO64
    ensures 1 <= s < TWO32 && (n >= 2 ==> s < n)
  {
    if s >= TWO32 {
      MulMono(TWO32, TWO32, s);
      MulMono(s, TWO32, s);
    }
    if n >= 2 && s >= n {
      MulMono(n, 2, s);
      MulMono(s, n, s);
    }
  }

  /** The largest odd number up to s. */
  function OddUpTo(s: nat): nat
    requires s >= 1
  {
    if s % 2 == 1 then s else s - 1
  }

  // --- Steps of the division ---

  lemma {:induction false} ProductPositive(l: seq<nat>)
    requires AllPrime(l)
    ensures Product(l) >= 1
  {
    if l != [] {
      ProductPositive(l[..|l| - 1]);
      assert Prime(l[|l| - 1]);
      MulMono(Product(l[..|l| - 1]), 1, l[|l| - 1]);
    }
  }

  /** The counter never gets near the limit of a byte. */
  lemma {:induction false} CountBound(n0: nat, printed: seq<nat>, n: nat, count: nat, f: nat)
    requires Partial(n0, printed, n, count, f) && n >= 2 && n0 < TWO64
    ensures count <= 63
  {
    hide Power, Product, Sorted, UpTo, NoDivisor;
    ProductPositive(printed);
    MulMono(Power(n, count), 1, Product(printed));
    PowerAtLeast(n, count);
    if count > 63 {
      Pow2Monotone(64, count);
      Pow2SixtyFour();
    }
  }

  lemma {:induction false} Pow2SixtyFour()
    ensures Pow2(64) == TWO64
  {
    hide Pow2;
    Pow2Values();
    Pow2Add(32, 32);
  }

  /** Dividing by the candidate and printing it. */
  lemma {:induction false} Divided(n0: nat, before: nat, printed: seq<nat>, n: nat, count: nat, f: nat)
    requires f >= 2 && n >= 1 && n % f == 0 && count >= 1 && n0 == before * Power(n, count) && NoDivisor(n, f)
    requires Product(printed) == before * Power(f, count) && AllPrime(printed) && Sorted(printed) && UpTo(printed, f)
    ensures Partial(n0, printed, n / f, count, f) && n / f < n
  {
    hide Power, Product, AllPrime, Sorted, UpTo;
    var q := DivisorOf(f, n);
    PowerMul(f, q, count);
    MulAssoc(before, Power(f, count), Power(q, count));
    QuotientNoDivisor(n, f, f);
    QuotientSmaller(f, q, n);
  }

  lemma {:induction false} QuotientSmaller(f: nat, q: nat, n: nat)
    requires n == f * q && n >= 1 && f >= 2
    ensures 1 <= q < n
  {
    if q > 0 {
      MulMono(q, 2, f);
    }
  }

  /** Continuing with the root of a square. */
  lemma {:induction false} Rooted(n0: nat, printed: seq<nat>, s: nat, count: nat, f: nat)
    requires Partial(n0, printed, s * s, count, f) && s >= 1
    ensures Partial(n0, printed, s, 2 * count, f)
  {
    hide Power, Product, AllPrime, Sorted, UpTo;
    PowerSquare(s, count);
    RootNoDivisor(s, f);
  }

  /** What is left is not smaller than what was printed. */
  lemma {:induction false} LastFactor(n0: nat, printed: seq<nat>, n: nat, count: nat, g: nat)
    requires Partial(n0, printed, n, count, g) && n >= 2
    ensures UpTo(printed, n)
  {
    hide Power, Product, AllPrime, Sorted;
    if n < g {
      SelfDivides(n);
    }
  }

  /** A candidate that divides is the smallest divisor, hence prime, and not below those printed. */
  lemma {:induction false} FirstDivisor(n: nat, f: nat, g: nat)
    requires 2 <= f <= g && n % f == 0 && NoDivisor(n, g)
    ensures f == g && Prime(f)
  {
    SmallestIsPrime(n, f);
  }

  lemma {:induction false} NotDividing(n0: nat, printed: seq<nat>, n: nat, count: nat, g: nat, f: nat)
    requires Partial(n0, printed, n, count, g) && 2 <= f <= g && n % f != 0
    ensures NoDivisor(n, f + 1)
  {
    hide Power, Product, AllPrime, Sorted;
  }

  lemma {:induction false} RestIsPrime(n: nat, s: nat, f: nat)
    requires n >= 2 && IsRoot(s, n) && s >= 1 && NoDivisor(n, f + 1) && f >= 2 && f >= OddUpTo(s)
    ensures Prime(n)
  {
    hide NoDivisor;
    NoSmallDivisor(n, s, f);
  }

  /** Beyond the largest half-width number there is nothing left to try. */
  lemma {:induction false} AllTried(n: nat, s: nat, g: nat)
    requires n >= 2 && IsRoot(s, n) && s < TWO32 && NoDivisor(n, g) && g >= TWO32
    ensures Prime(n)
  {
    var f := TWO32 - 1;
    assert NoDivisor(n, f + 1);
    NoSmallDivisor(n, s, f);
  }

  lemma {:induction false} NextCandidate(tab: seq<nat>, w: nat, f: nat, n0: nat, printed: seq<nat>, n: nat, count: nat,
                                         g: nat)
    requires OnWheel(tab, w, f) && NoDivisor(n, f + 1) && Partial(n0, printed, n, count, g) && f <= g
    ensures |tab| == WHEEL_SIZE && 1 <= tab[w] <= 14 && NoDivisor(n, f + tab[w])
    ensures w + 1 < WHEEL_SIZE ==> OnWheel(tab, w + 1, f + tab[w])
    ensures w + 1 == WHEEL_SIZE ==> OnWheel(tab, WHEEL_START, f + tab[w])
    ensures Partial(n0, printed, n, count, if g > f + tab[w] then g else f + tab[w])
  {
    WheelTurns(tab, w, f);
    GapSmall(tab, w, f);
    hide Power, Product, AllPrime, Sorted, OnWheel;
    forall d | f < d < f + tab[w]
      ensures HasDivisorUpTo(d, f)
    {
      BetweenCandidates(tab, w, f, d);
    }
    SkipOver(n, f, f + tab[w]);
  }

  lemma {:induction false} GapSmall(tab: seq<nat>, w: nat, f: nat)
    requires OnWheel(tab, w, f)
    ensures |tab| == WHEEL_SIZE && tab[w] <= 14
  {
    FirstTried(tab);
  }

  lemma {:induction false} StartTrial(tab: seq<nat>, n0: nat, printed: seq<nat>, n: nat, count: nat, f: nat)
    requires WheelOk(tab) && Partial(n0, printed, n, count, f)
    ensures |tab| == WHEEL_SIZE && OnWheel(tab, 0, 2) && NoDivisor(n, 2)
    ensures Partial(n0, printed, n, count, if f > 2 then f else 2)
  {
    hide Power, Product, AllPrime, Sorted;
    FirstTried(tab);
  }

  lemma {:induction false} SelfDivides(n: nat)
    requires n >= 1
    ensures n % n == 0
  {
  }

  lemma {:induction false} PartialFacts(n0: nat, printed: seq<nat>, n: nat, count: nat, f: nat)
    requires Partial(n0, printed, n, count, f)
    ensures n >= 1 && count >= 1 && NoDivisor(n, f) && AllPrime(printed) && Sorted(printed) && UpTo(printed, f)
    ensures n0 == Product(printed) * Power(n, count)
  {
  }

  lemma {:induction false} NotOne(s: nat, n: nat)
    requires IsRoot(s, n) && s * s != n && n >= 1
    ensures n >= 2
  {
    if n == 1 && s >= 2 {
      MulMono(s, 2, s);
    }
  }

  lemma {:induction false} SmallPrime(n: nat)
    requires n == 2 || n == 3
    ensures Prime(n)
  {
  }

  lemma {:induction false} NothingLeft(n0: nat, printed: seq<nat>, count: nat, f: nat)
    requires Partial(n0, printed, 1, count, f)
    ensures Factored(n0, printed)
  {
    OnePower(count);
  }

  lemma {:induction false} OnePower(e: nat)
    ensures Power(1, e) == 1
  {
    if e > 0 {
      OnePower(e - 1);
    }
  }

  /** The position on the wheel: the candidate is that of the first turn plus whole turns. */
  ghost predicate OnWheel(tab: seq<nat>, w: nat, f: nat) {
    && w < |tab| && WheelOk(tab)
    && if w < WHEEL_START then f == Tried(tab, w) else f >= Tried(tab, w) && (f - Tried(tab, w)) % TURN == 0 && f >= 13
  }

  lemma {:induction false} TurnSieved(a: nat, m: nat)
    requires (a % 2 == 0 || Sieved(a)) && m % TURN == 0
    ensures HasDivisorUpTo(a + m, 11)
  {
    var k := m / TURN;
    assert m == TURN * k;
    var q := if a % 2 == 0 then 2 else if a % 3 == 0 then 3 else if a % 5 == 0 then 5 else if a % 7 == 0 then 7 else 11;
    MultipleOf(q, k);
    SumDivides(q, a, m);
  }

  lemma {:induction false} MultipleOf(q: nat, k: nat)
    requires q == 2 || q == 3 || q == 5 || q == 7 || q == 11
    ensures (TURN * k) % q == 0
  {
    var t := TURN / q;
    assert TURN == q * t;
    MulAssoc(q, t, k);
    MultipleMod(q, t * k);
  }

  lemma {:induction false} SumDivides(q: nat, a: nat, b: nat)
    requires q > 0 && a % q == 0 && b % q == 0
    ensures (a + b) % q == 0
  {
    var x := DivisorOf(q, a);
    var y := DivisorOf(q, b);
    assert a + b == q * (x + y);
    MultipleMod(q, x + y);
  }

  /** Everything between a candidate and the next has a divisor that was tried. */
  lemma {:induction false} BetweenCandidates(tab: seq<nat>, w: nat, f: nat, d: nat)
    requires OnWheel(tab, w, f) && f < d < f + tab[w]
    ensures HasDivisorUpTo(d, f)
  {
    hide Tried, GapOk, Sieved;
    if w >= WHEEL_START {
      var a, m := Tried(tab, w) + (d - f), f - Tried(tab, w);
      GapSieved(Tried(tab, w), tab[w], d - f);
      TurnSieved(a, m);
      var q :| 2 <= q <= 11 && d % q == 0;
    } else {
      FirstTried(tab);
      FirstBetween(f, d);
    }
  }

  lemma {:induction false} FirstBetween(f: nat, d: nat)
    requires (f == 3 && d == 4) || (f == 5 && d == 6) || (f == 7 && 8 <= d <= 10) || (f == 11 && d == 12)
    ensures HasDivisorUpTo(d, f)
  {
    if d == 9 {
      assert d % 3 == 0;
    } else {
      assert d % 2 == 0;
    }
  }

  lemma {:induction false} WheelTurns(tab: seq<nat>, w: nat, f: nat)
    requires OnWheel(tab, w, f)
    ensures tab[w] >= 1 && f >= 2
    ensures w + 1 < WHEEL_SIZE ==> OnWheel(tab, w + 1, f + tab[w])
    ensures w + 1 == WHEEL_SIZE ==> OnWheel(tab, WHEEL_START, f + tab[w])
  {
    hide GapOk, Tried;
    FirstTried(tab);
    TriedNext(tab, w);
    if w + 1 == WHEEL_SIZE {
      OneMoreTurn(f + tab[w]);
    }
  }

  lemma {:induction false} OneMoreTurn(g: nat)
    requires g >= 13 + TURN && (g - (13 + TURN)) % TURN == 0
    ensures (g - 13) % TURN == 0
  {
    SumDivides(TURN, g - (13 + TURN), TURN);
  }

  lemma {:induction false} TriedNext(tab: seq<nat>, w: nat)
    requires w < |tab|
    ensures Tried(tab, w + 1) == Tried(tab, w) + tab[w]
  {
  }

  lemma {:induction false} PowerNext(before: nat, n: nat, k: nat)
    ensures (before * Power(n, k)) * n == before * Power(n, k + 1)
  {
    MulAssoc(before, Power(n, k), n);
    assert Power(n, k) * n == n * Power(n, k);
  }

  /** packed_wheel. */
  const PACKED: seq<nat> := seq(|WORDS|, i requires 0 <= i < |WORDS| => Packed(WORDS[i]))

  lemma {:induction false} PackedWords()
    ensures |PACKED| == |WORDS|
    ensures forall i :: 0 <= i < |WORDS| ==> AllPackable(WORDS[i]) && PACKED[i] == Packed(WORDS[i])
  {
    hide WORDS, Packed, AllPackable, WordClaim;
    TableSizes();
    forall i | 0 <= i < |WORDS|
      ensures AllPackable(WORDS[i])
    {
      WordAt(i);
      WordFacts(WORDS[i], STARTS[i], STARTS[i + 1]);
    }
  }

  /** factorize_numstr, given the number: for every number from 1 up to 2^64 - 1 the list printed is nondecreasing
      and prime, and its product is the number; nothing is printed for 0. */
  method FactorizeNumber(n: nat) returns (printed: seq<nat>)
    requires n < TWO64
    ensures if n == 0 then printed == [] else Factored(n, printed)
  {
    hide WheelOk, Partial, Factored;
    var x := new Factorizer();
    StartList(n);
    x.squareCount, x.printed := 1, [];
    x.Factorize(n, n, 2);
    printed := x.printed;
  }

  lemma {:induction false} StartList(n: nat)
    ensures n >= 1 ==> Partial(n, [], n, 1, 2)
  {
    assert Power(n, 1) == n * Power(n, 0) == n * 1;
  }
}
