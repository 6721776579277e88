/** The order of Debian versions: comparing two parts character by character agrees with comparing keys, and so
    is a total preorder. */
module VersionOrder {
  import opened Bits

  /** A C string without its terminator. */
  type Text = seq<byte>

  predicate IsDigit(c: byte) {
    0x30 <= c <= 0x39
  }

  predicate IsAlpha(c: byte) {
    0x41 <= c <= 0x5a || 0x61 <= c <= 0x7a
  }

  /** order: a tilde sorts before everything, even the end; letters sort before other characters. */
  function Order(c: byte): int {
    if c == 0x7e then -1 else if c == 0 || IsDigit(c) then 0 else if IsAlpha(c) then c else c + 256
  }

  /** The character at i; the terminator at the end. */
  function At(s: Text, i: nat): byte {
    if i < |s| then s[i] else 0
  }

  ghost predicate NoZero(s: Text) {
    forall i :: 0 <= i < |s| ==> s[i] != 0
  }

  // --- Keys ---

  /** End of the run of non-digits from i on. */
  function RunEnd(s: Text, i: nat): (n: nat)
    requires i <= |s|
    ensures i <= n <= |s|
    decreases |s| - i
  {
    if i < |s| && !IsDigit(s[i]) then RunEnd(s, i + 1) else i
  }

  /** End of the run of digits from i on. */
  function DigitsEnd(s: Text, i: nat): (n: nat)
    requires i <= |s|
    ensures i <= n <= |s|
    decreases |s| - i
  {
    if i < |s| && IsDigit(s[i]) then DigitsEnd(s, i + 1) else i
  }

  /** The natural number that the digits from i up to n denote, after v. */
  function Value(s: Text, i: nat, n: nat, v: nat): nat
    requires i <= n <= |s|
    decreases n - i
  {
    if i == n then v else Value(s, i + 1, n, 10 * v + (if IsDigit(s[i]) then s[i] - 0x30 else 0))
  }

  /** The orders of the non-digits up to n, closed by 0. */
  function Orders(s: Text, i: nat, n: nat): seq<int>
    requires i <= n <= |s|
    decreases n - i
  {
    if i == n then [0] else [Order(s[i])] + Orders(s, i + 1, n)
  }

  /** What a version part is compared by: orders of non-digits and values of numbers in turn. */
  function Key(s: Text, i: nat): seq<int>
    requires i <= |s|
    decreases |s| - i
  {
    if i == |s| then []
    else
      var n := RunEnd(s, i);
      var m := DigitsEnd(s, n);
      RunsAdvance(s, i);
      Orders(s, i, n) + [Value(s, n, m, 0)] + Key(s, m)
  }

  lemma {:induction false} RunsAdvance(s: Text, i: nat)
    requires i < |s|
    ensures DigitsEnd(s, RunEnd(s, i)) > i
  {
  }

  function Head(a: seq<int>): int {
    if a == [] then 0 else a[0]
  }

  function Tail(a: seq<int>): seq<int> {
    if a == [] then [] else a[1..]
  }

  /** Lexicographic comparison, the shorter key padded with zeros. */
  function Lex(a: seq<int>, b: seq<int>): int
    decreases |a| + |b|
  {
    if a == [] && b == [] then 0
    else if Head(a) < Head(b) then -1
    else if Head(a) > Head(b) then 1
    else Lex(Tail(a), Tail(b))
  }

  lemma {:induction false} LexReflexive(a: seq<int>)
    ensures Lex(a, a) == 0
  {
    if a != [] {
      LexReflexive(a[1..]);
    }
  }

  lemma {:induction false} LexAntisymmetric(a: seq<int>, b: seq<int>)
    ensures Lex(b, a) == -Lex(a, b)
    decreases |a| + |b|
  {
    if (a != [] || b != []) && Head(a) == Head(b) {
      LexAntisymmetric(Tail(a), Tail(b));
    }
  }

  lemma {:induction false} LexTransitive(a: seq<int>, b: seq<int>, c: seq<int>)
    requires Lex(a, b) <= 0 && Lex(b, c) <= 0
    ensures Lex(a, c) <= 0 && (Lex(a, c) == 0 ==> Lex(a, b) == 0 && Lex(b, c) == 0)
    decreases |a| + |b| + |c|
  {
    if a != [] || b != [] || c != [] {
      LexSame(a, b);
      LexSame(b, c);
      LexSame(a, c);
      if Head(a) == Head(b) && Head(b) == Head(c) {
        LexTransitive(Tail(a), Tail(b), Tail(c));
      }
    }
  }

  /** Unfolding that also covers two empty keys. */
  lemma {:induction false} LexSame(a: seq<int>, b: seq<int>)
    ensures Lex(a, b) == if Head(a) < Head(b) then -1 else if Head(a) > Head(b) then 1 else Lex(Tail(a), Tail(b))
  {
  }

  /** The key from i on, written out even at the end of the part. */
  function Rest(s: Text, i: nat): seq<int>
    requires i <= |s|
  {
    var n := RunEnd(s, i);
    var m := DigitsEnd(s, n);
    Orders(s, i, n) + [Value(s, n, m, 0)] + Key(s, m)
  }

  /** How two parts compare. */
  function Parts(a: Text, b: Text): int {
    Lex(Key(a, 0), Key(b, 0))
  }

  // --- One step of the comparison ---

  lemma {:induction false} TwoZeros(b: seq<int>)
    ensures Lex([0, 0], b) == Lex([], b)
  {
    LexSame([], b);
    LexSame([0, 0], b);
    if Head(b) == 0 {
      LexSame([], Tail(b));
      LexSame([0], Tail(b));
      assert Tail([0, 0]) == [0] && Tail([0]) == [];
    }
  }

  lemma {:induction false} KeyIsRest(a: Text, i: nat, b: Text, j: nat)
    requires i <= |a| && j <= |b|
    ensures Lex(Key(a, i), Key(b, j)) == Lex(Rest(a, i), Rest(b, j))
  {
    KeyPadded(a, i, Key(b, j));
    KeyPadded(b, j, Rest(a, i));
    LexAntisymmetric(Rest(a, i), Key(b, j));
    LexAntisymmetric(Rest(a, i), Rest(b, j));
  }

  lemma {:induction false} KeyPadded(a: Text, i: nat, k: seq<int>)
    requires i <= |a|
    ensures Lex(Key(a, i), k) == Lex(Rest(a, i), k)
  {
    if i == |a| {
      assert Rest(a, i) == [0, 0];
      TwoZeros(k);
    }
  }

  predicate NonDigit(s: Text, i: nat) {
    i < |s| && !IsDigit(s[i])
  }

  lemma {:induction false} RestHead(s: Text, i: nat)
    requires i <= |s| && NoZero(s)
    ensures Rest(s, i) != [] && Rest(s, i)[0] == Order(At(s, i))
    ensures NonDigit(s, i) <==> Order(At(s, i)) != 0
    ensures NonDigit(s, i) ==> Rest(s, i)[1..] == Rest(s, i + 1)
  {
    if NonDigit(s, i) {
      var n := RunEnd(s, i);
      var m := DigitsEnd(s, n);
      assert Orders(s, i, n) == [Order(s[i])] + Orders(s, i + 1, n);
      assert Rest(s, i) == [Order(s[i])] + (Orders(s, i + 1, n) + [Value(s, n, m, 0)] + Key(s, m));
    }
  }

  /** Unequal orders decide the comparison. */
  lemma {:induction false} OrdersDecide(a: Text, i: nat, b: Text, j: nat)
    requires i <= |a| && j <= |b| && NoZero(a) && NoZero(b)
    requires Order(At(a, i)) != Order(At(b, j))
    ensures Lex(Rest(a, i), Rest(b, j)) == Sign(Order(At(a, i)) - Order(At(b, j)))
  {
    RestHead(a, i);
    RestHead(b, j);
  }

  /** Equal orders of non-digits pass it on. */
  lemma {:induction false} OrdersPass(a: Text, i: nat, b: Text, j: nat)
    requires i <= |a| && j <= |b| && NoZero(a) && NoZero(b)
    requires Order(At(a, i)) == Order(At(b, j)) && (NonDigit(a, i) || NonDigit(b, j))
    ensures i < |a| && j < |b| && Lex(Rest(a, i), Rest(b, j)) == Lex(Rest(a, i + 1), Rest(b, j + 1))
  {
    RestHead(a, i);
    RestHead(b, j);
  }

  /** Past the non-digits numbers are compared by value. */
  lemma {:induction false} NumbersCompare(a: Text, i: nat, b: Text, j: nat)
    requires i <= |a| && j <= |b| && !NonDigit(a, i) && !NonDigit(b, j)
    ensures var m, n := DigitsEnd(a, i), DigitsEnd(b, j);
            var x, y := Value(a, i, m, 0), Value(b, j, n, 0);
            Lex(Rest(a, i), Rest(b, j)) == if x < y then -1 else if x > y then 1 else Lex(Key(a, m), Key(b, n))
  {
    var m, n := DigitsEnd(a, i), DigitsEnd(b, j);
    var x, y := Value(a, i, m, 0), Value(b, j, n, 0);
    assert Rest(a, i) == [0] + ([x] + Key(a, m));
    assert Rest(b, j) == [0] + ([y] + Key(b, n));
    LexSame([x] + Key(a, m), [y] + Key(b, n));
  }

  function Sign(x: int): int {
    if x < 0 then -1 else if x > 0 then 1 else 0
  }

  // --- What decides, and the number that tells it ---

  /** What decides a comparison: nothing, two characters of unequal order, the number with more digits, the first digits
      that differ in numbers of equal length, or the epochs. */
  datatype Decision =
    | Level
    | Characters(x: byte, y: byte)
    | Lengths(first: bool)
    | Digits(x: byte, y: byte)
    | Epochs(first: bool)

  function Result(d: Decision): int {
    match d
    case Level => 0
    case Characters(x, y) => Order(x) - Order(y)
    case Digits(x, y) => Gap(x, y)
    case Lengths(first) => if first then 1 else -1
    case Epochs(first) => if first then 1 else -1
  }

  function Gap(x: int, y: int): int {
    x - y
  }

  function RunDecision(a: Text, i: nat, b: Text, j: nat): Decision
    requires i <= |a| && j <= |b|
    decreases |a| - i
  {
    if !NonDigit(a, i) && !NonDigit(b, j) then Level
    else if Order(At(a, i)) != Order(At(b, j)) then Characters(At(a, i), At(b, j))
    else if i < |a| && j < |b| then RunDecision(a, i + 1, b, j + 1)
    else Level
  }

  function FirstDigits(a: Text, i: nat, b: Text, j: nat): Decision
    requires i <= |a| && j <= |b|
    decreases |a| - i
  {
    if !IsDigit(At(a, i)) || !IsDigit(At(b, j)) then Level
    else if a[i] != b[j] then Digits(a[i], b[j])
    else FirstDigits(a, i + 1, b, j + 1)
  }

  function NumberDecision(a: Text, i: nat, b: Text, j: nat): Decision
    requires i <= |a| && j <= |b|
  {
    var m, n := DigitsEnd(a, i) - i, DigitsEnd(b, j) - j;
    if m != n then Lengths(m > n) else FirstDigits(a, i, b, j)
  }

  function ZerosEnd(s: Text, i: nat): (k: nat)
    requires i <= |s|
    ensures i <= k <= |s|
    decreases |s| - i
  {
    if At(s, i) == 0x30 then ZerosEnd(s, i + 1) else i
  }

  /** What decides between two parts, from i and j on. */
  function PartDecision(a: Text, i: nat, b: Text, j: nat): Decision
    requires i <= |a| && j <= |b|
    decreases |a| - i + |b| - j
  {
    if i == |a| && j == |b| then Level
    else
      var d := RunDecision(a, i, b, j);
      if d != Level then d
      else
        var h, k := RunEnd(a, i), RunEnd(b, j);
        var e := NumberDecision(a, ZerosEnd(a, h), b, ZerosEnd(b, k));
        if e != Level then e
        else
          Onward(a, i);
          Onward(b, j);
          PartDecision(a, DigitsEnd(a, h), b, DigitsEnd(b, k))
  }

  lemma {:induction false} Onward(s: Text, i: nat)
    requires i <= |s|
    ensures i < |s| ==> DigitsEnd(s, RunEnd(s, i)) > i
  {
    if i < |s| {
      RunsAdvance(s, i);
    }
  }

  // --- Comparing numbers digit by digit ---

  lemma {:induction false} ValueAtLeast(s: Text, i: nat, n: nat, v: nat)
    requires i <= n <= |s|
    ensures Value(s, i, n, v) >= v
    decreases n - i
  {
    if i < n {
      ValueAtLeast(s, i + 1, n, 10 * v + (if IsDigit(s[i]) then s[i] - 0x30 else 0));
    }
  }

  /** The digits compared so far: d tells how their values x and y compare, p is ten to their number, and neither
      number starts with a zero. */
  ghost predicate Compared(d: int, x: nat, y: nat, p: nat) {
    Sign(d) == Sign(x - y) && x < p && y < p && (p == 1 || p <= 10 * x) && (p == 1 || p <= 10 * y)
  }

  lemma {:induction false} DigitCompared(d: int, x: nat, y: nat, p: nat, u: byte, v: byte)
    requires Compared(d, x, y, p) && IsDigit(u) && IsDigit(v)
    requires p == 1 ==> u != 0x30 && v != 0x30
    ensures Compared(if d == 0 then u - v else d, 10 * x + (u - 0x30), 10 * y + (v - 0x30), 10 * p)
  {
  }

  /** Skip the zeros that lead a number. */
  method SkipZeros(s: Text, i: nat) returns (k: nat)
    requires i <= |s|
    ensures i <= k <= |s| && At(s, k) != 0x30 && k == ZerosEnd(s, i)
    ensures DigitsEnd(s, k) == DigitsEnd(s, i) && Value(s, k, DigitsEnd(s, i), 0) == Value(s, i, DigitsEnd(s, i), 0)
  {
    k := i;
    while At(s, k) == 0x30
      invariant i <= k <= |s| && ZerosEnd(s, k) == ZerosEnd(s, i)
      invariant DigitsEnd(s, k) == DigitsEnd(s, i)
      invariant Value(s, k, DigitsEnd(s, i), 0) == Value(s, i, DigitsEnd(s, i), 0)
      decreases |s| - k
    {
      k := k + 1;
    }
  }

  /** The two numbers at i and j, compared from their first digit that is not zero; h and k end up behind them
      when they are equal. */
  method CompareNumbers(a: Text, i: nat, b: Text, j: nat) returns (r: int, h: nat, k: nat)
    requires i <= |a| && j <= |b| && At(a, i) != 0x30 && At(b, j) != 0x30
    ensures Sign(r) == Sign(Value(a, i, DigitsEnd(a, i), 0) - Value(b, j, DigitsEnd(b, j), 0))
    ensures r == Result(NumberDecision(a, i, b, j))
    ensures r == 0 ==> h == DigitsEnd(a, i) && k == DigitsEnd(b, j)
  {
    h, k := i, j;
    ghost var m, n, x: nat, y: nat, p: nat := DigitsEnd(a, i), DigitsEnd(b, j), 0, 0, 1;
    r := 0;
    while IsDigit(At(a, h)) && IsDigit(At(b, k))
      invariant i <= h <= |a| && j <= k <= |b| && h - i == k - j
      invariant DigitsEnd(a, h) == m && DigitsEnd(b, k) == n
      invariant Value(a, i, m, 0) == Value(a, h, m, x) && Value(b, j, n, 0) == Value(b, k, n, y)
      invariant Compared(r, x, y, p) && (h == i <==> p == 1)
      invariant if r == 0 then FirstDigits(a, i, b, j) == FirstDigits(a, h, b, k)
        else Result(FirstDigits(a, i, b, j)) == r
      decreases |a| - h
    {
      DigitCompared(r, x, y, p, a[h], b[k]);
      if r == 0 {
        var c: int, d: int := a[h], b[k];
        r := c - d;
      }
      x, y, p := 10 * x + (a[h] - 0x30), 10 * y + (b[k] - 0x30), 10 * p;
      h, k := h + 1, k + 1;
    }
    if IsDigit(At(a, h)) {
      Longer(a, h, m, r, x, y, p);
      r := 1;
    } else if IsDigit(At(b, k)) {
      Longer(b, k, n, -r, y, x, p);
      r := -1;
    }
  }

  /** A number with a digit to spare is the larger. */
  lemma {:induction false} Longer(s: Text, i: nat, n: nat, d: int, x: nat, y: nat, p: nat)
    requires i < n <= |s| && IsDigit(s[i]) && Compared(d, x, y, p) && (p == 1 ==> s[i] != 0x30)
    ensures Value(s, i, n, x) > y
  {
    ValueAtLeast(s, i + 1, n, 10 * x + (s[i] - 0x30));
  }

  /** version_compare_part: the non-digits at i and j, compared one by one. */
  method CompareRuns(a: Text, i: nat, b: Text, j: nat) returns (r: int, h: nat, k: nat)
    requires i <= |a| && j <= |b| && NoZero(a) && NoZero(b)
    ensures r != 0 ==> Sign(r) == Lex(Rest(a, i), Rest(b, j))
    ensures r == Result(RunDecision(a, i, b, j)) && (r == 0 ==> RunDecision(a, i, b, j) == Level)
    ensures r == 0 ==> h == RunEnd(a, i) && k == RunEnd(b, j)
    ensures r == 0 ==> i <= h <= |a| && j <= k <= |b| && !NonDigit(a, h) && !NonDigit(b, k)
    ensures r == 0 ==> Lex(Rest(a, i), Rest(b, j)) == Lex(Rest(a, h), Rest(b, k))
  {
    hide Rest, Lex;
    h, k := i, j;
    while NonDigit(a, h) || NonDigit(b, k)
      invariant i <= h <= |a| && j <= k <= |b|
      invariant Lex(Rest(a, i), Rest(b, j)) == Lex(Rest(a, h), Rest(b, k))
      invariant RunDecision(a, i, b, j) == RunDecision(a, h, b, k) && RunEnd(a, h) == RunEnd(a, i)
      invariant RunEnd(b, k) == RunEnd(b, j)
      decreases |a| - h
    {
      var vc, rc := Order(At(a, h)), Order(At(b, k));
      if vc != rc {
        OrdersDecide(a, h, b, k);
        return vc - rc, h, k;
      }
      OrdersPass(a, h, b, k);
      h, k := h + 1, k + 1;
    }
    r := 0;
  }

  /** version_compare_part: negative, zero or positive as the key of one part is below, level with or above the
      key of the other. */
  method CompareParts(a: Text, b: Text) returns (r: int)
    requires NoZero(a) && NoZero(b)
    ensures Sign(r) == Parts(a, b) && r == Result(PartDecision(a, 0, b, 0))
  {
    hide Rest, Lex, Key, Value, DigitsEnd, RunEnd, ZerosEnd, RunDecision, FirstDigits, Order;
    var i, j := 0, 0;
    while i < |a| || j < |b|
      invariant 0 <= i <= |a| && 0 <= j <= |b|
      invariant Parts(a, b) == Lex(Key(a, i), Key(b, j)) && PartDecision(a, i, b, j) == PartDecision(a, 0, b, 0)
      decreases |a| - i + |b| - j
    {
      KeyIsRest(a, i, b, j);
      var h, k;
      r, h, k := CompareRuns(a, i, b, j);
      if r != 0 {
        return;
      }
      NumbersCompare(a, h, b, k);
      Advances(a, i, h);
      Advances(b, j, k);
      var u := SkipZeros(a, h);
      var v := SkipZeros(b, k);
      LevelNumbers(a, u, b, v);
      r, i, j := CompareNumbers(a, u, b, v);
      if r != 0 {
        return;
      }
    }
    BothEnded(a, b);
    r := 0;
  }

  lemma {:induction false} LevelNumbers(a: Text, i: nat, b: Text, j: nat)
    requires i <= |a| && j <= |b|
    ensures Result(NumberDecision(a, i, b, j)) == 0 <==> NumberDecision(a, i, b, j) == Level
  {
    LevelDigits(a, i, b, j);
  }

  lemma {:induction false} LevelDigits(a: Text, i: nat, b: Text, j: nat)
    requires i <= |a| && j <= |b|
    ensures var d := FirstDigits(a, i, b, j);
            d == Level || (d.Digits? && d.x != d.y && IsDigit(d.x) && IsDigit(d.y))
    decreases |a| - i
  {
    if IsDigit(At(a, i)) && IsDigit(At(b, j)) {
      LevelDigits(a, i + 1, b, j + 1);
    }
  }

  lemma {:induction false} Advances(s: Text, i: nat, h: nat)
    requires i <= h <= |s| && !NonDigit(s, h)
    ensures DigitsEnd(s, h) >= h && (i == h < |s| ==> DigitsEnd(s, h) > i)
  {
  }

  lemma {:induction false} BothEnded(a: Text, b: Text)
    ensures Lex(Key(a, |a|), Key(b, |b|)) == 0
  {
  }

  // --- Whole versions: epoch, upstream version, revision ---

  /** strchr: the first c, or the length. */
  function First(s: Text, c: byte): (n: nat)
    ensures n <= |s| && (forall k :: 0 <= k < n ==> s[k] != c) && (n < |s| ==> s[n] == c)
  {
    if s == [] || s[0] == c then 0 else 1 + First(s[1..], c)
  }

  /** strrchr: the last c, or the length. */
  function Last(s: Text, c: byte): (n: nat)
    ensures n <= |s| && (n < |s| ==> s[n] == c && forall k :: n < k < |s| ==> s[k] != c)
    ensures n == |s| ==> forall k :: 0 <= k < |s| ==> s[k] != c
  {
    if s == [] then 0
    else if s[|s| - 1] == c then |s| - 1
    else
      var n := Last(s[..|s| - 1], c);
      if n == |s| - 1 then |s| else n
  }

  predicate IsSpace(c: byte) {
    9 <= c <= 13 || c == 32
  }

  /** atoi, as an unsigned number. */
  function Atoi(s: Text): nat {
    if s == [] then 0
    else if IsSpace(s[0]) then Atoi(s[1..])
    else if s[0] == 0x2d then
      (0x1_0000_0000 - Value(s, 1, DigitsEnd(s, 1), 0) % 0x1_0000_0000) % 0x1_0000_0000
    else
      var i := if s[0] == 0x2b then 1 else 0;
      Value(s, i, DigitsEnd(s, i), 0) % 0x1_0000_0000
  }

  datatype Version = Version(epoch: nat, upstream: Text, revision: Text)

  /** A version taken apart: the epoch before the first colon, the revision behind the last hyphen. */
  function Split(s: Text): Version {
    var c := First(s, 0x3a);
    var epoch := if c < |s| then Atoi(s) else 0;
    var rest := if c < |s| then s[c + 1..] else s;
    var h := Last(rest, 0x2d);
    if h < |rest| then Version(epoch, rest[..h], rest[h + 1..]) else Version(epoch, rest, [])
  }

  /** How two versions compare: by epoch, then upstream version, then revision. */
  function Versions(a: Text, b: Text): int {
    var x, y := Split(a), Split(b);
    if x.epoch != y.epoch then Sign(x.epoch - y.epoch)
    else if Parts(x.upstream, y.upstream) != 0 then Parts(x.upstream, y.upstream)
    else Parts(x.revision, y.revision)
  }

  /** What decides between two versions. */
  function Decided(a: Text, b: Text): Decision {
    var x, y := Split(a), Split(b);
    if x.epoch != y.epoch then Epochs(x.epoch > y.epoch)
    else
      var d := PartDecision(x.upstream, 0, y.upstream, 0);
      if d != Level then d else PartDecision(x.revision, 0, y.revision, 0)
  }

  /** version_compare: the sign is that of the order, and the number is that of what decides. */
  method Compare(a: Text, b: Text) returns (r: int)
    requires NoZero(a) && NoZero(b)
    ensures Sign(r) == Versions(a, b) && r == Result(Decided(a, b))
  {
    hide Parts, Atoi, PartDecision, Order;
    var x, y := Split(a), Split(b);
    if x.epoch < y.epoch {
      return -1;
    }
    if x.epoch > y.epoch {
      return 1;
    }
    DecisionShape(x.upstream, 0, y.upstream, 0);
    r := CompareParts(x.upstream, y.upstream);
    if r == 0 {
      r := CompareParts(x.revision, y.revision);
    }
  }

  // --- When the number is -1, 0 or 1 ---

  /** A decision that makes a difference. */
  ghost predicate Differs(d: Decision) {
    match d
    case Level => false
    case Characters(x, y) => Order(x) != Order(y)
    case Digits(x, y) => x != y
    case _ => true
  }

  lemma {:induction false} RunShape(a: Text, i: nat, b: Text, j: nat)
    requires i <= |a| && j <= |b|
    ensures RunDecision(a, i, b, j) == Level || Differs(RunDecision(a, i, b, j))
    decreases |a| - i
  {
    if i < |a| && j < |b| {
      RunShape(a, i + 1, b, j + 1);
    }
  }

  lemma {:induction false} DecisionShape(a: Text, i: nat, b: Text, j: nat)
    requires i <= |a| && j <= |b|
    ensures var d := PartDecision(a, i, b, j);
            (d == Level || Differs(d)) && (Result(d) == 0 <==> d == Level)
    decreases |a| - i + |b| - j
  {
    hide Order;
    if i < |a| || j < |b| {
      RunShape(a, i, b, j);
      if RunDecision(a, i, b, j) == Level {
        var h, k := RunEnd(a, i), RunEnd(b, j);
        LevelDigits(a, ZerosEnd(a, h), b, ZerosEnd(b, k));
        if NumberDecision(a, ZerosEnd(a, h), b, ZerosEnd(b, k)) == Level {
          Onward(a, i);
          Onward(b, j);
          DecisionShape(a, DigitsEnd(a, h), b, DigitsEnd(b, k));
        }
      }
    }
  }

  predicate IsOther(c: byte) {
    c != 0x7e && c != 0 && !IsDigit(c) && !IsAlpha(c)
  }

  predicate IsEnd(c: byte) {
    c == 0 || IsDigit(c)
  }

  predicate Adjacent(x: int, y: int) {
    x == y + 1 || y == x + 1
  }

  /** Two letters, or two other characters, that follow each other in ASCII, or a tilde against a digit or the end. */
  predicate Neighbours(x: byte, y: byte) {
    || (((IsAlpha(x) && IsAlpha(y)) || (IsOther(x) && IsOther(y))) && Adjacent(x, y))
    || (x == 0x7e && IsEnd(y)) || (y == 0x7e && IsEnd(x))
  }

  /** The decisions told by a number of at most 1. */
  predicate SmallStep(d: Decision) {
    match d
    case Characters(x, y) => Neighbours(x, y)
    case Digits(x, y) => Adjacent(x, y)
    case _ => true
  }

  /** The result of version_compare is -1, 0 or 1 if and only if what decides are neighbouring characters, neighbouring
      digits, the number of digits or the epochs, or nothing does. */
  lemma {:induction false} UnitResult(a: Text, b: Text)
    ensures -1 <= Result(Decided(a, b)) <= 1 <==> SmallStep(Decided(a, b))
  {
    hide Split, PartDecision;
    var x, y := Split(a), Split(b);
    DecisionShape(x.upstream, 0, y.upstream, 0);
    DecisionShape(x.revision, 0, y.revision, 0);
  }

  /** For example "a" is below "c" by 2. */
  lemma {:induction false} TwoBelow()
    ensures Result(Decided([0x61], [0x63])) == -2
  {
    assert [0x61 as byte][1..] == [] && [0x63 as byte][1..] == [] && [0x61 as byte][..0] == []
      && [0x63 as byte][..0] == [];
    assert Split([0x61]) == Version(0, [0x61], []) && Split([0x63]) == Version(0, [0x63], []);
    assert PartDecision([0x61], 0, [0x63], 0) == Characters(0x61, 0x63);
  }

  // --- Laws of the order ---

  lemma {:induction false} Reflexive(a: Text)
    ensures Versions(a, a) == 0
  {
    LexReflexive(Key(Split(a).upstream, 0));
    LexReflexive(Key(Split(a).revision, 0));
  }

  lemma {:induction false} Antisymmetric(a: Text, b: Text)
    ensures Versions(b, a) == -Versions(a, b)
  {
    hide Split, Key, Lex;
    var x, y := Split(a), Split(b);
    LexAntisymmetric(Key(x.upstream, 0), Key(y.upstream, 0));
    LexAntisymmetric(Key(x.revision, 0), Key(y.revision, 0));
  }

  lemma {:induction false} PartsTransitive(a: Text, b: Text, c: Text)
    requires Parts(a, b) <= 0 && Parts(b, c) <= 0
    ensures Parts(a, c) <= 0 && (Parts(a, c) == 0 <==> Parts(a, b) == 0 && Parts(b, c) == 0)
  {
    LexTransitive(Key(a, 0), Key(b, 0), Key(c, 0));
    LexAntisymmetric(Key(a, 0), Key(b, 0));
    LexAntisymmetric(Key(b, 0), Key(c, 0));
    LexAntisymmetric(Key(a, 0), Key(c, 0));
    if Parts(a, b) == 0 && Parts(b, c) == 0 {
      LexTransitive(Key(c, 0), Key(b, 0), Key(a, 0));
    }
  }

  lemma {:induction false} Transitive(a: Text, b: Text, c: Text)
    requires Versions(a, b) <= 0 && Versions(b, c) <= 0
    ensures Versions(a, c) <= 0 && (Versions(a, c) == 0 <==> Versions(a, b) == 0 && Versions(b, c) == 0)
  {
    hide Split, Parts;
    var x, y, z := Split(a), Split(b), Split(c);
    if x.epoch == y.epoch == z.epoch && Parts(x.upstream, y.upstream) <= 0 && Parts(y.upstream, z.upstream) <= 0 {
      PartsTransitive(x.upstream, y.upstream, z.upstream);
      if Parts(x.upstream, y.upstream) == 0 && Parts(y.upstream, z.upstream) == 0 {
        PartsTransitive(x.revision, y.revision, z.revision);
      }
    }
  }

  // --- What the order means ---

  /** A tilde sorts before everything, even the end of the part: "1.0~rc1" comes before "1.0". */
  lemma {:induction false} TildeFirst(s: Text, t: Text)
    requires NoZero(s) && NoZero(t)
    ensures Parts(s + [0x7e] + t, s) == -1
  {
    var u := s + [0x7e] + t;
    TildeBelow(s, u, 0);
    KeyIsRest(u, 0, s, 0);
  }

  lemma {:induction false} TildeBelow(s: Text, u: Text, i: nat)
    requires NoZero(s) && NoZero(u) && i <= |s| < |u| && u[..|s|] == s && u[|s|] == 0x7e
    ensures Lex(Rest(u, i), Rest(s, i)) == -1
    decreases |s| - i
  {
    hide Rest, Key;
    SameAt(s, u, i);
    if i == |s| {
      OrdersDecide(u, i, s, i);
    } else if NonDigit(s, i) {
      OrdersPass(u, i, s, i);
      TildeBelow(s, u, i + 1);
    } else {
      SameNumber(s, u, i, 0);
      NumbersCompare(u, i, s, i);
      var m := DigitsEnd(s, i);
      KeyIsRest(u, m, s, m);
      RunsAdvance(s, i);
      TildeBelow(s, u, m);
    }
  }

  lemma {:induction false} SameAt(s: Text, u: Text, i: nat)
    requires i <= |s| < |u| && u[..|s|] == s
    ensures i < |s| ==> At(u, i) == At(s, i) && u[i] == s[i]
  {
    assert i < |s| ==> u[..|s|][i] == s[i];
  }

  lemma {:induction false} SameNumber(s: Text, u: Text, i: nat, v: nat)
    requires i <= |s| < |u| && u[..|s|] == s && u[|s|] == 0x7e
    ensures DigitsEnd(u, i) == DigitsEnd(s, i)
    ensures Value(u, i, DigitsEnd(s, i), v) == Value(s, i, DigitsEnd(s, i), v)
    decreases |s| - i
  {
    SameAt(s, u, i);
    if i < |s| && IsDigit(s[i]) {
      SameNumber(s, u, i + 1, 10 * v + (s[i] - 0x30));
    }
  }

  /** Two numbers alone compare by value, whatever zeros lead them. */
  lemma {:induction false} NumbersByValue(a: Text, b: Text)
    requires forall k :: 0 <= k < |a| ==> IsDigit(a[k])
    requires forall k :: 0 <= k < |b| ==> IsDigit(b[k])
    ensures Parts(a, b) == Sign(Value(a, 0, |a|, 0) - Value(b, 0, |b|, 0))
  {
    KeyIsRest(a, 0, b, 0);
    NumbersCompare(a, 0, b, 0);
    AllDigits(a, 0);
    AllDigits(b, 0);
  }

  lemma {:induction false} AllDigits(s: Text, i: nat)
    requires i <= |s| && forall k :: 0 <= k < |s| ==> IsDigit(s[k])
    ensures DigitsEnd(s, i) == |s|
    decreases |s| - i
  {
    if i < |s| {
      AllDigits(s, i + 1);
    }
  }

  // --- Relations between versions ---

  datatype Relation = Null | Any | Equal | Less | LessEqual | More | MoreEqual

  /** test_version: each relation is the one that its name says in the order of versions. */
  method TestVersion(a: Text, b: Text, operator: Relation) returns (yes: bool)
    requires NoZero(a) && NoZero(b)
    ensures yes <==> Related(Versions(a, b), operator)
  {
    var result := Compare(a, b);
    match operator
    case Null => yes := false;
    case Any => yes := true;
    case Equal => yes := result == 0;
    case Less => yes := result < 0;
    case LessEqual => yes := result <= 0;
    case More => yes := result > 0;
    case MoreEqual => yes := result >= 0;
  }

  predicate Related(order: int, operator: Relation) {
    match operator
    case Null => false
    case Any => true
    case Equal => order == 0
    case Less => order == -1
    case LessEqual => order == -1 || order == 0
    case More => order == 1
    case MoreEqual => order == 1 || order == 0
  }
}
