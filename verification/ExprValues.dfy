/** The values of expr: integers and strings, turned into each other as operators ask. */
module ExprValues {
  import opened Options
  import opened Bits

  const MIN64 := -0x8000_0000_0000_0000
  const MAX64 := 0x7fff_ffff_ffff_ffff

  datatype Value = Int(i: int) | Str(s: string)

  predicate Fits(i: int) {
    MIN64 <= i <= MAX64
  }

  /** Neither null nor zero counts as true. */
  predicate Null(v: Value) {
    match v
    case Int(i) => i == 0
    case Str(s) => s == "" || s == "0"
  }

  // --- Decimal ---

  function Digit(d: nat): char
    requires d < 10
  {
    '0' + d as char
  }

  predicate IsDigit(c: char) {
    '0' <= c <= '9'
  }

  function Decimal(n: nat): string {
    if n < 10 then [Digit(n)] else Decimal(n / 10) + [Digit(n % 10)]
  }

  function ToString(v: Value): string {
    match v
    case Str(s) => s
    case Int(i) => if i < 0 then "-" + Decimal(-i) else Decimal(i)
  }

  predicate IsSpace(c: char) {
    c == ' ' || 9 <= c as int <= 13
  }

  predicate AllDigits(s: string) {
    forall k :: 0 <= k < |s| ==> IsDigit(s[k])
  }

  function Number(s: string): nat
    requires AllDigits(s)
  {
    if s == "" then 0 else 10 * Number(s[..|s| - 1]) + (s[|s| - 1] as int - '0' as int)
  }

  function Clamped(i: int): int {
    if i < MIN64 then MIN64 else if i > MAX64 then MAX64 else i
  }

  /** strtoll over the whole text: blanks, a sign, digits and nothing else. */
  function Strtol(s: string): Option<int> {
    if s == "" then None
    else if IsSpace(s[0]) then Strtol(s[1..])
    else
      var digits := if s[0] == '-' || s[0] == '+' then s[1..] else s;
      if digits == "" || !AllDigits(digits) then None
      else Some(Clamped(if s[0] == '-' then 0 - Number(digits) else Number(digits)))
  }

  /** toarith: the number a value stands for, if it stands for one. */
  function ToArith(v: Value): Option<int> {
    match v
    case Int(i) => Some(i)
    case Str(s) => Strtol(s)
  }

  /** What toarith leaves in the value. */
  function Coerced(v: Value): Value {
    match ToArith(v)
    case Some(i) => Int(i)
    case None => v
  }

  lemma {:induction false} DecimalBack(n: nat)
    ensures AllDigits(Decimal(n)) && Decimal(n) != "" && Number(Decimal(n)) == n
  {
    if n >= 10 {
      DecimalBack(n / 10);
      var s := Decimal(n);
      assert s[..|s| - 1] == Decimal(n / 10);
    } else {
      assert Decimal(n)[..0] == "";
    }
  }

  /** A number turned into text and back is the same number. */
  lemma {:induction false} ToStringBack(i: int)
    requires Fits(i)
    ensures ToArith(Str(ToString(Int(i)))) == Some(i)
  {
    hide AllDigits, Number, Decimal;
    var n := if i < 0 then -i else i;
    DecimalBack(n);
    var s := ToString(Int(i));
    if i < 0 {
      assert s[0] == '-' && s[1..] == Decimal(n);
    } else {
      FirstDigit(s);
    }
  }

  lemma {:induction false} FirstDigit(s: string)
    requires AllDigits(s) && s != ""
    ensures IsDigit(s[0])
  {
  }

  lemma {:induction false} StrtolFits(s: string)
    ensures Strtol(s).Some? ==> Fits(Strtol(s).value)
  {
    if s != "" && IsSpace(s[0]) {
      StrtolFits(s[1..]);
    }
  }

  // --- Comparison ---

  function Strcmp(a: string, b: string): int {
    if a == "" && b == "" then 0
    else if a == "" then -1
    else if b == "" then 1
    else if a[0] != b[0] then (if a[0] < b[0] then -1 else 1)
    else Strcmp(a[1..], b[1..])
  }

  /** What nextarg returns for an operator: its first two characters added up. */
  function Code(token: string): nat {
    if token == "" then 0
    else if |token| == 1 then token[0] as int
    else token[0] as int + token[1] as int
  }

  /** cmp_common, on values that toarith has seen. */
  function CmpCommon(l: Value, r: Value, op: nat): bool {
    var text := l.Str? || r.Str?;
    var ll := if text then Strcmp(ToString(l), ToString(r)) else l.i;
    var rr := if text then 0 else r.i;
    if op == '<' as int then ll < rr
    else if op == '<' as int + '=' as int then ll <= rr
    else if op == '=' as int || op == '=' as int + '=' as int then ll == rr
    else if op == '!' as int + '=' as int then ll != rr
    else if op == '>' as int then ll > rr
    else ll >= rr
  }

  // --- Arithmetic ---

  /** C division, which rounds towards zero. */
  function Quotient(a: int, b: int): int
    requires b != 0
  {
    if (a < 0) == (b < 0) then Abs(a) / Abs(b) else -(Abs(a) / Abs(b))
  }

  function Abs(a: int): nat {
    if a < 0 then -a else a
  }

  function Remainder(a: int, b: int): int
    requires b != 0
  {
    a - Quotient(a, b) * b
  }

  type Int64 = i: int | MIN64 <= i <= MAX64

  /** What a machine makes of an operation whose result does not fit, which C leaves undefined: some number, or it
      stops. */
  type Beyond = (char, int, int) -> Option<Int64>

  function InRange(i: int, other: Option<Int64>): Option<int> {
    if Fits(i) then Some(i) else other
  }

  /** arithmetic_common; None where it stops. */
  function ArithmeticCommon(l: Value, r: Value, op: nat, beyond: Beyond): Option<int> {
    var a, b := ToArith(l), ToArith(r);
    if a.None? || b.None? then None
    else
      var li, ri := a.value, b.value;
      if op == '+' as int then InRange(li + ri, beyond('+', li, ri))
      else if op == '-' as int then InRange(li - ri, beyond('-', li, ri))
      else if op == '*' as int then InRange(li * ri, beyond('*', li, ri))
      else if ri == 0 then None
      else if op == '/' as int then InRange(Quotient(li, ri), beyond('/', li, ri))
      else if Fits(Quotient(li, ri)) then Some(Remainder(li, ri))
      else beyond('%', li, ri)
  }

  /** The one quotient that does not fit, for which C leaves the remainder undefined too. */
  lemma {:induction false} QuotientFits(a: int, b: int)
    requires Fits(a) && Fits(b) && b != 0
    ensures Fits(Quotient(a, b)) <==> !(a == MIN64 && b == -1)
  {
    if b == 1 || b == -1 {
      assert Abs(a) / 1 == Abs(a);
    } else {
      AtMostHalf(Abs(a), Abs(b));
    }
  }

  lemma {:induction false} AtMostHalf(a: nat, b: nat)
    requires b >= 2
    ensures 2 * (a / b) <= a
  {
    DivModParts(a, b);
    MulMono(a / b, 2, b);
  }

  /** C division and remainder belong together. */
  lemma {:induction false} QuotientRemainder(a: int, b: int)
    requires b != 0
    ensures a == Quotient(a, b) * b + Remainder(a, b)
    ensures Abs(Remainder(a, b)) < Abs(b) && (Remainder(a, b) == 0 || (Remainder(a, b) < 0) == (a < 0))
  {
    DivModParts(Abs(a), Abs(b));
    var q := Abs(a) / Abs(b);
    if (a < 0) == (b < 0) {
      assert q * b == if b < 0 then -(q * Abs(b)) else q * Abs(b);
    } else {
      assert -q * b == if b < 0 then q * Abs(b) else -(q * Abs(b));
    }
  }
}
