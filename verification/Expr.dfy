/** The evaluator of expr: parsing and computing in one pass over the arguments. */
module Expr {
  import opened Options
  import opened ExprValues

  /** What the evaluator does not decide: the pattern match, which may stop with an error, and what becomes of results
      that do not fit. */
  datatype Env = Env(colon: (string, string) -> Option<Value>, beyond: Beyond)

  /** What evaluation makes of the arguments from some place on: an error, or a value and the place behind. */
  datatype Parsed = Died | Done(value: Value, pos: nat)

  function NextArg(toks: seq<string>, p: nat, s: string): nat {
    if p >= |toks| || toks[p] != s then 0 else Code(s)
  }

  function FirstOf(a: nat, b: nat): nat {
    if a != 0 then a else b
  }

  /** The code of the operator at p if it is one of this level: | & comparisons, sums, products, matches. */
  function Operator(level: nat, toks: seq<string>, p: nat): nat {
    match level
    case 0 => NextArg(toks, p, "|")
    case 1 => NextArg(toks, p, "&")
    case 2 =>
      FirstOf(NextArg(toks, p, "<"), FirstOf(NextArg(toks, p, "<="), FirstOf(NextArg(toks, p, "="),
        FirstOf(NextArg(toks, p, "=="), FirstOf(NextArg(toks, p, "!="), FirstOf(NextArg(toks, p, ">="),
          NextArg(toks, p, ">")))))))
    case 3 => FirstOf(NextArg(toks, p, "+"), NextArg(toks, p, "-"))
    case 4 => FirstOf(NextArg(toks, p, "*"), FirstOf(NextArg(toks, p, "/"), NextArg(toks, p, "%")))
    case 5 => NextArg(toks, p, ":")
    case _ => 0
  }

  function AsValue(i: Option<int>): Option<Value> {
    match i
    case Some(n) => Some(Int(n))
    case None => None
  }

  /** What the operator makes of two values. */
  function Apply(level: nat, op: nat, l: Value, r: Value, env: Env): Option<Value> {
    match level
    case 0 => Some(if Null(l) then r else l)
    case 1 => Some(if Null(l) || Null(r) then Int(0) else l)
    case 2 => Some(Int(if CmpCommon(Coerced(l), Coerced(r), op) then 1 else 0))
    case 5 => env.colon(ToString(l), ToString(r))
    case _ => AsValue(ArithmeticCommon(l, r, op, env.beyond))
  }

  /** strcspn. */
  function Span(s: string, chars: string): nat {
    if s == "" || s[0] in chars then 0 else 1 + Span(s[1..], chars)
  }

  function IndexOf(s: string, chars: string): int {
    var n := Span(s, chars) + 1;
    if n == |s| + 1 then 0 else n
  }

  function Substring(s: string, first: Option<int>, length: Option<int>): string {
    if first.None? || length.None? || first.value > |s| || first.value <= 0 || length.value <= 0 then ""
    else if first.value - 1 + length.value > |s| then s[first.value - 1..]
    else s[first.value - 1..first.value - 1 + length.value]
  }

  predicate Keyword(token: string) {
    token == "quote" || token == "length" || token == "match" || token == "index" || token == "substr"
  }

  /** eval to eval5: operands of the next level joined by operators of this one, from the left. */
  function Level(level: nat, toks: seq<string>, p: nat, env: Env): (r: Parsed)
    requires p <= |toks| && level <= 6
    ensures r.Done? ==> p < r.pos <= |toks|
    decreases |toks| - p, 8 - level
  {
    if level == 6 then Factor(toks, p, env)
    else
      match Level(level + 1, toks, p, env)
      case Died => Died
      case Done(l, q) => More(level, toks, q, l, env)
  }

  function More(level: nat, toks: seq<string>, p: nat, l: Value, env: Env): (r: Parsed)
    requires p <= |toks| && level < 6
    ensures r.Done? ==> p <= r.pos <= |toks|
    decreases |toks| - p, 0
  {
    var op := Operator(level, toks, p);
    if p == |toks| || op == 0 then Done(l, p)
    else
      match Level(level + 1, toks, p + 1, env)
      case Died => Died
      case Done(r, q) =>
        match Apply(level, op, l, r, env)
        case None => Died
        case Some(v) => More(level, toks, q, v, env)
  }

  /** eval6: keywords. */
  function Factor(toks: seq<string>, p: nat, env: Env): (r: Parsed)
    requires p <= |toks|
    ensures r.Done? ==> p < r.pos <= |toks|
    decreases |toks| - p, 1
  {
    if p == |toks| || !Keyword(toks[p]) then Primary(toks, p, env)
    else if toks[p] == "quote" then
      if p + 1 == |toks| then Died else Done(Str(toks[p + 1]), p + 2)
    else
      match Factor(toks, p + 1, env)
      case Died => Died
      case Done(l, q) =>
        if toks[p] == "length" then Done(Int(|ToString(l)|), q)
        else
          match Factor(toks, q, env)
          case Died => Died
          case Done(r, q') =>
            if toks[p] == "match" then
              match env.colon(ToString(l), ToString(r))
              case None => Died
              case Some(v) => Done(v, q')
            else if toks[p] == "index" then Done(Int(IndexOf(ToString(l), ToString(r))), q')
            else
              match Factor(toks, q', env)
              case Died => Died
              case Done(n, q'') => Done(Str(Substring(ToString(l), ToArith(r), ToArith(n))), q'')
  }

  /** eval7: operands and parentheses. */
  function Primary(toks: seq<string>, p: nat, env: Env): (r: Parsed)
    requires p <= |toks|
    ensures r.Done? ==> p < r.pos <= |toks|
    decreases |toks| - p, 0
  {
    if p == |toks| then Died
    else if toks[p] == "(" then
      match Level(0, toks, p + 1, env)
      case Died => Died
      case Done(v, q) => if q < |toks| && toks[q] == ")" then Done(v, q + 1) else Died
    else if toks[p] == ")" then Died
    else Done(Str(toks[p]), p + 1)
  }

  // --- The evaluator ---

  /** What a call left: an error, or a value with the cursor at pos. */
  function Left(v: Option<Value>, pos: nat): Parsed {
    match v
    case None => Died
    case Some(value) => Done(value, pos)
  }

  class Evaluator {
    const toks: seq<string>
    const env: Env
    var args: nat

    ghost predicate Valid()
      reads this
    {
      args <= |toks|
    }

    constructor (toks: seq<string>, env: Env)
      ensures Valid() && this.toks == toks && this.env == env && args == 0
    {
      this.toks := toks;
      this.env := env;
      args := 0;
    }

    /** eval to eval5. */
    method EvalLevel(level: nat) returns (v: Option<Value>)
      requires Valid() && level <= 6
      modifies this
      ensures Valid() && Level(level, toks, old(args), env) == Left(v, args)
      decreases |toks| - args, 8 - level
    {
      hide Operator, Apply, Factor, Primary;
      if level == 6 {
        v := EvalFactor();
        return;
      }
      v := EvalLevel(level + 1);
      if v.None? {
        return;
      }
      while true
        invariant Valid() && old(args) < args && v.Some?
        invariant Level(level, toks, old(args), env) == More(level, toks, args, v.value, env)
        decreases |toks| - args
      {
        var op := Operator(level, toks, args);
        if args == |toks| || op == 0 {
          return;
        }
        args := args + 1;
        var r := EvalLevel(level + 1);
        if r.None? {
          return None;
        }
        v := Apply(level, op, v.value, r.value, env);
        if v.None? {
          return;
        }
      }
    }

    /** eval6. */
    method EvalFactor() returns (v: Option<Value>)
      requires Valid()
      modifies this
      ensures Valid() && Factor(toks, old(args), env) == Left(v, args)
      decreases |toks| - args, 1
    {
      if args == |toks| || !Keyword(toks[args]) {
        v := EvalPrimary();
        return;
      }
      var key := toks[args];
      args := args + 1;
      if key == "quote" {
        if args == |toks| {
          return None;
        }
        args := args + 1;
        return Some(Str(toks[args - 1]));
      }
      var l := EvalFactor();
      if l.None? {
        return None;
      }
      if key == "length" {
        return Some(Int(|ToString(l.value)|));
      }
      var r := EvalFactor();
      if r.None? {
        return None;
      }
      if key == "match" {
        v := env.colon(ToString(l.value), ToString(r.value));
      } else if key == "index" {
        v := Some(Int(IndexOf(ToString(l.value), ToString(r.value))));
      } else {
        var n := EvalFactor();
        if n.None? {
          return None;
        }
        v := Some(Str(Substring(ToString(l.value), ToArith(r.value), ToArith(n.value))));
      }
    }

    /** eval7. */
    method EvalPrimary() returns (v: Option<Value>)
      requires Valid()
      modifies this
      ensures Valid() && Primary(toks, old(args), env) == Left(v, args)
      decreases |toks| - args, 0
    {
      if args == |toks| {
        return None;
      }
      if toks[args] == "(" {
        args := args + 1;
        v := EvalLevel(0);
        if v.None? {
          return;
        }
        if args == |toks| || toks[args] != ")" {
          return None;
        }
        args := args + 1;
        return;
      }
      if toks[args] == ")" {
        return None;
      }
      args := args + 1;
      v := Some(Str(toks[args - 1]));
    }
  }

  /** expr_main: the line printed and whether the exit status is 1; None when it stops with an error. */
  method ExprMain(toks: seq<string>, env: Env) returns (r: Option<(string, bool)>)
    ensures r == Outcome(toks, env)
  {
    if toks == [] {
      return None;
    }
    var e := new Evaluator(toks, env);
    var v := e.EvalLevel(0);
    if v.None? || e.args != |toks| {
      return None;
    }
    r := Some((ToString(v.value), Null(v.value)));
  }

  function Outcome(toks: seq<string>, env: Env): Option<(string, bool)> {
    match Level(0, toks, 0, env)
    case Died => None
    case Done(v, q) => if q == |toks| then Some((ToString(v), Null(v))) else None
  }
}
