/** Expression trees: printed with the parentheses they need, they evaluate to what they mean. */
module ExprTrees {
  import opened Options
  import opened ExprValues
  import opened Expr

  datatype Op =
    | Or | And
    | Less | LessEqual | Equal | EqualEqual | NotEqual | GreaterEqual | Greater
    | Plus | Minus | Times | Divide | Modulo
    | Matches

  datatype Tree =
    | Operand(token: string)
    | Quote(token: string)
    | Parens(inner: Tree)
    | Binary(op: Op, left: Tree, right: Tree)
    | Length(arg: Tree)
    | Match(subject: Tree, pattern: Tree)
    | Index(text: Tree, chars: Tree)
    | Substr(whole: Tree, first: Tree, count: Tree)

  function LevelOf(op: Op): (level: nat)
    ensures level < 6
  {
    match op
    case Or => 0
    case And => 1
    case Plus => 3
    case Minus => 3
    case Times => 4
    case Divide => 4
    case Modulo => 4
    case Matches => 5
    case _ => 2
  }

  function Token(op: Op): string {
    match op
    case Or => "|"
    case And => "&"
    case Less => "<"
    case LessEqual => "<="
    case Equal => "="
    case EqualEqual => "=="
    case NotEqual => "!="
    case GreaterEqual => ">="
    case Greater => ">"
    case Plus => "+"
    case Minus => "-"
    case Times => "*"
    case Divide => "/"
    case Modulo => "%"
    case Matches => ":"
  }

  // --- Meaning ---

  /** Comparisons are of numbers if both sides are numbers, else of texts. */
  function Relation(l: Value, r: Value): int {
    if l.Int? && r.Int? then l.i - r.i else Strcmp(ToString(l), ToString(r))
  }

  function Compared(op: Op, order: int): bool {
    match op
    case Less => order < 0
    case LessEqual => order <= 0
    case Equal => order == 0
    case EqualEqual => order == 0
    case NotEqual => order != 0
    case GreaterEqual => order >= 0
    case _ => order > 0
  }

  function Computed(op: Op, a: int, b: int, beyond: Beyond): Option<int> {
    match op
    case Plus => InRange(a + b, beyond('+', a, b))
    case Minus => InRange(a - b, beyond('-', a, b))
    case Times => InRange(a * b, beyond('*', a, b))
    case Divide => if b == 0 then None else InRange(Quotient(a, b), beyond('/', a, b))
    case _ =>
      if b == 0 then None
      else if Fits(Quotient(a, b)) then Some(Remainder(a, b))
      else beyond('%', a, b)
  }

  function Combined(op: Op, l: Value, r: Value, env: Env): Option<Value> {
    match op
    case Or => Some(if Null(l) then r else l)
    case And => Some(if Null(l) || Null(r) then Int(0) else l)
    case Matches => env.colon(ToString(l), ToString(r))
    case Plus => Arithmetic(op, l, r, env)
    case Minus => Arithmetic(op, l, r, env)
    case Times => Arithmetic(op, l, r, env)
    case Divide => Arithmetic(op, l, r, env)
    case Modulo => Arithmetic(op, l, r, env)
    case _ => Some(Int(if Compared(op, Relation(Coerced(l), Coerced(r))) then 1 else 0))
  }

  function Arithmetic(op: Op, l: Value, r: Value, env: Env): Option<Value> {
    match (ToArith(l), ToArith(r))
    case (Some(a), Some(b)) => AsValue(Computed(op, a, b, env.beyond))
    case _ => None
  }

  /** What a tree means; with None evaluation stops. */
  function Meaning(t: Tree, env: Env): Option<Value> {
    match t
    case Operand(token) => Some(Str(token))
    case Quote(token) => Some(Str(token))
    case Parens(e) => Meaning(e, env)
    case Binary(op, l, r) =>
      (match (Meaning(l, env), Meaning(r, env))
       case (Some(a), Some(b)) => Combined(op, a, b, env)
       case _ => None)
    case Length(e) =>
      (match Meaning(e, env)
       case Some(v) => Some(Int(|ToString(v)|))
       case None => None)
    case Match(s, e) =>
      (match (Meaning(s, env), Meaning(e, env))
       case (Some(a), Some(b)) => env.colon(ToString(a), ToString(b))
       case _ => None)
    case Index(s, e) =>
      (match (Meaning(s, env), Meaning(e, env))
       case (Some(a), Some(b)) => Some(Int(IndexOf(ToString(a), ToString(b))))
       case _ => None)
    case Substr(s, f, n) =>
      (match (Meaning(s, env), Meaning(f, env), Meaning(n, env))
       case (Some(a), Some(b), Some(c)) => Some(Str(Substring(ToString(a), ToArith(b), ToArith(c))))
       case _ => None)
  }

  // --- Printing ---

  predicate Special(token: string) {
    Keyword(token) || token == "(" || token == ")"
  }

  /** The level at which a tree stands without parentheses. */
  function Own(t: Tree): (level: nat)
    ensures level <= 6
  {
    if t.Binary? then LevelOf(t.op) else 6
  }

  /** A tree as an operand of the given level. */
  function Print(level: nat, t: Tree): (r: seq<string>)
    requires level <= 6
    ensures r != []
    decreases t, level
  {
    if level > Own(t) then ["("] + Print(0, t) + [")"]
    else
      match t
      case Operand(token) => if Special(token) then ["quote", token] else [token]
      case Quote(token) => ["quote", token]
      case Parens(e) => ["("] + Print(0, e) + [")"]
      case Binary(op, l, r) => Print(LevelOf(op), l) + [Token(op)] + Print(LevelOf(op) + 1, r)
      case Length(e) => ["length"] + Print(6, e)
      case Match(s, e) => ["match"] + Print(6, s) + Print(6, e)
      case Index(s, e) => ["index"] + Print(6, s) + Print(6, e)
      case Substr(s, f, n) => ["substr"] + Print(6, s) + Print(6, f) + Print(6, n)
  }

  // --- Operators are told apart ---

  lemma {:induction false} OperatorAt(op: Op, toks: seq<string>, p: nat)
    requires p < |toks| && toks[p] == Token(op)
    ensures Operator(LevelOf(op), toks, p) == Code(Token(op)) != 0
  {
  }

  lemma {:induction false} CodeCompares(op: Op, l: Value, r: Value)
    requires LevelOf(op) == 2
    ensures CmpCommon(l, r, Code(Token(op))) == Compared(op, Relation(l, r))
  {
    hide ToString, Strcmp;
  }

  lemma {:induction false} CodeComputes(op: Op, l: Value, r: Value, env: Env)
    requires 3 <= LevelOf(op) <= 4
    ensures AsValue(ArithmeticCommon(l, r, Code(Token(op)), env.beyond)) == Arithmetic(op, l, r, env)
  {
    hide ToArith, InRange, Quotient, Remainder;
  }

  /** The codes tell the operators of a level apart. */
  lemma {:induction false} CodeApplies(op: Op, l: Value, r: Value, env: Env)
    ensures Apply(LevelOf(op), Code(Token(op)), l, r, env) == Combined(op, l, r, env)
  {
    hide ToString, Coerced, CmpCommon, ArithmeticCommon, Compared, Relation, Arithmetic, Null, Token, Code;
    if LevelOf(op) == 2 {
      CodeCompares(op, Coerced(l), Coerced(r));
    } else if 3 <= LevelOf(op) <= 4 {
      CodeComputes(op, l, r, env);
    }
  }

  lemma {:induction false} OtherLevels(op: Op, level: nat, toks: seq<string>, p: nat)
    requires p < |toks| && toks[p] == Token(op) && level != LevelOf(op)
    ensures Operator(level, toks, p) == 0
  {
  }

  // --- Printed trees evaluate to their meaning ---

  /** The arguments from p on start with these. */
  ghost predicate Here(toks: seq<string>, p: nat, s: seq<string>) {
    p + |s| <= |toks| && toks[p..p + |s|] == s
  }

  lemma {:induction false} HereSplit(toks: seq<string>, p: nat, a: seq<string>, b: seq<string>)
    requires Here(toks, p, a + b)
    ensures Here(toks, p, a) && Here(toks, p + |a|, b)
  {
    assert a == (a + b)[..|a|] && b == (a + b)[|a|..];
  }

  lemma {:induction false} HereOne(toks: seq<string>, p: nat, a: string)
    requires Here(toks, p, [a])
    ensures p < |toks| && toks[p] == a
  {
    assert toks[p] == toks[p..p + 1][0];
  }

  /** No operator of this level or a higher one comes next. */
  ghost predicate Quiet(toks: seq<string>, p: nat, level: nat) {
    forall l :: level <= l ==> Operator(l, toks, p) == 0
  }

  /** How evaluation goes on with an operand of the level. */
  function Onward(level: nat, toks: seq<string>, p: nat, m: Option<Value>, env: Env): Parsed
    requires p <= |toks|
  {
    match m
    case None => Died
    case Some(v) => if level < 6 then More(level, toks, p, v, env) else Done(v, p)
  }

  lemma {:induction false} OnwardQuiet(level: nat, toks: seq<string>, p: nat, m: Option<Value>, env: Env)
    requires p <= |toks| && Quiet(toks, p, level)
    ensures Onward(level, toks, p, m, env) == Left(m, p)
  {
  }

  /** A tree at p is evaluated as an operand of its level, whatever operators of the level follow. */
  lemma {:induction false} Evaluates(level: nat, t: Tree, toks: seq<string>, p: nat, env: Env)
    requires level <= 6 && Here(toks, p, Print(level, t)) && Quiet(toks, p + |Print(level, t)|, level + 1)
    ensures Level(level, toks, p, env) == Onward(level, toks, p + |Print(level, t)|, Meaning(t, env), env)
    decreases t, if level > Own(t) then 20 - level else 8 - level
  {
    hide Meaning, Operator, Apply, Factor, Primary, Combined, Quiet, Here;
    if level < 6 && level != Own(t) {
      var n := |Print(level, t)|;
      assert Print(level + 1, t) == Print(level, t) by {
        SameText(level, t);
      }
      QuietAbove(toks, p + n, level + 1);
      Evaluates(level + 1, t, toks, p, env);
      HereEnds(toks, p, Print(level, t));
      OnwardQuiet(level + 1, toks, p + n, Meaning(t, env), env);
    } else if level < 6 {
      EvaluatesBinary(t, toks, p, env);
    } else if Own(t) < 6 {
      EvaluatesParens(t, toks, p, env);
      HereEnds(toks, p, Print(level, t));
    } else {
      EvaluatesFactor(t, toks, p, env);
      HereEnds(toks, p, Print(level, t));
    }
  }

  lemma {:induction false} SameText(level: nat, t: Tree)
    requires level < 6 && level != Own(t)
    ensures Print(level + 1, t) == Print(level, t)
  {
  }

  lemma {:induction false} QuietAbove(toks: seq<string>, p: nat, level: nat)
    requires Quiet(toks, p, level)
    ensures Quiet(toks, p, level + 1)
  {
  }

  lemma {:induction false} HereEnds(toks: seq<string>, p: nat, s: seq<string>)
    requires Here(toks, p, s)
    ensures p + |s| <= |toks|
  {
  }

  lemma {:induction false} TokenQuiet(op: Op, toks: seq<string>, p: nat)
    requires p < |toks| && toks[p] == Token(op)
    ensures Quiet(toks, p, LevelOf(op) + 1)
  {
    hide Operator, Token;
    forall l | LevelOf(op) + 1 <= l
      ensures Operator(l, toks, p) == 0
    {
      OtherLevels(op, l, toks, p);
    }
  }

  lemma {:induction false} BinaryText(t: Tree, toks: seq<string>, p: nat)
    requires t.Binary? && Here(toks, p, Print(Own(t), t))
    ensures var a, b := Print(Own(t), t.left), Print(Own(t) + 1, t.right);
            Here(toks, p, a) && p + |a| < |toks| && toks[p + |a|] == Token(t.op) && Here(toks, p + |a| + 1, b)
            && |Print(Own(t), t)| == |a| + 1 + |b|
  {
    hide Here;
    var a, b := Print(Own(t), t.left), Print(Own(t) + 1, t.right);
    assert Print(Own(t), t) == a + ([Token(t.op)] + b);
    HereSplit(toks, p, a, [Token(t.op)] + b);
    HereSplit(toks, p + |a|, [Token(t.op)], b);
    HereOne(toks, p + |a|, Token(t.op));
  }

  /** One turn of the loop at an operator. */
  lemma {:induction false} Turn(op: Op, toks: seq<string>, p: nat, q: nat, l: Value, m: Option<Value>, env: Env)
    requires p < |toks| && q <= |toks| && toks[p] == Token(op)
    requires Level(LevelOf(op) + 1, toks, p + 1, env) == Left(m, q)
    ensures More(LevelOf(op), toks, p, l, env)
         == if m.None? then Died else Onward(LevelOf(op), toks, q, Combined(op, l, m.value, env), env)
  {
    hide Operator, Token, Apply, Combined, Level;
    OperatorAt(op, toks, p);
    if m.Some? {
      CodeApplies(op, l, m.value, env);
    }
  }

  lemma {:induction false} EvaluatesBinary(t: Tree, toks: seq<string>, p: nat, env: Env)
    requires t.Binary? && Here(toks, p, Print(Own(t), t)) && Quiet(toks, p + |Print(Own(t), t)|, Own(t) + 1)
    ensures Level(Own(t), toks, p, env)
         == Onward(Own(t), toks, p + |Print(Own(t), t)|, Meaning(t, env), env)
    decreases t, 0
  {
    hide Operator, Apply, Combined, Quiet, Here, Level, More, Token, Print;
    var level := Own(t);
    var a, b := Print(level, t.left), Print(level + 1, t.right);
    var q := p + |a|;
    var end := p + |Print(level, t)|;
    BinaryText(t, toks, p);
    HereEnds(toks, p, Print(level, t));
    TokenQuiet(t.op, toks, q);
    Evaluates(level, t.left, toks, p, env);
    QuietAbove(toks, end, level + 1);
    Evaluates(level + 1, t.right, toks, q + 1, env);
    OnwardQuiet(level + 1, toks, end, Meaning(t.right, env), env);
    var m := Meaning(t.left, env);
    if m.Some? {
      Turn(t.op, toks, q, end, m.value, Meaning(t.right, env), env);
    }
  }

  lemma {:induction false} ParenQuiet(toks: seq<string>, p: nat)
    requires p < |toks| && toks[p] == ")"
    ensures Quiet(toks, p, 0)
  {
  }

  lemma {:induction false} ParensText(a: seq<string>, toks: seq<string>, p: nat)
    requires Here(toks, p, ["("] + a + [")"])
    ensures p < |toks| && toks[p] == "(" && Here(toks, p + 1, a) && p + 1 + |a| < |toks| && toks[p + 1 + |a|] == ")"
  {
    hide Here;
    assert ["("] + a + [")"] == ["("] + (a + [")"]);
    HereSplit(toks, p, ["("], a + [")"]);
    HereSplit(toks, p + 1, a, [")"]);
    HereOne(toks, p, "(");
    HereOne(toks, p + 1 + |a|, ")");
  }

  lemma {:induction false} EvaluatesParens(t: Tree, toks: seq<string>, p: nat, env: Env)
    requires Here(toks, p, ["("] + Print(0, t) + [")"])
    ensures Factor(toks, p, env) == Left(Meaning(t, env), p + |Print(0, t)| + 2)
    decreases t, 13
  {
    hide Operator, Quiet, Here, More, Print, Meaning, Level, Factor;
    var a := Print(0, t);
    ParensText(a, toks, p);
    ParenQuiet(toks, p + 1 + |a|);
    QuietAbove(toks, p + 1 + |a|, 0);
    Evaluates(0, t, toks, p + 1, env);
    OnwardQuiet(0, toks, p + 1 + |a|, Meaning(t, env), env);
    ParensFactor(toks, p, Meaning(t, env), p + 1 + |a|, env);
  }

  lemma {:induction false} ParensFactor(toks: seq<string>, p: nat, m: Option<Value>, q: nat, env: Env)
    requires p < |toks| && toks[p] == "(" && Level(0, toks, p + 1, env) == Left(m, q)
    requires q < |toks| && toks[q] == ")"
    ensures Factor(toks, p, env) == Left(m, q + 1)
  {
    hide Level;
    assert Factor(toks, p, env) == Primary(toks, p, env);
  }

  /** An argument of a keyword. */
  lemma {:induction false} EvaluatesArg(t: Tree, toks: seq<string>, p: nat, env: Env)
    requires Here(toks, p, Print(6, t))
    ensures p + |Print(6, t)| <= |toks| && Factor(toks, p, env) == Left(Meaning(t, env), p + |Print(6, t)|)
    decreases t, 15
  {
    hide Operator, Quiet, Here, More, Print, Meaning, Factor;
    AlwaysQuiet(toks, p + |Print(6, t)|);
    Evaluates(6, t, toks, p, env);
    HereEnds(toks, p, Print(6, t));
  }

  lemma {:induction false} AlwaysQuiet(toks: seq<string>, p: nat)
    ensures Quiet(toks, p, 7)
  {
  }

  lemma {:induction false} EvaluatesFactor(t: Tree, toks: seq<string>, p: nat, env: Env)
    requires !t.Binary? && Here(toks, p, Print(6, t))
    ensures Factor(toks, p, env) == Left(Meaning(t, env), p + |Print(6, t)|)
    decreases t, 1
  {
    hide Here, Factor, Print;
    match t
    case Operand(token) => EvaluatesOperand(token, toks, p, env);
    case Quote(token) =>
      PrintedQuote(token);
      EvaluatesQuote(token, toks, p, env);
    case Parens(e) =>
      PrintedParens(e);
      EvaluatesParens(e, toks, p, env);
    case Length(e) => EvaluatesLength(t, toks, p, env);
    case Match(a, b) => EvaluatesPair(t, "match", a, b, toks, p, env);
    case Index(a, b) => EvaluatesPair(t, "index", a, b, toks, p, env);
    case Substr(a, b, c) => EvaluatesSubstr(t, toks, p, env);
  }

  lemma {:induction false} EvaluatesLength(t: Tree, toks: seq<string>, p: nat, env: Env)
    requires t.Length? && Here(toks, p, Print(6, t))
    ensures Factor(toks, p, env) == Left(Meaning(t, env), p + |Print(6, t)|)
    decreases t, 0
  {
    hide Here, Factor, ToString;
    HereSplit(toks, p, ["length"], Print(6, t.arg));
    HereOne(toks, p, "length");
    EvaluatesArg(t.arg, toks, p + 1, env);
    LengthFactor(toks, p, Meaning(t.arg, env), p + |Print(6, t)|, env);
  }

  lemma {:induction false} EvaluatesSubstr(t: Tree, toks: seq<string>, p: nat, env: Env)
    requires t.Substr? && Here(toks, p, Print(6, t))
    ensures Factor(toks, p, env) == Left(Meaning(t, env), p + |Print(6, t)|)
    decreases t, 0
  {
    hide Here, Factor, Print, Substring, ToString, ToArith;
    var a, b, c := t.whole, t.first, t.count;
    SubstrText(a, b, c, toks, p);
    var q := p + 1 + |Print(6, a)|;
    var q' := q + |Print(6, b)|;
    EvaluatesArg(a, toks, p + 1, env);
    EvaluatesArg(b, toks, q, env);
    EvaluatesArg(c, toks, q', env);
    SubstrFactor(toks, p, Meaning(a, env), q, Meaning(b, env), q', Meaning(c, env), q' + |Print(6, c)|, env);
  }

  lemma {:induction false} LengthFactor(toks: seq<string>, p: nat, m: Option<Value>, q: nat, env: Env)
    requires p < |toks| && toks[p] == "length" && Factor(toks, p + 1, env) == Left(m, q)
    ensures Factor(toks, p, env) == if m.None? then Died else Done(Int(|ToString(m.value)|), q)
  {
  }

  /** What a keyword with two arguments makes of them. */
  function Paired(key: string, a: Option<Value>, b: Option<Value>, env: Env): Option<Value> {
    if a.None? || b.None? then None
    else if key == "match" then env.colon(ToString(a.value), ToString(b.value))
    else Some(Int(IndexOf(ToString(a.value), ToString(b.value))))
  }

  lemma {:induction false} PairFactor(key: string, toks: seq<string>, p: nat, a: Option<Value>, q: nat,
                                      b: Option<Value>, end: nat, env: Env)
    requires p < |toks| && toks[p] == key && (key == "match" || key == "index") && q <= |toks|
    requires Factor(toks, p + 1, env) == Left(a, q) && Factor(toks, q, env) == Left(b, end)
    ensures Factor(toks, p, env) == Left(Paired(key, a, b, env), end)
  {
    hide ToString, IndexOf;
  }

  lemma {:induction false} SubstrFactor(toks: seq<string>, p: nat, a: Option<Value>, q: nat, b: Option<Value>, q': nat,
                                        c: Option<Value>, end: nat, env: Env)
    requires p < |toks| && toks[p] == "substr" && q <= |toks| && q' <= |toks|
    requires Factor(toks, p + 1, env) == Left(a, q)
    requires Factor(toks, q, env) == Left(b, q') && Factor(toks, q', env) == Left(c, end)
    ensures Factor(toks, p, env)
         == if a.None? || b.None? || c.None? then Died
            else Done(Str(Substring(ToString(a.value), ToArith(b.value), ToArith(c.value))), end)
  {
    hide ToString, ToArith, Substring;
  }

  lemma {:induction false} EvaluatesPair(t: Tree, key: string, a: Tree, b: Tree, toks: seq<string>, p: nat,
                                         env: Env)
    requires (t == Match(a, b) && key == "match") || (t == Index(a, b) && key == "index")
    requires Here(toks, p, Print(6, t))
    ensures Factor(toks, p, env) == Left(Meaning(t, env), p + |Print(6, t)|)
    decreases t, 0
  {
    hide Here, Print, Factor, Meaning, Paired;
    PairMeans(t, key, a, b, env);
    PrintedPair(t, key, a, b);
    PairText(key, a, b, toks, p);
    var q := p + 1 + |Print(6, a)|;
    EvaluatesArg(a, toks, p + 1, env);
    EvaluatesArg(b, toks, q, env);
    PairFactor(key, toks, p, Meaning(a, env), q, Meaning(b, env), q + |Print(6, b)|, env);
  }

  lemma {:induction false} PairMeans(t: Tree, key: string, a: Tree, b: Tree, env: Env)
    requires (t == Match(a, b) && key == "match") || (t == Index(a, b) && key == "index")
    ensures Meaning(t, env) == Paired(key, Meaning(a, env), Meaning(b, env), env)
  {
  }

  lemma {:induction false} PrintedPair(t: Tree, key: string, a: Tree, b: Tree)
    requires (t == Match(a, b) && key == "match") || (t == Index(a, b) && key == "index")
    ensures Print(6, t) == [key] + Print(6, a) + Print(6, b)
  {
  }

  lemma {:induction false} PairText(key: string, a: Tree, b: Tree, toks: seq<string>, p: nat)
    requires Here(toks, p, [key] + Print(6, a) + Print(6, b))
    ensures p < |toks| && toks[p] == key && Here(toks, p + 1, Print(6, a))
    ensures Here(toks, p + 1 + |Print(6, a)|, Print(6, b))
  {
    hide Here, Print;
    HereSplit(toks, p, [key] + Print(6, a), Print(6, b));
    HereSplit(toks, p, [key], Print(6, a));
    HereOne(toks, p, key);
  }

  lemma {:induction false} SubstrText(a: Tree, b: Tree, c: Tree, toks: seq<string>, p: nat)
    requires Here(toks, p, Print(6, Substr(a, b, c)))
    ensures |Print(6, Substr(a, b, c))| == 1 + |Print(6, a)| + |Print(6, b)| + |Print(6, c)|
    ensures p < |toks| && toks[p] == "substr" && Here(toks, p + 1, Print(6, a))
    ensures Here(toks, p + 1 + |Print(6, a)|, Print(6, b))
    ensures Here(toks, p + 1 + |Print(6, a)| + |Print(6, b)|, Print(6, c))
  {
    hide Here, Print;
    PrintedSubstr(a, b, c);
    HereSplit(toks, p, ["substr"] + Print(6, a) + Print(6, b), Print(6, c));
    PairText("substr", a, b, toks, p);
  }

  lemma {:induction false} PrintedQuote(token: string)
    ensures Print(6, Quote(token)) == ["quote", token]
  {
  }

  lemma {:induction false} PrintedLength(a: Tree)
    ensures Print(6, Length(a)) == ["length"] + Print(6, a)
  {
  }

  lemma {:induction false} PrintedSubstr(a: Tree, b: Tree, c: Tree)
    ensures Print(6, Substr(a, b, c)) == ["substr"] + Print(6, a) + Print(6, b) + Print(6, c)
  {
  }

  lemma {:induction false} PrintedParens(e: Tree)
    ensures Print(6, Parens(e)) == ["("] + Print(0, e) + [")"]
  {
  }

  lemma {:induction false} EvaluatesOperand(token: string, toks: seq<string>, p: nat, env: Env)
    requires Here(toks, p, Print(6, Operand(token)))
    ensures Factor(toks, p, env) == Done(Str(token), p + |Print(6, Operand(token))|)
  {
    hide Here;
    if Special(token) {
      EvaluatesQuote(token, toks, p, env);
    } else {
      HereOne(toks, p, token);
    }
  }

  lemma {:induction false} EvaluatesQuote(token: string, toks: seq<string>, p: nat, env: Env)
    requires Here(toks, p, ["quote", token])
    ensures Factor(toks, p, env) == Done(Str(token), p + 2)
  {
    hide Here;
    assert ["quote", token] == ["quote"] + [token];
    HereSplit(toks, p, ["quote"], [token]);
    HereOne(toks, p, "quote");
    HereOne(toks, p + 1, token);
  }

  /** Printed with the parentheses it needs, every tree is evaluated to what it means: exactly its arguments are
      consumed, and evaluation stops when and only when the tree has no meaning. */
  lemma {:induction false} PrintedEvaluates(t: Tree, env: Env)
    ensures Level(0, Print(0, t), 0, env) == Left(Meaning(t, env), |Print(0, t)|)
  {
    hide Operator, More, Meaning, Print, Level;
    var toks := Print(0, t);
    assert toks[0..0 + |toks|] == toks;
    EndQuiet(toks, 0);
    EndQuiet(toks, 1);
    Evaluates(0, t, toks, 0, env);
    OnwardQuiet(0, toks, |toks|, Meaning(t, env), env);
  }

  lemma {:induction false} EndQuiet(toks: seq<string>, level: nat)
    ensures Quiet(toks, |toks|, level)
  {
  }

  // --- Whatever is evaluated is a printed tree ---

  /** The tree stands for the arguments from p to q, at this level without parentheses of its own. */
  ghost predicate Covers(level: nat, t: Tree, toks: seq<string>, p: nat, q: nat, v: Value, env: Env) {
    level <= Own(t) && p <= q <= |toks| && toks[p..q] == Print(level, t) && Meaning(t, env) == Some(v)
  }

  lemma {:induction false} OpAt(level: nat, toks: seq<string>, p: nat) returns (op: Op)
    requires p < |toks| && Operator(level, toks, p) != 0
    ensures LevelOf(op) == level && Token(op) == toks[p]
  {
    var s := toks[p];
    op := if s == "|" then Or else if s == "&" then And
          else if s == "<" then Less else if s == "<=" then LessEqual else if s == "=" then Equal
          else if s == "==" then EqualEqual else if s == "!=" then NotEqual else if s == ">=" then GreaterEqual
          else if s == ">" then Greater else if s == "+" then Plus else if s == "-" then Minus
          else if s == "*" then Times else if s == "/" then Divide else if s == "%" then Modulo else Matches;
  }

  /** What is evaluated as an operand of a level is a tree of that level. */
  lemma {:induction false} LevelIsTree(level: nat, toks: seq<string>, p: nat, env: Env) returns (t: Tree)
    requires p <= |toks| && level <= 6 && Level(level, toks, p, env).Done?
    ensures var r := Level(level, toks, p, env);
            Covers(level, t, toks, p, r.pos, r.value, env)
    decreases |toks| - p, 8 - level
  {
    hide Factor, Primary, More, Print, Meaning;
    if level == 6 {
      t := FactorIsTree(toks, p, env);
    } else {
      var l := Level(level + 1, toks, p, env);
      var lt := LevelIsTree(level + 1, toks, p, env);
      SameText(level, lt);
      t := MoreIsTree(level, lt, toks, p, l.pos, l.value, env);
    }
  }

  lemma {:induction false} MoreIsTree(level: nat, lt: Tree, toks: seq<string>, p: nat, q: nat, l: Value, env: Env)
    returns (t: Tree)
    requires p < q <= |toks| && level < 6 && Covers(level, lt, toks, p, q, l, env)
    requires More(level, toks, q, l, env).Done?
    ensures var r := More(level, toks, q, l, env);
            Covers(level, t, toks, p, r.pos, r.value, env)
    decreases |toks| - q, 0
  {
    hide Factor, Primary, Print, Meaning, Operator, Apply, Combined, Covers, Level;
    if q == |toks| || Operator(level, toks, q) == 0 {
      t := lt;
    } else {
      var op := OpAt(level, toks, q);
      OperatorAt(op, toks, q);
      var r := Level(level + 1, toks, q + 1, env);
      var rt := LevelIsTree(level + 1, toks, q + 1, env);
      CodeApplies(op, l, r.value, env);
      var v := Combined(op, l, r.value, env).value;
      JoinCovers(op, lt, rt, toks, p, q, r.pos, l, r.value, env);
      t := MoreIsTree(level, Binary(op, lt, rt), toks, p, r.pos, v, env);
    }
  }

  lemma {:induction false} JoinCovers(op: Op, lt: Tree, rt: Tree, toks: seq<string>, p: nat, q: nat, end: nat,
                                      l: Value, r: Value, env: Env)
    requires q < |toks| && toks[q] == Token(op) && Combined(op, l, r, env).Some?
    requires Covers(LevelOf(op), lt, toks, p, q, l, env)
    requires Covers(LevelOf(op) + 1, rt, toks, q + 1, end, r, env)
    ensures Covers(LevelOf(op), Binary(op, lt, rt), toks, p, end, Combined(op, l, r, env).value, env)
  {
    hide Combined, Token;
    var level := LevelOf(op);
    assert toks[p..end] == toks[p..q] + [toks[q]] + toks[q + 1..end];
    assert Print(level, Binary(op, lt, rt)) == Print(level, lt) + [Token(op)] + Print(level + 1, rt);
    assert Meaning(Binary(op, lt, rt), env) == Combined(op, l, r, env);
  }

  lemma {:induction false} ArgIsTree(toks: seq<string>, p: nat, env: Env) returns (t: Tree)
    requires p <= |toks| && Factor(toks, p, env).Done?
    ensures Arg(t, toks, p, Factor(toks, p, env), env)
    decreases |toks| - p, 2
  {
    hide Factor, Print, Meaning;
    t := FactorIsTree(toks, p, env);
  }

  lemma {:induction false} FactorIsTree(toks: seq<string>, p: nat, env: Env) returns (t: Tree)
    requires p <= |toks| && Factor(toks, p, env).Done?
    ensures var r := Factor(toks, p, env);
            Covers(6, t, toks, p, r.pos, r.value, env)
    decreases |toks| - p, 1
  {
    hide Primary, Print, Meaning, Covers, Arg, IndexOf, Substring, ToString, ToArith, Level, More;
    if p == |toks| || !Keyword(toks[p]) {
      t := PrimaryIsTree(toks, p, env);
    } else if toks[p] == "quote" {
      t := Quote(toks[p + 1]);
      QuoteCovers(toks, p, env);
    } else {
      var l := Factor(toks, p + 1, env);
      var a := ArgIsTree(toks, p + 1, env);
      if toks[p] == "length" {
        t := Length(a);
        LengthCovers(a, toks, p, l, env);
      } else {
        var r := Factor(toks, l.pos, env);
        var b := ArgIsTree(toks, l.pos, env);
        if toks[p] == "substr" {
          var n := Factor(toks, r.pos, env);
          var c := ArgIsTree(toks, r.pos, env);
          t := Substr(a, b, c);
          SubstrCovers(a, b, c, toks, p, l, r, n, env);
        } else {
          t := if toks[p] == "match" then Match(a, b) else Index(a, b);
          PairCovers(t, toks[p], a, b, toks, p, l, r, Factor(toks, p, env).value, env);
        }
      }
    }
  }

  lemma {:induction false} QuoteCovers(toks: seq<string>, p: nat, env: Env)
    requires p + 1 < |toks| && toks[p] == "quote"
    ensures Covers(6, Quote(toks[p + 1]), toks, p, p + 2, Str(toks[p + 1]), env)
  {
    assert toks[p..p + 2] == ["quote", toks[p + 1]];
  }

  /** The argument of a keyword: the tree a stands for the arguments from p up to where f left. */
  ghost predicate Arg(a: Tree, toks: seq<string>, p: nat, f: Parsed, env: Env) {
    f.Done? && p <= f.pos <= |toks| && toks[p..f.pos] == Print(6, a) && Meaning(a, env) == Some(f.value)
  }

  lemma {:induction false} LengthCovers(a: Tree, toks: seq<string>, p: nat, l: Parsed, env: Env)
    requires p < |toks| && toks[p] == "length" && Arg(a, toks, p + 1, l, env)
    ensures Covers(6, Length(a), toks, p, l.pos, Int(|ToString(l.value)|), env)
  {
    hide ToString, Print;
    assert toks[p..l.pos] == [toks[p]] + toks[p + 1..l.pos];
    PrintedLength(a);
  }

  lemma {:induction false} PairCovers(t: Tree, key: string, a: Tree, b: Tree, toks: seq<string>, p: nat, l: Parsed,
                                      r: Parsed, v: Value, env: Env)
    requires (t == Match(a, b) && key == "match") || (t == Index(a, b) && key == "index")
    requires p < |toks| && toks[p] == key && Arg(a, toks, p + 1, l, env) && Arg(b, toks, l.pos, r, env)
    requires Paired(key, Some(l.value), Some(r.value), env) == Some(v)
    ensures Covers(6, t, toks, p, r.pos, v, env)
  {
    hide ToString, IndexOf, Print, Meaning, Paired;
    assert toks[p..r.pos] == [toks[p]] + toks[p + 1..l.pos] + toks[l.pos..r.pos];
    PrintedPair(t, key, a, b);
    PairMeans(t, key, a, b, env);
  }

  lemma {:induction false} SubstrCovers(a: Tree, b: Tree, c: Tree, toks: seq<string>, p: nat, l: Parsed, r: Parsed,
                                        n: Parsed, env: Env)
    requires p < |toks| && toks[p] == "substr" && Arg(a, toks, p + 1, l, env)
    requires Arg(b, toks, l.pos, r, env) && Arg(c, toks, r.pos, n, env)
    ensures Covers(6, Substr(a, b, c), toks, p, n.pos,
                   Str(Substring(ToString(l.value), ToArith(r.value), ToArith(n.value))), env)
  {
    hide ToString, ToArith, Substring, Print;
    assert toks[p..n.pos] == [toks[p]] + toks[p + 1..l.pos] + toks[l.pos..r.pos] + toks[r.pos..n.pos];
    PrintedSubstr(a, b, c);
  }

  lemma {:induction false} PrimaryIsTree(toks: seq<string>, p: nat, env: Env) returns (t: Tree)
    requires p <= |toks| && Primary(toks, p, env).Done? && (p < |toks| ==> !Keyword(toks[p]))
    ensures var r := Primary(toks, p, env);
            Covers(6, t, toks, p, r.pos, r.value, env)
    decreases |toks| - p, 0
  {
    hide Factor, Level, Covers, Print, Meaning;
    if toks[p] == "(" {
      var r := Level(0, toks, p + 1, env);
      var e := LevelIsTree(0, toks, p + 1, env);
      t := Parens(e);
      ParensCovers(e, toks, p, r.pos, r.value, env);
    } else {
      t := Operand(toks[p]);
      OperandCovers(toks, p, env);
    }
  }

  lemma {:induction false} ParensCovers(e: Tree, toks: seq<string>, p: nat, q: nat, v: Value, env: Env)
    requires p < q < |toks| && toks[p] == "(" && toks[q] == ")" && Covers(0, e, toks, p + 1, q, v, env)
    ensures Covers(6, Parens(e), toks, p, q + 1, v, env)
  {
    hide Print;
    assert toks[p..q + 1] == ["("] + toks[p + 1..q] + [")"];
    PrintedParens(e);
  }

  lemma {:induction false} OperandCovers(toks: seq<string>, p: nat, env: Env)
    requires p < |toks| && !Special(toks[p])
    ensures Covers(6, Operand(toks[p]), toks, p, p + 1, Str(toks[p]), env)
  {
    assert toks[p..p + 1] == [toks[p]];
  }

  /** Whatever arguments are evaluated are those of a tree, and the value is what the tree means. */
  lemma {:induction false} EvaluatedIsPrinted(toks: seq<string>, env: Env) returns (t: Tree)
    requires Outcome(toks, env).Some?
    ensures Print(0, t) == toks && Meaning(t, env).Some?
    ensures Outcome(toks, env) == Some((ToString(Meaning(t, env).value), Null(Meaning(t, env).value)))
  {
    hide Level, Print, Meaning, ToString;
    t := LevelIsTree(0, toks, 0, env);
    assert toks[0..|toks|] == toks;
  }

  /** expr prints what a printed tree means, and stops without a line if it has no meaning. */
  lemma {:induction false} PrintedOutcome(t: Tree, env: Env)
    ensures Outcome(Print(0, t), env)
         == match Meaning(t, env) { case Some(v) => Some((ToString(v), Null(v))) case None => None }
  {
    hide Level, Print, Meaning, ToString;
    PrintedEvaluates(t, env);
  }
}
