/** Comparing a number with a text: the number is spelled anew first, so the comparison is of the arguments as they
    were given exactly for numbers spelled in the usual way. */
module ExprComparison {
  import opened Options
  import opened ExprValues
  import opened ExprTrees

  /** The text of a number as expr would print it. */
  predicate Canonical(l: string) {
    Strtol(l).Some? && ToString(Int(Strtol(l).value)) == l
  }

  function Sign(x: int): int {
    if x < 0 then -1 else if x > 0 then 1 else 0
  }

  /** The comparison of l with r gives what comparing the two arguments as texts gives. */
  predicate AsTexts(l: string, r: string) {
    Sign(Relation(Coerced(Str(l)), Coerced(Str(r)))) == Sign(Strcmp(l, r))
  }

  /** A number compares with every text that is no number as documented if and only if it is spelled as expr would
      print it. */
  lemma {:induction false} TextComparison(l: string)
    requires Strtol(l).Some?
    ensures Canonical(l) <==> forall r :: Strtol(r).None? ==> AsTexts(l, r)
  {
    if !Canonical(l) {
      var r := Witness(l);
      assert !AsTexts(l, r);
    }
  }

  /** For example "010" is below "01x" as texts, but the comparison is of "10" with "01x". */
  lemma {:induction false} Respelled()
    ensures Strtol("010") == Some(10) && Strtol("01x").None? && !AsTexts("010", "01x")
  {
    hide Decimal, Strcmp;
    assert Number("010"[..2]) == 1 by {
      assert "010"[..2][..1] == "0" && "0"[..0] == "";
    }
    assert "01x"[2] == 'x';
    assert Decimal(10) == "10" by {
      TenSpelled();
    }
    TextsDiffer();
  }

  lemma {:induction false} TenSpelled()
    ensures Decimal(10) == "10"
  {
  }

  lemma {:induction false} TextsDiffer()
    ensures Strcmp("10", "01x") == 1 && Strcmp("010", "01x") == -1
  {
    assert "010"[1..] == "10" && "01x"[1..] == "1x" && "10"[1..] == "0" && "1x"[1..] == "x";
  }

  /** A text that a number spelled in another way compares with differently. */
  lemma {:induction false} Witness(l: string) returns (r: string)
    requires Strtol(l).Some? && !Canonical(l)
    ensures Strtol(r).None? && !AsTexts(l, r)
  {
    hide Strtol, Strcmp, Decimal;
    var c := ToString(Int(Strtol(l).value));
    StrtolFits(l);
    CanonicalShape(Strtol(l).value);
    NumericShape(l);
    StrcmpSame(c, l);
    if Strcmp(c, l) < 0 {
      r := c + " ";
      BlankBetween(c, l);
    } else {
      r := l + " ";
      StrcmpReversed(c, l);
      BlankBetween(l, c);
    }
    NotNumeric(r[..|r| - 1]);
    assert r[..|r| - 1] + " " == r;
  }

  lemma {:induction false} StrcmpSame(a: string, b: string)
    ensures Strcmp(a, b) == 0 <==> a == b
  {
    if a != "" && b != "" && a[0] == b[0] {
      StrcmpSame(a[1..], b[1..]);
      assert a == [a[0]] + a[1..] && b == [b[0]] + b[1..];
    }
  }

  lemma {:induction false} StrcmpReversed(a: string, b: string)
    ensures Strcmp(b, a) == -Strcmp(a, b)
  {
    if a != "" && b != "" {
      StrcmpReversed(a[1..], b[1..]);
    }
  }

  /** A number, less its first character, is all digits, if that is no blank. */
  ghost predicate Shape(s: string) {
    s != "" && (IsSpace(s[0]) || AllDigits(s[1..]))
  }

  lemma {:induction false} NumericShape(l: string)
    requires Strtol(l).Some?
    ensures Shape(l)
  {
  }

  lemma {:induction false} CanonicalShape(i: int)
    ensures Shape(ToString(Int(i))) && !IsSpace(ToString(Int(i))[0])
  {
    hide Decimal;
    var n := if i < 0 then -i else i;
    DecimalBack(n);
    if i < 0 {
      assert ToString(Int(i))[1..] == Decimal(n);
    }
  }

  lemma {:induction false} NotNumeric(s: string)
    ensures Strtol(s + " ").None?
  {
    var t := s + " ";
    if s != "" && IsSpace(s[0]) {
      assert t[1..] == s[1..] + " ";
      NotNumeric(s[1..]);
    } else if s != "" {
      var digits := if t[0] == '-' || t[0] == '+' then t[1..] else t;
      assert digits != "" && !IsDigit(digits[|digits| - 1]);
    } else {
      assert t[1..] == "";
    }
  }

  /** A blank behind the smaller text keeps it between the two. */
  lemma {:induction false} BlankBetween(a: string, b: string)
    requires Shape(a) && Shape(b) && Strcmp(a, b) < 0 && (!IsSpace(a[0]) || !IsSpace(b[0]))
    ensures Strcmp(a, a + " ") < 0 && Strcmp(b, a + " ") > 0
  {
    hide Shape;
    Extended(a);
    if |a| < |b| && b[..|a|] == a {
      Follows(a, b);
    }
    BelowWithBlank(a, b);
    StrcmpReversed(a + " ", b);
  }

  lemma {:induction false} Follows(a: string, b: string)
    requires Shape(a) && Shape(b) && (!IsSpace(a[0]) || !IsSpace(b[0])) && |a| < |b| && b[..|a|] == a
    ensures b[|a|] > ' '
  {
    assert b[..|a|][0] == a[0];
    assert b[1..][|a| - 1] == b[|a|];
  }

  lemma {:induction false} Extended(a: string)
    ensures Strcmp(a, a + " ") < 0
  {
    if a != "" {
      Extended(a[1..]);
      assert (a + " ")[1..] == a[1..] + " ";
    }
  }

  lemma {:induction false} BelowWithBlank(a: string, b: string)
    requires Strcmp(a, b) < 0 && (|a| < |b| && b[..|a|] == a ==> b[|a|] > ' ')
    ensures Strcmp(a + " ", b) < 0
  {
    if a != "" && a[0] == b[0] {
      if |a| < |b| && b[1..][..|a| - 1] == a[1..] {
        assert b[..|a|] == [b[0]] + b[1..][..|a| - 1] == a;
      }
      BelowWithBlank(a[1..], b[1..]);
      assert (a + " ")[1..] == a[1..] + " ";
    }
  }
}
