/**
 What a condition means: comparisons as order and equality of the observed values, connectives as
 "all", "some" and "not", literals as the values they denote. Everything here is stated without the
 evaluator's own case distinctions.
*/
module CondMeaning {
  import opened CondSyntax
  import opened CondEval

  // ---- The order of strings ------------------------------------------------------------------------

  /** Up to position k the strings agree, and there a ends or has the smaller character. */
  ghost predicate SmallerAt(a: string, b: string, k: nat) {
    k <= |a| && k < |b| && a[..k] == b[..k] && (k == |a| || a[k] < b[k])
  }

  /** Lexicographic order, at the first position where the strings differ. */
  ghost predicate Precedes(a: string, b: string) { exists k: nat :: SmallerAt(a, b, k) }

  lemma PrecedesStep(a: string, b: string)
    requires a != "" && b != ""
    ensures Precedes(a, b) <==> a[0] < b[0] || (a[0] == b[0] && Precedes(a[1..], b[1..]))
  {
    if k: nat :| SmallerAt(a, b, k) {
      if k > 0 {
        assert a[..k][0] == b[..k][0];
        assert a[1..][..k - 1] == a[..k][1..] == b[..k][1..] == b[1..][..k - 1];
        assert SmallerAt(a[1..], b[1..], k - 1);
      }
    }
    if a[0] < b[0] {
      assert a[..0] == b[..0];
      assert SmallerAt(a, b, 0);
    }
    if a[0] == b[0] && Precedes(a[1..], b[1..]) {
      var k: nat :| SmallerAt(a[1..], b[1..], k);
      assert a[..k + 1] == [a[0]] + a[1..][..k] && b[..k + 1] == [b[0]] + b[1..][..k];
      assert SmallerAt(a, b, k + 1);
    }
  }

  lemma {:induction false} StrLessIsPrecedes(a: string, b: string)
    ensures StrLess(a, b) <==> Precedes(a, b)
  {
    if a == "" && b != "" {
      assert SmallerAt(a, b, 0);
    } else if a != "" && b != "" {
      PrecedesStep(a, b);
      StrLessIsPrecedes(a[1..], b[1..]);
      hide Precedes;
    }
  }

  /** Of two strings exactly one precedes the other, or they are the same. */
  lemma {:induction false} OneOrderHolds(a: string, b: string)
    ensures Precedes(a, b) <==> a != b && !Precedes(b, a)
  {
    if a == "" && b != "" {
      assert SmallerAt(a, b, 0);
    } else if b == "" && a != "" {
      assert SmallerAt(b, a, 0);
    } else if a != "" && b != "" {
      PrecedesStep(a, b);
      PrecedesStep(b, a);
      OneOrderHolds(a[1..], b[1..]);
      hide Precedes;
      assert a == [a[0]] + a[1..] && b == [b[0]] + b[1..];
    }
  }

  // ---- Comparisons ---------------------------------------------------------------------------------

  /** Numbers compare as numbers. */
  lemma NumbersCompare(x: real, y: real)
    ensures CompareValues(Eq, Num(x), Num(y)) == Bool(x == y)
    ensures CompareValues(Ne, Num(x), Num(y)) == Bool(x != y)
    ensures CompareValues(Lt, Num(x), Num(y)) == Bool(x < y)
    ensures CompareValues(Le, Num(x), Num(y)) == Bool(x <= y)
    ensures CompareValues(Gt, Num(x), Num(y)) == Bool(x > y)
    ensures CompareValues(Ge, Num(x), Num(y)) == Bool(x >= y)
  {
  }

  /** Strings compare lexicographically. */
  lemma StringsCompare(a: string, b: string)
    ensures CompareValues(Eq, Str(a), Str(b)) == Bool(a == b)
    ensures CompareValues(Ne, Str(a), Str(b)) == Bool(a != b)
    ensures CompareValues(Lt, Str(a), Str(b)) == Bool(Precedes(a, b))
    ensures CompareValues(Le, Str(a), Str(b)) == Bool(!Precedes(b, a))
    ensures CompareValues(Gt, Str(a), Str(b)) == Bool(Precedes(b, a))
    ensures CompareValues(Ge, Str(a), Str(b)) == Bool(!Precedes(a, b))
  {
    StrLessIsPrecedes(a, b);
    OneOrderHolds(a, b);
    hide StrLess, Precedes;
  }

  /** Same type and same content. A boolean is no number. */
  ghost predicate SameValue(a: Value, b: Value) {
    || (a.Bool? && b.Bool? && a.b == b.b)
    || (a.Num? && b.Num? && a.n == b.n)
    || (a.Str? && b.Str? && a.s == b.s)
    || (a.Null? && b.Null?) || (a.Unknown? && b.Unknown?)
    || (a.Other? && b.Other? && a.kind == b.kind && a.content == b.content)
  }

  /** Between observed values equality is that of type and content, and only numbers or strings are ordered. */
  lemma OtherValuesCompare(a: Value, b: Value, cmp: Cmp)
    requires !a.Missing? && !b.Missing?
    ensures CompareValues(Eq, a, b) == Bool(SameValue(a, b)) && CompareValues(Ne, a, b) == Bool(!SameValue(a, b))
    ensures cmp != Eq && cmp != Ne ==>
              (CompareValues(cmp, a, b) == Unknown <==> !(a.Num? && b.Num?) && !(a.Str? && b.Str?))
  {
  }

  /** A missing operand is the same as nothing, and nothing is decided with it, but that it equals null. */
  lemma MissingCompares(a: Value, b: Value, cmp: Cmp)
    requires a.Missing? || b.Missing?
    ensures !TypedEq(a, b)
    ensures CompareValues(cmp, a, b) == if cmp == Eq && (a == Null || b == Null) then Bool(true) else Unknown
  {
  }

  // ---- Literals ------------------------------------------------------------------------------------

  ghost function PowerOfTen(n: nat): int { if n == 0 then 1 else 10 * PowerOfTen(n - 1) }

  /** The number with its point moved n places to the right. */
  ghost function MovedRight(x: real, n: nat): real { x * PowerOfTen(n) as real }

  lemma {:induction false} HornerShift(digits: string, sofar: int)
    requires AllDigits(digits)
    ensures Horner(digits, sofar) as real == MovedRight(sofar as real, |digits|) + Horner(digits, 0) as real
  {
    if digits != "" {
      var d, rest := digits[0] as int - '0' as int, digits[1..];
      HornerShift(rest, 10 * sofar + d);
      HornerShift(rest, d);
      MoveStep(sofar as real, d as real, |rest|);
      hide MovedRight;
    }
  }

  lemma MoveStep(x: real, d: real, n: nat)
    ensures MovedRight(10.0 * x + d, n) == MovedRight(x, n + 1) + MovedRight(d, n)
    ensures MovedRight(x / 10.0, n + 1) == MovedRight(x, n)
  {
    var p := PowerOfTen(n) as real;
    assert PowerOfTen(n + 1) as real == 10.0 * p;
    assert (10.0 * x + d) * p == x * (10.0 * p) + d * p;
    assert x / 10.0 * (10.0 * p) == x * p;
  }

  lemma MoveSum(x: real, d: real, n: nat)
    ensures MovedRight(x + d, n) == MovedRight(x, n) + MovedRight(d, n)
  {
  }

  lemma {:induction false} HornerConcat(a: string, b: string, sofar: int)
    requires AllDigits(a) && AllDigits(b)
    ensures AllDigits(a + b) && Horner(a + b, sofar) == Horner(b, Horner(a, sofar))
  {
    if a == "" {
      assert a + b == b;
    } else {
      HornerConcat(a[1..], b, 10 * sofar + (a[0] as int - '0' as int));
      assert (a + b)[1..] == a[1..] + b;
    }
  }

  lemma {:induction false} WholeIsHorner(digits: string)
    requires AllDigits(digits)
    ensures WholeValue(digits) == Horner(digits, 0) as real
  {
    if digits != "" {
      var front, c := digits[..|digits| - 1], digits[|digits| - 1];
      assert digits == front + [c];
      WholeIsHorner(front);
      HornerSnoc(front, c, 0);
    }
  }

  lemma {:induction false} FractionIsHorner(digits: string)
    requires AllDigits(digits)
    ensures MovedRight(FractionValue(digits), |digits|) == Horner(digits, 0) as real
  {
    if digits != "" {
      var d, rest := digits[0] as int - '0' as int, digits[1..];
      var tail := FractionValue(rest);
      FractionIsHorner(rest);
      HornerShift(rest, d);
      assert FractionValue(digits) == (d as real + tail) / 10.0;
      MoveStep(d as real + tail, 0.0, |rest|);
      MoveSum(d as real, tail, |rest|);
      hide MovedRight;
    }
  }

  lemma {:induction false} PointStands(whole: string, frac: string)
    requires AllDigits(whole)
    ensures PointIndex(whole + "." + frac) == |whole|
  {
    var text := whole + "." + frac;
    if whole != "" {
      assert text[0] == whole[0] && text[1..] == whole[1..] + "." + frac;
      PointStands(whole[1..], frac);
    }
  }

  lemma DecimalSplits(whole: string, frac: string)
    requires AllDigits(whole) && AllDigits(frac)
    ensures UnsignedValue(whole + "." + frac) == WholeValue(whole) + FractionValue(frac)
  {
    var text := whole + "." + frac;
    PointStands(whole, frac);
    assert text[..|whole|] == whole && text[|whole| + 1..] == frac;
    hide PointIndex, WholeValue, FractionValue, AllDigits;
  }

  lemma SignedDecimal(whole: string, frac: string)
    requires whole != "" && AllDigits(whole)
    ensures LiteralValue(FloatLit(whole + "." + frac)) == Num(UnsignedValue(whole + "." + frac))
    ensures LiteralValue(FloatLit("-" + whole + "." + frac)) == Num(-UnsignedValue(whole + "." + frac))
  {
    assert whole[0] in whole && IsDigit(whole[0]);
    hide UnsignedValue, AllDigits;
    var text := whole + "." + frac;
    assert text[0] == whole[0];
    assert ("-" + whole + "." + frac)[1..] == text;
  }

  lemma DigitsDenote(whole: string, frac: string)
    requires AllDigits(whole) && AllDigits(frac)
    ensures AllDigits(whole + frac)
    ensures MovedRight(WholeValue(whole) + FractionValue(frac), |frac|) == Horner(whole + frac, 0) as real
  {
    hide MovedRight, WholeValue, FractionValue, Horner, AllDigits;
    WholeIsHorner(whole);
    FractionIsHorner(frac);
    HornerConcat(whole, frac, 0);
    HornerShift(frac, Horner(whole, 0));
    MoveSum(WholeValue(whole), FractionValue(frac), |frac|);
  }

  /** A decimal literal denotes the decimal it writes: its digits read in base ten, with the point moved left. */
  lemma DecimalsDenote(whole: string, frac: string)
    requires whole != "" && AllDigits(whole) && AllDigits(frac)
    ensures AllDigits(whole + frac)
    ensures LiteralValue(FloatLit(whole + "." + frac)).Num? && LiteralValue(FloatLit("-" + whole + "." + frac)).Num?
    ensures MovedRight(LiteralValue(FloatLit(whole + "." + frac)).n, |frac|) == Horner(whole + frac, 0) as real
    ensures LiteralValue(FloatLit("-" + whole + "." + frac)).n == -LiteralValue(FloatLit(whole + "." + frac)).n
  {
    hide LiteralValue, UnsignedValue, WholeValue, FractionValue, Horner, MovedRight, AllDigits;
    DecimalSplits(whole, frac);
    SignedDecimal(whole, frac);
    DigitsDenote(whole, frac);
  }

  /** Every other literal denotes what it holds. */
  lemma LiteralsDenote(i: int, b: bool, s: string)
    ensures LiteralValue(IntLit(i)) == Num(i as real) && LiteralValue(BoolLit(b)) == Bool(b)
    ensures LiteralValue(StrLit(s)) == Str(s) && LiteralValue(NullLit) == Null
  {
  }

  // ---- Conditions ----------------------------------------------------------------------------------

  lemma AtomsCompare(cmp: Cmp, v: Literal, raw: Value)
    ensures Eval(Compare(cmp, Raw, Lit(v)), raw) == CompareValues(cmp, raw, LiteralValue(v))
  {
  }

  /** Comparing the observed number with a whole number. */
  lemma ThresholdsMean(x: real, i: int)
    ensures Meets(Compare(Lt, Raw, Lit(IntLit(i))), Num(x)) <==> x < i as real
    ensures Meets(Compare(Le, Raw, Lit(IntLit(i))), Num(x)) <==> x <= i as real
    ensures Meets(Compare(Gt, Raw, Lit(IntLit(i))), Num(x)) <==> x > i as real
    ensures Meets(Compare(Ge, Raw, Lit(IntLit(i))), Num(x)) <==> x >= i as real
    ensures Meets(Compare(Eq, Raw, Lit(IntLit(i))), Num(x)) <==> x == i as real
    ensures Meets(Compare(Ne, Raw, Lit(IntLit(i))), Num(x)) <==> x != i as real
  {
    NumbersCompare(x, i as real);
    forall cmp ensures Eval(Compare(cmp, Raw, Lit(IntLit(i))), Num(x)) == CompareValues(cmp, Num(x), Num(i as real)) {
      AtomsCompare(cmp, IntLit(i), Num(x));
    }
    hide Eval, CompareValues;
  }

  /** Comparing the observed text with a literal text. */
  lemma TextsMean(a: string, s: string)
    ensures Meets(Compare(Lt, Raw, Lit(StrLit(s))), Str(a)) <==> Precedes(a, s)
    ensures Meets(Compare(Le, Raw, Lit(StrLit(s))), Str(a)) <==> Precedes(a, s) || a == s
    ensures Meets(Compare(Gt, Raw, Lit(StrLit(s))), Str(a)) <==> Precedes(s, a)
    ensures Meets(Compare(Ge, Raw, Lit(StrLit(s))), Str(a)) <==> Precedes(s, a) || a == s
    ensures Meets(Compare(Eq, Raw, Lit(StrLit(s))), Str(a)) <==> a == s
    ensures Meets(Compare(Ne, Raw, Lit(StrLit(s))), Str(a)) <==> a != s
  {
    StringsCompare(a, s);
    OneOrderHolds(a, s);
    forall cmp ensures Eval(Compare(cmp, Raw, Lit(StrLit(s))), Str(a)) == CompareValues(cmp, Str(a), Str(s)) {
      AtomsCompare(cmp, StrLit(s), Str(a));
    }
    hide Eval, CompareValues, Precedes;
  }

  /** A comparison holds of its two operands in their order, whatever they are. */
  lemma ComparisonMeans(cmp: Cmp, l: Tree, r: Tree, raw: Value)
    ensures Meets(Compare(cmp, l, r), raw) <==> CompareValues(cmp, Eval(l, raw), Eval(r, raw)) == Bool(true)
  {
  }

  ghost predicate SomeGives(cs: seq<Tree>, raw: Value, answer: Value) { exists c | c in cs :: Gives(c, raw, answer) }

  lemma SomeStep(cs: seq<Tree>, raw: Value, answer: Value)
    requires cs != []
    ensures SomeGives(cs, raw, answer) <==> Gives(cs[0], raw, answer) || SomeGives(cs[1..], raw, answer)
  {
    assert forall c :: c in cs <==> c == cs[0] || c in cs[1..];
  }

  lemma {:induction false} EvalAllMeans(op: Connective, acc: Value, cs: seq<Tree>, raw: Value)
    requires Logical(acc)
    ensures EvalAll(op, acc, cs, raw)
         == if acc == Deciding(op) || SomeGives(cs, raw, Deciding(op)) then Deciding(op)
            else if acc == Unknown || SomeGives(cs, raw, Unknown) then Unknown
            else Neutral(op)
    decreases cs
  {
    if cs != [] {
      SomeStep(cs, raw, Deciding(op));
      SomeStep(cs, raw, Unknown);
      EvalAllMeans(op, Join(op, acc, Eval(cs[0], raw)), cs[1..], raw);
      hide SomeGives;
    }
  }

  /**
   A conjunction is false if some operand is, else undecided if some operand is, else true; a
   disjunction is true if some operand is, else undecided if some operand is, else false.
  */
  lemma ConnectivesMean(cs: seq<Tree>, raw: Value)
    ensures Eval(BoolOp(And, cs), raw) == if SomeGives(cs, raw, Bool(false)) then Bool(false)
                                          else if SomeGives(cs, raw, Unknown) then Unknown else Bool(true)
    ensures Eval(BoolOp(Or, cs), raw) == if SomeGives(cs, raw, Bool(true)) then Bool(true)
                                         else if SomeGives(cs, raw, Unknown) then Unknown else Bool(false)
  {
    EvalAllMeans(And, Bool(true), cs, raw);
    EvalAllMeans(Or, Bool(false), cs, raw);
    hide SomeGives, EvalAll;
  }

  ghost predicate Definite(t: Tree, raw: Value) { Eval(t, raw).Bool? }

  /** Of operands with definite answers: && asks for all, || for some, and ! for the opposite. */
  lemma DefiniteConnectives(cs: seq<Tree>, c: Tree, raw: Value)
    requires (forall t | t in cs :: Definite(t, raw)) && Definite(c, raw)
    ensures Meets(BoolOp(And, cs), raw) <==> forall t | t in cs :: Meets(t, raw)
    ensures Meets(BoolOp(Or, cs), raw) <==> exists t | t in cs :: Meets(t, raw)
    ensures Meets(Not(c), raw) <==> !Meets(c, raw)
  {
    ConnectivesMean(cs, raw);
    assert forall t | t in cs :: Definite(t, raw) && (Meets(t, raw) <==> !Gives(t, raw, Bool(false))) && !Gives(t, raw, Unknown);
    assert forall t :: Meets(t, raw) <==> Gives(t, raw, Bool(true));
    hide Eval;
  }

  /** A negation of anything else: undecided stays undecided, and otherwise empty values, zero and null count as false. */
  lemma NegationsMean(c: Tree, raw: Value)
    ensures Eval(Not(c), raw) == Unknown <==> Eval(c, raw) == Unknown
    ensures Meets(Not(c), raw) <==>
              match Eval(c, raw) {
                case Null => true
                case Bool(b) => !b
                case Num(n) => n == 0.0
                case Str(s) => s == ""
                case Other(_, _, truthy) => !truthy
                case _ => false
              }
  {
  }

  /** The observed value stands for itself, and a literal for its value; neither is met unless it is true. */
  lemma AtomsMean(raw: Value, v: Literal)
    ensures Eval(Raw, raw) == raw && Eval(Lit(v), raw) == LiteralValue(v)
    ensures Meets(Raw, raw) <==> raw == Bool(true)
  {
  }
}
