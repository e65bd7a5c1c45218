/**
 Evaluating a condition over a raw value that may be missing: three-valued comparison and
 connectives, and when an answer given without the value is the answer for every value.
*/
module CondEval {
  import opened CondSyntax

  /** Observed values and results. Lists and objects are Other: equal by type and content, never ordered. */
  datatype Value =
    | Missing | Unknown | Null
    | Bool(b: bool) | Num(n: real) | Str(s: string)
    | Other(kind: string, content: string, truthy: bool)

  function FractionValue(digits: string): real
    requires AllDigits(digits)
  {
    if digits == "" then 0.0
    else ((digits[0] as int - '0' as int) as real + FractionValue(digits[1..])) / 10.0
  }

  function WholeValue(digits: string): real
    requires AllDigits(digits)
  {
    if digits == "" then 0.0
    else 10.0 * WholeValue(digits[..|digits| - 1]) + (digits[|digits| - 1] as int - '0' as int) as real
  }

  function PointIndex(text: string): (i: nat)
    ensures i <= |text| && AllDigits(text[..i]) && (i < |text| ==> !IsDigit(text[i]))
  {
    if text != "" && IsDigit(text[0]) then
      var i := PointIndex(text[1..]);
      assert text[..i + 1] == [text[0]] + text[1..][..i];
      i + 1
    else 0
  }

  function UnsignedValue(text: string): real {
    var i := PointIndex(text);
    if i == |text| || !AllDigits(text[i + 1..]) then WholeValue(text[..i])
    else WholeValue(text[..i]) + FractionValue(text[i + 1..])
  }

  function LiteralValue(v: Literal): Value {
    match v
    case NullLit => Null
    case BoolLit(b) => Bool(b)
    case IntLit(i) => Num(i as real)
    case FloatLit(text) =>
      if text != "" && text[0] == '-' then Num(-UnsignedValue(text[1..])) else Num(UnsignedValue(text))
    case StrLit(s) => Str(s)
  }

  /** Lexicographic order by code point. */
  predicate StrLess(a: string, b: string) {
    if b == "" then false
    else if a == "" then true
    else if a[0] != b[0] then a[0] < b[0]
    else StrLess(a[1..], b[1..])
  }

  /** Booleans equal only booleans, numbers numerically, the rest within one type. */
  predicate TypedEq(a: Value, b: Value) {
    match (a, b)
    case (Missing, _) => false
    case (_, Missing) => false
    case (Other(k, c, _), Other(l, d, _)) => k == l && c == d
    case _ => a == b
  }

  function Ordered(cmp: Cmp, less: bool, same: bool): Value {
    match cmp
    case Lt => Bool(less)
    case Le => Bool(less || same)
    case Gt => Bool(!less && !same)
    case Ge => Bool(!less)
    case _ => Unknown
  }

  function CompareValues(cmp: Cmp, a: Value, b: Value): Value {
    if a.Missing? || b.Missing? then
      if cmp.Eq? && (a.Null? || b.Null?) then Bool(true) else Unknown
    else if cmp.Eq? then Bool(TypedEq(a, b))
    else if cmp.Ne? then Bool(!TypedEq(a, b))
    else
      match (a, b)
      case (Num(x), Num(y)) => Ordered(cmp, x < y, x == y)
      case (Str(x), Str(y)) => Ordered(cmp, StrLess(x, y), x == y)
      case _ => Unknown
  }

  function AndValues(a: Value, b: Value): Value {
    if a == Bool(false) || b == Bool(false) then Bool(false)
    else if a.Unknown? || b.Unknown? then Unknown
    else Bool(true)
  }

  function OrValues(a: Value, b: Value): Value {
    if a == Bool(true) || b == Bool(true) then Bool(true)
    else if a.Unknown? || b.Unknown? then Unknown
    else Bool(false)
  }

  predicate Truthy(v: Value) {
    match v
    case Null => false
    case Bool(b) => b
    case Num(n) => n != 0.0
    case Str(s) => s != ""
    case Other(_, _, truthy) => truthy
    case _ => true
  }

  function NotValue(a: Value): Value { if a.Unknown? then Unknown else Bool(!Truthy(a)) }

  function Join(op: Connective, a: Value, b: Value): Value {
    if op.And? then AndValues(a, b) else OrValues(a, b)
  }

  function Eval(t: Tree, raw: Value): Value
    decreases t, 1
  {
    match t
    case Raw => raw
    case Lit(v) => LiteralValue(v)
    case Compare(cmp, l, r) => CompareValues(cmp, Eval(l, raw), Eval(r, raw))
    case Not(c) => NotValue(Eval(c, raw))
    case BoolOp(op, cs) => EvalAll(op, Bool(op.And?), cs, raw)
  }

  /** Left to right from the connective's neutral element. */
  function EvalAll(op: Connective, acc: Value, cs: seq<Tree>, raw: Value): Value
    decreases cs, 0
  {
    if cs == [] then acc else EvalAll(op, Join(op, acc, Eval(cs[0], raw)), cs[1..], raw)
  }

  /** Does the raw value meet the condition? Anything but a definite true does not. */
  predicate Meets(t: Tree, raw: Value) { Eval(t, raw) == Bool(true) }

  /** The accumulating loop of a connective node. */
  method EvaluateConnective(op: Connective, cs: seq<Tree>, raw: Value) returns (result: Value)
    ensures result == Eval(BoolOp(op, cs), raw)
  {
    result := Bool(op.And?);
    for i := 0 to |cs|
      invariant Eval(BoolOp(op, cs), raw) == EvalAll(op, result, cs[i..], raw)
    {
      assert cs[i..][1..] == cs[i + 1..];
      result := Join(op, result, Eval(cs[i], raw));
    }
  }

  // ---- Missing values -----------------------------------------------------------------------

  /** u says no more than v: it is undecided, or the same. */
  predicate Below(u: Value, v: Value) { u.Unknown? || u == v }

  predicate Logical(v: Value) { v.Unknown? || v.Bool? }

  predicate Atomic(t: Tree) { t.Raw? || t.Lit? }

  predicate NullLiteral(t: Tree) { t.Lit? && t.value.NullLit? }

  /** Conditions built by connectives from comparisons of raw_value and literals, without null. */
  predicate Plain(t: Tree)
    decreases t
  {
    match t
    case Raw => false
    case Lit(v) => v.BoolLit?
    case Compare(_, l, r) => Atomic(l) && Atomic(r) && !NullLiteral(l) && !NullLiteral(r)
    case Not(c) => Plain(c)
    case BoolOp(_, cs) => forall c | c in cs :: Plain(c)
  }

  lemma JoinIsMonotone(op: Connective, a: Value, b: Value, a': Value, b': Value)
    requires Logical(a) && Logical(b) && Logical(a') && Logical(b')
    requires Below(a, a') && Below(b, b')
    ensures Logical(Join(op, a, b)) && Logical(Join(op, a', b'))
    ensures Below(Join(op, a, b), Join(op, a', b'))
  {
  }

  /** A comparison of atoms. */
  lemma CompareIsMonotone(cmp: Cmp, l: Tree, r: Tree, raw: Value)
    requires Atomic(l) && Atomic(r) && !NullLiteral(l) && !NullLiteral(r)
    ensures Logical(Eval(Compare(cmp, l, r), Missing)) && Logical(Eval(Compare(cmp, l, r), raw))
    ensures Below(Eval(Compare(cmp, l, r), Missing), Eval(Compare(cmp, l, r), raw))
  {
  }

  /** Learning the value can only turn an undecided answer into a decided one. */
  lemma {:induction false} MissingIsBelow(t: Tree, raw: Value)
    requires Plain(t)
    ensures Logical(Eval(t, Missing)) && Logical(Eval(t, raw))
    ensures Below(Eval(t, Missing), Eval(t, raw))
    decreases t, 1
  {
    match t
    case Lit(_) =>
    case Compare(cmp, l, r) => CompareIsMonotone(cmp, l, r, raw);
    case Not(c) => MissingIsBelow(c, raw);
    case BoolOp(op, cs) => MissingIsBelowAll(op, Bool(op.And?), Bool(op.And?), cs, raw);
  }

  lemma {:induction false} MissingIsBelowAll(op: Connective, acc: Value, acc': Value, cs: seq<Tree>, raw: Value)
    requires (forall c | c in cs :: Plain(c)) && Logical(acc) && Logical(acc') && Below(acc, acc')
    ensures Logical(EvalAll(op, acc, cs, Missing)) && Logical(EvalAll(op, acc', cs, raw))
    ensures Below(EvalAll(op, acc, cs, Missing), EvalAll(op, acc', cs, raw))
    decreases cs, 0
  {
    if cs != [] {
      MissingIsBelow(cs[0], raw);
      var v, v' := Eval(cs[0], Missing), Eval(cs[0], raw);
      JoinIsMonotone(op, acc, v, acc', v');
      MissingIsBelowAll(op, Join(op, acc, v), Join(op, acc', v'), cs[1..], raw);
    }
  }

  /** A missing value never passes by accident: a plain condition it meets is met by every value. */
  lemma MissingNeverPassesByAccident(t: Tree, raw: Value)
    requires Plain(t)
    ensures Meets(t, Missing) ==> Meets(t, raw)
    ensures Eval(t, Missing) == Bool(false) ==> Eval(t, raw) == Bool(false)
  {
    MissingIsBelow(t, raw);
  }

  predicate NullTest(cmp: Cmp, l: Tree, r: Tree) {
    cmp.Eq? && ((l.Raw? && NullLiteral(r)) || (r.Raw? && NullLiteral(l)))
  }

  lemma AtomIsMonotone(cmp: Cmp, l: Tree, r: Tree, raw: Value)
    requires Atomic(l) && Atomic(r) && !NullTest(cmp, l, r)
    ensures Below(Eval(Compare(cmp, l, r), Missing), Eval(Compare(cmp, l, r), raw))
  {
  }

  lemma NullTestIsNotMonotone(cmp: Cmp, l: Tree, r: Tree)
    requires NullTest(cmp, l, r)
    ensures !Below(Eval(Compare(cmp, l, r), Missing), Eval(Compare(cmp, l, r), Num(0.0)))
  {
  }

  /** The exact exception among comparisons of atoms: equality of the raw value with null. */
  lemma AtomIsMonotoneExactly(cmp: Cmp, l: Tree, r: Tree)
    requires Atomic(l) && Atomic(r)
    ensures (forall raw :: Below(Eval(Compare(cmp, l, r), Missing), Eval(Compare(cmp, l, r), raw))) <==> !NullTest(cmp, l, r)
  {
    if NullTest(cmp, l, r) {
      NullTestIsNotMonotone(cmp, l, r);
    } else {
      forall raw ensures Below(Eval(Compare(cmp, l, r), Missing), Eval(Compare(cmp, l, r), raw)) {
        AtomIsMonotone(cmp, l, r, raw);
      }
    }
  }

  // ---- A bare raw_value among the operands --------------------------------------------------------

  /** Operands that are plain conditions or the bare raw_value. */
  predicate BareOrPlain(cs: seq<Tree>) { forall c | c in cs :: c.Raw? || Plain(c) }

  /** The value from which a connective starts: true for &&, false for ||. */
  function Neutral(op: Connective): Value { Bool(op.And?) }

  /** The value that decides a connective whatever the other operands: false for &&, true for ||. */
  function Deciding(op: Connective): Value { Bool(!op.And?) }

  predicate Gives(t: Tree, raw: Value, answer: Value) { Eval(t, raw) == answer }

  /** All the plain operands are neutral when the value is missing; bare operands are not asked. */
  predicate PlainNeutral(op: Connective, cs: seq<Tree>) { forall c | c in cs && Plain(c) :: Eval(c, Missing) == Neutral(op) }

  /** On a missing value a bare operand is neutral, whatever the connective. */
  lemma {:induction false} NeutralOnMissing(op: Connective, acc: Value, cs: seq<Tree>)
    requires BareOrPlain(cs) && Logical(acc)
    ensures Logical(EvalAll(op, acc, cs, Missing))
    ensures EvalAll(op, acc, cs, Missing) == Neutral(op) <==> acc == Neutral(op) && PlainNeutral(op, cs)
    decreases cs
  {
    if cs != [] {
      var v := Eval(cs[0], Missing);
      assert cs[0] in cs && forall c :: c in cs <==> c == cs[0] || c in cs[1..];
      if Plain(cs[0]) {
        MissingIsBelow(cs[0], Missing);
      }
      assert Join(op, acc, v) == Neutral(op) <==> acc == Neutral(op) && (Plain(cs[0]) ==> v == Neutral(op));
      NeutralOnMissing(op, Join(op, acc, v), cs[1..]);
    }
  }

  /** A definite value that is not neutral decides a connective for good. */
  lemma {:induction false} AbsorbingStays(op: Connective, cs: seq<Tree>, raw: Value)
    ensures EvalAll(op, Deciding(op), cs, raw) == Deciding(op)
    decreases cs
  {
    if cs != [] {
      AbsorbingStays(op, cs[1..], raw);
    }
  }

  /** A bare operand decides the connective on the boolean that is not neutral. */
  lemma {:induction false} BareDecides(op: Connective, acc: Value, cs: seq<Tree>)
    requires Raw in cs
    ensures EvalAll(op, acc, cs, Deciding(op)) == Deciding(op)
    decreases cs
  {
    if cs[0].Raw? {
      AbsorbingStays(op, cs[1..], Deciding(op));
    } else {
      BareDecides(op, Join(op, acc, Eval(cs[0], Deciding(op))), cs[1..]);
    }
  }

  /** A plain or bare operand list that is decided against the neutral value when missing is so decided always. */
  lemma {:induction false} AbsorbedAlways(op: Connective, acc: Value, acc': Value, cs: seq<Tree>, raw: Value)
    requires BareOrPlain(cs) && Logical(acc)
    requires EvalAll(op, acc, cs, Missing) == Deciding(op) && (acc == Deciding(op) ==> acc' == acc)
    ensures EvalAll(op, acc', cs, raw) == Deciding(op)
    decreases cs
  {
    if cs != [] {
      var v, v' := Eval(cs[0], Missing), Eval(cs[0], raw);
      assert cs[0] in cs && forall c | c in cs[1..] :: c in cs;
      if Plain(cs[0]) {
        MissingIsBelow(cs[0], raw);
      }
      AbsorbedAlways(op, Join(op, acc, v), Join(op, acc', v'), cs[1..], raw);
    }
  }

  /**
   For every connective over plain conditions and bare raw_values: the neutral answer given on a
   missing value (true for &&, false for ||) is not the answer for every value exactly if one operand
   is the bare raw_value and every plain operand is neutral. The other definite answer always holds.
  */
  lemma BareOperandsDecideExactly(op: Connective, cs: seq<Tree>)
    requires BareOrPlain(cs)
    ensures Gives(BoolOp(op, cs), Missing, Neutral(op)) && (exists raw :: !Gives(BoolOp(op, cs), raw, Neutral(op)))
            <==> Raw in cs && PlainNeutral(op, cs)
    ensures Gives(BoolOp(op, cs), Missing, Deciding(op)) ==> forall raw :: Gives(BoolOp(op, cs), raw, Deciding(op))
  {
    var t := BoolOp(op, cs);
    NeutralOnMissing(op, Neutral(op), cs);
    if Gives(t, Missing, Deciding(op)) {
      forall raw ensures Gives(t, raw, Deciding(op)) {
        AbsorbedAlways(op, Neutral(op), Neutral(op), cs, raw);
      }
    }
    if Raw in cs {
      BareDecides(op, Neutral(op), cs);
      assert !Gives(t, Deciding(op), Neutral(op));
    } else if Gives(t, Missing, Neutral(op)) {
      forall raw ensures Gives(t, raw, Neutral(op)) {
        MissingIsBelow(t, raw);
      }
    }
  }

  /**
   The documentation says a missing value never passes a check by accident. A conjunction of plain
   conditions and bare raw_values passes on a missing value and fails on some value exactly if
   raw_value is one of its operands and every plain operand passes on a missing value.
  */
  lemma BareOperandPassesWhenMissing(cs: seq<Tree>)
    requires BareOrPlain(cs)
    ensures Meets(BoolOp(And, cs), Missing) && (exists raw :: !Meets(BoolOp(And, cs), raw))
            <==> Raw in cs && forall c | c in cs && Plain(c) :: Meets(c, Missing)
  {
    BareOperandsDecideExactly(And, cs);
    hide Eval, Plain;
    assert (forall c | c in cs && Plain(c) :: Meets(c, Missing)) <==> PlainNeutral(And, cs);
    assert forall raw :: Meets(BoolOp(And, cs), raw) <==> Gives(BoolOp(And, cs), raw, Neutral(And));
  }

  /**
   A disjunction of such operands never passes by accident. It is refused on a missing value, and met
   by some value, exactly if raw_value is an operand and every plain operand is definitely false.
  */
  lemma BareOperandIsFalseUnderOr(cs: seq<Tree>)
    requires BareOrPlain(cs)
    ensures Meets(BoolOp(Or, cs), Missing) ==> forall raw :: Meets(BoolOp(Or, cs), raw)
    ensures Eval(BoolOp(Or, cs), Missing) == Bool(false) && (exists raw :: Meets(BoolOp(Or, cs), raw))
            <==> Raw in cs && forall c | c in cs && Plain(c) :: Eval(c, Missing) == Bool(false)
  {
    BareOperandsDecideExactly(Or, cs);
    if Raw in cs {
      BareDecides(Or, Bool(false), cs);
      assert Meets(BoolOp(Or, cs), Bool(true));
    }
    assert forall raw | Meets(BoolOp(Or, cs), raw) :: !Gives(BoolOp(Or, cs), raw, Bool(false));
    assert Meets(BoolOp(Or, cs), Missing) ==> Gives(BoolOp(Or, cs), Missing, Bool(true));
    assert forall raw | Gives(BoolOp(Or, cs), raw, Bool(true)) :: Meets(BoolOp(Or, cs), raw);
    assert Eval(BoolOp(Or, cs), Missing) == Bool(false) <==> Gives(BoolOp(Or, cs), Missing, Bool(false));
    hide Eval, Plain;
    assert (forall c | c in cs && Plain(c) :: Eval(c, Missing) == Bool(false)) <==> PlainNeutral(Or, cs);
  }

  /** A negation never passes by accident; its false on a missing value is not final exactly if it negates raw_value. */
  lemma NegatedOperandExactly(c: Tree)
    requires c.Raw? || Plain(c)
    ensures Meets(Not(c), Missing) ==> forall raw :: Meets(Not(c), raw)
    ensures Eval(Not(c), Missing) == Bool(false) && (exists raw :: Meets(Not(c), raw)) <==> c.Raw?
  {
    if c.Raw? {
      assert Meets(Not(c), Bool(false));
    } else {
      forall raw ensures Below(Eval(Not(c), Missing), Eval(Not(c), raw)) {
        MissingIsBelow(Not(c), raw);
      }
    }
  }

  // ---- Connectives nested to any depth -------------------------------------------------------------

  /**
   An answer this condition gives on a missing value is final. Comparisons of atoms may stand anywhere,
   a null test only where false is asked for; a bare raw_value may be an operand of && where false is
   asked for, of || where true is, and of a negation where true is. Negation asks for the opposite.
  */
  predicate Steady(t: Tree, answer: bool)
    decreases t
  {
    match t
    case Raw => true
    case Lit(_) => true
    case Compare(cmp, l, r) => Atomic(l) && Atomic(r) && (answer ==> !NullTest(cmp, l, r))
    case Not(c) => Steady(c, !answer) && (c.Raw? ==> answer)
    case BoolOp(op, cs) => forall c | c in cs :: Steady(c, answer) && (c.Raw? ==> answer != op.And?)
  }

  /** Every plain condition is steady in both answers. */
  lemma {:induction false} PlainIsSteady(t: Tree, answer: bool)
    requires Plain(t)
    ensures Steady(t, answer)
    decreases t
  {
    match t
    case Not(c) => PlainIsSteady(c, !answer);
    case BoolOp(_, cs) =>
      forall c | c in cs ensures Steady(c, answer) {
        PlainIsSteady(c, answer);
      }
    case _ =>
  }

  lemma {:induction false} ConnectivesAreLogical(op: Connective, acc: Value, cs: seq<Tree>, raw: Value)
    requires Logical(acc)
    ensures Logical(EvalAll(op, acc, cs, raw))
    decreases cs
  {
    if cs != [] {
      ConnectivesAreLogical(op, Join(op, acc, Eval(cs[0], raw)), cs[1..], raw);
    }
  }

  lemma CompareIsSteady(cmp: Cmp, l: Tree, r: Tree, answer: bool, raw: Value)
    requires Steady(Compare(cmp, l, r), answer) && Eval(Compare(cmp, l, r), Missing) == Bool(answer)
    ensures Eval(Compare(cmp, l, r), raw) == Bool(answer)
  {
    if !NullTest(cmp, l, r) {
      AtomIsMonotone(cmp, l, r, raw);
    }
  }

  /**
   A missing value passes no steady condition by accident, however its connectives are nested: the
   answer it gives without the value is the answer for every value.
  */
  lemma {:induction false} SteadyAnswersAreFinal(t: Tree, answer: bool, raw: Value)
    requires Steady(t, answer) && Eval(t, Missing) == Bool(answer)
    ensures Eval(t, raw) == Bool(answer)
    decreases t, 1
  {
    match t
    case Lit(_) =>
    case Compare(cmp, l, r) => CompareIsSteady(cmp, l, r, answer, raw);
    case Not(c) =>
      if !c.Raw? && !c.Lit? {
        OperandIsLogical(c, Missing);
        SteadyAnswersAreFinal(c, !answer, raw);
      }
    case BoolOp(op, cs) =>
      if answer == op.And? {
        SteadyNeutral(op, Neutral(op), cs, raw);
      } else {
        SteadyDeciding(op, Neutral(op), Neutral(op), cs, raw);
      }
  }

  /** A connective neutral on a missing value has only neutral operands, and each stays so. */
  lemma {:induction false} SteadyNeutral(op: Connective, acc: Value, cs: seq<Tree>, raw: Value)
    requires (forall c | c in cs :: Steady(c, op.And?) && !c.Raw?) && Logical(acc)
    requires EvalAll(op, acc, cs, Missing) == Neutral(op)
    ensures acc == Neutral(op) && EvalAll(op, acc, cs, raw) == Neutral(op)
    decreases cs, 0
  {
    if cs != [] {
      var v, v' := Eval(cs[0], Missing), Eval(cs[0], raw);
      assert cs[0] in cs && forall c | c in cs[1..] :: c in cs;
      SteadyNeutral(op, Join(op, acc, v), cs[1..], raw);
      if !cs[0].Lit? {
        OperandIsLogical(cs[0], Missing);
        SteadyAnswersAreFinal(cs[0], op.And?, raw);
      }
    }
  }

  /** A condition other than raw_value or a literal is true, false or undecided. */
  lemma OperandIsLogical(t: Tree, raw: Value)
    requires !t.Raw? && !t.Lit?
    ensures Logical(Eval(t, raw))
  {
    if t.BoolOp? {
      ConnectivesAreLogical(t.connective, Neutral(t.connective), t.children, raw);
    }
  }

  /** A connective decided on a missing value is decided by an operand, which stays so. */
  lemma {:induction false} SteadyDeciding(op: Connective, acc: Value, acc': Value, cs: seq<Tree>, raw: Value)
    requires (forall c | c in cs :: Steady(c, !op.And?)) && Logical(acc)
    requires EvalAll(op, acc, cs, Missing) == Deciding(op) && (acc == Deciding(op) ==> acc' == acc)
    ensures EvalAll(op, acc', cs, raw) == Deciding(op)
    decreases cs, 0
  {
    if cs != [] {
      var v, v' := Eval(cs[0], Missing), Eval(cs[0], raw);
      assert cs[0] in cs && forall c | c in cs[1..] :: c in cs;
      if v == Deciding(op) {
        SteadyAnswersAreFinal(cs[0], !op.And?, raw);
      }
      SteadyDeciding(op, Join(op, acc, v), Join(op, acc', v'), cs[1..], raw);
    }
  }
}
