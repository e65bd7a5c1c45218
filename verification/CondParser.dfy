/**
 The recursive-descent parser of scoring.condition: as functions over a token list and a
 position, and as the class whose methods advance a position.
*/
module CondParser {
  import opened Wrappers
  import opened CondSyntax

  datatype Reason =
    | EmptyCondition | UnexpectedCharacter | UnterminatedString
    | TrailingInput | UnknownIdentifier | ExpectedClose | ExpectedOperand

  datatype ConditionError = ConditionError(pos: nat, reason: Reason)

  type Parsed = Result<(Tree, nat), ConditionError>

  /** What the tokenizer hands over: exactly one end marker, at the end. */
  ghost predicate TokenList(toks: seq<Token>) {
    && toks != [] && toks[|toks| - 1].tok == Eof
    && forall i | 0 <= i < |toks| - 1 :: toks[i].tok != Eof
  }

  ghost predicate GoodTok(t: Tok) { t.FloatTok? ==> IsDecimalText(t.text) }

  ghost predicate GoodLiterals(toks: seq<Token>) {
    forall i | 0 <= i < |toks| :: GoodTok(toks[i].tok)
  }

  /** A parse consumes something and stays before the end marker. */
  ghost predicate Advances(toks: seq<Token>, p: nat, r: Parsed) {
    r.Success? ==> p < r.value.1 < |toks|
  }

  function Collect(op: Connective, nodes: seq<Tree>): Tree
    requires nodes != []
  {
    if |nodes| == 1 then nodes[0] else BoolOp(op, nodes)
  }

  function JoinedFrom(op: Connective, toks: seq<Token>, p: nat): (r: Parsed)
    requires TokenList(toks) && p < |toks|
    ensures Advances(toks, p, r)
    decreases |toks| - p, if op.Or? then 6 else 4
  {
    match ChildFrom(op, toks, p)
    case Failure(e) => Failure(e)
    case Success((node, p1)) => MoreFrom(op, toks, p1, [node])
  }

  function MoreFrom(op: Connective, toks: seq<Token>, p: nat, nodes: seq<Tree>): (r: Parsed)
    requires TokenList(toks) && p < |toks| && nodes != []
    ensures r.Success? ==> p <= r.value.1 < |toks|
    decreases |toks| - p, if op.Or? then 6 else 4
  {
    if toks[p].tok != ConnectiveTok(op) then Success((Collect(op, nodes), p))
    else
      match ChildFrom(op, toks, p + 1)
      case Failure(e) => Failure(e)
      case Success((node, p1)) => MoreFrom(op, toks, p1, nodes + [node])
  }

  function ChildFrom(op: Connective, toks: seq<Token>, p: nat): (r: Parsed)
    requires TokenList(toks) && p < |toks|
    ensures Advances(toks, p, r)
    decreases |toks| - p, if op.Or? then 5 else 3
  {
    if op.Or? then JoinedFrom(And, toks, p) else NotFrom(toks, p)
  }

  function NotFrom(toks: seq<Token>, p: nat): (r: Parsed)
    requires TokenList(toks) && p < |toks|
    ensures Advances(toks, p, r)
    decreases |toks| - p, 2
  {
    if toks[p].tok == Bang then
      match NotFrom(toks, p + 1)
      case Failure(e) => Failure(e)
      case Success((node, p1)) => Success((Not(node), p1))
    else ComparisonFrom(toks, p)
  }

  function ComparisonFrom(toks: seq<Token>, p: nat): (r: Parsed)
    requires TokenList(toks) && p < |toks|
    ensures Advances(toks, p, r)
    decreases |toks| - p, 1
  {
    match OperandFrom(toks, p)
    case Failure(e) => Failure(e)
    case Success((left, p1)) =>
      if toks[p1].tok.Comp? then
        match OperandFrom(toks, p1 + 1)
        case Failure(e) => Failure(e)
        case Success((right, p2)) => Success((Compare(toks[p1].tok.cmp, left, right), p2))
      else Success((left, p1))
  }

  function OperandFrom(toks: seq<Token>, p: nat): (r: Parsed)
    requires TokenList(toks) && p < |toks|
    ensures Advances(toks, p, r)
    decreases |toks| - p, 0
  {
    match toks[p].tok
    case IntTok(i) => Success((Lit(IntLit(i)), p + 1))
    case FloatTok(text) => Success((Lit(FloatLit(text)), p + 1))
    case StrTok(s) => Success((Lit(StrLit(s)), p + 1))
    case Word(name) =>
      if name == "raw_value" then Success((Raw, p + 1))
      else if name == "true" then Success((Lit(BoolLit(true)), p + 1))
      else if name == "false" then Success((Lit(BoolLit(false)), p + 1))
      else if name == "null" then Success((Lit(NullLit), p + 1))
      else Failure(ConditionError(toks[p].pos, UnknownIdentifier))
    case Open =>
      (match JoinedFrom(Or, toks, p + 1)
       case Failure(e) => Failure(e)
       case Success((node, p1)) =>
         if toks[p1].tok == Close then Success((node, p1 + 1))
         else Failure(ConditionError(toks[p1].pos, ExpectedClose)))
    case _ => Failure(ConditionError(toks[p].pos, ExpectedOperand))
  }

  function ParseTokens(toks: seq<Token>): (r: Result<Tree, ConditionError>)
    requires TokenList(toks)
  {
    match JoinedFrom(Or, toks, 0)
    case Failure(e) => Failure(e)
    case Success((node, p)) =>
      if toks[p].tok == Eof then Success(node) else Failure(ConditionError(toks[p].pos, TrailingInput))
  }

  // ---- The parser object --------------------------------------------------------------

  class Parser {
    const tokens: seq<Token>
    var pos: nat

    ghost predicate Valid()
      reads this
    {
      TokenList(tokens) && pos < |tokens|
    }

    constructor (tokens: seq<Token>)
      requires TokenList(tokens)
      ensures Valid() && this.tokens == tokens && pos == 0
    {
      this.tokens := tokens;
      pos := 0;
    }

    /** The call did what the function says: same tree or error, and on success the position it names. */
    ghost predicate Did(expected: Parsed, r: Result<Tree, ConditionError>)
      reads this
    {
      && Valid()
      && (expected.Success? ==> r == Success(expected.value.0) && pos == expected.value.1)
      && (expected.Failure? ==> r == Failure(expected.error))
    }

    method Parse() returns (r: Result<Tree, ConditionError>)
      requires Valid() && pos == 0
      modifies this
      ensures Valid() && r == ParseTokens(tokens)
    {
      r := ParseOr();
      if r.Success? && tokens[pos].tok != Eof {
        r := Failure(ConditionError(tokens[pos].pos, TrailingInput));
      }
    }

    method ParseOr() returns (r: Result<Tree, ConditionError>)
      requires Valid()
      modifies this
      ensures Did(JoinedFrom(Or, tokens, old(pos)), r)
      decreases |tokens| - pos, 5
    {
      r := ParseAnd();
      if r.Failure? {
        return;
      }
      var nodes := [r.value];
      while tokens[pos].tok == OrOr
        invariant Valid() && old(pos) < pos && nodes != []
        invariant JoinedFrom(Or, tokens, old(pos)) == MoreFrom(Or, tokens, pos, nodes)
        decreases |tokens| - pos
      {
        pos := pos + 1;
        r := ParseAnd();
        if r.Failure? {
          return;
        }
        nodes := nodes + [r.value];
      }
      r := Success(Collect(Or, nodes));
    }

    method ParseAnd() returns (r: Result<Tree, ConditionError>)
      requires Valid()
      modifies this
      ensures Did(JoinedFrom(And, tokens, old(pos)), r)
      decreases |tokens| - pos, 4
    {
      r := ParseNot();
      if r.Failure? {
        return;
      }
      var nodes := [r.value];
      while tokens[pos].tok == AndAnd
        invariant Valid() && old(pos) < pos && nodes != []
        invariant JoinedFrom(And, tokens, old(pos)) == MoreFrom(And, tokens, pos, nodes)
        decreases |tokens| - pos
      {
        pos := pos + 1;
        r := ParseNot();
        if r.Failure? {
          return;
        }
        nodes := nodes + [r.value];
      }
      r := Success(Collect(And, nodes));
    }

    method ParseNot() returns (r: Result<Tree, ConditionError>)
      requires Valid()
      modifies this
      ensures Did(NotFrom(tokens, old(pos)), r)
      decreases |tokens| - pos, 3
    {
      if tokens[pos].tok == Bang {
        pos := pos + 1;
        r := ParseNot();
        if r.Success? {
          r := Success(Not(r.value));
        }
        return;
      }
      r := ParseComparison();
    }

    method ParseComparison() returns (r: Result<Tree, ConditionError>)
      requires Valid()
      modifies this
      ensures Did(ComparisonFrom(tokens, old(pos)), r)
      decreases |tokens| - pos, 2
    {
      r := ParseOperand();
      if r.Failure? || !tokens[pos].tok.Comp? {
        return;
      }
      var cmp, left := tokens[pos].tok.cmp, r.value;
      pos := pos + 1;
      r := ParseOperand();
      if r.Success? {
        r := Success(Compare(cmp, left, r.value));
      }
    }

    method ParseOperand() returns (r: Result<Tree, ConditionError>)
      requires Valid()
      modifies this
      ensures Did(OperandFrom(tokens, old(pos)), r)
      decreases |tokens| - pos, 1
    {
      var at := tokens[pos];
      match at.tok
      case IntTok(i) => pos, r := pos + 1, Success(Lit(IntLit(i)));
      case FloatTok(text) => pos, r := pos + 1, Success(Lit(FloatLit(text)));
      case StrTok(s) => pos, r := pos + 1, Success(Lit(StrLit(s)));
      case Word(name) =>
        if name == "raw_value" {
          pos, r := pos + 1, Success(Raw);
        } else if name == "true" {
          pos, r := pos + 1, Success(Lit(BoolLit(true)));
        } else if name == "false" {
          pos, r := pos + 1, Success(Lit(BoolLit(false)));
        } else if name == "null" {
          pos, r := pos + 1, Success(Lit(NullLit));
        } else {
          r := Failure(ConditionError(at.pos, UnknownIdentifier));
        }
      case Open =>
        pos := pos + 1;
        r := ParseOr();
        if r.Success? {
          if tokens[pos].tok == Close {
            pos := pos + 1;
          } else {
            r := Failure(ConditionError(tokens[pos].pos, ExpectedClose));
          }
        }
      case _ => r := Failure(ConditionError(at.pos, ExpectedOperand));
    }
  }

  // ---- Whatever parses is expressible ---------------------------------------------------------

  /** What is wrong with the token an error points at. */
  ghost predicate IsWrong(t: Tok, reason: Reason) {
    match reason
    case UnknownIdentifier => t.Word? && t.name !in ["raw_value", "true", "false", "null"]
    case ExpectedOperand => !t.Word? && !t.IntTok? && !t.FloatTok? && !t.StrTok? && t != Open
    case ExpectedClose => t != Close
    case TrailingInput => t != Eof
    case _ => false
  }

  /** The error stands at one of the tokens, and is wrong with it what the reason says. */
  ghost predicate PointsAt(toks: seq<Token>, e: ConditionError) {
    exists i | 0 <= i < |toks| :: toks[i].pos == e.pos && IsWrong(toks[i].tok, e.reason)
  }

  /** A tree the grammar can express, or an error at a token. */
  ghost predicate YieldsWellFormed(toks: seq<Token>, r: Parsed) {
    match r
    case Success((t, _)) => WellFormed(t)
    case Failure(e) => PointsAt(toks, e)
  }

  lemma {:induction false} JoinedIsWellFormed(op: Connective, toks: seq<Token>, p: nat)
    requires TokenList(toks) && GoodLiterals(toks) && p < |toks|
    ensures YieldsWellFormed(toks, JoinedFrom(op, toks, p))
    decreases |toks| - p, if op.Or? then 6 else 4
  {
    ChildIsWellFormed(op, toks, p);
    var first := ChildFrom(op, toks, p);
    if first.Success? {
      MoreIsWellFormed(op, toks, first.value.1, [first.value.0]);
    }
  }

  lemma {:induction false} MoreIsWellFormed(op: Connective, toks: seq<Token>, p: nat, nodes: seq<Tree>)
    requires TokenList(toks) && GoodLiterals(toks) && p < |toks|
    requires nodes != [] && forall n | n in nodes :: WellFormed(n)
    ensures YieldsWellFormed(toks, MoreFrom(op, toks, p, nodes))
    decreases |toks| - p, if op.Or? then 6 else 4
  {
    if toks[p].tok == ConnectiveTok(op) {
      ChildIsWellFormed(op, toks, p + 1);
      var next := ChildFrom(op, toks, p + 1);
      if next.Success? {
        MoreIsWellFormed(op, toks, next.value.1, nodes + [next.value.0]);
      }
    }
  }

  lemma {:induction false} ChildIsWellFormed(op: Connective, toks: seq<Token>, p: nat)
    requires TokenList(toks) && GoodLiterals(toks) && p < |toks|
    ensures YieldsWellFormed(toks, ChildFrom(op, toks, p))
    decreases |toks| - p, if op.Or? then 5 else 3
  {
    if op.Or? {
      JoinedIsWellFormed(And, toks, p);
    } else {
      NotIsWellFormed(toks, p);
    }
  }

  lemma {:induction false} NotIsWellFormed(toks: seq<Token>, p: nat)
    requires TokenList(toks) && GoodLiterals(toks) && p < |toks|
    ensures YieldsWellFormed(toks, NotFrom(toks, p))
    decreases |toks| - p, 2
  {
    if toks[p].tok == Bang {
      NotIsWellFormed(toks, p + 1);
    } else {
      ComparisonIsWellFormed(toks, p);
    }
  }

  lemma {:induction false} ComparisonIsWellFormed(toks: seq<Token>, p: nat)
    requires TokenList(toks) && GoodLiterals(toks) && p < |toks|
    ensures YieldsWellFormed(toks, ComparisonFrom(toks, p))
    decreases |toks| - p, 1
  {
    OperandIsWellFormed(toks, p);
    var left := OperandFrom(toks, p);
    if left.Success? && toks[left.value.1].tok.Comp? {
      OperandIsWellFormed(toks, left.value.1 + 1);
    }
  }

  lemma {:induction false} OperandIsWellFormed(toks: seq<Token>, p: nat)
    requires TokenList(toks) && GoodLiterals(toks) && p < |toks|
    ensures YieldsWellFormed(toks, OperandFrom(toks, p))
    decreases |toks| - p, 0
  {
    assert GoodTok(toks[p].tok);
    if toks[p].tok == Open {
      JoinedIsWellFormed(Or, toks, p + 1);
    }
  }

  /** A parse that fails points at a token and says what is wrong with it. */
  lemma ParseErrorsPoint(toks: seq<Token>)
    requires TokenList(toks) && GoodLiterals(toks)
    ensures ParseTokens(toks).Failure? ==> PointsAt(toks, ParseTokens(toks).error)
  {
    JoinedIsWellFormed(Or, toks, 0);
  }
}
