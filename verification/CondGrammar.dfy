/**
 The grammar of scoring.condition as a relation between token lists and trees, independent of the
 parser; and the proof that the parser accepts exactly what the grammar derives, with the one tree it
 derives. Printing a tree is one derivation of it, so a printed tree parses back.
*/
module CondGrammar {
  import opened Wrappers
  import opened CondSyntax
  import opened CondParser

  /** raw_value, a literal, or a disjunction in parentheses. */
  ghost predicate IsOperand(ts: seq<Tok>, t: Tree)
    decreases |ts|, 2
  {
    || (ts == [Word("raw_value")] && t == Raw)
    || (t.Lit? && ts == [LiteralTok(t.value)])
    || (|ts| > 2 && ts[0] == Open && ts[|ts| - 1] == Close && IsJoined(Or, ts[1..|ts| - 1], t))
  }

  /** An operand, or two of them around a comparison sign. */
  ghost predicate IsComparison(ts: seq<Tok>, t: Tree)
    decreases |ts|, 3
  {
    IsOperand(ts, t) || (t.Compare? && exists i | 0 <= i < |ts| :: ComparesAt(ts, t, i))
  }

  ghost predicate ComparesAt(ts: seq<Tok>, t: Tree, i: nat)
    requires t.Compare? && i < |ts|
    decreases |ts|, 2
  {
    ts[i] == Comp(t.cmp) && IsOperand(ts[..i], t.left) && IsOperand(ts[i + 1..], t.right)
  }

  /** A comparison, or the negation of such a phrase. */
  ghost predicate IsNegation(ts: seq<Tok>, t: Tree)
    decreases |ts|, 4
  {
    IsComparison(ts, t) || (t.Not? && ts != [] && ts[0] == Bang && IsNegation(ts[1..], t.child))
  }

  /** The operands of && are negations, those of || conjunctions. */
  ghost predicate IsChild(op: Connective, ts: seq<Tok>, t: Tree)
    decreases |ts|, if op.Or? then 8 else 5
  {
    if op.Or? then IsJoined(And, ts, t) else IsNegation(ts, t)
  }

  /** One operand, or several joined by the connective. */
  ghost predicate IsJoined(op: Connective, ts: seq<Tok>, t: Tree)
    decreases |ts|, if op.Or? then 10 else 7
  {
    || IsChild(op, ts, t)
    || (t.BoolOp? && t.connective == op && |t.children| >= 2 && AreChildren(op, ts, t.children))
  }

  ghost predicate AreChildren(op: Connective, ts: seq<Tok>, cs: seq<Tree>)
    decreases |ts|, if op.Or? then 9 else 6
  {
    || (|cs| == 1 && IsChild(op, ts, cs[0]))
    || (|cs| > 1 && exists i | 0 <= i < |ts| :: JoinsAt(op, ts, cs, i))
  }

  ghost predicate JoinsAt(op: Connective, ts: seq<Tok>, cs: seq<Tree>, i: nat)
    requires |cs| > 1 && i < |ts|
    decreases |ts|, 0
  {
    ts[i] == ConnectiveTok(op) && IsChild(op, ts[..i], cs[0]) && AreChildren(op, ts[i + 1..], cs[1..])
  }

  /** The tokens from p up to q. */
  ghost function Kinds(toks: seq<Token>, p: nat, q: nat): (ts: seq<Tok>)
    requires p <= q <= |toks|
    ensures |ts| == q - p
  {
    seq(q - p, i requires 0 <= i < q - p => toks[p + i].tok)
  }

  lemma KindsSplit(toks: seq<Token>, p: nat, m: nat, q: nat)
    requires p <= m < q <= |toks|
    ensures Kinds(toks, p, q)[m - p] == toks[m].tok
    ensures Kinds(toks, p, q)[..m - p] == Kinds(toks, p, m) && Kinds(toks, p, q)[m - p + 1..] == Kinds(toks, m + 1, q)
  {
  }

  // ---- What the parser returns is derived ----------------------------------------------------------

  /** The parse, if it succeeds, read a phrase. */
  ghost predicate Reads(toks: seq<Token>, p: nat, r: Parsed, phrase: (seq<Tok>, Tree) -> bool) {
    r.Success? ==> p < r.value.1 <= |toks| && phrase(Kinds(toks, p, r.value.1), r.value.0)
  }

  ghost function Operand(): (seq<Tok>, Tree) -> bool { (ts: seq<Tok>, t: Tree) => IsOperand(ts, t) }
  ghost function Comparison(): (seq<Tok>, Tree) -> bool { (ts: seq<Tok>, t: Tree) => IsComparison(ts, t) }
  ghost function Negation(): (seq<Tok>, Tree) -> bool { (ts: seq<Tok>, t: Tree) => IsNegation(ts, t) }
  ghost function Child(op: Connective): (seq<Tok>, Tree) -> bool { (ts: seq<Tok>, t: Tree) => IsChild(op, ts, t) }
  ghost function Joined(op: Connective): (seq<Tok>, Tree) -> bool { (ts: seq<Tok>, t: Tree) => IsJoined(op, ts, t) }

  lemma {:induction false} OperandReads(toks: seq<Token>, p: nat)
    requires TokenList(toks) && p < |toks|
    ensures Reads(toks, p, OperandFrom(toks, p), Operand())
    decreases |toks| - p, 0
  {
    var r := OperandFrom(toks, p);
    if r.Success? {
      var q := r.value.1;
      if toks[p].tok == Open {
        JoinedReads(Or, toks, p + 1);
        hide JoinedFrom, IsJoined;
        KindsSplit(toks, p, p, q);
        KindsSplit(toks, p + 1, q - 1, q);
        assert Kinds(toks, p, q)[1..q - p - 1] == Kinds(toks, p + 1, q - 1);
      } else {
        assert Kinds(toks, p, q) == [toks[p].tok];
      }
    }
  }

  lemma {:induction false} ComparisonReads(toks: seq<Token>, p: nat)
    requires TokenList(toks) && p < |toks|
    ensures Reads(toks, p, ComparisonFrom(toks, p), Comparison())
    decreases |toks| - p, 1
  {
    hide OperandFrom, IsOperand, TokenList;
    OperandReads(toks, p);
    var r, left := ComparisonFrom(toks, p), OperandFrom(toks, p);
    if left.Success? && r.Success? && toks[left.value.1].tok.Comp? {
      var m := left.value.1;
      OperandReads(toks, m + 1);
      KindsSplit(toks, p, m, r.value.1);
      assert ComparesAt(Kinds(toks, p, r.value.1), r.value.0, m - p);
    }
  }

  lemma {:induction false} NegationReads(toks: seq<Token>, p: nat)
    requires TokenList(toks) && p < |toks|
    ensures Reads(toks, p, NotFrom(toks, p), Negation())
    decreases |toks| - p, 2
  {
    hide ComparisonFrom, IsComparison;
    if toks[p].tok == Bang {
      NegationReads(toks, p + 1);
      if NotFrom(toks, p).Success? {
        KindsSplit(toks, p, p, NotFrom(toks, p).value.1);
      }
    } else {
      ComparisonReads(toks, p);
    }
  }

  lemma {:induction false} ChildReads(op: Connective, toks: seq<Token>, p: nat)
    requires TokenList(toks) && p < |toks|
    ensures Reads(toks, p, ChildFrom(op, toks, p), Child(op))
    decreases |toks| - p, if op.Or? then 5 else 3
  {
    hide NotFrom, IsNegation, JoinedFrom, IsJoined;
    if op.Or? {
      JoinedReads(And, toks, p);
    } else {
      NegationReads(toks, p);
    }
  }

  /** What the loop over further operands appends to the nodes it has: nothing, or a list behind one connective. */
  lemma {:induction false} MoreReads(op: Connective, toks: seq<Token>, p: nat, nodes: seq<Tree>) returns (rest: seq<Tree>)
    requires TokenList(toks) && p < |toks| && nodes != [] && MoreFrom(op, toks, p, nodes).Success?
    ensures var (t, q) := MoreFrom(op, toks, p, nodes).value;
            && t == Collect(op, nodes + rest) && p <= q
            && (rest == [] ==> q == p)
            && (rest != [] ==> p < q && toks[p].tok == ConnectiveTok(op) && AreChildren(op, Kinds(toks, p + 1, q), rest))
    decreases |toks| - p, if op.Or? then 6 else 4
  {
    rest := [];
    assert nodes + [] == nodes;
    if toks[p].tok == ConnectiveTok(op) {
      ChildReads(op, toks, p + 1);
      hide ChildFrom, IsChild;
      var (node, m) := ChildFrom(op, toks, p + 1).value;
      var more := MoreReads(op, toks, m, nodes + [node]);
      rest := [node] + more;
      assert nodes + [node] + more == nodes + rest;
      OneMore(op, toks, p + 1, m, MoreFrom(op, toks, p, nodes).value.1, node, more);
    }
  }

  lemma OneMore(op: Connective, toks: seq<Token>, p: nat, m: nat, q: nat, node: Tree, more: seq<Tree>)
    requires p <= m <= q <= |toks| && IsChild(op, Kinds(toks, p, m), node) && (more == [] ==> q == m)
    requires more != [] ==> m < q && toks[m].tok == ConnectiveTok(op) && AreChildren(op, Kinds(toks, m + 1, q), more)
    ensures AreChildren(op, Kinds(toks, p, q), [node] + more)
  {
    hide IsChild;
    if more != [] {
      KindsSplit(toks, p, m, q);
      assert ([node] + more)[1..] == more;
      assert JoinsAt(op, Kinds(toks, p, q), [node] + more, m - p);
    }
  }

  lemma {:induction false} JoinedReads(op: Connective, toks: seq<Token>, p: nat)
    requires TokenList(toks) && p < |toks|
    ensures Reads(toks, p, JoinedFrom(op, toks, p), Joined(op))
    decreases |toks| - p, if op.Or? then 6 else 4
  {
    ChildReads(op, toks, p);
    hide ChildFrom, IsChild, AreChildren;
    var r, first := JoinedFrom(op, toks, p), ChildFrom(op, toks, p);
    if r.Success? {
      var (node, m) := first.value;
      var rest := MoreReads(op, toks, m, [node]);
      OneMore(op, toks, p, m, r.value.1, node, rest);
      assert [node] + [] == [node];
    }
  }

  // ---- What is derived parses ----------------------------------------------------------------------

  /** The tokens ts stand at position p, and the token after them ends a phrase of the given level. */
  ghost predicate Stands(toks: seq<Token>, p: nat, ts: seq<Tok>, level: nat) {
    TokenList(toks) && p + |ts| < |toks| && Kinds(toks, p, p + |ts|) == ts && Stops(level, toks[p + |ts|].tok)
  }

  /** A token that ends a phrase of the given level: 0 disjunction, 1 conjunction, 2 negation, 3 comparison, 4 operand. */
  predicate Stops(level: nat, t: Tok) {
    (level <= 3 ==> !t.Comp?) && (level <= 1 ==> t != AndAnd) && (level == 0 ==> t != OrOr)
  }

  /** A part of standing tokens stands, if what follows the part ends its level. */
  lemma PartStands(toks: seq<Token>, p: nat, ts: seq<Tok>, level: nat, a: nat, b: nat, inner: nat)
    requires Stands(toks, p, ts, level) && a <= b <= |ts|
    requires if b == |ts| then level <= inner else Stops(inner, ts[b])
    ensures Stands(toks, p + a, ts[a..b], inner) && forall i | a <= i < |ts| :: toks[p + i].tok == ts[i]
  {
    forall i | 0 <= i < |ts| ensures toks[p + i].tok == ts[i] {
      assert Kinds(toks, p, p + |ts|)[i] == ts[i];
    }
    assert Kinds(toks, p + a, p + b) == ts[a..b];
  }

  lemma OperandStarts(ts: seq<Tok>, t: Tree)
    requires IsOperand(ts, t)
    ensures ts != [] && ts[0] != Bang
  {
  }

  lemma ComparisonStarts(ts: seq<Tok>, t: Tree)
    requires IsComparison(ts, t)
    ensures ts != [] && ts[0] != Bang
  {
    hide IsOperand;
    if IsOperand(ts, t) {
      OperandStarts(ts, t);
    } else {
      var i :| 0 <= i < |ts| && ComparesAt(ts, t, i);
      OperandStarts(ts[..i], t.left);
    }
  }

  lemma ParensStep(toks: seq<Token>, p: nat, node: Tree, q: nat)
    requires TokenList(toks) && p + 1 < |toks| && toks[p].tok == Open
    requires q < |toks| && toks[q].tok == Close && JoinedFrom(Or, toks, p + 1) == Success((node, q))
    ensures OperandFrom(toks, p) == Success((node, q + 1))
  {
    hide JoinedFrom;
  }

  lemma LeafParses(toks: seq<Token>, p: nat, ts: seq<Tok>, t: Tree)
    requires Stands(toks, p, ts, 4) && ((ts == [Word("raw_value")] && t == Raw) || (t.Lit? && ts == [LiteralTok(t.value)]))
    ensures OperandFrom(toks, p) == Success((t, p + |ts|))
  {
    PartStands(toks, p, ts, 4, 0, 0, 4);
    assert toks[p + 0].tok == ts[0];
    hide JoinedFrom;
  }

  lemma {:induction false} OperandParses(toks: seq<Token>, p: nat, ts: seq<Tok>, t: Tree)
    requires Stands(toks, p, ts, 4) && IsOperand(ts, t)
    ensures OperandFrom(toks, p) == Success((t, p + |ts|))
    decreases |ts|, 2
  {
    hide OperandFrom, IsJoined, Stands;
    if |ts| > 2 && ts[0] == Open && ts[|ts| - 1] == Close && IsJoined(Or, ts[1..|ts| - 1], t) {
      PartStands(toks, p, ts, 4, 1, |ts| - 1, 0);
      PartStands(toks, p, ts, 4, 0, 0, 4);
      JoinedParses(Or, toks, p + 1, ts[1..|ts| - 1], t);
      Within(toks, p, ts, 4);
      assert toks[p + 0].tok == ts[0] && toks[p + (|ts| - 1)].tok == ts[|ts| - 1];
      ParensStep(toks, p, t, p + |ts| - 1);
    } else {
      LeafParses(toks, p, ts, t);
    }
  }

  /** The parts of standing tokens before and behind the i-th stand at their levels. */
  lemma SidesStand(toks: seq<Token>, p: nat, ts: seq<Tok>, level: nat, i: nat, left: nat, right: nat)
    requires Stands(toks, p, ts, level) && i < |ts| && Stops(left, ts[i]) && level <= right
    ensures Stands(toks, p, ts[..i], left) && Stands(toks, p + i + 1, ts[i + 1..], right) && toks[p + i].tok == ts[i]
  {
    PartStands(toks, p, ts, level, 0, i, left);
    PartStands(toks, p, ts, level, i + 1, |ts|, right);
    assert ts[0..i] == ts[..i] && ts[i + 1..|ts|] == ts[i + 1..] && toks[p + i].tok == ts[i];
  }

  lemma StandsHigher(toks: seq<Token>, p: nat, ts: seq<Tok>, level: nat, higher: nat)
    requires Stands(toks, p, ts, level) && level <= higher
    ensures Stands(toks, p, ts, higher)
  {
  }

  lemma CompareStep(toks: seq<Token>, p: nat, left: Tree, q: nat, right: Tree, r: nat)
    requires TokenList(toks) && p < |toks| && q + 1 < |toks| && toks[q].tok.Comp?
    requires OperandFrom(toks, p) == Success((left, q)) && OperandFrom(toks, q + 1) == Success((right, r))
    ensures ComparisonFrom(toks, p) == Success((Compare(toks[q].tok.cmp, left, right), r))
  {
    hide OperandFrom;
  }

  lemma {:induction false} ComparisonParses(toks: seq<Token>, p: nat, ts: seq<Tok>, t: Tree)
    requires Stands(toks, p, ts, 3) && IsComparison(ts, t)
    ensures ComparisonFrom(toks, p) == Success((t, p + |ts|))
    decreases |ts|, 3
  {
    hide OperandFrom, IsOperand;
    if IsOperand(ts, t) {
      StandsHigher(toks, p, ts, 3, 4);
      OperandParses(toks, p, ts, t);
    } else {
      var i :| 0 <= i < |ts| && ComparesAt(ts, t, i);
      hide Stands, ComparisonFrom;
      SidesStand(toks, p, ts, 3, i, 4, 4);
      OperandParses(toks, p, ts[..i], t.left);
      OperandParses(toks, p + i + 1, ts[i + 1..], t.right);
      Within(toks, p, ts, 3);
      CompareStep(toks, p, t.left, p + i, t.right, p + |ts|);
    }
  }

  lemma Within(toks: seq<Token>, p: nat, ts: seq<Tok>, level: nat)
    requires Stands(toks, p, ts, level)
    ensures TokenList(toks) && p + |ts| < |toks|
  {
  }

  lemma {:induction false} NegationParses(toks: seq<Token>, p: nat, ts: seq<Tok>, t: Tree)
    requires Stands(toks, p, ts, 2) && IsNegation(ts, t)
    ensures NotFrom(toks, p) == Success((t, p + |ts|))
    decreases |ts|, 4
  {
    hide ComparisonFrom, IsComparison;
    PartStands(toks, p, ts, 2, 0, |ts|, 3);
    assert ts[0..|ts|] == ts;
    if IsComparison(ts, t) {
      ComparisonStarts(ts, t);
      ComparisonParses(toks, p, ts, t);
      assert toks[p].tok == ts[0];
    } else {
      PartStands(toks, p, ts, 2, 1, |ts|, 2);
      assert ts[1..|ts|] == ts[1..] && toks[p].tok == ts[0];
      NegationParses(toks, p + 1, ts[1..], t.child);
    }
  }

  lemma {:induction false} ChildParses(op: Connective, toks: seq<Token>, p: nat, ts: seq<Tok>, t: Tree)
    requires Stands(toks, p, ts, ChildLevel(op)) && IsChild(op, ts, t)
    ensures ChildFrom(op, toks, p) == Success((t, p + |ts|))
    decreases |ts|, if op.Or? then 8 else 5
  {
    hide NotFrom, IsNegation, JoinedFrom, IsJoined;
    if op.Or? {
      JoinedParses(And, toks, p, ts, t);
    } else {
      NegationParses(toks, p, ts, t);
    }
  }

  /** Operands joined by the connective, behind one more connective at p. */
  lemma {:induction false} MoreParses(op: Connective, toks: seq<Token>, p: nat, ts: seq<Tok>, cs: seq<Tree>, nodes: seq<Tree>)
    requires nodes != [] && p < |toks| && toks[p].tok == ConnectiveTok(op)
    requires Stands(toks, p + 1, ts, ChildLevel(op) - 1) && AreChildren(op, ts, cs)
    ensures MoreFrom(op, toks, p, nodes) == Success((Collect(op, nodes + cs), p + 1 + |ts|))
    decreases |ts|, if op.Or? then 9 else 6
  {
    hide ChildFrom, IsChild, Stands, Collect;
    var level := ChildLevel(op);
    if |cs| == 1 && IsChild(op, ts, cs[0]) {
      StandsHigher(toks, p + 1, ts, level - 1, level);
      assert [cs[0]] == cs;
      ChildParses(op, toks, p + 1, ts, cs[0]);
      Stopped(op, toks, p + 1, ts, nodes + cs);
      MoreStep(op, toks, p, nodes, cs[0], p + 1 + |ts|);
    } else {
      var i :| 0 <= i < |ts| && JoinsAt(op, ts, cs, i);
      Within(toks, p + 1, ts, level - 1);
      SidesStand(toks, p + 1, ts, level - 1, i, level, level - 1);
      ChildParses(op, toks, p + 1, ts[..i], cs[0]);
      MoreParses(op, toks, p + 1 + i, ts[i + 1..], cs[1..], nodes + [cs[0]]);
      MoreStep(op, toks, p, nodes, cs[0], p + 1 + i);
      assert nodes + [cs[0]] + cs[1..] == nodes + cs;
    }
  }

  lemma MoreStep(op: Connective, toks: seq<Token>, p: nat, nodes: seq<Tree>, node: Tree, q: nat)
    requires TokenList(toks) && p + 1 < |toks| && q < |toks| && nodes != []
    requires toks[p].tok == ConnectiveTok(op) && ChildFrom(op, toks, p + 1) == Success((node, q))
    ensures MoreFrom(op, toks, p, nodes) == MoreFrom(op, toks, q, nodes + [node])
  {
  }

  /** Behind the last operand no connective of this kind follows. */
  lemma Stopped(op: Connective, toks: seq<Token>, p: nat, ts: seq<Tok>, nodes: seq<Tree>)
    requires nodes != [] && Stands(toks, p, ts, ChildLevel(op) - 1)
    ensures TokenList(toks) && p + |ts| < |toks| && MoreFrom(op, toks, p + |ts|, nodes) == Success((Collect(op, nodes), p + |ts|))
  {
    hide ChildFrom;
  }

  lemma {:induction false} JoinedParses(op: Connective, toks: seq<Token>, p: nat, ts: seq<Tok>, t: Tree)
    requires Stands(toks, p, ts, ChildLevel(op) - 1) && IsJoined(op, ts, t)
    ensures JoinedFrom(op, toks, p) == Success((t, p + |ts|))
    decreases |ts|, if op.Or? then 10 else 7
  {
    hide ChildFrom, MoreFrom, IsChild, Stands;
    var level := ChildLevel(op);
    if IsChild(op, ts, t) {
      StandsHigher(toks, p, ts, level - 1, level);
      ChildParses(op, toks, p, ts, t);
      Stopped(op, toks, p, ts, [t]);
    } else {
      var cs := t.children;
      assert AreChildren(op, ts, cs);
      var i :| 0 <= i < |ts| && JoinsAt(op, ts, cs, i);
      Within(toks, p, ts, level - 1);
      SidesStand(toks, p, ts, level - 1, i, level, level - 1);
      ChildParses(op, toks, p, ts[..i], cs[0]);
      MoreParses(op, toks, p + i, ts[i + 1..], cs[1..], [cs[0]]);
      assert [cs[0]] + cs[1..] == cs && Collect(op, cs) == t;
    }
  }

  /**
   The parser accepts exactly what the grammar derives from all the tokens before the end marker, and
   returns the tree that is derived; so unknown words, unbalanced parentheses and anything trailing
   are refused, and no token list derives two trees.
  */
  lemma ParserAcceptsExactly(toks: seq<Token>, t: Tree)
    requires TokenList(toks)
    ensures ParseTokens(toks) == Success(t) <==> IsJoined(Or, Kinds(toks, 0, |toks| - 1), t)
  {
    hide JoinedFrom, IsJoined;
    var ts := Kinds(toks, 0, |toks| - 1);
    if ParseTokens(toks) == Success(t) {
      JoinedReads(Or, toks, 0);
      assert JoinedFrom(Or, toks, 0) == Success((t, |toks| - 1));
    }
    if IsJoined(Or, ts, t) {
      assert Stands(toks, 0, ts, 0);
      JoinedParses(Or, toks, 0, ts, t);
    }
  }

  // ---- Printing is a derivation --------------------------------------------------------------------

  /** A phrase of the level: 0 disjunction, 1 conjunction, 2 negation, 3 comparison, 4 operand. */
  ghost predicate IsPhrase(level: nat, ts: seq<Tok>, t: Tree) {
    match level
    case 0 => IsJoined(Or, ts, t)
    case 1 => IsJoined(And, ts, t)
    case 2 => IsNegation(ts, t)
    case 3 => IsComparison(ts, t)
    case _ => IsOperand(ts, t)
  }

  /** A phrase of a higher level is one of every lower level. */
  lemma {:induction false} PhraseLowers(hi: nat, lo: nat, ts: seq<Tok>, t: Tree)
    requires lo <= hi <= 4 && IsPhrase(hi, ts, t)
    ensures IsPhrase(lo, ts, t)
    decreases hi - lo
  {
    if lo < hi {
      PhraseLowers(hi, lo + 1, ts, t);
      if lo <= 1 {
        assert IsChild(if lo == 0 then Or else And, ts, t);
      }
    }
  }

  lemma {:induction false} PrintIsPhrase(t: Tree)
    requires WellFormed(t)
    ensures PrintTree(t) != [] && IsPhrase(Level(t), PrintTree(t), t)
    decreases t, 1
  {
    match t
    case Raw =>
    case Lit(_) =>
    case Compare(cmp, l, r) =>
      PrintAtIsPhrase(4, l);
      PrintAtIsPhrase(4, r);
      hide IsOperand, PrintAt;
      Compared(PrintAt(4, l), cmp, PrintAt(4, r), l, r);
    case Not(c) =>
      PrintAtIsPhrase(2, c);
      assert ([Bang] + PrintAt(2, c))[1..] == PrintAt(2, c);
      hide PrintAt;
    case BoolOp(op, cs) =>
      PrintIsChildren(op, cs);
      hide AreChildren, PrintMore, PrintAt;
  }

  lemma Compared(left: seq<Tok>, cmp: Cmp, right: seq<Tok>, l: Tree, r: Tree)
    requires IsOperand(left, l) && IsOperand(right, r)
    ensures IsComparison(left + ([Comp(cmp)] + right), Compare(cmp, l, r))
  {
    var ts := left + ([Comp(cmp)] + right);
    hide IsOperand;
    assert ts[..|left|] == left && ts[|left| + 1..] == right;
    assert ComparesAt(ts, Compare(cmp, l, r), |left|);
  }

  lemma {:induction false} PrintIsChildren(op: Connective, cs: seq<Tree>)
    requires cs != [] && forall c | c in cs :: WellFormed(c)
    ensures AreChildren(op, PrintAt(ChildLevel(op), cs[0]) + PrintMore(op, cs[1..]), cs)
    decreases cs, 0
  {
    var first, more := PrintAt(ChildLevel(op), cs[0]), PrintMore(op, cs[1..]);
    PrintAtIsPhrase(ChildLevel(op), cs[0]);
    assert IsChild(op, first, cs[0]);
    hide IsChild, PrintAt;
    if |cs| == 1 {
      assert first + more == first;
    } else {
      PrintIsChildren(op, cs[1..]);
      var ts := first + more;
      assert ts[..|first|] == first && ts[|first| + 1..] == more[1..];
      assert more[1..] == PrintAt(ChildLevel(op), cs[1]) + PrintMore(op, cs[1..][1..]);
      assert JoinsAt(op, ts, cs, |first|);
    }
  }

  lemma {:induction false} PrintAtIsPhrase(level: nat, t: Tree)
    requires WellFormed(t) && level <= 4
    ensures IsPhrase(level, PrintAt(level, t), t)
    decreases t, 2
  {
    PrintIsPhrase(t);
    var ts := PrintTree(t);
    hide IsPhrase, PrintTree;
    if Level(t) >= level {
      PhraseLowers(Level(t), level, ts, t);
    } else {
      PhraseLowers(Level(t), 0, ts, t);
      Parenthesized(ts, t);
      PhraseLowers(4, level, [Open] + (ts + [Close]), t);
    }
  }

  lemma Parenthesized(ts: seq<Tok>, t: Tree)
    requires ts != [] && IsPhrase(0, ts, t)
    ensures IsPhrase(4, [Open] + (ts + [Close]), t)
  {
    var all := [Open] + (ts + [Close]);
    assert all[1..|all| - 1] == ts;
    hide IsJoined;
  }

  /** Printing then parsing is the identity on token level. */
  lemma ParsePrintedTokens(t: Tree, toks: seq<Token>)
    requires TokenList(toks) && WellFormed(t)
    requires |toks| == |PrintTree(t)| + 1 && forall i | 0 <= i < |PrintTree(t)| :: toks[i].tok == PrintTree(t)[i]
    ensures ParseTokens(toks) == Success(t)
  {
    PrintIsPhrase(t);
    PhraseLowers(Level(t), 0, PrintTree(t), t);
    assert Kinds(toks, 0, |toks| - 1) == PrintTree(t);
    ParserAcceptsExactly(toks, t);
  }
}
