/** Printing a well-formed condition and compiling the text gives the condition back. */
module CondRoundTrip {
  import opened Wrappers
  import opened CondSyntax
  import opened CondParser
  import opened CondGrammar
  import opened CondTokenizer
  import opened CondLanguage

  // ---- Single tokens ---------------------------------------------------------------------

  /** Tokens that have a text of their own. */
  ghost predicate Renderable(t: Tok) {
    match t
    case Word(w) => IsName(w)
    case FloatTok(text) => IsDecimalText(text)
    case Eof => false
    case _ => true
  }

  lemma {:induction false} DecimalWrites(n: nat)
    ensures Decimal(n) != "" && AllDigits(Decimal(n)) && Horner(Decimal(n), 0) == n
  {
    if n >= 10 {
      DecimalWrites(n / 10);
      HornerSnoc(Decimal(n / 10), DigitChar(n % 10), 0);
    }
  }

  lemma IntWrites(n: int)
    ensures RenderInt(n) != "" && WritesInt(RenderInt(n), n)
  {
    DecimalWrites(if n < 0 then -n else n);
    assert n < 0 ==> RenderInt(n)[1..] == Decimal(-n);
  }

  lemma EscapeHead(c: char)
    ensures var e := EscapeChar(c);
            || (|e| == 1 && e[0] == c && c != '"' && c != '\\')
            || (|e| == 2 && e[0] == '\\' && IsEscape(e[1]) && Escapes(e[1], c))
  {
  }

  lemma {:induction false} EscapeSpells(s: string)
    ensures Spells(Escape(s), '"', s)
  {
    if s != "" {
      var head, more := EscapeChar(s[0]), Escape(s[1..]);
      EscapeHead(s[0]);
      EscapeSpells(s[1..]);
      assert (head + more)[|head|..] == more && (head + more)[0] == head[0];
      assert |head| == 2 ==> (head + more)[1] == head[1];
      hide EscapeChar, Escapes, IsEscape;
    }
  }

  lemma QuotedInside(body: string)
    ensures var w := "\"" + body + "\""; w[0] == '"' == w[|w| - 1] && w[1..|w| - 1] == body
  {
  }

  /** The text of a token, with a blank behind it, is that token. */
  lemma RenderedStands(text: string, a: nat, t: Tok, b: nat)
    requires Renderable(t) && a < b < |text| && text[a..b] == RenderTok(t) && text[b] == ' '
    ensures IsLexeme(t, text, a, b)
  {
    match t
    case IntTok(n) =>
      IntWrites(n);
      hide WritesInt, RenderInt;
    case StrTok(s) =>
      EscapeSpells(s);
      QuotedInside(Escape(s));
      hide Spells, Escape;
    case _ =>
  }

  lemma RenderedIsSome(t: Tok)
    requires Renderable(t)
    ensures RenderTok(t) != ""
  {
    if t.IntTok? {
      IntWrites(t.i);
    }
  }

  // ---- Token lists ------------------------------------------------------------------------

  ghost predicate AllRenderable(ts: seq<Tok>) { forall t | t in ts :: Renderable(t) }

  ghost predicate Carries(toks: seq<Token>, ts: seq<Tok>) {
    |toks| == |ts| + 1 && toks[|ts|].tok == Eof && forall i | 0 <= i < |ts| :: toks[i].tok == ts[i]
  }

  /** Tokenizing from i on succeeds and yields ts. */
  ghost predicate Reads(text: string, i: nat, ts: seq<Tok>) {
    i <= |text| && TokensFrom(text, i).Success? && Carries(TokensFrom(text, i).value, ts)
  }

  lemma TokenThenBlank(text: string, i: nat, t: Tok, end: nat, more: seq<Tok>)
    requires i < end < |text| && text[end] == ' ' && ScanAt(text, i) == Found(t, end)
    requires Reads(text, end + 1, more)
    ensures Reads(text, i, [t] + more)
  {
    assert TokensFrom(text, end) == TokensFrom(text, end + 1);
  }

  lemma ScanFirst(text: string, i: nat, t: Tok, more: string) returns (end: nat)
    requires i <= |text| && Renderable(t) && text[i..] == RenderTok(t) + " " + more
    ensures i < end < |text| && ScanAt(text, i) == Found(t, end)
    ensures text[end] == ' ' && text[end + 1..] == more
  {
    end := i + |RenderTok(t)|;
    RenderedIsSome(t);
    hide RenderTok, Renderable, ScanAt, IsLexeme;
    assert text[i..end] == text[i..][..|RenderTok(t)|];
    assert text[end] == text[i..][|RenderTok(t)|];
    assert text[end + 1..] == text[i..][|RenderTok(t)| + 1..];
    RenderedStands(text, i, t, end);
    ScanExactly(text, i, t, end);
  }

  /** Rendering a token list and tokenizing the text gives the list back. */
  lemma {:induction false} TokenizeRendered(text: string, i: nat, ts: seq<Tok>)
    requires i <= |text| && text[i..] == Render(ts) && AllRenderable(ts)
    ensures Reads(text, i, ts)
    decreases |ts|
  {
    hide TokensFrom, ScanAt, RenderTok, Renderable, Reads;
    if ts == [] {
      NothingReads(text);
    } else {
      var t, more := ts[0], ts[1..];
      assert ts == [t] + more;
      var end := ScanFirst(text, i, t, Render(more));
      TokenizeRendered(text, end + 1, more);
      TokenThenBlank(text, i, t, end, more);
    }
  }

  lemma NothingReads(text: string)
    ensures Reads(text, |text|, [])
  {
  }

  lemma {:induction false} PrintedIsRenderable(t: Tree)
    requires WellFormed(t)
    ensures AllRenderable(PrintTree(t))
    decreases t, 0
  {
    match t
    case Raw => assert IsName("raw_value");
    case Lit(v) => assert IsName("null") && IsName("true") && IsName("false");
    case Compare(_, l, r) =>
      PrintedIsRenderable(l);
      PrintedIsRenderable(r);
    case Not(c) => PrintedIsRenderable(c);
    case BoolOp(op, cs) =>
      PrintedIsRenderable(cs[0]);
      MoreIsRenderable(op, cs[1..]);
  }

  lemma {:induction false} MoreIsRenderable(op: Connective, ts: seq<Tree>)
    requires forall t | t in ts :: WellFormed(t)
    ensures AllRenderable(PrintMore(op, ts))
    decreases ts, 0
  {
    if ts != [] {
      PrintedIsRenderable(ts[0]);
      MoreIsRenderable(op, ts[1..]);
    }
  }

  /** Printing and compiling is the identity on every tree the grammar can express. */
  lemma ConditionRoundTrip(t: Tree)
    requires WellFormed(t)
    ensures Compile(Print(t)) == Success(t)
  {
    hide TokensFrom, Compile, PrintTree, Render, IsJoined, ConsistsOf;
    var text, ts := Print(t), PrintTree(t);
    PrintedIsRenderable(t);
    assert text[0..] == text;
    TokenizeRendered(text, 0, ts);
    var toks := TokensFrom(text, 0).value;
    TokenizerExactly(text, 0, toks);
    CarriedKinds(toks, ts);
    PrintIsPhrase(t);
    PhraseLowers(Level(t), 0, ts, t);
    CompilesExactly(text, t);
  }

  lemma CarriedKinds(toks: seq<Token>, ts: seq<Tok>)
    requires Carries(toks, ts)
    ensures Kinds(toks, 0, |toks| - 1) == ts
  {
  }

  /** Printing what was compiled normalises the text without changing its meaning. */
  lemma NormalisationIsStable(text: string)
    requires Compile(text).Success?
    ensures Compile(Print(Compile(text).value)) == Compile(text)
  {
    CompiledIsWellFormed(text);
    ConditionRoundTrip(Compile(text).value);
  }

  /** Printing never confuses two trees. */
  lemma PrintIsInjective(s: Tree, t: Tree)
    requires WellFormed(s) && WellFormed(t) && Print(s) == Print(t)
    ensures s == t
  {
    ConditionRoundTrip(s);
    ConditionRoundTrip(t);
  }
}
