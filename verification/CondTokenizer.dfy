/**
 The tokenizer of scoring.condition, compiling a condition text, and the round trip from
 tree to text and back. Words and digits are those of ASCII.
*/
module CondTokenizer {
  import opened Wrappers
  import opened CondSyntax
  import opened CondParser

  // ---- Scanning, as functions ------------------------------------------------------------

  function DigitsEnd(text: string, i: nat): (end: nat)
    requires i <= |text|
    ensures i <= end <= |text|
    decreases |text| - i
  {
    if i < |text| && IsDigit(text[i]) then DigitsEnd(text, i + 1) else i
  }

  function WordEnd(text: string, i: nat): (end: nat)
    requires i <= |text|
    ensures i <= end <= |text|
    decreases |text| - i
  {
    if i < |text| && IsWordChar(text[i]) then WordEnd(text, i + 1) else i
  }

  function DigitValue(c: char): nat
    requires IsDigit(c)
  {
    c as nat - '0' as nat
  }

  function NatValue(digits: string): nat
    requires AllDigits(digits)
  {
    if digits == "" then 0 else 10 * NatValue(digits[..|digits| - 1]) + DigitValue(digits[|digits| - 1])
  }

  predicate StartsNumber(text: string, i: nat)
    requires i < |text|
  {
    IsDigit(text[i]) || (text[i] == '-' && i + 1 < |text| && IsDigit(text[i + 1]))
  }

  lemma {:induction false} DigitsEndIsDigits(text: string, i: nat)
    requires i <= |text|
    ensures AllDigits(text[i..DigitsEnd(text, i)])
    ensures DigitsEnd(text, i) < |text| ==> !IsDigit(text[DigitsEnd(text, i)])
    decreases |text| - i
  {
    if i < |text| && IsDigit(text[i]) {
      DigitsEndIsDigits(text, i + 1);
      assert text[i..DigitsEnd(text, i)] == [text[i]] + text[i + 1..DigitsEnd(text, i)];
    }
  }

  /** The number literal that starts at i, and where it ends. */
  function ScanNumber(text: string, i: nat): (r: (Tok, nat))
    requires i < |text| && StartsNumber(text, i)
    ensures i < r.1 <= |text|
  {
    var start := if text[i] == '-' then i + 1 else i;
    var end := DigitsEnd(text, start);
    if end < |text| && text[end] == '.' then
      var fracEnd := DigitsEnd(text, end + 1);
      (FloatTok(text[i..fracEnd]), fracEnd)
    else
      DigitsEndIsDigits(text, start);
      var n: int := NatValue(text[start..end]);
      (IntTok(if text[i] == '-' then -n else n), end)
  }

  function Unescape(c: char): Option<char> {
    if c == '\\' || c == '"' || c == '\'' then Some(c)
    else if c == 'n' then Some('\n')
    else if c == 't' then Some('\t')
    else if c == 'r' then Some('\r')
    else None
  }

  /** The rest of a string literal from i on, after the characters already read; None if no quote closes it. */
  function ScanString(text: string, i: nat, quote: char, out: string): (r: Option<(string, nat)>)
    requires i <= |text|
    ensures r.Some? ==> i < r.value.1 <= |text|
    decreases |text| - i
  {
    if i == |text| then None
    else if text[i] == quote then Some((out, i + 1))
    else if text[i] == '\\' && i + 1 < |text| && Unescape(text[i + 1]).Some? then
      ScanString(text, i + 2, quote, out + [Unescape(text[i + 1]).value])
    else ScanString(text, i + 1, quote, out + [text[i]])
  }

  /** What stands at a position: blank, a token with its end, or nothing the language knows. */
  datatype Scan = Blank | Found(tok: Tok, end: nat) | Bad(reason: Reason)

  function TwoCharTok(a: char, b: char): Option<Tok> {
    if a == '&' && b == '&' then Some(AndAnd)
    else if a == '|' && b == '|' then Some(OrOr)
    else if a == '=' && b == '=' then Some(Comp(Eq))
    else if a == '!' && b == '=' then Some(Comp(Ne))
    else if a == '<' && b == '=' then Some(Comp(Le))
    else if a == '>' && b == '=' then Some(Comp(Ge))
    else None
  }

  function OneCharTok(c: char): Option<Tok> {
    if c == '<' then Some(Comp(Lt))
    else if c == '>' then Some(Comp(Gt))
    else if c == '!' then Some(Bang)
    else if c == '(' then Some(Open)
    else if c == ')' then Some(Close)
    else None
  }

  function ScanAt(text: string, i: nat): (s: Scan)
    requires i < |text|
    ensures s.Found? ==> i < s.end <= |text|
  {
    var c := text[i];
    if IsSpace(c) then Blank
    else if i + 1 < |text| && TwoCharTok(c, text[i + 1]).Some? then
      Found(TwoCharTok(c, text[i + 1]).value, i + 2)
    else if OneCharTok(c).Some? then Found(OneCharTok(c).value, i + 1)
    else if c == '"' || c == '\'' then
      match ScanString(text, i + 1, c, "")
      case None => Bad(UnterminatedString)
      case Some((s, end)) => Found(StrTok(s), end)
    else if StartsNumber(text, i) then
      var (tok, end) := ScanNumber(text, i);
      Found(tok, end)
    else if IsAlpha(c) || c == '_' then Found(Word(text[i..WordEnd(text, i + 1)]), WordEnd(text, i + 1))
    else Bad(UnexpectedCharacter)
  }

  type Tokenized = Result<seq<Token>, ConditionError>

  function Prepend(tokens: seq<Token>, rest: Tokenized): (r: Tokenized)
    ensures tokens == [] ==> r == rest
  {
    match rest
    case Failure(e) => Failure(e)
    case Success(more) => assert [] + more == more; Success(tokens + more)
  }

  /** The tokens of the text from i on, with the end marker. */
  function TokensFrom(text: string, i: nat): (r: Tokenized)
    requires i <= |text|
    decreases |text| - i
  {
    if i == |text| then Success([Token(Eof, |text|)])
    else
      match ScanAt(text, i)
      case Blank => TokensFrom(text, i + 1)
      case Found(tok, end) => Prepend([Token(tok, i)], TokensFrom(text, end))
      case Bad(reason) => Failure(ConditionError(i, reason))
  }

  // ---- Scanning, as the loops that do it ------------------------------------------------------

  method FindDigitsEnd(text: string, start: nat) returns (end: nat)
    requires start <= |text|
    ensures end == DigitsEnd(text, start)
  {
    end := start;
    while end < |text| && IsDigit(text[end])
      invariant start <= end <= |text| && DigitsEnd(text, start) == DigitsEnd(text, end)
    {
      end := end + 1;
    }
  }

  method FindWordEnd(text: string, start: nat) returns (end: nat)
    requires start <= |text|
    ensures end == WordEnd(text, start)
  {
    end := start;
    while end < |text| && IsWordChar(text[end])
      invariant start <= end <= |text| && WordEnd(text, start) == WordEnd(text, end)
    {
      end := end + 1;
    }
  }

  method ReadNumber(text: string, i: nat) returns (tok: Tok, end: nat)
    requires i < |text| && StartsNumber(text, i)
    ensures (tok, end) == ScanNumber(text, i)
  {
    var start := if text[i] == '-' then i + 1 else i;
    end := FindDigitsEnd(text, start);
    if end < |text| && text[end] == '.' {
      end := FindDigitsEnd(text, end + 1);
      tok := FloatTok(text[i..end]);
    } else {
      DigitsEndIsDigits(text, start);
      var n: int := NatValue(text[start..end]);
      tok := IntTok(if text[i] == '-' then -n else n);
    }
  }

  method ReadString(text: string, start: nat) returns (r: Option<(string, nat)>)
    requires start < |text|
    ensures r == ScanString(text, start + 1, text[start], "")
  {
    var quote, i, out := text[start], start + 1, "";
    while i < |text|
      invariant start < i <= |text|
      invariant ScanString(text, start + 1, quote, "") == ScanString(text, i, quote, out)
    {
      var c := text[i];
      if c == quote {
        return Some((out, i + 1));
      }
      if c == '\\' && i + 1 < |text| && Unescape(text[i + 1]).Some? {
        out := out + [Unescape(text[i + 1]).value];
        i := i + 2;
      } else {
        out := out + [c];
        i := i + 1;
      }
    }
    r := None;
  }

  method Tokenize(text: string) returns (r: Tokenized)
    ensures r == TokensFrom(text, 0)
  {
    var tokens: seq<Token>, i := [], 0;
    while i < |text|
      invariant 0 <= i <= |text|
      invariant TokensFrom(text, 0) == Prepend(tokens, TokensFrom(text, i))
      decreases |text| - i
    {
      var c := text[i];
      if IsSpace(c) {
        i := i + 1;
        continue;
      }
      var tok, end := Eof, i;
      if i + 1 < |text| && TwoCharTok(c, text[i + 1]).Some? {
        tok, end := TwoCharTok(c, text[i + 1]).value, i + 2;
      } else if OneCharTok(c).Some? {
        tok, end := OneCharTok(c).value, i + 1;
      } else if c == '"' || c == '\'' {
        var s := ReadString(text, i);
        if s.None? {
          return Failure(ConditionError(i, UnterminatedString));
        }
        tok, end := StrTok(s.value.0), s.value.1;
      } else if StartsNumber(text, i) {
        tok, end := ReadNumber(text, i);
      } else if IsAlpha(c) || c == '_' {
        end := FindWordEnd(text, i + 1);
        tok := Word(text[i..end]);
      } else {
        return Failure(ConditionError(i, UnexpectedCharacter));
      }
      assert ScanAt(text, i) == Found(tok, end);
      PrependTwice(tokens, Token(tok, i), TokensFrom(text, end));
      tokens := tokens + [Token(tok, i)];
      i := end;
    }
    r := Success(tokens + [Token(Eof, |text|)]);
  }

  lemma PrependTwice(tokens: seq<Token>, t: Token, rest: Tokenized)
    ensures Prepend(tokens, Prepend([t], rest)) == Prepend(tokens + [t], rest)
  {
    if rest.Success? {
      assert tokens + ([t] + rest.value) == tokens + [t] + rest.value;
    }
  }

  // ---- What the tokenizer promises the parser ---------------------------------------------------

  lemma NumberIsGood(text: string, i: nat)
    requires i < |text| && StartsNumber(text, i)
    ensures GoodTok(ScanNumber(text, i).0)
  {
    var neg := text[i] == '-';
    var start := if neg then i + 1 else i;
    var end := DigitsEnd(text, start);
    DigitsEndIsDigits(text, start);
    assert start < end;
    if end < |text| && text[end] == '.' {
      var fracEnd := DigitsEnd(text, end + 1);
      DigitsEndIsDigits(text, end + 1);
      PointSplits(text, i, start, end, fracEnd);
      hide DigitsEnd, AllDigits;
      assert IsDecimalOf(text[i..fracEnd], neg, text[start..end], text[end + 1..fracEnd]);
    }
  }

  lemma PointSplits(text: string, i: nat, start: nat, end: nat, fracEnd: nat)
    requires i < |text| && start == (if text[i] == '-' then i + 1 else i) && start < end < fracEnd <= |text| && text[end] == '.'
    ensures text[i..fracEnd] == (if text[i] == '-' then "-" else "") + text[start..end] + "." + text[end + 1..fracEnd]
  {
    assert text[start..fracEnd] == text[start..end] + "." + text[end + 1..fracEnd];
    assert text[i..fracEnd] == text[i..start] + text[start..fracEnd];
  }

  lemma {:induction false} TokensAreGood(text: string, i: nat)
    requires i <= |text|
    ensures var r := TokensFrom(text, i); r.Success? ==> TokenList(r.value) && GoodLiterals(r.value)
    decreases |text| - i
  {
    if i < |text| {
      match ScanAt(text, i)
      case Blank => TokensAreGood(text, i + 1);
      case Found(tok, end) =>
        TokensAreGood(text, end);
        if StartsNumber(text, i) {
          NumberIsGood(text, i);
        }
      case Bad(_) =>
    }
  }

  /** Compiling a condition: its tree, or where and why it is rejected. */
  function Compile(text: string): Result<Tree, ConditionError> {
    if forall c | c in text :: IsStripped(c) then Failure(ConditionError(0, EmptyCondition))
    else
      match TokensFrom(text, 0)
      case Failure(e) => Failure(e)
      case Success(toks) => TokensAreGood(text, 0); ParseTokens(toks)
  }

  method CompileCondition(text: string) returns (r: Result<Tree, ConditionError>)
    ensures r == Compile(text)
  {
    if forall c | c in text :: IsStripped(c) {
      return Failure(ConditionError(0, EmptyCondition));
    }
    var toks := Tokenize(text);
    if toks.Failure? {
      return Failure(toks.error);
    }
    TokensAreGood(text, 0);
    var parser := new Parser(toks.value);
    r := parser.Parse();
  }

  /** Every accepted text denotes a tree the printer can express. */
  lemma CompiledIsWellFormed(text: string)
    requires Compile(text).Success?
    ensures WellFormed(Compile(text).value)
  {
    TokensAreGood(text, 0);
    JoinedIsWellFormed(Or, TokensFrom(text, 0).value, 0);
  }
}
