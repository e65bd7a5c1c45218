/**
 The texts that are conditions: words of the language one after the other, each as long as it can be,
 with blanks between, that spell a phrase of the grammar. Compiling accepts exactly these.
*/
module CondLanguage {
  import opened Wrappers
  import opened CondSyntax
  import opened CondParser
  import opened CondTokenizer
  import opened CondGrammar

  // ---- The words of the language -------------------------------------------------------------------

  /** The character after a word, if there is one, is not of a kind that would make the word longer. */
  ghost predicate EndsBefore(text: string, b: nat, longer: char -> bool) { b < |text| ==> !longer(text[b]) }

  ghost function EqualsSign(): char -> bool { (c: char) => c == '=' }
  ghost function WordChars(): char -> bool { (c: char) => IsWordChar(c) }
  ghost function DigitChars(): char -> bool { (c: char) => IsDigit(c) }
  ghost function NumberChars(): char -> bool { (c: char) => IsDigit(c) || c == '.' }

  ghost predicate IsName(w: string) {
    w != "" && (IsAlpha(w[0]) || w[0] == '_') && forall c | c in w :: IsWordChar(c)
  }

  /** The text of a whole number: digits, with a sign or without. */
  ghost predicate WritesInt(w: string, i: int) {
    || (w != "" && AllDigits(w) && i == Horner(w, 0))
    || (|w| > 1 && w[0] == '-' && AllDigits(w[1..]) && i == -Horner(w[1..], 0))
  }

  /** The characters that may follow a backslash, and what each pair stands for. */
  ghost predicate Escapes(c: char, meant: char) {
    || (c == meant && c in "\\\"'") || (c == 'n' && meant == '\n') || (c == 't' && meant == '\t') || (c == 'r' && meant == '\r')
  }

  ghost predicate IsEscape(c: char) { c in "\\\"'ntr" }

  /** What stands between quotes, and the string it writes: escapes, and any other characters but the quote. */
  ghost predicate Spells(body: string, quote: char, s: string)
    decreases |body|
  {
    if body == "" then s == ""
    else if |body| > 1 && body[0] == '\\' && IsEscape(body[1]) then
      s != "" && Escapes(body[1], s[0]) && Spells(body[2..], quote, s[1..])
    else body[0] != quote && body != "\\" && s != "" && s[0] == body[0] && Spells(body[1..], quote, s[1..])
  }

  /** The token stands in the text from a to b. */
  ghost predicate IsLexeme(tok: Tok, text: string, a: nat, b: nat)
    requires a < b <= |text|
  {
    var w := text[a..b];
    match tok
    case AndAnd => w == "&&"
    case OrOr => w == "||"
    case Bang => w == "!" && EndsBefore(text, b, EqualsSign())
    case Comp(Eq) => w == "=="
    case Comp(Ne) => w == "!="
    case Comp(Le) => w == "<="
    case Comp(Ge) => w == ">="
    case Comp(Lt) => w == "<" && EndsBefore(text, b, EqualsSign())
    case Comp(Gt) => w == ">" && EndsBefore(text, b, EqualsSign())
    case Open => w == "("
    case Close => w == ")"
    case Word(name) => w == name && IsName(w) && EndsBefore(text, b, WordChars())
    case IntTok(i) => WritesInt(w, i) && EndsBefore(text, b, NumberChars())
    case FloatTok(t) => w == t && IsDecimalText(w) && EndsBefore(text, b, DigitChars())
    case StrTok(s) => |w| > 1 && w[0] in "\"'" && w[|w| - 1] == w[0] && Spells(w[1..|w| - 1], w[0], s)
    case Eof => false
  }

  ghost predicate Blanks(text: string, a: nat, b: nat)
    requires a <= b <= |text|
  {
    forall k | a <= k < b :: text[k] in " \t\r\n"
  }

  /** From i on the text consists of these tokens, at their positions, and blanks. */
  ghost predicate ConsistsOf(text: string, i: nat, toks: seq<Token>)
    requires i <= |text|
    decreases |toks|
  {
    if |toks| == 1 then toks == [Token(Eof, |text|)] && Blanks(text, i, |text|)
    else
      && |toks| > 1 && i <= toks[0].pos < |text| && Blanks(text, i, toks[0].pos)
      && exists end | toks[0].pos < end <= |text| :: StandsUpTo(text, end, toks)
  }

  ghost predicate StandsUpTo(text: string, end: nat, toks: seq<Token>)
    requires toks != [] && toks[0].pos < end <= |text|
    decreases |toks|, 0
  {
    IsLexeme(toks[0].tok, text, toks[0].pos, end) && ConsistsOf(text, end, toks[1..])
  }

  // ---- Scanning finds the words --------------------------------------------------------------------

  lemma {:induction false} NatValueIsHorner(digits: string)
    requires AllDigits(digits)
    ensures NatValue(digits) == Horner(digits, 0)
  {
    if digits != "" {
      var front, c := digits[..|digits| - 1], digits[|digits| - 1];
      assert digits == front + [c];
      NatValueIsHorner(front);
      HornerSnoc(front, c, 0);
    }
  }

  lemma {:induction false} DigitsEndExactly(text: string, i: nat, end: nat)
    requires i <= end <= |text|
    ensures DigitsEnd(text, i) == end <==> AllDigits(text[i..end]) && EndsBefore(text, end, DigitChars())
    decreases |text| - i
  {
    DigitsEndIsDigits(text, i);
    if AllDigits(text[i..end]) && EndsBefore(text, end, DigitChars()) {
      if i < end {
        assert text[i..end][0] == text[i] && text[i + 1..end] == text[i..end][1..];
        DigitsEndExactly(text, i + 1, end);
      }
    }
  }

  lemma {:induction false} WordEndExactly(text: string, i: nat, end: nat)
    requires i <= end <= |text|
    ensures WordEnd(text, i) == end <==> (forall k | i <= k < end :: IsWordChar(text[k])) && EndsBefore(text, end, WordChars())
    decreases |text| - i
  {
    if i < |text| && IsWordChar(text[i]) {
      if i < end {
        WordEndExactly(text, i + 1, end);
      }
    }
  }

  lemma EscapesAre(c: char, m: char)
    ensures Unescape(c) == Some(m) <==> Escapes(c, m)
    ensures Unescape(c).Some? <==> IsEscape(c)
  {
  }

  lemma {:induction false} StringExactly(text: string, i: nat, quote: char, out: string, s: string, end: nat)
    requires i <= |text| && quote in "\"'"
    ensures ScanString(text, i, quote, out) == Some((out + s, end)) <==>
              i < end <= |text| && text[end - 1] == quote && Spells(text[i..end - 1], quote, s)
    decreases |text| - i
  {
    if i < |text| && text[i] != quote {
      var c := text[i];
      if c == '\\' && i + 1 < |text| && Unescape(text[i + 1]).Some? {
        var m := Unescape(text[i + 1]).value;
        EscapesAre(text[i + 1], m);
        if s != "" && s[0] == m {
          StringExactly(text, i + 2, quote, out + [m], s[1..], end);
          assert out + [m] + s[1..] == out + s;
        }
        NextString(text, i + 2, quote, out, m, s, end);
        if i + 2 < end <= |text| {
          assert text[i..end - 1][2..] == text[i + 2..end - 1];
        }
      } else {
        if i + 1 < |text| {
          EscapesAre(text[i + 1], ' ');
        }
        if s != "" && s[0] == c {
          StringExactly(text, i + 1, quote, out + [c], s[1..], end);
          assert out + [c] + s[1..] == out + s;
        }
        NextString(text, i + 1, quote, out, c, s, end);
        if i + 1 < end <= |text| {
          assert text[i..end - 1][1..] == text[i + 1..end - 1];
        }
      }
    } else {
      assert out + s == out ==> |s| == 0;
      assert out + "" == out;
      if i + 1 < end <= |text| {
        assert text[i..end - 1][0] == text[i];
      }
    }
  }

  /** Characters already read stay at the front of what a string literal writes. */
  lemma {:induction false} ReadStays(text: string, i: nat, quote: char, out: string)
    requires i <= |text|
    ensures ScanString(text, i, quote, out).Some? ==> out <= ScanString(text, i, quote, out).value.0
    decreases |text| - i
  {
    if i < |text| && text[i] != quote {
      if text[i] == '\\' && i + 1 < |text| && Unescape(text[i + 1]).Some? {
        ReadStays(text, i + 2, quote, out + [Unescape(text[i + 1]).value]);
      } else {
        ReadStays(text, i + 1, quote, out + [text[i]]);
      }
    }
  }

  lemma NextString(text: string, i: nat, quote: char, out: string, c: char, s: string, end: nat)
    requires i <= |text|
    ensures ScanString(text, i, quote, out + [c]) == Some((out + s, end)) ==> s != "" && s[0] == c
  {
    ReadStays(text, i, quote, out + [c]);
    if ScanString(text, i, quote, out + [c]) == Some((out + s, end)) {
      assert (out + [c])[|out|] == (out + s)[|out|];
    }
  }

  // ---- A scan and a word of the language are the same ----------------------------------------------

  lemma SliceIs(text: string, a: nat, b: nat, c: char, d: char)
    requires a < b <= |text|
    ensures text[a..b] == [c] <==> b == a + 1 && text[a] == c
    ensures text[a..b] == [c, d] <==> b == a + 2 && text[a] == c && text[a + 1] == d
  {
    assert text[a..b][0] == text[a] && (b > a + 1 ==> text[a..b][1] == text[a + 1]);
  }

  predicate IsOperator(tok: Tok) { tok.AndAnd? || tok.OrOr? || tok.Bang? || tok.Comp? || tok.Open? || tok.Close? }

  lemma OperatorExactly(text: string, a: nat, tok: Tok, b: nat)
    requires a < b <= |text| && IsOperator(tok)
    ensures ScanAt(text, a) == Found(tok, b) <==> IsLexeme(tok, text, a, b)
  {
    SliceIs(text, a, b, '&', '&');
    SliceIs(text, a, b, '|', '|');
    SliceIs(text, a, b, '=', '=');
    SliceIs(text, a, b, '!', '=');
    SliceIs(text, a, b, '<', '=');
    SliceIs(text, a, b, '>', '=');
    SliceIs(text, a, b, '(', '(');
    SliceIs(text, a, b, ')', ')');
    hide ScanString, ScanNumber, WordEnd;
  }

  lemma WordIsScanned(text: string, a: nat)
    requires a < |text|
    ensures ScanAt(text, a).Found? && ScanAt(text, a).tok.Word? <==> IsAlpha(text[a]) || text[a] == '_'
    ensures IsAlpha(text[a]) || text[a] == '_' ==>
              var end := WordEnd(text, a + 1); ScanAt(text, a) == Found(Word(text[a..end]), end)
  {
    hide ScanString, WordEnd, DigitsEnd;
  }

  lemma WordExactly(text: string, a: nat, name: string, b: nat)
    requires a < b <= |text|
    ensures ScanAt(text, a) == Found(Word(name), b) <==> IsLexeme(Word(name), text, a, b)
  {
    var w := text[a..b];
    hide ScanAt, WordEnd;
    WordIsScanned(text, a);
    WordEndExactly(text, a + 1, b);
    assert forall k | a <= k < b :: text[k] == w[k - a];
    if forall c | c in w :: IsWordChar(c) {
      forall k | a + 1 <= k < b ensures IsWordChar(text[k]) {
        assert w[k - a] in w;
      }
    }
  }

  lemma NumberIsScanned(text: string, a: nat)
    requires a < |text|
    ensures StartsNumber(text, a) ==> var (tok, end) := ScanNumber(text, a); ScanAt(text, a) == Found(tok, end)
    ensures ScanAt(text, a).Found? && (ScanAt(text, a).tok.IntTok? || ScanAt(text, a).tok.FloatTok?) ==> StartsNumber(text, a)
  {
    hide ScanString, ScanNumber, WordEnd;
  }

  /** The digits of a number go from behind the sign to where they end. */
  lemma SignAndDigits(text: string, a: nat, n: nat, m: nat)
    requires a < |text| && StartsNumber(text, a)
    requires n == (if text[a] == '-' then a + 1 else a) && m == DigitsEnd(text, n)
    ensures n < m && AllDigits(text[n..m]) && EndsBefore(text, m, DigitChars())
    ensures text[a..m] == (if text[a] == '-' then "-" else "") + text[n..m]
  {
    DigitsEndIsDigits(text, n);
    assert DigitsEnd(text, n) == DigitsEnd(text, n + 1);
  }

  lemma IntExactly(text: string, a: nat, i: int, b: nat)
    requires a < b <= |text|
    ensures ScanAt(text, a) == Found(IntTok(i), b) <==> IsLexeme(IntTok(i), text, a, b)
  {
    hide ScanAt, DigitsEnd, NatValue, Horner, AllDigits, StartsNumber, WritesInt;
    NumberIsScanned(text, a);
    if IsLexeme(IntTok(i), text, a, b) {
      IntStarts(text, a, i, b);
    }
    if StartsNumber(text, a) {
      var n := if text[a] == '-' then a + 1 else a;
      var m := DigitsEnd(text, n);
      SignAndDigits(text, a, n, m);
      DigitsEndExactly(text, n, b);
      NatValueIsHorner(text[n..m]);
      if b == m {
        IntIsWritten(text, a, n, b);
      }
    }
  }

  lemma IntIsWritten(text: string, a: nat, n: nat, b: nat)
    requires a <= n < b <= |text| && n == (if text[a] == '-' then a + 1 else a) && AllDigits(text[n..b])
    ensures WritesInt(text[a..b], (if n > a then -1 else 1) * Horner(text[n..b], 0))
  {
    assert n > a ==> text[a..b][1..] == text[n..b];
  }

  lemma IntStarts(text: string, a: nat, i: int, b: nat)
    requires a < b <= |text| && WritesInt(text[a..b], i)
    ensures StartsNumber(text, a)
    ensures var n := if text[a] == '-' then a + 1 else a; n < b && AllDigits(text[n..b]) && i == (if n > a then -1 else 1) * Horner(text[n..b], 0)
  {
    var w := text[a..b];
    assert w[0] == text[a] && (b > a + 1 ==> w[1] == text[a + 1] && w[1..] == text[a + 1..b] && w[1..][0] == w[1]);
    assert w[0] in w;
  }

  /** The text of a decimal at a: where its digits start, where its point stands and what surrounds it. */
  lemma DecimalStands(text: string, a: nat, b: nat, neg: bool, whole: string, frac: string)
    requires a < b <= |text| && IsDecimalOf(text[a..b], neg, whole, frac)
    ensures StartsNumber(text, a)
    ensures var n := if text[a] == '-' then a + 1 else a;
            var m := n + |whole|;
            n < m < b && AllDigits(text[n..m]) && text[m] == '.' && AllDigits(text[m + 1..b])
  {
    var w, k := text[a..b], if neg then 1 else 0;
    assert forall j | a <= j < b :: text[j] == w[j - a];
    assert whole[0] in whole;
    assert w[k] == whole[0] && w[k + |whole|] == '.';
    assert w[k..k + |whole|] == whole && w[k + |whole| + 1..] == frac;
    assert text[a + k..a + k + |whole|] == whole && text[a + k + |whole| + 1..b] == frac;
    assert neg ==> text[a] == '-';
  }

  lemma DecimalIsScanned(text: string, a: nat, b: nat)
    requires a < b <= |text| && IsDecimalText(text[a..b]) && EndsBefore(text, b, DigitChars())
    ensures StartsNumber(text, a) && ScanNumber(text, a) == (FloatTok(text[a..b]), b)
  {
    hide IsDecimalOf, AllDigits, DigitsEnd, NatValue;
    var neg, whole, frac :| IsDecimalOf(text[a..b], neg, whole, frac);
    DecimalStands(text, a, b, neg, whole, frac);
    var n := if text[a] == '-' then a + 1 else a;
    var m := n + |whole|;
    DigitsEndExactly(text, n, m);
    DigitsEndExactly(text, m + 1, b);
  }

  lemma ScannedIsDecimal(text: string, a: nat)
    requires a < |text| && StartsNumber(text, a) && ScanNumber(text, a).0.FloatTok?
    ensures var (tok, b) := ScanNumber(text, a);
            a < b <= |text| && tok == FloatTok(text[a..b]) && IsDecimalText(text[a..b]) && EndsBefore(text, b, DigitChars())
  {
    NumberIsGood(text, a);
    var m := DigitsEnd(text, if text[a] == '-' then a + 1 else a);
    DigitsEndIsDigits(text, m + 1);
    hide DigitsEnd, NatValue, AllDigits, IsDecimalText;
  }

  lemma FloatExactly(text: string, a: nat, t: string, b: nat)
    requires a < b <= |text|
    ensures ScanAt(text, a) == Found(FloatTok(t), b) <==> IsLexeme(FloatTok(t), text, a, b)
  {
    NumberIsScanned(text, a);
    if IsLexeme(FloatTok(t), text, a, b) {
      DecimalIsScanned(text, a, b);
    }
    if StartsNumber(text, a) && ScanNumber(text, a).0.FloatTok? {
      ScannedIsDecimal(text, a);
    }
    hide ScanAt, ScanNumber, IsDecimalText, EndsBefore;
  }

  lemma InnerSlice(text: string, a: nat, b: nat)
    requires a + 1 < b <= |text|
    ensures text[a..b][1..|text[a..b]| - 1] == text[a + 1..b - 1]
  {
    var w := text[a..b];
    var inner, whole := w[1..|w| - 1], text[a + 1..b - 1];
    assert |inner| == |whole| && forall k | 0 <= k < |inner| :: inner[k] == w[k + 1] == text[a + k + 1] == whole[k];
  }

  lemma StringTokExactly(text: string, a: nat, s: string, b: nat)
    requires a < b <= |text|
    ensures ScanAt(text, a) == Found(StrTok(s), b) <==> IsLexeme(StrTok(s), text, a, b)
  {
    hide ScanString;
    var w, quote := text[a..b], text[a];
    assert w[0] == quote && w[|w| - 1] == text[b - 1];
    if quote in "\"'" {
      StringExactly(text, a + 1, quote, "", s, b);
      assert "" + s == s;
      if |w| > 1 {
        InnerSlice(text, a, b);
      }
    }
  }

  /** Scanning at a position finds a token exactly if the token stands there. */
  lemma ScanExactly(text: string, a: nat, tok: Tok, b: nat)
    requires a < b <= |text|
    ensures ScanAt(text, a) == Found(tok, b) <==> IsLexeme(tok, text, a, b)
  {
    match tok
    case Word(name) => WordExactly(text, a, name, b);
    case IntTok(i) => IntExactly(text, a, i, b);
    case FloatTok(t) => FloatExactly(text, a, t, b);
    case StrTok(s) => StringTokExactly(text, a, s, b);
    case Eof => NeverEof(text, a);
    case _ => OperatorExactly(text, a, tok, b);
  }

  lemma NeverEof(text: string, a: nat)
    requires a < |text|
    ensures ScanAt(text, a).Found? ==> ScanAt(text, a).tok != Eof
  {
    hide ScanString, WordEnd;
  }

  lemma BlankExactly(text: string, a: nat)
    requires a < |text|
    ensures ScanAt(text, a).Blank? <==> text[a] in " \t\r\n"
  {
    hide ScanString, ScanNumber, WordEnd;
  }

  /** The tokenizer returns exactly the tokens, positions included, of which the text consists. */
  lemma {:induction false} TokenizerExactly(text: string, i: nat, toks: seq<Token>)
    requires i <= |text|
    ensures TokensFrom(text, i) == Success(toks) <==> ConsistsOf(text, i, toks)
    decreases |text| - i
  {
    if i < |text| {
      BlankExactly(text, i);
      if ScanAt(text, i).Blank? {
        TokenizerExactly(text, i + 1, toks);
        hide ScanAt, TokensFrom;
        SkipBlank(text, i, toks);
      } else {
        if toks != [] && toks[0].pos == i {
          forall end | i < end <= |text| ensures StandsUpTo(text, end, toks) <==>
                     ScanAt(text, i) == Found(toks[0].tok, end) && TokensFrom(text, end) == Success(toks[1..])
          {
            ScanExactly(text, i, toks[0].tok, end);
            TokenizerExactly(text, end, toks[1..]);
          }
        }
        hide ScanAt, IsLexeme;
        FirstToken(text, i, toks);
      }
    }
  }

  /** At a position that is not blank the first token stands, if any does. */
  lemma FirstToken(text: string, i: nat, toks: seq<Token>)
    requires i < |text| && !ScanAt(text, i).Blank? && text[i] !in " \t\r\n"
    requires toks != [] && toks[0].pos == i ==> forall end | i < end <= |text| ::
               (StandsUpTo(text, end, toks) <==>
                ScanAt(text, i) == Found(toks[0].tok, end) && TokensFrom(text, end) == Success(toks[1..]))
    ensures TokensFrom(text, i) == Success(toks) <==> ConsistsOf(text, i, toks)
  {
    hide ScanAt, IsLexeme;
    if TokensFrom(text, i) == Success(toks) {
      var end := ScanAt(text, i).end;
      assert toks[0] == Token(ScanAt(text, i).tok, i) && TokensFrom(text, end) == Success(toks[1..]);
      assert StandsUpTo(text, end, toks);
      MoreTokens(text, end, toks);
    }
    if ConsistsOf(text, i, toks) {
      assert |toks| > 1 && toks[0].pos == i;
      var end := FirstEnds(text, i, toks);
      assert ScanAt(text, i) == Found(toks[0].tok, end) && TokensFrom(text, end) == Success(toks[1..]);
      assert toks == [toks[0]] + toks[1..];
    }
  }

  lemma FirstEnds(text: string, i: nat, toks: seq<Token>) returns (end: nat)
    requires i <= |text| && |toks| > 1 && ConsistsOf(text, i, toks)
    ensures toks[0].pos < end <= |text| && StandsUpTo(text, end, toks)
  {
    end :| toks[0].pos < end <= |text| && StandsUpTo(text, end, toks);
  }

  lemma MoreTokens(text: string, end: nat, toks: seq<Token>)
    requires toks != [] && toks[0].pos < end <= |text| && StandsUpTo(text, end, toks)
    ensures |toks| > 1
  {
  }

  lemma LexemeIsNoBlank(text: string, a: nat, tok: Tok, b: nat)
    requires a < b <= |text| && IsLexeme(tok, text, a, b)
    ensures text[a] !in " \t\r\n"
  {
    ScanExactly(text, a, tok, b);
    BlankExactly(text, a);
  }

  lemma SkipBlank(text: string, i: nat, toks: seq<Token>)
    requires i < |text| && text[i] in " \t\r\n"
    ensures ConsistsOf(text, i, toks) <==> ConsistsOf(text, i + 1, toks)
  {
    hide IsLexeme;
    if |toks| > 1 && toks[0].pos == i {
      forall end | i < end <= |text| ensures !StandsUpTo(text, end, toks) {
        if StandsUpTo(text, end, toks) {
          LexemeIsNoBlank(text, i, toks[0].tok, end);
        }
      }
    } else if |toks| > 1 && i < toks[0].pos < |text| {
      assert Blanks(text, i, toks[0].pos) <==> Blanks(text, i + 1, toks[0].pos);
    }
  }

  /**
   The language of conditions: compiling accepts a text exactly if it consists of tokens that the
   grammar derives a tree from, and returns that tree.
  */
  lemma CompilesExactly(text: string, t: Tree)
    ensures Compile(text) == Success(t) <==>
              exists toks :: ConsistsOf(text, 0, toks) && IsJoined(Or, Kinds(toks, 0, |toks| - 1), t)
  {
    forall toks ensures TokensFrom(text, 0) == Success(toks) <==> ConsistsOf(text, 0, toks) {
      TokenizerExactly(text, 0, toks);
    }
    hide ConsistsOf;
    if TokensFrom(text, 0).Success? {
      var toks := TokensFrom(text, 0).value;
      TokensAreGood(text, 0);
      ParserAcceptsExactly(toks, t);
      if forall c | c in text :: IsStripped(c) {
        StrippedSaysNothing(text, 0);
        NothingIsNoPhrase(t);
        assert Kinds(toks, 0, |toks| - 1) == [];
      }
    }
    hide IsJoined, TokensFrom, ParseTokens, Kinds;
  }

  /** A text of nothing but what is stripped has no token, or a character the tokenizer does not know. */
  lemma {:induction false} StrippedSaysNothing(text: string, i: nat)
    requires i <= |text| && forall c | c in text :: IsStripped(c)
    ensures TokensFrom(text, i).Success? ==> |TokensFrom(text, i).value| == 1
    decreases |text| - i
  {
    if i < |text| {
      assert text[i] in text;
      StrippedSaysNothing(text, i + 1);
      hide ScanString, ScanNumber, WordEnd;
    }
  }

  lemma NothingIsNoPhrase(t: Tree)
    ensures !IsJoined(Or, [], t)
  {
    assert !IsOperand([], t);
    assert !IsComparison([], t);
    assert !IsNegation([], t);
    assert !IsChild(And, [], t);
    assert !IsJoined(And, [], t);
    assert !IsChild(Or, [], t);
  }

  /** At this position no token of the language stands, and no blank. */
  ghost predicate NothingStands(text: string, i: nat) {
    i < |text| && text[i] !in " \t\r\n" && forall tok, b | i < b <= |text| :: !IsLexeme(tok, text, i, b)
  }

  lemma BadMeans(text: string, i: nat)
    requires i < |text| && ScanAt(text, i).Bad?
    ensures NothingStands(text, i)
    ensures ScanAt(text, i).reason == if text[i] in "\"'" then UnterminatedString else UnexpectedCharacter
  {
    BlankExactly(text, i);
    forall tok, b | i < b <= |text| ensures !IsLexeme(tok, text, i, b) {
      ScanExactly(text, i, tok, b);
    }
    hide IsLexeme, ScanString, ScanNumber, WordEnd;
  }

  lemma {:induction false} TokenErrorsPoint(text: string, i: nat)
    requires i <= |text| && TokensFrom(text, i).Failure?
    ensures var e := TokensFrom(text, i).error;
            NothingStands(text, e.pos) && e.reason == if text[e.pos] in "\"'" then UnterminatedString else UnexpectedCharacter
    decreases |text| - i
  {
    hide NothingStands, ScanAt;
    match ScanAt(text, i)
    case Blank => TokenErrorsPoint(text, i + 1);
    case Found(_, end) => TokenErrorsPoint(text, end);
    case Bad(_) => BadMeans(text, i);
  }

  /**
   What a refusal says: that there is nothing but what strip() removes, that no token stands at the
   position named, a quote that is not closed or another character, or what is wrong with a token.
  */
  ghost predicate Explains(text: string, e: ConditionError) {
    match e.reason
    case EmptyCondition => e.pos == 0 && forall c | c in text :: IsStripped(c)
    case UnterminatedString => NothingStands(text, e.pos) && text[e.pos] in "\"'"
    case UnexpectedCharacter => NothingStands(text, e.pos) && text[e.pos] !in "\"'"
    case _ => TokensFrom(text, 0).Success? && PointsAt(TokensFrom(text, 0).value, e)
  }

  /** Every refusal says what is true of the text. */
  lemma RefusalsPoint(text: string)
    ensures Compile(text).Failure? ==> Explains(text, Compile(text).error)
    ensures (forall c | c in text :: IsStripped(c)) ==> Compile(text) == Failure(ConditionError(0, EmptyCondition))
  {
    if TokensFrom(text, 0).Failure? {
      TokenErrorsPoint(text, 0);
    } else {
      TokensAreGood(text, 0);
      ParseErrorsPoint(TokensFrom(text, 0).value);
    }
    hide TokensFrom, ParseTokens, NothingStands, IsStripped;
  }
}
