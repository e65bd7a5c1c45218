/** The JSON Pointer walk of dataset mappings, and its round trip over escaped paths (RFC 6901, sections 3 and 4). */
module Pointer {
  import opened Wrappers

  datatype Json = JNull | JBool(b: bool) | JNumber(n: real) | JString(s: string) | JArray(items: seq<Json>) | JObject(fields: map<string, Json>)

  datatype PointerError = MustStartWithSlash

  /** None stands for the MISSING marker. */
  type Found = Option<Json>

  // ---- Tokens ------------------------------------------------------------------------------------

  /** Splits at every slash; there is always at least one token. */
  function Split(s: string): (tokens: seq<string>)
    ensures tokens != []
  {
    if s == "" then [""]
    else
      var rest := Split(s[1..]);
      if s[0] == '/' then [""] + rest else [[s[0]] + rest[0]] + rest[1..]
  }

  /** Replaces each "~" followed by the mark, from left to right. */
  function Replace(s: string, mark: char, sub: char): string {
    if s == "" then ""
    else if |s| >= 2 && s[0] == '~' && s[1] == mark then [sub] + Replace(s[2..], mark, sub)
    else [s[0]] + Replace(s[1..], mark, sub)
  }

  function Unescape(raw: string): string { Replace(Replace(raw, '1', '/'), '0', '~') }

  function EscapeChar(c: char): string { if c == '~' then "~0" else if c == '/' then "~1" else [c] }

  function Escape(token: string): string { if token == "" then "" else EscapeChar(token[0]) + Escape(token[1..]) }

  // ---- Array indices, as int() reads them ----------------------------------------------------------

  predicate IsDigit(c: char) { '0' <= c <= '9' }

  /** The blanks int() skips: tab, newline, vertical tab, form feed, carriage return and space. */
  predicate IsBlank(c: char) { '\t' <= c <= '\r' || c == ' ' }

  function DigitValue(c: char): nat
    requires IsDigit(c)
  {
    (c - '0') as nat
  }

  function Strip(s: string): string {
    if s == "" then ""
    else if IsBlank(s[0]) then Strip(s[1..])
    else if IsBlank(s[|s| - 1]) then Strip(s[..|s| - 1])
    else s
  }

  /** All but the last digit and the underscore before it, if there is one. */
  function BeforeLast(s: string): string
    requires |s| >= 2
  {
    if s[|s| - 2] == '_' then s[..|s| - 2] else s[..|s| - 1]
  }

  /** Digits with single underscores between them. */
  function Digits(s: string): Option<nat> {
    if s == "" || !IsDigit(s[|s| - 1]) then None
    else if |s| == 1 then Some(DigitValue(s[0]))
    else
      match Digits(BeforeLast(s))
      case None => None
      case Some(front) => Some(10 * front + DigitValue(s[|s| - 1]))
  }

  function Signed(negative: bool, n: int): int { if negative then -n else n }

  /** An integer as the language reads it: blanks around it, a sign, underscores between digits. */
  function ParseInt(token: string): Option<int> {
    var s := Strip(token);
    var signed := s != "" && (s[0] == '-' || s[0] == '+');
    var digits := Digits(if signed then s[1..] else s);
    if digits.None? then None
    else
      var i: int := Signed(signed && s[0] == '-', digits.value);
      Some(i)
  }

  /** Indexing a list: negative positions count from the end. */
  function ItemAt(items: seq<Json>, i: int): Found {
    if 0 <= i < |items| then Some(items[i])
    else if -|items| <= i < 0 then Some(items[|items| + i])
    else None
  }

  // ---- The walk ----------------------------------------------------------------------------------

  function Enter(current: Json, token: string): Found {
    match current
    case JObject(fields) => if token in fields then Some(fields[token]) else None
    case JArray(items) => if ParseInt(token).Some? then ItemAt(items, ParseInt(token).value) else None
    case _ => None
  }

  function Walk(current: Json, raws: seq<string>): Found {
    if raws == [] then Some(current)
    else
      match Enter(current, Unescape(raws[0]))
      case None => None
      case Some(next) => Walk(next, raws[1..])
  }

  function Resolve(document: Json, pointer: Option<string>): Result<Found, PointerError> {
    match pointer
    case None => Success(None)
    case Some(p) =>
      if p == "" then Success(Some(document))
      else if p[0] != '/' then Failure(MustStartWithSlash)
      else Success(Walk(document, Split(p[1..])))
  }

  method ResolvePointer(document: Json, pointer: Option<string>) returns (r: Result<Found, PointerError>)
    ensures r == Resolve(document, pointer)
    ensures r == Failure(MustStartWithSlash) <==> pointer.Some? && pointer.value != "" && pointer.value[0] != '/'
    ensures pointer.None? ==> r == Success(None)
    ensures pointer == Some("") ==> r == Success(Some(document))
  {
    if pointer.None? {
      return Success(None);
    }
    var p := pointer.value;
    if p == "" {
      return Success(Some(document));
    }
    if p[0] != '/' {
      return Failure(MustStartWithSlash);
    }
    var raws, current := Split(p[1..]), document;
    for k := 0 to |raws|
      invariant Walk(document, raws) == Walk(current, raws[k..])
    {
      var token := Unescape(raws[k]);
      assert raws[k..][0] == raws[k] && raws[k..][1..] == raws[k + 1..];
      match current {
        case JObject(fields) =>
          if token !in fields {
            return Success(None);
          }
          current := fields[token];
        case JArray(items) =>
          var i := ParseInt(token);
          if i.None? || ItemAt(items, i.value).None? {
            return Success(None);
          }
          current := ItemAt(items, i.value).value;
        case _ =>
          return Success(None);
      }
    }
    r := Success(Some(current));
  }

  // ---- Paths -------------------------------------------------------------------------------------

  datatype Part = Key(name: string) | Index(i: nat)

  function Decimal(n: nat): string {
    if n < 10 then ["0123456789"[n]] else Decimal(n / 10) + ["0123456789"[n % 10]]
  }

  function Token(part: Part): string {
    match part
    case Key(name) => name
    case Index(i) => Decimal(i)
  }

  /** The value a path denotes, asking objects for keys and arrays for indices. */
  function Denotes(document: Json, path: seq<Part>): Found {
    if path == [] then Some(document)
    else
      match (document, path[0])
      case (JObject(fields), Key(name)) => if name in fields then Denotes(fields[name], path[1..]) else None
      case (JArray(items), Index(i)) => if i < |items| then Denotes(items[i], path[1..]) else None
      case _ => None
  }

  /** The path meets an object with a key and an array with an index, as far as it goes. */
  predicate Fits(document: Json, path: seq<Part>) {
    path == [] ||
    match (document, path[0])
    case (JObject(fields), Key(name)) => name in fields ==> Fits(fields[name], path[1..])
    case (JArray(items), Index(i)) => i < |items| ==> Fits(items[i], path[1..])
    case _ => document.JNull? || document.JBool? || document.JNumber? || document.JString?
  }

  /** A path as text: each token escaped and preceded by a slash. */
  function Text(path: seq<Part>): string {
    if path == [] then "" else "/" + Escape(Token(path[0])) + Text(path[1..])
  }

  // ---- Round trip --------------------------------------------------------------------------------

  /** The escaped token after the first of the two replacements. */
  function Half(token: string): string {
    if token == "" then "" else (if token[0] == '~' then "~0" else [token[0]]) + Half(token[1..])
  }

  lemma ReplacePlain(c: char, rest: string, mark: char, sub: char)
    requires c != '~'
    ensures Replace([c] + rest, mark, sub) == [c] + Replace(rest, mark, sub)
  {
    assert ([c] + rest)[1..] == rest;
  }

  lemma ReplaceMarked(rest: string, mark: char, sub: char)
    ensures Replace("~" + [mark] + rest, mark, sub) == [sub] + Replace(rest, mark, sub)
  {
    assert ("~" + [mark] + rest)[2..] == rest;
  }

  lemma ReplaceOther(c: char, rest: string, mark: char, sub: char)
    requires c != mark && c != '~'
    ensures Replace("~" + [c] + rest, mark, sub) == "~" + [c] + Replace(rest, mark, sub)
  {
    var s := "~" + [c] + rest;
    assert s[0] == '~' && s[1] == c;
    assert s[1..] == [c] + rest;
    ReplacePlain(c, rest, mark, sub);
    assert ['~'] + ([c] + Replace(rest, mark, sub)) == "~" + [c] + Replace(rest, mark, sub);
  }

  lemma {:induction false} FirstReplacement(token: string)
    ensures Replace(Escape(token), '1', '/') == Half(token)
  {
    if token != "" {
      var c, rest := token[0], Escape(token[1..]);
      FirstReplacement(token[1..]);
      if c == '~' {
        assert Escape(token) == "~" + ['0'] + rest;
        ReplaceOther('0', rest, '1', '/');
      } else if c == '/' {
        assert Escape(token) == "~" + ['1'] + rest;
        ReplaceMarked(rest, '1', '/');
      } else {
        ReplacePlain(c, rest, '1', '/');
      }
    }
  }

  lemma {:induction false} SecondReplacement(token: string)
    ensures Replace(Half(token), '0', '~') == token
  {
    if token != "" {
      var c, rest, half := token[0], token[1..], Half(token[1..]);
      assert [c] + rest == token;
      SecondReplacement(rest);
      assert Half(token) == if c == '~' then "~" + ['0'] + half else [c] + half;
      hide Half, Replace;
      if c == '~' {
        ReplaceMarked(half, '0', '~');
      } else {
        ReplacePlain(c, half, '0', '~');
      }
    }
  }

  /** Escaping then unescaping is the identity, for any token with any mix of "~" and "/". */
  lemma UnescapeEscape(token: string)
    ensures Unescape(Escape(token)) == token
  {
    FirstReplacement(token);
    SecondReplacement(token);
  }

  lemma {:induction false} EscapedHasNoSlash(token: string)
    ensures '/' !in Escape(token)
  {
    if token != "" {
      EscapedHasNoSlash(token[1..]);
    }
  }

  /** A token without a slash, then a slash and more, splits off the token. */
  lemma {:induction false} SplitToken(raw: string, rest: string)
    requires '/' !in raw
    ensures Split(raw) == [raw]
    ensures Split(raw + "/" + rest) == [raw] + Split(rest)
  {
    var s := raw + "/" + rest;
    if raw == "" {
      assert s[1..] == rest && s[0] == '/';
    } else {
      SplitToken(raw[1..], rest);
      assert s[1..] == raw[1..] + "/" + rest && s[0] == raw[0];
      assert [raw[0]] + raw[1..] == raw;
      assert ([raw[1..]] + Split(rest))[1..] == Split(rest);
      assert [raw[1..]][1..] == [];
    }
  }

  function Raws(path: seq<Part>): seq<string> {
    if path == [] then [] else [Escape(Token(path[0]))] + Raws(path[1..])
  }

  lemma JoinTail(raw: string, tail: string)
    ensures ("/" + raw + tail)[1..] == raw + tail && ("/" + raw + tail)[0] == '/'
    ensures tail != "" && tail[0] == '/' ==> raw + tail == raw + "/" + tail[1..]
  {
  }

  lemma {:induction false} SplitText(path: seq<Part>)
    requires path != []
    ensures Text(path) != "" && Text(path)[0] == '/' && Split(Text(path)[1..]) == Raws(path)
  {
    var raw, tail := Escape(Token(path[0])), Text(path[1..]);
    assert Text(path) == "/" + raw + tail && Raws(path) == [raw] + Raws(path[1..]);
    EscapedHasNoSlash(Token(path[0]));
    JoinTail(raw, tail);
    if |path| > 1 {
      SplitText(path[1..]);
    } else {
      assert tail == "" && Raws(path[1..]) == [] && raw + tail == raw;
    }
    hide Split, Text, Escape, Raws;
    SplitToken(raw, if tail == "" then "" else tail[1..]);
  }

  lemma BeforeLastIs(front: string, d: char)
    requires front != "" && IsDigit(front[|front| - 1])
    ensures BeforeLast(front + [d]) == front
  {
    var s := front + [d];
    assert s[|s| - 2] == front[|front| - 1] && s[..|s| - 1] == front;
  }

  lemma DigitsUnfold(s: string)
    requires |s| >= 2 && IsDigit(s[|s| - 1]) && Digits(BeforeLast(s)).Some?
    ensures Digits(s) == Some(10 * Digits(BeforeLast(s)).value + DigitValue(s[|s| - 1]))
  {
    hide BeforeLast, DigitValue;
  }

  lemma DigitsStep(front: string, d: char)
    requires front != "" && IsDigit(front[|front| - 1]) && Digits(front).Some? && IsDigit(d)
    ensures Digits(front + [d]) == Some(10 * Digits(front).value + DigitValue(d))
  {
    hide Digits, BeforeLast, DigitValue;
    BeforeLastIs(front, d);
    DigitsUnfold(front + [d]);
  }

  lemma LastDigit(d: nat)
    requires d < 10
    ensures IsDigit("0123456789"[d]) && DigitValue("0123456789"[d]) == d
  {
  }

  ghost predicate AllDigits(s: string) { s != "" && forall c | c in s :: IsDigit(c) }

  lemma {:induction false} DecimalDigits(n: nat)
    ensures AllDigits(Decimal(n)) && Digits(Decimal(n)) == Some(n)
  {
    LastDigit(n % 10);
    if n >= 10 {
      var front := Decimal(n / 10);
      DecimalDigits(n / 10);
      assert front[|front| - 1] in front;
      hide Digits;
      DigitsStep(front, "0123456789"[n % 10]);
    } else {
      assert Decimal(n) == ["0123456789"[n]];
    }
  }

  /** A canonical index is read back as itself. */
  lemma DecimalParses(n: nat)
    ensures ParseInt(Decimal(n)) == Some(n)
  {
    DecimalDigits(n);
    var s := Decimal(n);
    assert s[0] in s && s[|s| - 1] in s;
    hide Digits, Decimal, DigitValue;
    assert IsDigit(s[0]) && IsDigit(s[|s| - 1]);
    assert Strip(s) == s;
  }

  lemma {:induction false} WalkDenotes(document: Json, path: seq<Part>)
    requires Fits(document, path)
    ensures Walk(document, Raws(path)) == Denotes(document, path)
    decreases |path|
  {
    if path != [] {
      UnescapeEscape(Token(path[0]));
      assert Raws(path)[1..] == Raws(path[1..]);
      hide Unescape, Escape, ParseInt, Decimal;
      match (document, path[0])
      case (JObject(fields), Key(name)) =>
        if name in fields {
          WalkDenotes(fields[name], path[1..]);
        }
      case (JArray(items), Index(i)) =>
        DecimalParses(i);
        if i < |items| {
          WalkDenotes(items[i], path[1..]);
        }
      case _ =>
    }
  }

  /**
   Round trip: for any document and any path of keys and indices that fits it, escaping, joining
   with slashes and resolving gives the nested value, or MISSING where the path leads nowhere.
  */
  lemma PointerRoundTrip(document: Json, path: seq<Part>)
    requires Fits(document, path)
    ensures Resolve(document, Some(Text(path))) == Success(Denotes(document, path))
  {
    if path != [] {
      SplitText(path);
      WalkDenotes(document, path);
    }
  }

  /** Distinct paths of keys have distinct texts, so no mapping is ambiguous. */
  lemma {:induction false} TextIsInjective(a: seq<Part>, b: seq<Part>)
    requires (forall p | p in a :: p.Key?) && (forall p | p in b :: p.Key?) && Text(a) == Text(b)
    ensures a == b
  {
    if a != [] && b != [] {
      SplitText(a);
      SplitText(b);
      SameRaws(a, b);
    }
  }

  lemma {:induction false} SameRaws(a: seq<Part>, b: seq<Part>)
    requires (forall p | p in a :: p.Key?) && (forall p | p in b :: p.Key?) && Raws(a) == Raws(b)
    ensures a == b
  {
    if a != [] && b != [] {
      assert Raws(a)[0] == Escape(a[0].name) && Raws(b)[0] == Escape(b[0].name);
      assert Raws(a)[1..] == Raws(a[1..]) && Raws(b)[1..] == Raws(b[1..]);
      UnescapeEscape(a[0].name);
      UnescapeEscape(b[0].name);
      SameRaws(a[1..], b[1..]);
    }
  }

  // ---- Array indices beyond the standard -------------------------------------------------------

  /** RFC 6901, section 4: an existing item's position in decimal digits without leading zeros. */
  ghost predicate IsRfcIndex(token: string, items: seq<Json>) {
    exists i: nat :: i < |items| && token == Decimal(i)
  }

  /** One token of a pointer, whatever its characters, applied to an array. */
  lemma TokenInArray(items: seq<Json>, token: string)
    ensures Resolve(JArray(items), Some("/" + Escape(token))) == Success(Enter(JArray(items), token))
  {
    var p, raw := "/" + Escape(token), Escape(token);
    EscapedHasNoSlash(token);
    SplitToken(raw, "");
    UnescapeEscape(token);
    assert p[1..] == raw && p[0] == '/';
    assert [raw][1..] == [];
    hide ParseInt, Split, Unescape, Escape;
    var found := Enter(JArray(items), token);
    assert Walk(JArray(items), [raw]) == found by {
      if found.Some? {
        assert Walk(found.value, []) == found;
      }
    }
  }

  /** The integers that name an item of a list of n: from either end. */
  predicate InReach(i: int, n: int) { -n <= i < n }

  /**
   For every array and every token: a canonical index resolves to its own item, and a token that is
   no such index resolves to an item exactly if it reads as an integer in reach of the array that is
   negative or is not written canonically.
  */
  lemma LaxIndicesExactly(items: seq<Json>, token: string)
    ensures forall i: nat | i < |items| ::
              Resolve(JArray(items), Some("/" + Escape(Decimal(i)))) == Success(Some(items[i]))
    ensures Resolve(JArray(items), Some("/" + Escape(token))).Success?
    ensures Resolve(JArray(items), Some("/" + Escape(token))).value.Some? && !IsRfcIndex(token, items) <==>
              && ParseInt(token).Some? && InReach(ParseInt(token).value, |items|)
              && (ParseInt(token).value < 0 || token != Decimal(ParseInt(token).value))
  {
    TokenInArray(items, token);
    forall i: nat | i < |items|
      ensures Resolve(JArray(items), Some("/" + Escape(Decimal(i)))) == Success(Some(items[i]))
      ensures ParseInt(Decimal(i)) == Some(i)
    {
      TokenInArray(items, Decimal(i));
      DecimalParses(i);
    }
    hide Resolve, Escape, ParseInt, Decimal;
  }

  lemma {:induction false} EscapePlain(s: string)
    requires '/' !in s && '~' !in s
    ensures Escape(s) == s
  {
    if s != "" {
      assert s[0] in s && forall c | c in s[1..] :: c in s;
      EscapePlain(s[1..]);
    }
  }

  lemma SignedZeroOne()
    ensures ParseInt("-1") == Some(-1) && ParseInt("+0") == Some(0)
  {
    assert "-1"[1..] == "1" && "+0"[1..] == "0";
    assert Digits("1") == Some(1) && Digits("0") == Some(0);
  }

  lemma DoubleZero()
    ensures ParseInt("00") == Some(0)
  {
    assert BeforeLast("00") == "0";
    assert Digits("0") == Some(0);
    assert Digits("00") == Some(0);
  }

  /** A token that reads as an integer in reach resolves to the item in that position. */
  lemma TokenReaches(items: seq<Json>, token: string, i: int)
    requires '/' !in token && '~' !in token && ParseInt(token) == Some(i) && InReach(i, |items|)
    ensures Resolve(JArray(items), Some("/" + token)) == Success(ItemAt(items, i))
  {
    EscapePlain(token);
    TokenInArray(items, token);
    hide Resolve, Escape, ParseInt;
  }

  /** Three such tokens: "-1" for the last item, "00" and "+0" for the first. */
  lemma LaxIndices(items: seq<Json>)
    requires items != []
    ensures Resolve(JArray(items), Some("/" + "-1")) == Success(Some(items[|items| - 1]))
    ensures Resolve(JArray(items), Some("/" + "00")) == Success(Some(items[0]))
    ensures Resolve(JArray(items), Some("/" + "+0")) == Success(Some(items[0]))
  {
    hide Resolve, ParseInt;
    SignedZeroOne();
    DoubleZero();
    TokenReaches(items, "-1", -1);
    TokenReaches(items, "00", 0);
    TokenReaches(items, "+0", 0);
  }

  // ---- What the walk takes apart -------------------------------------------------------------------

  ghost function Joined(tokens: seq<string>): string
    requires tokens != []
  {
    if |tokens| == 1 then tokens[0] else tokens[0] + "/" + Joined(tokens[1..])
  }

  /** Splitting gives the parts without slashes that the text joins with slashes. */
  lemma {:induction false} SplitMeans(s: string)
    ensures Joined(Split(s)) == s && forall t | t in Split(s) :: '/' !in t
  {
    if s != "" {
      var rest := Split(s[1..]);
      SplitMeans(s[1..]);
      assert s == [s[0]] + s[1..];
      if s[0] == '/' {
        assert ([""] + rest)[1..] == rest;
      } else {
        assert ([[s[0]] + rest[0]] + rest[1..])[1..] == rest[1..];
      }
    }
  }

  /** Where no tilde stands before the mark, nothing is replaced. */
  lemma {:induction false} NothingReplaced(s: string, mark: char, sub: char)
    requires forall i | 0 <= i < |s| - 1 && s[i] == '~' :: s[i + 1] != mark
    ensures Replace(s, mark, sub) == s
  {
    if s != "" {
      var rest := s[1..];
      forall i | 0 <= i < |rest| - 1 && rest[i] == '~' ensures rest[i + 1] != mark {
        assert s[i + 1] == rest[i] && s[i + 1 + 1] == rest[i + 1];
      }
      NothingReplaced(s[1..], mark, sub);
    }
  }

  // ---- The texts that are integers -----------------------------------------------------------------

  /** Reads digits in base ten and passes over underscores. */
  ghost function Horner(s: string, sofar: int): int {
    if s == "" then sofar
    else Horner(s[1..], if IsDigit(s[0]) then 10 * sofar + (s[0] as int - '0' as int) else sofar)
  }

  /** Digits, with single underscores between them. */
  ghost predicate IsGrouped(s: string) {
    && s != "" && s[0] != '_' && s[|s| - 1] != '_' && (forall i | 0 <= i < |s| :: IsDigit(s[i]) || s[i] == '_')
    && forall i | 0 <= i < |s| - 1 && s[i] == '_' :: s[i + 1] != '_'
  }

  lemma {:induction false} HornerSnoc(s: string, c: char, sofar: int)
    ensures Horner(s + [c], sofar) == if IsDigit(c) then 10 * Horner(s, sofar) + (c as int - '0' as int) else Horner(s, sofar)
  {
    if s == "" {
      assert ([c])[1..] == "" && s + [c] == [c];
    } else {
      assert (s + [c])[1..] == s[1..] + [c];
      HornerSnoc(s[1..], c, if IsDigit(s[0]) then 10 * sofar + (s[0] as int - '0' as int) else sofar);
    }
  }

  lemma HornerBeforeLast(s: string)
    requires |s| >= 2 && IsDigit(s[|s| - 1])
    ensures Horner(s, 0) == 10 * Horner(BeforeLast(s), 0) + (s[|s| - 1] as int - '0' as int)
  {
    var front := s[..|s| - 1];
    assert s == front + [s[|s| - 1]];
    HornerSnoc(front, s[|s| - 1], 0);
    if s[|s| - 2] == '_' {
      assert front == s[..|s| - 2] + ['_'];
      HornerSnoc(s[..|s| - 2], '_', 0);
    }
  }

  lemma GroupedBeforeLast(s: string)
    requires |s| >= 2 && IsDigit(s[|s| - 1])
    ensures IsGrouped(s) <==> IsGrouped(BeforeLast(s))
  {
    var front := BeforeLast(s);
    assert forall i | 0 <= i < |front| :: front[i] == s[i];
    if IsGrouped(front) {
      forall i | 0 <= i < |s| - 1 && s[i] == '_' ensures s[i + 1] != '_' {
        if i < |front| - 1 {
          assert front[i + 1] == s[i + 1];
        }
      }
    }
    if IsGrouped(s) && s[|s| - 2] == '_' {
      var i := |s| - 3;
      assert s[i + 1] == '_';
      assert s[i] != '_';
    }
  }

  lemma {:induction false} DigitsExactly(s: string)
    ensures Digits(s).Some? <==> IsGrouped(s)
    ensures Digits(s).Some? ==> Digits(s).value == Horner(s, 0)
  {
    if |s| >= 2 && IsDigit(s[|s| - 1]) {
      DigitsExactly(BeforeLast(s));
      GroupedBeforeLast(s);
      HornerBeforeLast(s);
      hide IsGrouped, Horner;
    } else if |s| == 1 {
      assert s[1..] == "";
    }
  }

  /** The text without the blanks around it. */
  ghost predicate StripsTo(s: string, a: nat, b: nat) {
    && a <= b <= |s| && (forall k | 0 <= k < a || b <= k < |s| :: s[k] as int in {9, 10, 11, 12, 13, 32})
    && (a < b ==> s[a] as int !in {9, 10, 11, 12, 13, 32} && s[b - 1] as int !in {9, 10, 11, 12, 13, 32})
  }

  lemma {:induction false} StripExactly(s: string) returns (a: nat, b: nat)
    ensures StripsTo(s, a, b) && Strip(s) == s[a..b]
  {
    if s == "" {
      a, b := 0, 0;
    } else if IsBlank(s[0]) {
      a, b := StripExactly(s[1..]);
      assert forall k | 0 <= k < |s[1..]| :: s[1..][k] == s[k + 1];
      assert s[1..][a..b] == s[a + 1..b + 1];
      a, b := a + 1, b + 1;
      forall k | 0 <= k < a || b <= k < |s| ensures s[k] as int in {9, 10, 11, 12, 13, 32} {
        assert k > 0 ==> s[k] == s[1..][k - 1];
      }
    } else if IsBlank(s[|s| - 1]) {
      var front := s[..|s| - 1];
      a, b := StripExactly(front);
      assert front[a..b] == s[a..b];
      forall k | 0 <= k < a || b <= k < |s| ensures s[k] as int in {9, 10, 11, 12, 13, 32} {
        assert k < |front| ==> s[k] == front[k];
      }
    } else {
      a, b := 0, |s|;
    }
  }

  /** The integer a text writes between its blanks: grouped digits, with a sign or without. */
  ghost predicate WritesInt(w: string, i: int) {
    || (IsGrouped(w) && i == Horner(w, 0))
    || (w != "" && w[0] == '+' && IsGrouped(w[1..]) && i == Horner(w[1..], 0))
    || (w != "" && w[0] == '-' && IsGrouped(w[1..]) && i == -Horner(w[1..], 0))
  }

  /** A token reads as an integer exactly if without its blanks it writes one. */
  lemma IntegersExactly(token: string, i: int) returns (a: nat, b: nat)
    ensures StripsTo(token, a, b)
    ensures ParseInt(token) == Some(i) <==> WritesInt(token[a..b], i)
  {
    a, b := StripExactly(token);
    var w := token[a..b];
    DigitsExactly(w);
    if w != "" {
      DigitsExactly(w[1..]);
    }
    hide Digits, Strip, Horner;
  }
}
