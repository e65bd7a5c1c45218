/** The scoring.condition language: values, trees, tokens, and printing a tree as tokens and as text. */
module CondSyntax {

  datatype Cmp = Eq | Ne | Lt | Le | Gt | Ge
  datatype Connective = And | Or

  /** A number literal with a decimal point keeps its text; it denotes that decimal. */
  datatype Literal = NullLit | BoolLit(b: bool) | IntLit(i: int) | FloatLit(text: string) | StrLit(s: string)

  datatype Tree =
    | Raw
    | Lit(value: Literal)
    | Compare(cmp: Cmp, left: Tree, right: Tree)
    | BoolOp(connective: Connective, children: seq<Tree>)
    | Not(child: Tree)

  /** Operators, parentheses, words and literals; true, false and null are words to the tokenizer. */
  datatype Tok =
    | AndAnd | OrOr | Bang | Comp(cmp: Cmp)
    | Open | Close
    | Word(name: string)
    | IntTok(i: int) | FloatTok(text: string) | StrTok(s: string)
    | Eof

  datatype Token = Token(tok: Tok, pos: nat)

  predicate IsDigit(c: char) { '0' <= c <= '9' }
  predicate IsAlpha(c: char) { 'a' <= c <= 'z' || 'A' <= c <= 'Z' }
  predicate IsWordChar(c: char) { IsAlpha(c) || IsDigit(c) || c == '_' }
  /** The blanks between tokens. */
  predicate IsSpace(c: char) { c == ' ' || c == '\t' || c == '\r' || c == '\n' }

  /** The characters strip() removes: a condition of these alone is empty. Between tokens most of them are not allowed. */
  predicate IsStripped(c: char) {
    || '\t' <= c <= '\r' || '\U{1C}' <= c <= ' ' || c == '\U{85}' || c == '\U{A0}'
    || c == '\U{1680}' || '\U{2000}' <= c <= '\U{200A}' || c == '\U{2028}' || c == '\U{2029}'
    || c == '\U{202F}' || c == '\U{205F}' || c == '\U{3000}'
  }

  /** The character classes by code. */
  lemma ClassesAre(c: char)
    ensures var n := c as int;
            && (IsDigit(c) <==> 48 <= n <= 57)
            && (IsWordChar(c) <==> 48 <= n <= 57 || 65 <= n <= 90 || n == 95 || 97 <= n <= 122)
            && (IsAlpha(c) <==> 65 <= n <= 90 || 97 <= n <= 122)
            && (IsSpace(c) <==> n in {9, 10, 13, 32})
            && (IsStripped(c) <==>
                  9 <= n <= 13 || 28 <= n <= 32 || 0x2000 <= n <= 0x200A
                  || n in {0x85, 0xA0, 0x1680, 0x2028, 0x2029, 0x202F, 0x205F, 0x3000})
  {
  }

  predicate AllDigits(s: string) { forall c | c in s :: IsDigit(c) }

  /** The number a text of digits writes in base ten. */
  ghost function Horner(digits: string, sofar: int): int
    requires AllDigits(digits)
  {
    if digits == "" then sofar else Horner(digits[1..], 10 * sofar + (digits[0] as int - '0' as int))
  }

  lemma {:induction false} HornerSnoc(digits: string, c: char, sofar: int)
    requires AllDigits(digits + [c])
    ensures AllDigits(digits) && IsDigit(c)
    ensures Horner(digits + [c], sofar) == 10 * Horner(digits, sofar) + (c as int - '0' as int)
  {
    var all := digits + [c];
    assert all[|digits|] == c && forall d | d in digits :: d in all;
    if digits == "" {
      assert all[1..] == "";
    } else {
      assert all[1..] == digits[1..] + [c];
      HornerSnoc(digits[1..], c, 10 * sofar + (digits[0] as int - '0' as int));
    }
  }

  /** The text of a number literal with a point: an optional sign, digits, a point, more digits. */
  ghost predicate IsDecimalText(text: string) {
    exists neg: bool, whole: string, frac: string ::
      IsDecimalOf(text, neg, whole, frac)
  }

  ghost predicate IsDecimalOf(text: string, neg: bool, whole: string, frac: string) {
    && whole != [] && AllDigits(whole) && AllDigits(frac)
    && text == (if neg then "-" else "") + whole + "." + frac
  }

  /** The trees the grammar can express: connectives join at least two operands. */
  ghost predicate WellFormed(t: Tree) {
    match t
    case Raw => true
    case Lit(v) => v.FloatLit? ==> IsDecimalText(v.text)
    case Compare(_, l, r) => WellFormed(l) && WellFormed(r)
    case BoolOp(_, cs) => |cs| >= 2 && forall c | c in cs :: WellFormed(c)
    case Not(c) => WellFormed(c)
  }

  // ---- Printing -------------------------------------------------------------------

  function LiteralTok(v: Literal): Tok {
    match v
    case NullLit => Word("null")
    case BoolLit(b) => Word(if b then "true" else "false")
    case IntLit(i) => IntTok(i)
    case FloatLit(text) => FloatTok(text)
    case StrLit(s) => StrTok(s)
  }

  /** Grammar levels: or, and, not, comparison, operand. */
  function Level(t: Tree): nat {
    match t
    case BoolOp(op, _) => ChildLevel(op) - 1
    case Not(_) => 2
    case Compare(_, _, _) => 3
    case _ => 4
  }

  /** The level each operand of a connective must have to stand without parentheses. */
  function ChildLevel(op: Connective): nat { if op.Or? then 1 else 2 }

  function ConnectiveTok(op: Connective): Tok { if op.Or? then OrOr else AndAnd }

  /** Prints a tree where the grammar expects the given level, in parentheses if it is of a lower one. */
  function PrintAt(level: nat, t: Tree): seq<Tok>
    decreases t, 1
  {
    if Level(t) >= level then PrintTree(t) else [Open] + (PrintTree(t) + [Close])
  }

  function PrintTree(t: Tree): seq<Tok>
    decreases t, 0
  {
    match t
    case Raw => [Word("raw_value")]
    case Lit(v) => [LiteralTok(v)]
    case Compare(cmp, l, r) => PrintAt(4, l) + ([Comp(cmp)] + PrintAt(4, r))
    case Not(c) => [Bang] + PrintAt(2, c)
    case BoolOp(op, cs) => if cs == [] then [] else PrintAt(ChildLevel(op), cs[0]) + PrintMore(op, cs[1..])
  }

  function PrintMore(op: Connective, ts: seq<Tree>): seq<Tok>
    decreases ts, 0
  {
    if ts == [] then []
    else [ConnectiveTok(op)] + (PrintAt(ChildLevel(op), ts[0]) + PrintMore(op, ts[1..]))
  }

  // ---- Rendering tokens as text -----------------------------------------------------

  function DigitChar(d: nat): char
    requires d < 10
  {
    "0123456789"[d]
  }

  function Decimal(n: nat): string {
    if n < 10 then [DigitChar(n)] else Decimal(n / 10) + [DigitChar(n % 10)]
  }

  function RenderInt(i: int): string { if i < 0 then "-" + Decimal(-i) else Decimal(i) }

  function EscapeChar(c: char): string {
    if c == '\\' then "\\\\"
    else if c == '"' then "\\\""
    else if c == '\n' then "\\n"
    else if c == '\t' then "\\t"
    else if c == '\r' then "\\r"
    else [c]
  }

  function Escape(s: string): string {
    if s == "" then "" else EscapeChar(s[0]) + Escape(s[1..])
  }

  function RenderCmp(cmp: Cmp): string {
    match cmp
    case Eq => "=="
    case Ne => "!="
    case Lt => "<"
    case Le => "<="
    case Gt => ">"
    case Ge => ">="
  }

  function RenderTok(t: Tok): string {
    match t
    case AndAnd => "&&"
    case OrOr => "||"
    case Bang => "!"
    case Comp(cmp) => RenderCmp(cmp)
    case Open => "("
    case Close => ")"
    case Word(name) => name
    case IntTok(i) => RenderInt(i)
    case FloatTok(text) => text
    case StrTok(s) => "\"" + Escape(s) + "\""
    case Eof => ""
  }

  function Render(ts: seq<Tok>): string {
    if ts == [] then "" else RenderTok(ts[0]) + " " + Render(ts[1..])
  }

  function Print(t: Tree): string { Render(PrintTree(t)) }
}
