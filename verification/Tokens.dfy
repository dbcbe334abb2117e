/** The tokens of an expression and the words of its grammar (scripts/flowexpr.py). */
module Tokens {
  import opened Wrappers
  import opened Syntax

  datatype TokenKind = StrTok | NumTok | NameTok | OpTok | EndTok

  datatype Token = Token(kind: TokenKind, text: string)

  const END := Token(EndTok, "")

  datatype ParseError = ParseError

  const UNITS := {"s", "min", "h", "day", "days", "week", "weeks"}
  const AGGREGATES := {"count", "sum", "min", "max", "all", "any", "none", "avg", "median", "percentile"}
  const BODIED := {"sum", "min", "max", "avg", "median"}
  const KEYWORDS := {"and", "or", "not", "implies", "in", "is", "null", "if", "then", "else", "true", "false"}

  const MAX_NESTING := 64
  const MAX_DEPTH := 128

  function Comparison(text: string): Option<Op> {
    if text == "==" then Some(Eq)
    else if text == "!=" then Some(Ne)
    else if text == "<" then Some(Lt)
    else if text == "<=" then Some(Le)
    else if text == ">" then Some(Gt)
    else if text == ">=" then Some(Ge)
    else None
  }

  function OpText(op: Op): string {
    match op
    case Implies => "implies"
    case Or => "or"
    case And => "and"
    case Eq => "=="
    case Ne => "!="
    case Lt => "<"
    case Le => "<="
    case Gt => ">"
    case Ge => ">="
    case Add => "+"
    case Sub => "-"
    case Mul => "*"
    case Div => "/"
  }

  function Op_(text: string): Token {
    Token(OpTok, text)
  }

  function Word(text: string): Token {
    Token(NameTok, text)
  }

  /** The k-th token ahead, the end where there are no more. */
  function Peek(ts: seq<Token>, k: nat): Token {
    if k < |ts| then ts[k] else END
  }

  function Drop(ts: seq<Token>): (r: seq<Token>) {
    if ts == [] then [] else ts[1..]
  }

  predicate Is(t: Token, text: string) {
    t.text == text && (t.kind == OpTok || t.kind == NameTok)
  }

  predicate Ahead(ts: seq<Token>, k: nat, text: string) {
    Is(Peek(ts, k), text)
  }

  predicate At(ts: seq<Token>, text: string) {
    Is(Peek(ts, 0), text)
  }

  predicate IsLetter(c: char) {
    'A' <= c <= 'Z' || 'a' <= c <= 'z' || c == '_'
  }

  predicate IsDigit(c: char) {
    '0' <= c <= '9'
  }

  /** A name as the tokens' pattern has one. */
  predicate IsWord(text: string) {
    |text| > 0 && IsLetter(text[0]) && forall i | 0 <= i < |text| :: IsLetter(text[i]) || IsDigit(text[i])
  }

  /** Three capitals, as a currency's code is written. */
  predicate IsCurrency(text: string) {
    |text| == 3 && forall i | 0 <= i < 3 :: 'A' <= text[i] <= 'Z'
  }

  /** A number's literal: an int where its text has no point. */
  function Literal(text: string): NumLit {
    if '.' in text then Decimal(text) else Whole(Digits(text))
  }

  /** The operator a token is at a level whose operators associate to the left. */
  function LeftOp(level: nat, t: Token): Option<Op> {
    if level == 2 then (if Is(t, "or") then Some(Or) else None)
    else if level == 3 then (if Is(t, "and") then Some(And) else None)
    else if t.kind != OpTok then None
    else if level == 5 then (if t.text == "+" then Some(Add) else if t.text == "-" then Some(Sub) else None)
    else if level == 6 then (if t.text == "*" then Some(Mul) else if t.text == "/" then Some(Div) else None)
    else None
  }

  function ComparisonOp(t: Token): Option<Op> {
    if t.kind == OpTok then Comparison(t.text) else None
  }

  /** A token that begins what follows a comparison's left side. */
  predicate Compares(t: Token) {
    ComparisonOp(t).Some? || Is(t, "in") || Is(t, "is")
  }
}
