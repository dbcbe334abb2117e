/** Trees written back as tokens, with parentheses only where the grammar needs them, and which trees it builds
    (scripts/flowexpr.py, `Parser`). */
module Printer {
  import opened Wrappers
  import opened Syntax
  import opened Tokens
  import opened Grammar

  /** The level of precedence a tree's own production is at, 0 the lowest. */
  function Level(e: Expr): (n: nat)
    ensures n <= 9
  {
    match e
    case If(_, _, _) => 0
    case Bin(op, _, _) =>
      if op.Implies? then 1 else if op.Or? then 2 else if op.And? then 3
      else if op.Add? || op.Sub? then 5 else if op.Mul? || op.Div? then 6 else 4
    case In(_, _) => 4
    case IsNull(_, _) => 4
    case Not(_) => 7
    case Neg(_) => 7
    case Path(_, _) => 8
    case Call(fn, _) => if fn.Path? then 8 else 9
    case _ => 9
  }

  /** The level each operator reads its sides at. */
  function LeftLevel(op: Op): (n: nat)
    ensures n <= 9
  {
    if op.Implies? then 2 else if IsComparison(op) then 5 else Level(Bin(op, Null, Null))
  }

  function RightLevel(op: Op): (n: nat)
    ensures n <= 9
  {
    if op.Implies? then 1 else Level(Bin(op, Null, Null)) + 1
  }

  // which trees the grammar builds

  predicate IsName(n: string) {
    IsWord(n) && n !in KEYWORDS
  }

  ghost predicate Built(e: Expr)
    decreases e
  {
    match e
    case Num(lit) => BuiltNumber(lit)
    case Str(_) => true
    case Bool(_) => true
    case Dur(lit, unit) => BuiltNumber(lit) && unit in UNITS
    case Money(ccy, _) => IsCurrency(ccy)
    case Name(n) => IsName(n)
    case Path(base, _) => Built(base)
    case Call(fn, args) =>
      && BuiltAll(args)
      && (|| (fn.Path? && Built(fn))
          || (fn.Name? && IsName(fn.name) && fn.name != "metric" && fn.name != "changed_since"))
    case Agg(kind, distinct, binder, coll, where, body) =>
      && kind in AGGREGATES && BuiltOptional(coll) && BuiltOptional(where) && BuiltOptional(body)
      && (binder.Some? <==> coll.Some?)
      && (binder.Some? ==> (binder.value == "distinct" ==> distinct) && (kind in BODIED || distinct ==> body.Some?))
      && (binder.None? ==> (body.None? ==> where.Some?) && (body.Some? ==> distinct))
    case Metric(name, binds, over, fresh_) =>
      && Built(name) && BuiltOptional(over) && BuiltOptional(fresh_)
      && BuiltBinds(binds)
    case Changed(names, event) => Built(event) && "]" !in names
    case SetLit(items) => BuiltAll(items)
    case Not(x) => Built(x)
    case Neg(x) => Built(x)
    case IsNull(x, _) => Built(x)
    case In(l, r) => Built(l) && Built(r)
    case Bin(_, l, r) => Built(l) && Built(r)
    case If(c, a, b) => Built(c) && Built(a) && Built(b)
    case Null => false
    case Unknown => false
  }

  ghost predicate BuiltOptional(e: Option<Expr>)
    decreases e
  {
    e.Some? ==> Built(e.value)
  }

  ghost predicate BuiltAll(es: seq<Expr>)
    decreases es
  {
    forall i | 0 <= i < |es| :: Built(es[i])
  }

  ghost predicate BuiltBinds(bs: seq<(string, Expr)>)
    decreases bs
  {
    forall i | 0 <= i < |bs| :: bs[i].0 != "over" && bs[i].0 != "fresh" && (var b := bs[i]; assert b.1 < b; Built(b.1))
  }

  predicate BuiltNumber(lit: NumLit) {
    lit.Decimal? ==> '.' in lit.text
  }

  // the tokens of a tree

  function DigitText(n: nat): (s: string)
    ensures Digits(s) == n && '.' !in s
  {
    var d := [(n % 10) as char + '0'];
    if n < 10 then d
    else
      var s := DigitText(n / 10) + d;
      assert s[..|s| - 1] == DigitText(n / 10);
      s
  }

  function NumberText(lit: NumLit): (s: string)
    ensures BuiltNumber(lit) ==> Literal(s) == lit
  {
    match lit
    case Whole(n) => DigitText(n)
    case Decimal(text) => text
  }

  function Parens(ts: seq<Token>): seq<Token> {
    [Op_("(")] + ts + [Op_(")")]
  }

  /** A tree as an operand of a level: in parentheses where its own is lower. */
  function Render(e: Expr, level: nat): seq<Token>
    decreases e, 1
  {
    if Level(e) < level then Parens(Body(e)) else Body(e)
  }

  function Guarded(ts: seq<Token>, clash: bool): seq<Token> {
    if clash then Parens(ts) else ts
  }

  function Body(e: Expr): seq<Token>
    decreases e, 0
  {
    match e
    case Num(lit) => [Token(NumTok, NumberText(lit))]
    case Str(text) => [Token(StrTok, "\"" + text + "\"")]
    case Bool(b) => [Word(if b then "true" else "false")]
    case Dur(lit, unit) => [Token(NumTok, NumberText(lit)), Word(unit)]
    case Money(ccy, amount) => [Word(ccy), Token(NumTok, amount)]
    case Name(n) => [Word(n)]
    case Path(base, member) => Render(base, 8) + [Op_("."), Word(member)]
    case Call(fn, args) =>
      if fn.Name? then [Word(fn.name), Op_("(")] + Arguments(fn.name in AGGREGATES, args) + [Op_(")")]
      else Render(fn, 8) + [Op_("(")] + List(args) + [Op_(")")]
    case Agg(kind, distinct, binder, coll, where, body) =>
      [Word(kind), Op_("(")] + (if distinct then [Word("distinct")] else [])
      + (if binder.Some? && coll.Some? then
           [Word(binder.value), Word("in")] + Render(coll.value, 5) + Clause("where", where) + Clause(":", body)
         else OwnBody(body) + Clause("where", where))
      + [Op_(")")]
    case Metric(name, binds, over, fresh_) =>
      [Word("metric"), Op_("(")] + Render(name, 5) + Bindings(binds) + Over(over) + Fresh(fresh_) + [Op_(")")]
    case Changed(names, event) =>
      [Word("changed_since"), Op_("("), Op_("[")] + Names(names) + [Op_("]"), Op_(",")] + Render(event, 0) + [Op_(")")]
    case SetLit(items) => [Op_("{")] + List(items) + [Op_("}")]
    case Not(x) => [Word("not")] + Render(x, 7)
    case Neg(x) => [Op_("-")] + Render(x, 7)
    case IsNull(x, negated) => Render(x, 5) + [Word("is")] + (if negated then [Word("not")] else []) + [Word("null")]
    case In(l, r) => Render(l, 5) + [Word("in")] + Render(r, 5)
    case Bin(op, l, r) => Render(l, LeftLevel(op)) + [OpToken(op)] + Render(r, RightLevel(op))
    case If(c, a, b) => [Word("if")] + Render(c, 0) + [Word("then")] + Render(a, 0) + [Word("else")] + Render(b, 0)
    case Null => []
    case Unknown => []
  }

  function OpToken(op: Op): Token {
    if op.Implies? || op.Or? || op.And? then Word(OpText(op)) else Op_(OpText(op))
  }

  /** Expressions with a comma between them. */
  function List(es: seq<Expr>): seq<Token>
    decreases es
  {
    if es == [] then []
    else Render(es[0], 0) + More(es[1..])
  }

  function More(es: seq<Expr>): seq<Token>
    decreases es
  {
    if es == [] then []
    else [Op_(",")] + Render(es[0], 0) + More(es[1..])
  }

  /** A call's arguments; an aggregate's first is in parentheses where its words would be taken for the aggregate's. */
  function Arguments(aggregate: bool, es: seq<Expr>): seq<Token>
    decreases es
  {
    if es == [] then []
    else
      var first := Render(es[0], 0);
      Guarded(first, aggregate && (Taken(first) || At(first, "distinct"))) + More(es[1..])
  }

  function Clause(word: string, e: Option<Expr>): seq<Token>
    decreases e
  {
    if e.Some? then [Word(word)] + Render(e.value, 0) else []
  }

  function OwnBody(e: Option<Expr>): seq<Token>
    decreases e
  {
    if e.Some? then
      var ts := Render(e.value, 0);
      Guarded(ts, Taken(ts))
    else []
  }

  function Bindings(bs: seq<(string, Expr)>): seq<Token>
    decreases bs
  {
    if bs == [] then []
    else
      var b := bs[0];
      assert b in bs && b.1 < b;
      [Op_(","), Word(b.0), Op_(":=")] + Render(b.1, 0) + Bindings(bs[1..])
  }

  function Over(e: Option<Expr>): seq<Token>
    decreases e
  {
    if e.Some? then [Op_(","), Word("over"), Word("last")] + Render(e.value, 9) else []
  }

  function Fresh(e: Option<Expr>): seq<Token>
    decreases e
  {
    if e.Some? then [Op_(","), Word("fresh")] + Render(e.value, 9) else []
  }

  function Names(names: seq<string>): seq<Token> {
    if names == [] then []
    else if |names| == 1 then [Word(names[0])]
    else [Word(names[0]), Op_(",")] + Names(names[1..])
  }

  // how deep a tree's tokens nest

  function NestAt(e: Expr, level: nat): nat
    decreases e, 1
  {
    if Level(e) < level then 1 + Nest(e) else Nest(e)
  }

  function Nest(e: Expr): nat
    decreases e, 0
  {
    match e
    case Path(base, _) => NestAt(base, 8)
    case Call(fn, args) =>
      if fn.Name? then NestArguments(fn.name in AGGREGATES, args) else Max(NestAt(fn, 8), NestAll(args))
    case Agg(_, _, binder, coll, where, body) =>
      if binder.Some? && coll.Some? then Max(Max(NestAt(coll.value, 5), NestOf(where)), NestOf(body))
      else Max(NestOwn(body), NestOf(where))
    case Metric(name, binds, over, fresh_) =>
      Max(Max(Max(NestAt(name, 5), NestBinds(binds)), NestOperand(over)), NestOperand(fresh_))
    case Changed(_, event) => 1 + Nest(event)
    case SetLit(items) => NestAll(items)
    case Not(x) => 1 + NestAt(x, 7)
    case Neg(x) => 1 + NestAt(x, 7)
    case IsNull(x, _) => NestAt(x, 5)
    case In(l, r) => Max(NestAt(l, 5), NestAt(r, 5))
    case Bin(op, l, r) => Max(NestAt(l, LeftLevel(op)), NestAt(r, RightLevel(op)))
    case If(c, a, b) => Max(Max(1 + Nest(c), 1 + Nest(a)), 1 + Nest(b))
    case _ => 0
  }

  function NestOf(e: Option<Expr>): nat
    decreases e
  {
    if e.Some? then 1 + Nest(e.value) else 0
  }

  function NestOwn(e: Option<Expr>): nat
    decreases e
  {
    if e.Some? then (if Taken(Render(e.value, 0)) then 2 else 1) + Nest(e.value) else 0
  }

  function NestOperand(e: Option<Expr>): nat
    decreases e
  {
    if e.Some? then NestAt(e.value, 9) else 0
  }

  function NestAll(es: seq<Expr>): nat
    decreases es
  {
    if es == [] then 0 else Max(1 + Nest(es[0]), NestAll(es[1..]))
  }

  function NestArguments(aggregate: bool, es: seq<Expr>): nat
    decreases es
  {
    if es == [] then 0
    else
      var first := Render(es[0], 0);
      Max((if aggregate && (Taken(first) || At(first, "distinct")) then 2 else 1) + Nest(es[0]), NestAll(es[1..]))
  }

  function NestBinds(bs: seq<(string, Expr)>): nat
    decreases bs
  {
    if bs == [] then 0
    else
      var b := bs[0];
      assert b in bs && b.1 < b;
      Max(1 + Nest(b.1), NestBinds(bs[1..]))
  }
}
