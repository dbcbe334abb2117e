/** The grammar of expressions, as a function of the tokens ahead: what each of the parser's levels reads, and how deep it
    nests (scripts/flowexpr.py, `Parser`). */
module Grammar {
  import opened Wrappers
  import opened Syntax
  import opened Tokens

  /** What was read, the tokens left, and how deep the parse nested. */
  datatype Got<T> = Got(v: T, rest: seq<Token>, nest: nat)

  type Parse<T> = Result<Got<T>, ParseError>

  function Max(a: nat, b: nat): nat {
    if a < b then b else a
  }

  /** The token expected, or a failure. */
  function Take(ts: seq<Token>, text: string): Result<seq<Token>, ParseError> {
    if At(ts, text) then Ok(ts[1..]) else Err(ParseError)
  }

  // the levels of precedence, lowest first: 0 if, 1 implies, 2 or, 3 and, 4 comparison, 5 + and -, 6 * and /, 7 not and
  // negation, 8 paths and calls, 9 an operand

  function ParseAt(level: nat, ts: seq<Token>): (r: Parse<Expr>)
    requires level <= 9
    ensures r.Ok? ==> |r.value.rest| < |ts|
    decreases |ts|, 10 - level, 1
  {
    if level == 0 then ParseIf(ts)
    else if level == 1 then
      var l :- ParseAt(2, ts);
      if At(l.rest, "implies") then
        var r :- ParseAt(1, l.rest[1..]);
        Ok(Got(Bin(Implies, l.v, r.v), r.rest, Max(l.nest, r.nest)))
      else Ok(l)
    else if level == 4 then
      var l :- ParseAt(5, ts);
      ParseComparison(l)
    else if level == 7 then
      if (At(ts, "not") || At(ts, "-")) then
        var x :- ParseAt(7, ts[1..]);
        Ok(Got(if ts[0].text == "not" then Not(x.v) else Neg(x.v), x.rest, x.nest + 1))
      else ParseAt(8, ts)
    else if level == 8 then
      var x :- ParseAt(9, ts);
      ParsePostfix(x)
    else if level == 9 then ParsePrimary(ts)
    else
      var l :- ParseAt(level + 1, ts);
      ParseLeft(level, l)
  }

  /** `expr`: a level of nesting. */
  function ParseExpr(ts: seq<Token>): (r: Parse<Expr>)
    ensures r.Ok? ==> |r.value.rest| < |ts|
    decreases |ts|, 11, 0
  {
    var x :- ParseAt(0, ts);
    Ok(x.(nest := x.nest + 1))
  }

  function ParseIf(ts: seq<Token>): (r: Parse<Expr>)
    ensures r.Ok? ==> |r.value.rest| < |ts|
    decreases |ts|, 10, 0
  {
    if At(ts, "if") then
      var c :- ParseExpr(ts[1..]);
      var t :- Take(c.rest, "then");
      var a :- ParseExpr(t);
      var e :- Take(a.rest, "else");
      var b :- ParseExpr(e);
      Ok(Got(If(c.v, a.v, b.v), b.rest, Max(Max(c.nest, a.nest), b.nest)))
    else ParseAt(1, ts)
  }

  /** The loop of a level whose operators associate to the left, from what it has read. */
  function ParseLeft(level: nat, l: Got<Expr>): (r: Parse<Expr>)
    requires level in {2, 3, 5, 6}
    ensures r.Ok? ==> |r.value.rest| <= |l.rest| && r.value.nest >= l.nest
    decreases |l.rest|, 10 - level, 0
  {
    var op := LeftOp(level, Peek(l.rest, 0));
    if op.None? then Ok(l)
    else
      var r :- ParseAt(level + 1, l.rest[1..]);
      ParseLeft(level, Got(Bin(op.value, l.v, r.v), r.rest, Max(l.nest, r.nest)))
  }

  /** What may follow a comparison's left side; a comparison does not chain. */
  function ParseComparison(l: Got<Expr>): (r: Parse<Expr>)
    ensures r.Ok? ==> |r.value.rest| <= |l.rest| && r.value.nest >= l.nest
    decreases |l.rest|, 6, 0
  {
    var t := Peek(l.rest, 0);
    if !Compares(t) then Ok(l)
    else
      var x :- ParseCompared(l, t);
      if Compares(Peek(x.rest, 0)) then Err(ParseError) else Ok(x)
  }

  function ParseCompared(l: Got<Expr>, t: Token): (r: Parse<Expr>)
    requires l.rest != [] && t == l.rest[0] && Compares(t)
    ensures r.Ok? ==> |r.value.rest| < |l.rest| && r.value.nest >= l.nest
    decreases |l.rest|, 5, 0
  {
    if ComparisonOp(t).Some? then
      var r :- ParseAt(5, l.rest[1..]);
      Ok(Got(Bin(ComparisonOp(t).value, l.v, r.v), r.rest, Max(l.nest, r.nest)))
    else if Is(t, "in") then
      var r :- ParseAt(5, l.rest[1..]);
      Ok(Got(In(l.v, r.v), r.rest, Max(l.nest, r.nest)))
    else
      var negated := At(l.rest[1..], "not");
      var rest :- Take(if negated then Drop(l.rest[1..]) else l.rest[1..], "null");
      Ok(Got(IsNull(l.v, negated), rest, l.nest))
  }

  /** The loop of members and calls, from what it has read. */
  function ParsePostfix(x: Got<Expr>): (r: Parse<Expr>)
    ensures r.Ok? ==> |r.value.rest| <= |x.rest| && r.value.nest >= x.nest
    decreases |x.rest|, 2, 0
  {
    if At(x.rest, ".") then
      var t := Peek(x.rest, 1);
      if t.kind != NameTok then Err(ParseError)
      else ParsePostfix(Got(Path(x.v, t.text), Drop(x.rest[1..]), x.nest))
    else if At(x.rest, "(") && x.v.Path? then
      var args :- ParseList(")", x.rest[1..]);
      ParsePostfix(Got(Call(x.v, args.v), args.rest, Max(x.nest, args.nest)))
    else Ok(x)
  }

  /** Expressions up to a closing token, a comma after each but the last, and allowed after it. */
  function ParseList(close: string, ts: seq<Token>): (r: Parse<seq<Expr>>)
    ensures r.Ok? ==> |r.value.rest| < |ts|
    decreases |ts|, 12, 0
  {
    if At(ts, close) then Ok(Got([], ts[1..], 0))
    else
      var x :- ParseExpr(ts);
      if At(x.rest, close) then Ok(Got([x.v], x.rest[1..], x.nest))
      else
        var rest :- Take(x.rest, ",");
        var xs :- ParseList(close, rest);
        Ok(Got([x.v] + xs.v, xs.rest, Max(x.nest, xs.nest)))
  }

  function ParsePrimary(ts: seq<Token>): (r: Parse<Expr>)
    ensures r.Ok? ==> |r.value.rest| < |ts|
    decreases |ts|, 1, 0
  {
    if ts == [] then Err(ParseError)
    else
      var t, next := ts[0], Peek(ts, 1);
      if t.kind == NumTok then
        if next.kind == NameTok && next.text in UNITS then Ok(Got(Dur(Literal(t.text), next.text), Drop(ts[1..]), 0))
        else Ok(Got(Num(Literal(t.text)), ts[1..], 0))
      else if t.kind == StrTok then
        Ok(Got(Str(if |t.text| >= 2 then t.text[1..|t.text| - 1] else ""), ts[1..], 0))
      else if t.kind == NameTok then
        if t.text == "true" || t.text == "false" then Ok(Got(Bool(t.text == "true"), ts[1..], 0))
        else if IsCurrency(t.text) && next.kind == NumTok then Ok(Got(Money(t.text, next.text), Drop(ts[1..]), 0))
        else if t.text in KEYWORDS then Err(ParseError)
        else if At(ts[1..], "(") then ParseCall(t.text, ts[1..])
        else Ok(Got(Name(t.text), ts[1..], 0))
      else if At(ts, "(") then
        var x :- ParseExpr(ts[1..]);
        var rest :- Take(x.rest, ")");
        Ok(Got(x.v, rest, x.nest))
      else if At(ts, "{") then
        var xs :- ParseList("}", ts[1..]);
        Ok(Got(SetLit(xs.v), xs.rest, xs.nest))
      else Err(ParseError)
  }

  /** `x in`, or `distinct x in`, after an aggregate's opening parenthesis. */
  predicate IsComprehension(ts: seq<Token>) {
    || (Ahead(ts, 1, "distinct") && Peek(ts, 2).kind == NameTok && Ahead(ts, 3, "in"))
    || (Peek(ts, 1).kind == NameTok && Ahead(ts, 2, "in"))
  }

  /** The words an aggregate would read as its own, were they its first argument's. */
  predicate Taken(ts: seq<Token>) {
    At(ts, "where") || (Peek(ts, 0).kind == NameTok && Ahead(ts, 1, "in"))
  }

  /** A call, from its opening parenthesis. */
  function ParseCall(fn: string, ts: seq<Token>): (r: Parse<Expr>)
    requires ts != []
    ensures r.Ok? ==> |r.value.rest| < |ts|
    decreases |ts|, 13, 0
  {
    if fn in AGGREGATES && !IsComprehension(ts) && (Ahead(ts, 1, "where") || Ahead(ts, 1, "distinct")) then
      ParseOwnRows(fn, ts[1..])
    else if fn in AGGREGATES && IsComprehension(ts) then ParseComprehension(fn, ts[1..])
    else if fn == "metric" then ParseMetric(ts[1..])
    else if fn == "changed_since" then ParseChanged(ts[1..])
    else
      var args :- ParseList(")", ts[1..]);
      Ok(Got(Call(Name(fn), args.v), args.rest, args.nest))
  }

  /** A clause a word opens, where it is there. */
  function ParseOptional(word: string, ts: seq<Token>): (r: Parse<Option<Expr>>)
    ensures r.Ok? ==> |r.value.rest| <= |ts|
    decreases |ts|, 12, 0
  {
    if At(ts, word) then
      var x :- ParseExpr(ts[1..]);
      Ok(Got(Some(x.v), x.rest, x.nest))
    else Ok(Got(None, ts, 0))
  }

  /** A metric's aggregate over its own rows: count(where f), count(distinct e [where f]). */
  function ParseOwnRows(fn: string, ts: seq<Token>): (r: Parse<Expr>)
    ensures r.Ok? ==> |r.value.rest| < |ts|
    decreases |ts|, 14, 0
  {
    var distinct := At(ts, "distinct");
    var start := if distinct then Drop(ts) else ts;
    var body :- ParseOwnBody(start);
    var where :- ParseOptional("where", body.rest);
    var rest :- Take(where.rest, ")");
    Ok(Got(Agg(fn, distinct, None, None, where.v, body.v), rest, Max(body.nest, where.nest)))
  }

  function ParseOwnBody(ts: seq<Token>): (r: Parse<Option<Expr>>)
    ensures r.Ok? ==> |r.value.rest| <= |ts|
    decreases |ts|, 12, 0
  {
    if At(ts, "where") then Ok(Got(None, ts, 0))
    else
      var x :- ParseExpr(ts);
      Ok(Got(Some(x.v), x.rest, x.nest))
  }

  /** count(x in c where f: b). */
  function ParseComprehension(fn: string, ts: seq<Token>): (r: Parse<Expr>)
    ensures r.Ok? ==> |r.value.rest| < |ts|
    decreases |ts|, 14, 0
  {
    var distinct := At(ts, "distinct");
    var start := if distinct then Drop(ts) else ts;
    var binder := Peek(start, 0).text;
    var rest :- Take(Drop(start), "in");
    var coll :- ParseAt(5, rest);
    ParseLoop(fn, distinct, binder, coll)
  }

  /** A comprehension's clauses, after its collection. */
  function ParseLoop(fn: string, distinct: bool, binder: string, coll: Got<Expr>): (r: Parse<Expr>)
    ensures r.Ok? ==> |r.value.rest| < |coll.rest| && r.value.nest >= coll.nest
    decreases |coll.rest|, 14, 0
  {
    var where :- ParseOptional("where", coll.rest);
    var body :- ParseOptional(":", where.rest);
    if body.v.None? && (fn in BODIED || distinct) then Err(ParseError)
    else
      var end :- Take(body.rest, ")");
      Ok(Got(Agg(fn, distinct, Some(binder), Some(coll.v), where.v, body.v), end,
             Max(Max(coll.nest, where.nest), body.nest)))
  }

  /** metric(n, d := e, over last p, fresh p), after the parenthesis. */
  function ParseMetric(ts: seq<Token>): (r: Parse<Expr>)
    ensures r.Ok? ==> |r.value.rest| < |ts|
    decreases |ts|, 14, 0
  {
    var name :- ParseAt(5, ts);
    ParseClauses(Got(Metric(name.v, [], None, None), name.rest, name.nest))
  }

  function ParseClauses(m: Got<Expr>): (r: Parse<Expr>)
    requires m.v.Metric?
    ensures r.Ok? ==> r.value.v.Metric? && |r.value.rest| <= |m.rest| && r.value.nest >= m.nest
    decreases |m.rest|, 12, 0
  {
    if At(m.rest, ",") then
      var more :- ParseClause(Got(m.v, m.rest[1..], m.nest));
      ParseClauses(more)
    else
      var rest :- Take(m.rest, ")");
      Ok(Got(m.v, rest, m.nest))
  }

  /** One clause, after its comma. */
  function ParseClause(m: Got<Expr>): (r: Parse<Expr>)
    requires m.v.Metric?
    ensures r.Ok? ==> r.value.v.Metric? && |r.value.rest| <= |m.rest| && r.value.nest >= m.nest
    decreases |m.rest|, 13, 0
  {
    if At(m.rest, "over") then
      var last :- Take(m.rest[1..], "last");
      var p :- ParseAt(9, last);
      Ok(Got(m.v.(over := Some(p.v)), p.rest, Max(m.nest, p.nest)))
    else if At(m.rest, "fresh") then
      var p :- ParseAt(9, m.rest[1..]);
      Ok(Got(m.v.(fresh_ := Some(p.v)), p.rest, Max(m.nest, p.nest)))
    else
      var rest :- Take(Drop(m.rest), ":=");
      var e :- ParseExpr(rest);
      Ok(Got(m.v.(binds := m.v.binds + [(Peek(m.rest, 0).text, e.v)]), e.rest, Max(m.nest, e.nest)))
  }

  /** changed_since([a, b], e), after the parenthesis. */
  function ParseChanged(ts: seq<Token>): (r: Parse<Expr>)
    ensures r.Ok? ==> |r.value.rest| < |ts|
    decreases |ts|, 14, 0
  {
    var open :- Take(ts, "[");
    var names :- ParseNames(open);
    var comma :- Take(names.rest, ",");
    var e :- ParseExpr(comma);
    var rest :- Take(e.rest, ")");
    Ok(Got(Changed(names.v, e.v), rest, e.nest))
  }

  function ParseNames(ts: seq<Token>): (r: Parse<seq<string>>)
    ensures r.Ok? ==> |r.value.rest| < |ts| && r.value.nest == 0
    decreases |ts|
  {
    if At(ts, "]") then Ok(Got([], ts[1..], 0))
    else
      var rest := Drop(ts);
      if At(rest, "]") && rest != [] then Ok(Got([Peek(ts, 0).text], rest[1..], 0))
      else
        var more :- Take(rest, ",");
        var names :- ParseNames(more);
        Ok(Got([Peek(ts, 0).text] + names.v, names.rest, 0))
  }
}
