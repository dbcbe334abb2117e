/** Parsing undoes printing: the tokens of a tree read as that tree, and nest as deep as `Nest` says
    (scripts/flowexpr.py, `Parser`). */
module RoundTrip {
  import opened Wrappers
  import opened Syntax
  import opened Tokens
  import opened Grammar
  import opened Printer
  import opened Steps

  lemma {:induction false} First(e: Expr, level: nat)
    requires Built(e) && level <= 9
    ensures Render(e, level) != [] && Begins(level, Render(e, level)[0])
    decreases e
  {
    if Level(e) >= level {
      match e
      case Path(base, _) => First(base, 8);
      case Call(fn, _) =>
        if fn.Path? {
          First(fn, 8);
        }
      case IsNull(x, _) => First(x, 5);
      case In(l, _) => First(l, 5);
      case Bin(op, l, _) => First(l, LeftLevel(op));
      case _ => FirstItself(e, level);
    }
  }

  lemma FirstItself(e: Expr, level: nat)
    requires Built(e) && level <= 9 && Level(e) >= level
    requires !e.Path? && !e.Call? && !e.IsNull? && !e.In? && !e.Bin?
    ensures Render(e, level) != [] && Begins(level, Render(e, level)[0])
  {
    if e.Money? {
      CodesAreNoKeywords(e.ccy);
    }
  }

  lemma CodesAreNoKeywords(ccy: string)
    requires IsCurrency(ccy)
    ensures ccy !in KEYWORDS && IsWord(ccy)
  {
    assert 'A' <= ccy[0] <= 'Z';
    assert forall k | k in KEYWORDS :: 'a' <= k[0];
  }

  lemma Joined(a: seq<Token>, b: seq<Token>, c: seq<Token>, d: seq<Token>)
    ensures a + b + c + d == a + (b + (c + d))
  {
  }

  lemma JoinedCall(word: string, a: seq<Token>, b: seq<Token>, c: seq<Token>, d: seq<Token>, rest: seq<Token>)
    ensures [Word(word), Op_("(")] + a + b + c + d + [Op_(")")] + rest ==
            [Word(word)] + ([Op_("(")] + (a + (b + (c + (d + ([Op_(")")] + rest))))))
  {
  }

  lemma Operator(op: Op)
    requires !op.Implies? && !IsComparison(op)
    ensures var level := Level(Bin(op, Null, Null));
            && LeftOp(level, OpToken(op)) == Some(op) && Stops(level + 1, OpToken(op))
            && LeftLevel(op) == level && RightLevel(op) == level + 1
  {
  }

  function Rank(e: Expr, level: nat): nat
    requires level <= 9
  {
    if Level(e) < level then 60 - 2 * level else 2 * (Level(e) - level)
  }

  /** A tree at a level reads as that tree, where what follows ends it. */
  lemma {:induction false} Closed(e: Expr, level: nat, rest: seq<Token>)
    requires Built(e) && level <= 9 && Stops(level, Peek(rest, 0))
    ensures ParseAt(level, Render(e, level) + rest) == Ok(Got(e, rest, NestAt(e, level)))
    decreases e, Rank(e, level), 3
  {
    if level < 9 && Level(e) != level {
      Lower(e, level, rest);
    } else if Level(e) < level {
      Parenthesised(e, rest);
    } else if level in {2, 3, 5, 6, 8} {
      Loop(e, level, rest);
      LoopStop(level, Got(e, rest, NestAt(e, level)));
    } else if level == 9 {
      Operand(e, rest);
    } else if level == 7 {
      Unary(e, rest);
    } else if level == 4 {
      Compared(e, rest);
    } else if level == 1 {
      Implied(e, rest);
    } else {
      Conditional(e, rest);
    }
  }

  lemma {:induction false} Lower(e: Expr, level: nat, rest: seq<Token>)
    requires Built(e) && level < 9 && Level(e) != level && Stops(level, Peek(rest, 0))
    ensures ParseAt(level, Render(e, level) + rest) == Ok(Got(e, rest, NestAt(e, level)))
    decreases e, Rank(e, level), 2
  {
    Closed(e, level + 1, rest);
    First(e, level + 1);
    Descend(level, Render(e, level) + rest, Got(e, rest, NestAt(e, level)));
  }

  lemma {:induction false} Parenthesised(e: Expr, rest: seq<Token>)
    requires Built(e)
    ensures ParseAt(9, Parens(Body(e)) + rest) == Ok(Got(e, rest, 1 + Nest(e)))
    decreases e, 40, 0
  {
    var after := [Op_(")")] + rest;
    assert (Parens(Body(e)) + rest)[1..] == Body(e) + after;
    assert after[1..] == rest;
    Expression(e, after);
    ParenStep(Parens(Body(e)) + rest, Got(e, after, 1 + Nest(e)));
  }

  lemma {:induction false} Expression(e: Expr, rest: seq<Token>)
    requires Built(e) && Stops(0, Peek(rest, 0))
    ensures ParseExpr(Render(e, 0) + rest) == Ok(Got(e, rest, 1 + Nest(e)))
    decreases e, 39, 0
  {
    Closed(e, 0, rest);
  }

  /** What may follow a tree whose level's loop goes on. */
  predicate GoesOn(e: Expr, level: nat, t: Token) {
    Stops(level + 1, t) || (level == 8 && e.Path?)
  }

  /** Where the level's loop would go on, the tree is what it has read so far. */
  lemma {:induction false} Loop(e: Expr, level: nat, rest: seq<Token>)
    requires Built(e) && level in {2, 3, 5, 6, 8} && GoesOn(e, level, Peek(rest, 0))
    ensures ParseAt(level, Render(e, level) + rest) == LoopOf(level, Got(e, rest, NestAt(e, level)))
    decreases e, Rank(e, level), 1
  {
    if Level(e) != level {
      Closed(e, level + 1, rest);
      LoopStart(level, Render(e, level) + rest, Got(e, rest, NestAt(e, level)));
    } else if level == 8 {
      Postfixed(e, rest);
    } else {
      Chained(e, rest);
    }
  }

  lemma {:induction false} Chained(e: Expr, rest: seq<Token>)
    requires Built(e) && Level(e) in {2, 3, 5, 6} && Stops(Level(e) + 1, Peek(rest, 0))
    ensures ParseAt(Level(e), Body(e) + rest) == ParseLeft(Level(e), Got(e, rest, Nest(e)))
    decreases e, 0, 0
  {
    var level, l, r := Level(e), e.left, e.right;
    Operator(e.op);
    var more := Render(r, level + 1) + rest;
    var after := [OpToken(e.op)] + more;
    assert Body(e) == Render(l, level) + [OpToken(e.op)] + Render(r, level + 1);
    Joined(Render(l, level), [OpToken(e.op)], Render(r, level + 1), rest);
    Loop(l, level, after);
    Closed(r, level + 1, rest);
    assert after[1..] == more;
    LeftStep(level, Got(l, after, NestAt(l, level)), e.op, Got(r, rest, NestAt(r, level + 1)));
  }

  lemma {:induction false} Postfixed(e: Expr, rest: seq<Token>)
    requires Built(e) && Level(e) == 8 && GoesOn(e, 8, Peek(rest, 0))
    ensures ParseAt(8, Body(e) + rest) == ParsePostfix(Got(e, rest, Nest(e)))
    decreases e, 0, 0
  {
    match e
    case Path(base, member) =>
      var after := [Op_("."), Word(member)] + rest;
      assert Body(e) + rest == Render(base, 8) + after;
      assert after[1..][1..] == rest;
      Loop(base, 8, after);
    case Call(fn, args) =>
      var more := List(args) + ([Op_(")")] + rest);
      var after := [Op_("(")] + more;
      assert Body(e) + rest == Render(fn, 8) + after;
      Loop(fn, 8, after);
      assert after[1..] == more;
      Listed(args, ")", rest);
  }

  lemma {:induction false} Unary(e: Expr, rest: seq<Token>)
    requires Built(e) && Level(e) == 7 && Stops(7, Peek(rest, 0))
    ensures ParseAt(7, Body(e) + rest) == Ok(Got(e, rest, Nest(e)))
    decreases e, 0, 0
  {
    var x := Render(e.e, 7);
    var t := if e.Not? then Word("not") else Op_("-");
    assert Body(e) == [t] + x;
    assert [t] + x + rest == [t] + (x + rest);
    Closed(e.e, 7, rest);
    assert ([t] + (x + rest))[1..] == x + rest;
    PrefixStep([t] + (x + rest), Got(e.e, rest, NestAt(e.e, 7)));
  }

  lemma {:induction false} Compared(e: Expr, rest: seq<Token>)
    requires Built(e) && Level(e) == 4 && Stops(4, Peek(rest, 0))
    ensures ParseAt(4, Body(e) + rest) == Ok(Got(e, rest, Nest(e)))
    decreases e, 0, 1
  {
    match e
    case IsNull(x, negated) => NullCompared(x, negated, rest);
    case In(l, r) => ComparedBy(e, l, Word("in"), r, rest);
    case Bin(op, l, r) => ComparedBy(e, l, Op_(OpText(op)), r, rest);
  }

  lemma {:induction false} NullCompared(x: Expr, negated: bool, rest: seq<Token>)
    requires Built(x) && Stops(4, Peek(rest, 0))
    ensures ParseAt(4, Body(IsNull(x, negated)) + rest) == Ok(Got(IsNull(x, negated), rest, NestAt(x, 5)))
    decreases x, 70, 0
  {
    var not := if negated then [Word("not")] else [];
    var after := [Word("is")] + (not + ([Word("null")] + rest));
    assert Body(IsNull(x, negated)) == Render(x, 5) + [Word("is")] + not + [Word("null")];
    assert Render(x, 5) + [Word("is")] + not + [Word("null")] + rest == Render(x, 5) + after;
    Closed(x, 5, after);
    NullStep(Render(x, 5) + after, Got(x, after, NestAt(x, 5)), negated, rest);
  }

  lemma {:induction false} ComparedBy(e: Expr, l: Expr, t: Token, r: Expr, rest: seq<Token>)
    requires Built(l) && Built(r) && Stops(4, Peek(rest, 0)) && l < e && r < e
    requires (ComparisonOp(t).Some? && e == Bin(ComparisonOp(t).value, l, r)) || (t == Word("in") && e == In(l, r))
    ensures ParseAt(4, Render(l, 5) + [t] + Render(r, 5) + rest) == Ok(Got(e, rest, Max(NestAt(l, 5), NestAt(r, 5))))
    decreases e, 0, 0
  {
    var more := Render(r, 5) + rest;
    var after := [t] + more;
    var ts := Render(l, 5) + [t] + Render(r, 5) + rest;
    assert ts == Render(l, 5) + after;
    Closed(l, 5, after);
    assert after[1..] == more;
    Closed(r, 5, rest);
    ComparedStep(ts, Got(l, after, NestAt(l, 5)), t, Got(r, rest, NestAt(r, 5)), e);
  }

  lemma {:induction false} Implied(e: Expr, rest: seq<Token>)
    requires Built(e) && Level(e) == 1 && Stops(1, Peek(rest, 0))
    ensures ParseAt(1, Body(e) + rest) == Ok(Got(e, rest, Nest(e)))
    decreases e, 0, 0
  {
    var after := [Word("implies")] + Render(e.right, 1) + rest;
    assert Body(e) + rest == Render(e.left, 2) + after;
    Closed(e.left, 2, after);
    assert after[1..] == Render(e.right, 1) + rest;
    Closed(e.right, 1, rest);
    ImpliesReads(Body(e) + rest);
  }

  lemma ImpliesReads(ts: seq<Token>)
    requires ParseAt(2, ts).Ok? && At(ParseAt(2, ts).value.rest, "implies") && ParseAt(1, ParseAt(2, ts).value.rest[1..]).Ok?
    ensures var l := ParseAt(2, ts).value;
            var r := ParseAt(1, l.rest[1..]).value;
            ParseAt(1, ts) == Ok(Got(Bin(Implies, l.v, r.v), r.rest, Max(l.nest, r.nest)))
  {
  }

  lemma {:induction false} Conditional(e: Expr, rest: seq<Token>)
    requires Built(e) && Level(e) == 0 && Stops(0, Peek(rest, 0))
    ensures ParseAt(0, Body(e) + rest) == Ok(Got(e, rest, Nest(e)))
    decreases e, 0, 0
  {
    var third := Render(e.els, 0) + rest;
    var second := Render(e.thn, 0) + ([Word("else")] + third);
    var first := Render(e.cond, 0) + ([Word("then")] + second);
    IfTokens(e, rest);
    Expression(e.els, rest);
    Expression(e.thn, [Word("else")] + third);
    Expression(e.cond, [Word("then")] + second);
    assert Body(e) + rest == [Word("if")] + first;
    IfStep(first, Got(e.cond, [Word("then")] + second, 1 + Nest(e.cond)), second,
           Got(e.thn, [Word("else")] + third, 1 + Nest(e.thn)), third, Got(e.els, rest, 1 + Nest(e.els)));
    NestOfIf(e);
  }

  lemma NestOfIf(e: Expr)
    requires e.If?
    ensures Nest(e) == Max(Max(1 + Nest(e.cond), 1 + Nest(e.thn)), 1 + Nest(e.els))
  {
  }

  lemma IfTokens(e: Expr, rest: seq<Token>)
    requires e.If?
    ensures Body(e) + rest ==
            [Word("if")] + (Render(e.cond, 0) + ([Word("then")] + (Render(e.thn, 0) + ([Word("else")] +
            (Render(e.els, 0) + rest)))))
  {
    JoinedIf(Render(e.cond, 0), Render(e.thn, 0), Render(e.els, 0), rest);
  }

  lemma JoinedIf(c: seq<Token>, a: seq<Token>, b: seq<Token>, rest: seq<Token>)
    ensures [Word("if")] + c + [Word("then")] + a + [Word("else")] + b + rest ==
            [Word("if")] + (c + ([Word("then")] + (a + ([Word("else")] + (b + rest)))))
  {
  }

  // operands

  lemma {:induction false} Operand(e: Expr, rest: seq<Token>)
    requires Built(e) && Level(e) == 9 && Stops(9, Peek(rest, 0))
    ensures ParsePrimary(Body(e) + rest) == Ok(Got(e, rest, Nest(e)))
    decreases e, 0, 2
  {
    match e
    case Call(fn, args) =>
      var after := [Op_("(")] + (Arguments(fn.name in AGGREGATES, args) + ([Op_(")")] + rest));
      assert Body(e) + rest == [Word(fn.name)] + after;
      Called(fn.name, args, rest);
      NamedCall(fn.name, after, Got(e, rest, Nest(e)));
    case Agg(_, _, _, _, _, _) => Aggregate(e, rest);
    case Metric(_, _, _, _) => Measured(e, rest);
    case Changed(_, _) => ChangedSince(e, rest);
    case SetLit(items) =>
      var list := List(items) + ([Op_("}")] + rest);
      assert Body(e) + rest == [Op_("{")] + list;
      assert ([Op_("{")] + list)[1..] == list;
      Listed(items, "}", rest);
      BraceStep([Op_("{")] + list, Got(items, rest, NestAll(items)));
    case _ => Leaf(e, rest);
  }

  lemma Leaf(e: Expr, rest: seq<Token>)
    requires e.Num? || e.Str? || e.Bool? || e.Dur? || e.Money? || e.Name?
    requires Built(e) && Stops(9, Peek(rest, 0))
    ensures ParsePrimary(Body(e) + rest) == Ok(Got(e, rest, 0))
  {
    var ts := Body(e) + rest;
    match e
    case Dur(lit, unit) => assert ts == [Token(NumTok, NumberText(lit)), Word(unit)] + rest && ts[1..][1..] == rest;
    case Money(ccy, amount) =>
      CodesAreNoKeywords(ccy);
      assert ts == [Word(ccy), Token(NumTok, amount)] + rest && ts[1..][1..] == rest;
    case Str(text) =>
      assert ("\"" + text + "\"")[1..|text| + 1] == text;
      assert ts[1..] == rest;
    case Num(_) => assert ts[1..] == rest;
    case Bool(_) => assert ts[1..] == rest;
    case Name(_) => assert ts[1..] == rest;
    case _ =>
  }

  /** Expressions with a comma between them, up to the closing token. */
  lemma {:induction false} Listed(es: seq<Expr>, close: string, rest: seq<Token>)
    requires BuiltAll(es) && close in {")", "}"}
    ensures ParseList(close, List(es) + ([Op_(close)] + rest)) == Ok(Got(es, rest, NestAll(es)))
    decreases es, 2, 0
  {
    if es == [] {
      assert List(es) + ([Op_(close)] + rest) == [Op_(close)] + rest;
      assert ([Op_(close)] + rest)[1..] == rest;
      ListEnd(close, [Op_(close)] + rest);
    } else {
      ListedFrom(es, close, rest);
      assert List(es) + ([Op_(close)] + rest) == Render(es[0], 0) + (More(es[1..]) + ([Op_(close)] + rest));
    }
  }

  lemma {:induction false} ListedFrom(es: seq<Expr>, close: string, rest: seq<Token>)
    requires es != [] && BuiltAll(es) && close in {")", "}"}
    ensures ParseList(close, Render(es[0], 0) + (More(es[1..]) + ([Op_(close)] + rest))) == Ok(Got(es, rest, NestAll(es)))
    decreases es, 0, 0
  {
    var after := More(es[1..]) + ([Op_(close)] + rest);
    var ts := Render(es[0], 0) + after;
    First(es[0], 0);
    ListedMore(es[1..], close, rest);
    Expression(es[0], after);
    ListRead(ts, Got(es[0], after, 1 + Nest(es[0])), es, close, rest);
  }

  /** A list whose first expression is read reads as the list, the rest of it as ListedMore says. */
  lemma ListRead(ts: seq<Token>, x: Got<Expr>, es: seq<Expr>, close: string, rest: seq<Token>)
    requires es != [] && close in {")", "}"} && !At(ts, close) && ParseExpr(ts) == Ok(x) && x.v == es[0]
    requires if |es| == 1 then At(x.rest, close) && x.rest[1..] == rest
             else !At(x.rest, close) && At(x.rest, ",")
                  && ParseList(close, x.rest[1..]) == Ok(Got(es[1..], rest, NestAll(es[1..])))
    ensures ParseList(close, ts) == Ok(Got(es, rest, Max(x.nest, NestAll(es[1..]))))
  {
    if |es| == 1 {
      assert es == [x.v];
      ListLast(close, ts, x);
    } else {
      assert es == [x.v] + es[1..];
      ListStep(close, ts, x, Got(es[1..], rest, NestAll(es[1..])));
    }
  }

  /** The rest of a list, once its first expression is read. */
  lemma {:induction false} ListedMore(es: seq<Expr>, close: string, rest: seq<Token>)
    requires BuiltAll(es) && close in {")", "}"}
    ensures var after := More(es) + ([Op_(close)] + rest);
            Stops(0, Peek(after, 0))
            && (if es == [] then At(after, close) && after[1..] == rest
                else !At(after, close) && At(after, ",")
                     && ParseList(close, after[1..]) == Ok(Got(es, rest, NestAll(es))))
    decreases es, 1, 0
  {
    var after := More(es) + ([Op_(close)] + rest);
    if es == [] {
      assert after == [Op_(close)] + rest;
    } else {
      var end := [Op_(close)] + rest;
      var list := Render(es[0], 0) + (More(es[1..]) + end);
      ListedFrom(es, close, rest);
      assert More(es) == [Op_(",")] + Render(es[0], 0) + More(es[1..]);
      Joined([Op_(",")], Render(es[0], 0), More(es[1..]), end);
      assert after == [Op_(",")] + list;
      assert after[1..] == list;
    }
  }

  // calls

  lemma {:induction false} GuardedReads(e: Expr, clash: bool, after: seq<Token>)
    requires Built(e) && Stops(0, Peek(after, 0))
    ensures ParseExpr(Guarded(Render(e, 0), clash) + after) == Ok(Got(e, after, (if clash then 2 else 1) + Nest(e)))
    decreases e, 50, 0
  {
    if clash {
      Parenthesised(e, after);
      Ascend(Parens(Body(e)) + after, Got(e, after, 1 + Nest(e)));
    } else {
      Expression(e, after);
    }
  }

  lemma {:induction false} Called(fn: string, args: seq<Expr>, rest: seq<Token>)
    requires BuiltAll(args) && IsName(fn) && fn != "metric" && fn != "changed_since"
    ensures var agg := fn in AGGREGATES;
            ParseCall(fn, [Op_("(")] + (Arguments(agg, args) + ([Op_(")")] + rest))) ==
            Ok(Got(Call(Name(fn), args), rest, NestArguments(agg, args)))
    decreases args, 60, 0
  {
    var agg := fn in AGGREGATES;
    var end := [Op_(")")] + rest;
    var list := Arguments(agg, args) + end;
    var ts := [Op_("(")] + list;
    assert ts[1..] == list;
    if args == [] {
      assert list == end && end[1..] == rest;
      Closers(Op_(")"));
      ListEnd(")", list);
    } else {
      ArgumentsRead(agg, args, rest);
    }
    PlainCall(fn, ts, args, rest, NestArguments(agg, args));
  }

  lemma {:induction false} ArgumentsRead(agg: bool, args: seq<Expr>, rest: seq<Token>)
    requires args != [] && BuiltAll(args)
    ensures var list := Arguments(agg, args) + ([Op_(")")] + rest);
            && ParseList(")", list) == Ok(Got(args, rest, NestArguments(agg, args)))
            && (agg ==> !Taken(list) && !At(list, "distinct"))
    decreases args, 59, 0
  {
    var first := Render(args[0], 0);
    var clash := agg && (Taken(first) || At(first, "distinct"));
    var end := [Op_(")")] + rest;
    var after := More(args[1..]) + end;
    var list := Guarded(first, clash) + after;
    assert Arguments(agg, args) + end == list;
    ListedMore(args[1..], ")", rest);
    GuardedReads(args[0], clash, after);
    GuardedBegins(args[0], clash, after);
    ListRead(list, Got(args[0], after, (if clash then 2 else 1) + Nest(args[0])), args, ")", rest);
  }

  /** How an expression begins, in parentheses where its words would be taken. */
  lemma GuardedBegins(e: Expr, clash: bool, after: seq<Token>)
    requires Built(e) && !At(after, "in")
    ensures var ts := Guarded(Render(e, 0), clash) + after;
            && !At(ts, "in") && !At(ts, ")") && ts != []
            && (if clash then ts[0] == Op_("(") else Render(e, 0) != [] && ts[0] == Render(e, 0)[0])
            && (clash || !Taken(Render(e, 0)) ==> !Taken(ts))
            && (clash || !At(Render(e, 0), "distinct") ==> !At(ts, "distinct"))
  {
    First(e, 0);
    var first := Guarded(Render(e, 0), clash);
    var ts := first + after;
    assert first != [];
    assert |first| == 1 ==> Peek(ts, 1) == Peek(after, 0);
  }

  lemma {:induction false} ClauseReads(word: string, e: Option<Expr>, after: seq<Token>)
    requires BuiltOptional(e) && Stops(0, Peek(after, 0)) && !At(after, word)
    ensures ParseOptional(word, Clause(word, e) + after) == Ok(Got(e, after, NestOf(e)))
    ensures Clause(word, e) != [] ==> Clause(word, e)[0] == Word(word)
    decreases e, 0, 0
  {
    if e.Some? {
      assert (Clause(word, e) + after)[1..] == Render(e.value, 0) + after;
      Expression(e.value, after);
    } else {
      assert Clause(word, e) + after == after;
    }
  }

  lemma {:induction false} OwnBodyReads(e: Option<Expr>, after: seq<Token>)
    requires BuiltOptional(e) && Stops(0, Peek(after, 0)) && (e.None? ==> At(after, "where")) && !At(after, "in")
    ensures ParseOwnBody(OwnBody(e) + after) == Ok(Got(e, after, NestOwn(e)))
    decreases e, 0, 0
  {
    if e.Some? {
      var ts := Render(e.value, 0);
      GuardedReads(e.value, Taken(ts), after);
      GuardedBegins(e.value, Taken(ts), after);
    } else {
      assert OwnBody(e) + after == after;
    }
  }

  lemma {:induction false} Aggregate(e: Expr, rest: seq<Token>)
    requires e.Agg? && Built(e) && Stops(9, Peek(rest, 0))
    ensures ParsePrimary(Body(e) + rest) == Ok(Got(e, rest, Nest(e)))
    decreases e, 0, 1
  {
    if e.binder.Some? {
      LoopAggregate(e, rest);
    } else {
      OwnAggregate(e, rest);
    }
  }

  lemma {:induction false} LoopAggregate(e: Expr, rest: seq<Token>)
    requires e.Agg? && e.binder.Some? && Built(e) && Stops(9, Peek(rest, 0))
    ensures ParsePrimary(Body(e) + rest) == Ok(Got(e, rest, Nest(e)))
    decreases e, 0, 0, 1
  {
    LoopTokens(e, rest);
    Comprehension(e, rest);
    var d := Distinct(e);
    var ts := Render(e.coll.value, 5) + (Clause("where", e.where) + (Clause(":", e.body) + ([Op_(")")] + rest)));
    ComprehensionCall(e.kind, d, e.binder.value, ts, Got(e, rest, Nest(e)));
    KindsAreNames(e.kind);
    NamedCall(e.kind, [Op_("(")] + (d + ([Word(e.binder.value), Word("in")] + ts)), Got(e, rest, Nest(e)));
  }

  lemma {:induction false} OwnAggregate(e: Expr, rest: seq<Token>)
    requires e.Agg? && e.binder.None? && Built(e) && Stops(9, Peek(rest, 0))
    ensures ParsePrimary(Body(e) + rest) == Ok(Got(e, rest, Nest(e)))
    decreases e, 0, 0, 1
  {
    OwnTokens(e, rest);
    OwnRows(e, rest);
    OwnRowsBegin(e, rest);
    var start := Distinct(e) + (OwnBody(e.body) + (Clause("where", e.where) + ([Op_(")")] + rest)));
    OwnCall(e.kind, start, Got(e, rest, Nest(e)));
    KindsAreNames(e.kind);
    NamedCall(e.kind, [Op_("(")] + start, Got(e, rest, Nest(e)));
  }

  lemma KindsAreNames(kind: string)
    requires kind in AGGREGATES
    ensures kind !in KEYWORDS && !IsCurrency(kind)
  {
    assert forall k | k in AGGREGATES :: 'a' <= k[0];
  }

  function Distinct(e: Expr): seq<Token>
    requires e.Agg?
  {
    if e.distinct then [Word("distinct")] else []
  }

  lemma LoopTokens(e: Expr, rest: seq<Token>)
    requires e.Agg? && e.binder.Some? && e.coll.Some?
    ensures var ts := Clause("where", e.where) + (Clause(":", e.body) + ([Op_(")")] + rest));
            Body(e) + rest ==
            [Word(e.kind)] + ([Op_("(")] + (Distinct(e) + ([Word(e.binder.value), Word("in")] + (Render(e.coll.value, 5) + ts))))
  {
    JoinedLoop(e.kind, Distinct(e), [Word(e.binder.value), Word("in")], Render(e.coll.value, 5), Clause("where", e.where),
               Clause(":", e.body), rest);
  }

  lemma JoinedLoop(word: string, d: seq<Token>, binder: seq<Token>, coll: seq<Token>, where: seq<Token>,
                   body: seq<Token>, rest: seq<Token>)
    ensures [Word(word), Op_("(")] + d + (binder + coll + where + body) + [Op_(")")] + rest ==
            [Word(word)] + ([Op_("(")] + (d + (binder + (coll + (where + (body + ([Op_(")")] + rest)))))))
  {
  }

  lemma OwnTokens(e: Expr, rest: seq<Token>)
    requires e.Agg? && e.binder.None?
    ensures Body(e) + rest ==
            [Word(e.kind)] + ([Op_("(")] + (Distinct(e) + (OwnBody(e.body) + (Clause("where", e.where) + ([Op_(")")] + rest)))))
  {
    var own, where := OwnBody(e.body), Clause("where", e.where);
    assert Body(e) == [Word(e.kind), Op_("(")] + Distinct(e) + (own + where) + [Op_(")")];
    assert [Word(e.kind), Op_("(")] + Distinct(e) + (own + where) + [Op_(")")] ==
           [Word(e.kind), Op_("(")] + Distinct(e) + own + where + [] + [Op_(")")];
    JoinedCall(e.kind, Distinct(e), own, where, [], rest);
    assert [] + ([Op_(")")] + rest) == [Op_(")")] + rest;
  }

  lemma {:induction false} Comprehension(e: Expr, rest: seq<Token>)
    requires e.Agg? && e.binder.Some? && Built(e) && Stops(9, Peek(rest, 0))
    ensures var Agg(kind, distinct, binder, coll, where, body) := e;
            var d := Distinct(e);
            var ts := Clause("where", where) + (Clause(":", body) + ([Op_(")")] + rest));
            var start := [Word(binder.value), Word("in")] + (Render(coll.value, 5) + ts);
            ParseComprehension(kind, d + start) == Ok(Got(e, rest, Nest(e)))
    decreases e, 0, 0, 0
  {
    var end := [Op_(")")] + rest;
    var second := Clause(":", e.body) + end;
    var ts := Clause("where", e.where) + second;
    var coll := Render(e.coll.value, 5);
    ClauseReads(":", e.body, end);
    ClauseReads("where", e.where, second);
    Closed(e.coll.value, 5, ts);
    LoopStep(e.kind, e.distinct, e.binder.value, Got(e.coll.value, ts, NestAt(e.coll.value, 5)),
             Got(e.where, second, NestOf(e.where)), Got(e.body, end, NestOf(e.body)));
    assert end[1..] == rest;
    ComprehensionStep(e.kind, e.distinct, e.binder.value, coll + ts, Got(e.coll.value, ts, NestAt(e.coll.value, 5)));
  }

  lemma {:induction false} OwnRows(e: Expr, rest: seq<Token>)
    requires e.Agg? && e.binder.None? && Built(e) && Stops(9, Peek(rest, 0))
    ensures ParseOwnRows(e.kind, Distinct(e) + (OwnBody(e.body) + (Clause("where", e.where) + ([Op_(")")] + rest)))) ==
            Ok(Got(e, rest, Nest(e)))
    decreases e, 0, 0, 0
  {
    var end := [Op_(")")] + rest;
    var ts := Clause("where", e.where) + end;
    ClauseReads("where", e.where, end);
    OwnBodyReads(e.body, ts);
    NotDistinct(e, rest);
    assert end[1..] == rest;
    OwnStep(e.kind, e.distinct, OwnBody(e.body) + ts, Got(e.body, ts, NestOwn(e.body)),
            Got(e.where, end, NestOf(e.where)));
  }

  /** Without `distinct`, the rows' clauses begin with `where`. */
  lemma NotDistinct(e: Expr, rest: seq<Token>)
    requires e.Agg? && e.binder.None? && Built(e)
    ensures !e.distinct ==>
              At(OwnBody(e.body) + (Clause("where", e.where) + ([Op_(")")] + rest)), "where")
  {
    if !e.distinct {
      assert e.body.None? && e.where.Some?;
      assert Clause("where", e.where)[0] == Word("where");
    }
  }

  lemma OwnRowsBegin(e: Expr, rest: seq<Token>)
    requires e.Agg? && e.binder.None? && Built(e)
    ensures var start := Distinct(e) + (OwnBody(e.body) + (Clause("where", e.where) + ([Op_(")")] + rest)));
            !IsComprehension([Op_("(")] + start) && (At(start, "where") || At(start, "distinct"))
  {
    var own, where, end := OwnBody(e.body), Clause("where", e.where), [Op_(")")] + rest;
    var start := own + (where + end);
    if e.where.Some? {
      First(e.where.value, 0);
      assert where == [Word("where")] + Render(e.where.value, 0);
    }
    if e.body.Some? {
      GuardedBegins(e.body.value, Taken(Render(e.body.value, 0)), where + end);
      assert !At(start, "in") && !Taken(start);
    } else {
      assert start == where + end;
      assert !At(start, "in") && !Ahead(start, 1, "in");
    }
    NoLoop(e.distinct, start);
    NotDistinct(e, rest);
  }

  lemma NoLoop(distinct: bool, start: seq<Token>)
    requires !At(start, "in") && !(Peek(start, 0).kind == NameTok && Ahead(start, 1, "in"))
    requires distinct || At(start, "where")
    ensures !IsComprehension([Op_("(")] + ((if distinct then [Word("distinct")] else []) + start))
  {
    var ts := [Op_("(")] + ((if distinct then [Word("distinct")] else []) + start);
    if distinct {
      assert Peek(ts, 1) == Word("distinct") && Peek(ts, 2) == Peek(start, 0) && Peek(ts, 3) == Peek(start, 1);
    } else {
      assert Peek(ts, 1) == Peek(start, 0) && Peek(ts, 2) == Peek(start, 1);
    }
  }

  lemma {:induction false} Measured(e: Expr, rest: seq<Token>)
    requires e.Metric? && Built(e) && Stops(9, Peek(rest, 0))
    ensures ParsePrimary(Body(e) + rest) == Ok(Got(e, rest, Nest(e)))
    decreases e, 0, 1
  {
    MetricTokens(e, rest);
    MeasuredCall(e, rest);
    NamedCall("metric", [Op_("(")] + (Render(e.metric, 5) + (Bindings(e.binds) + AfterBindings(e, rest))),
              Got(e, rest, Nest(e)));
  }

  lemma {:induction false} MeasuredCall(e: Expr, rest: seq<Token>)
    requires e.Metric? && Built(e)
    ensures ParseCall("metric", [Op_("(")] + (Render(e.metric, 5) + (Bindings(e.binds) + AfterBindings(e, rest)))) ==
            Ok(Got(e, rest, Nest(e)))
    decreases e, 0, 0, 2 * |e.binds| + 4
  {
    var after := Bindings(e.binds) + AfterBindings(e, rest);
    var m, n := Metric(e.metric, [], None, None), NestAt(e.metric, 5);
    assert ([Op_("(")] + (Render(e.metric, 5) + after))[1..] == Render(e.metric, 5) + after;
    assert forall b | b in e.binds :: b.1 < e;
    Bound(e, m, e.binds, rest, n);
    assert Finished(e, m, e.binds, rest, n) == Got(e, rest, Nest(e)) by {
      assert [] + e.binds == e.binds;
    }
    Closed(e.metric, 5, after);
    MetricStep([Op_("(")] + (Render(e.metric, 5) + after), Got(e.metric, after, n), Got(e, rest, Nest(e)));
  }

  lemma MetricTokens(e: Expr, rest: seq<Token>)
    requires e.Metric?
    ensures Body(e) + rest ==
            [Word("metric")] + ([Op_("(")] + (Render(e.metric, 5) + (Bindings(e.binds) + AfterBindings(e, rest))))
  {
    JoinedCall("metric", Render(e.metric, 5), Bindings(e.binds), Over(e.over), Fresh(e.fresh_), rest);
  }

  lemma BindingTokens(bs: seq<(string, Expr)>, end: seq<Token>)
    requires bs != []
    ensures Bindings(bs) + end ==
            [Op_(",")] + ([Word(bs[0].0), Op_(":=")] + (Render(bs[0].1, 0) + (Bindings(bs[1..]) + end)))
  {
    Joined([Op_(","), Word(bs[0].0), Op_(":=")], Render(bs[0].1, 0), Bindings(bs[1..]), end);
  }

  ghost function AfterBindings(e: Expr, rest: seq<Token>): seq<Token>
    requires e.Metric?
  {
    Over(e.over) + (Fresh(e.fresh_) + ([Op_(")")] + rest))
  }

  /** What a metric reads as, its bindings but these read. */
  ghost function Finished(e: Expr, m: Expr, bs: seq<(string, Expr)>, rest: seq<Token>, n: nat): Got<Expr>
    requires e.Metric? && m.Metric?
  {
    Got(Metric(m.metric, m.binds + bs, e.over, e.fresh_), rest,
        Max(Max(Max(n, NestBinds(bs)), NestOperand(e.over)), NestOperand(e.fresh_)))
  }

  lemma FinishedStep(e: Expr, m: Expr, bs: seq<(string, Expr)>, rest: seq<Token>, n: nat)
    requires e.Metric? && m.Metric? && bs != []
    ensures Finished(e, m.(binds := m.binds + [bs[0]]), bs[1..], rest, Max(n, 1 + Nest(bs[0].1))) ==
            Finished(e, m, bs, rest, n)
  {
    assert m.binds + [bs[0]] + bs[1..] == m.binds + bs;
  }

  /** The bindings and the clauses after them, from what has been read. */
  lemma {:induction false} Bound(e: Expr, m: Expr, bs: seq<(string, Expr)>, rest: seq<Token>, n: nat)
    requires e.Metric? && BuiltOptional(e.over) && BuiltOptional(e.fresh_)
    requires m.Metric? && m.over == None && m.fresh_ == None
    requires BuiltBinds(bs) && forall b | b in bs :: b.1 < e
    ensures var after := Bindings(bs) + AfterBindings(e, rest);
            Stops(0, Peek(after, 0)) && ParseClauses(Got(m, after, n)) == Ok(Finished(e, m, bs, rest, n))
    decreases e, 0, 0, 2 * |bs| + 3
  {
    var end := AfterBindings(e, rest);
    if bs == [] {
      assert Bindings(bs) + end == end;
      assert m.binds + bs == m.binds;
      Overlaid(e, m, rest, n);
    } else {
      BoundMore(e, m, bs, rest, n);
    }
  }

  lemma {:induction false} BoundMore(e: Expr, m: Expr, bs: seq<(string, Expr)>, rest: seq<Token>, n: nat)
    requires e.Metric? && BuiltOptional(e.over) && BuiltOptional(e.fresh_)
    requires m.Metric? && m.over == None && m.fresh_ == None
    requires bs != [] && BuiltBinds(bs) && forall b | b in bs :: b.1 < e
    ensures var after := Bindings(bs) + AfterBindings(e, rest);
            Stops(0, Peek(after, 0)) && ParseClauses(Got(m, after, n)) == Ok(Finished(e, m, bs, rest, n))
    decreases e, 0, 0, 2 * |bs| + 2
  {
    var end := AfterBindings(e, rest);
    var b := bs[0];
    assert b in bs;
    BindingTokens(bs, end);
    Bound(e, m.(binds := m.binds + [b]), bs[1..], rest, Max(n, 1 + Nest(b.1)));
    OneBinding(e, m, b, Bindings(bs[1..]) + end, n);
    FinishedStep(e, m, bs, rest, n);
    Closers(Op_(","));
  }

  lemma {:induction false} OneBinding(e: Expr, m: Expr, b: (string, Expr), more: seq<Token>, n: nat)
    requires m.Metric? && b.0 != "over" && b.0 != "fresh" && Built(b.1) && b.1 < e && Stops(0, Peek(more, 0))
    ensures ParseClauses(Got(m, [Op_(",")] + ([Word(b.0), Op_(":=")] + (Render(b.1, 0) + more)), n)) ==
            ParseClauses(Got(m.(binds := m.binds + [b]), more, Max(n, 1 + Nest(b.1))))
    decreases e, 0, 0, 0
  {
    var clause := [Word(b.0), Op_(":=")] + (Render(b.1, 0) + more);
    Expression(b.1, more);
    BindingStep(Got(m, clause, n), b.0, Render(b.1, 0) + more, Got(b.1, more, 1 + Nest(b.1)));
    ClauseStep(Got(m, [Op_(",")] + clause, n), clause, Got(m.(binds := m.binds + [b]), more, Max(n, 1 + Nest(b.1))));
  }

  lemma {:induction false} Overlaid(e: Expr, m: Expr, rest: seq<Token>, n: nat)
    requires e.Metric? && BuiltOptional(e.over) && BuiltOptional(e.fresh_) && m.Metric? && m.over == None && m.fresh_ == None
    ensures var after := Over(e.over) + (Fresh(e.fresh_) + ([Op_(")")] + rest));
            && Stops(0, Peek(after, 0))
            && ParseClauses(Got(m, after, n)) ==
               Ok(Got(Metric(m.metric, m.binds, e.over, e.fresh_), rest,
                      Max(Max(n, NestOperand(e.over)), NestOperand(e.fresh_))))
    decreases e, 0, 0, 2
  {
    var end := Fresh(e.fresh_) + ([Op_(")")] + rest);
    if e.over.Some? {
      OverRead(e, m, rest, n);
    } else {
      assert Over(e.over) + end == end;
      Freshened(e, m, rest, n);
    }
  }

  lemma {:induction false} OverRead(e: Expr, m: Expr, rest: seq<Token>, n: nat)
    requires e.Metric? && BuiltOptional(e.over) && BuiltOptional(e.fresh_) && m.Metric? && m.over == None && m.fresh_ == None
    requires e.over.Some?
    ensures var after := Over(e.over) + (Fresh(e.fresh_) + ([Op_(")")] + rest));
            && Stops(0, Peek(after, 0))
            && ParseClauses(Got(m, after, n)) ==
               Ok(Got(Metric(m.metric, m.binds, e.over, e.fresh_), rest,
                      Max(Max(n, NestOperand(e.over)), NestOperand(e.fresh_))))
    decreases e, 0, 0, 1
  {
    var end := Fresh(e.fresh_) + ([Op_(")")] + rest);
    var p, after := e.over.value, Over(e.over) + end;
    var clause := [Word("over"), Word("last")] + (Render(p, 9) + end);
    assert after == [Op_(",")] + clause && after[0] == Op_(",");
    var next := Got(m.(over := e.over), end, Max(n, NestOperand(e.over)));
    Freshened(e, next.v, rest, next.nest);
    Closed(p, 9, end);
    OverStep(Got(m, clause, n), Render(p, 9) + end, Got(p, end, NestAt(p, 9)));
    ClauseStep(Got(m, after, n), clause, next);
    Closers(Op_(","));
  }

  lemma {:induction false} Freshened(e: Expr, m: Expr, rest: seq<Token>, n: nat)
    requires e.Metric? && BuiltOptional(e.over) && BuiltOptional(e.fresh_) && m.Metric? && m.fresh_ == None
    ensures var after := Fresh(e.fresh_) + ([Op_(")")] + rest);
            && Stops(0, Peek(after, 0))
            && ParseClauses(Got(m, after, n)) ==
               Ok(Got(Metric(m.metric, m.binds, m.over, e.fresh_), rest, Max(n, NestOperand(e.fresh_))))
    decreases e, 0, 0, 0
  {
    var end := [Op_(")")] + rest;
    var after := Fresh(e.fresh_) + end;
    assert end[1..] == rest;
    if e.fresh_.Some? {
      var p := e.fresh_.value;
      var clause := [Word("fresh")] + (Render(p, 9) + end);
      assert after == [Op_(",")] + clause;
      var next := Got(m.(fresh_ := e.fresh_), end, Max(n, NestOperand(e.fresh_)));
      Closed(p, 9, end);
      FreshStep(Got(m, clause, n), Render(p, 9) + end, Got(p, end, NestAt(p, 9)));
      ClauseStep(Got(m, after, n), clause, next);
      Closers(after[0]);
    } else {
      assert after == end;
      Closers(end[0]);
    }
  }

  lemma {:induction false} ChangedSince(e: Expr, rest: seq<Token>)
    requires e.Changed? && Built(e) && Stops(9, Peek(rest, 0))
    ensures ParsePrimary(Body(e) + rest) == Ok(Got(e, rest, Nest(e)))
    decreases e, 0, 1
  {
    var end := [Op_(")")] + rest;
    var last := Render(e.event, 0) + end;
    var names := Names(e.names) + ([Op_("]")] + ([Op_(",")] + last));
    ChangedTokens(e, rest);
    NamesRead(e.names, [Op_(",")] + last);
    Expression(e.event, end);
    assert end[1..] == rest;
    ChangedStep(names, Got(e.names, [Op_(",")] + last, 0), last, Got(e.event, end, 1 + Nest(e.event)));
    NamedCall("changed_since", [Op_("(")] + ([Op_("[")] + names), Got(e, rest, Nest(e)));
  }

  lemma ChangedTokens(e: Expr, rest: seq<Token>)
    requires e.Changed?
    ensures Body(e) + rest ==
            [Word("changed_since")] + ([Op_("(")] + ([Op_("[")] +
            (Names(e.names) + ([Op_("]")] + ([Op_(",")] + (Render(e.event, 0) + ([Op_(")")] + rest)))))))
  {
    var names, event := Names(e.names), Render(e.event, 0);
    assert Body(e) == [Word("changed_since"), Op_("("), Op_("[")] + names + [Op_("]"), Op_(",")] + event + [Op_(")")];
    JoinedChanged(names, event, rest);
  }

  lemma JoinedChanged(names: seq<Token>, event: seq<Token>, rest: seq<Token>)
    ensures [Word("changed_since"), Op_("("), Op_("[")] + names + [Op_("]"), Op_(",")] + event + [Op_(")")] + rest ==
            [Word("changed_since")] + ([Op_("(")] + ([Op_("[")] +
            (names + ([Op_("]")] + ([Op_(",")] + (event + ([Op_(")")] + rest)))))))
  {
  }

  lemma {:induction false} NamesRead(names: seq<string>, after: seq<Token>)
    requires "]" !in names
    ensures ParseNames(Names(names) + ([Op_("]")] + after)) == Ok(Got(names, after, 0))
  {
    var ts := Names(names) + ([Op_("]")] + after);
    if names == [] {
      assert ts == [Op_("]")] + after;
    } else if |names| == 1 {
      assert ts[1..] == [Op_("]")] + after && ts[1..][1..] == after;
      assert names == [names[0]];
    } else {
      var more := Names(names[1..]) + ([Op_("]")] + after);
      NamesRead(names[1..], after);
      assert ts == [Word(names[0]), Op_(",")] + more;
      NamesStep(ts, names[0], more, names[1..], after);
      assert names == [names[0]] + names[1..];
    }
  }
}
