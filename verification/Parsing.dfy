/** Parsing a whole expression, and that it undoes printing one (scripts/flowexpr.py, `parse`). */
module Parsing {
  import opened Wrappers
  import opened Syntax
  import opened Tokens
  import opened Grammar
  import opened Printer
  import opened Depths
  import RoundTrip
  import Building
  import Holding
  import P = Parser

  /** The tree a whole expression's tokens are: all of them read, nested and deep no more than the bounds. */
  ghost function Parsed(ts: seq<Token>): Result<Expr, ParseError> {
    Whole(ParseExpr(ts))
  }

  ghost function Whole(r: Grammar.Parse<Expr>): Result<Expr, ParseError> {
    if r.Ok? && Peek(r.value.rest, 0).kind == EndTok && r.value.nest <= MAX_NESTING && Depth(r.value.v) <= MAX_DEPTH
    then Ok(r.value.v)
    else Err(ParseError)
  }

  method Parse(tokens: seq<Token>) returns (r: Result<Expr, ParseError>)
    requires |tokens| > 0 && tokens[|tokens| - 1] == END
    ensures r == Parsed(tokens)
  {
    ghost var g := ParseExpr(tokens);
    var p := new P.Parser(tokens);
    var e := p.Expression();
    assert e.Ok? <==> g.Ok? && g.value.nest <= MAX_NESTING;
    if e.Err? {
      assert Whole(g) == Err(ParseError);
      return Err(ParseError);
    }
    var t := p.Ahead_(0);
    if t.kind != EndTok {
      return Err(ParseError);
    }
    assert Whole(g) == if Depth(e.value) <= MAX_DEPTH then e else Err(ParseError);
    var depth := CountDepth(e.value);
    return if depth > MAX_DEPTH then Err(ParseError) else e;
  }

  /** A tree's tokens parse as the tree, exactly where they nest and it is deep no more than the bounds. */
  lemma ParsingUndoesPrinting(e: Expr)
    requires Built(e)
    ensures Parsed(Render(e, 0) + [END]) ==
            if 1 + Nest(e) <= MAX_NESTING && Depth(e) <= MAX_DEPTH then Ok(e) else Err(ParseError)
  {
    RoundTrip.Expression(e, [END]);
  }

  /** Every tree that parses is one that prints, and printed parses as itself where its tokens nest within the bound. */
  lemma PrintingAfterParsing(ts: seq<Token>)
    requires Building.Lexed(ts) && Parsed(ts).Ok?
    ensures var e := Parsed(ts).value;
            Built(e) && (1 + Nest(e) <= MAX_NESTING ==> Parsed(Render(e, 0) + [END]) == Ok(e))
  {
    Building.BuildsAt(0, ts);
    ParsingUndoesPrinting(Parsed(ts).value);
  }

  /** An invariant held through an attribute parses as the tree with each bare field read through the holder, or as
      holding where the holder is null; or not at all, exactly where it would nest or be too deep. */
  lemma HoldingRefinesSubstitution(h: Holding.Through, ts: seq<Token>)
    requires Holding.Apt(h) && Building.Lexed(ts) && Parsed(ts).Ok? && Holding.Plain(Parsed(ts).value)
    ensures var e := Parsed(ts).value;
            var held := Bin(Or, IsNull(Name(h.holder), false), Holding.Subst(h, e));
            Parsed(Holding.HeldThrough(h, ts)) ==
            if ParseExpr(ts).value.nest < MAX_NESTING && Depth(held) <= MAX_DEPTH then Ok(held) else Err(ParseError)
  {
    Building.BuildsAt(0, ts);
    var g := ParseExpr(ts).value;
    assert g.rest[0] == END && |g.rest| == 1;
    assert g.rest == [END];
    Holding.HeldThroughParses(h, ts, g.v, g.nest);
  }

  /** Two trees of the same tokens are the same tree. */
  lemma PrintingIsInjective(a: Expr, b: Expr)
    requires Built(a) && Built(b) && Render(a, 0) == Render(b, 0)
    ensures a == b
  {
    RoundTrip.Expression(a, [END]);
    RoundTrip.Expression(b, [END]);
  }

  /** Precedence alone does not say where parentheses are needed: an aggregate called on `x in c` reads it as its loop. */
  lemma AggregatesTakeTheirWords()
    ensures var x, c := Name("x"), Name("c");
            var e := Call(Name("count"), [In(x, c)]);
            var open := [Word("count"), Op_("(")] + Render(In(x, c), 0) + [Op_(")")];
            && Built(e)
            && Parsed(open + [END]) == Ok(Agg("count", false, Some("x"), Some(c), None, None))
            && Render(e, 0) == [Word("count"), Op_("(")] + Parens(Render(In(x, c), 0)) + [Op_(")")]
  {
    var x, c := Name("x"), Name("c");
    var e := Agg("count", false, Some("x"), Some(c), None, None);
    assert Built(e);
    assert Render(e, 0) == [Word("count"), Op_("("), Word("x"), Word("in"), Word("c"), Op_(")")];
    ParsingUndoesPrinting(e);
    LoopWords();
    assert [Word("count"), Op_("(")] + Render(In(x, c), 0) + [Op_(")")] == Render(e, 0);
    GuardedCall();
  }

  lemma LoopWords()
    ensures Render(In(Name("x"), Name("c")), 0) == [Word("x"), Word("in"), Word("c")]
  {
  }

  lemma GuardedCall()
    ensures var inner := In(Name("x"), Name("c"));
            var call := Call(Name("count"), [inner]);
            Built(call) && Render(call, 0) == [Word("count"), Op_("(")] + Parens(Render(inner, 0)) + [Op_(")")]
  {
    var inner := In(Name("x"), Name("c"));
    var args := [inner];
    LoopWords();
    assert args[1..] == [];
    assert Arguments(true, args) == Parens(Render(inner, 0)) + More([]);
    CountIsAName();
    assert Built(inner);
  }

  lemma CountIsAName()
    ensures IsName("count") && "count" != "metric" && "count" != "changed_since"
  {
    var n := "count";
    assert n[0] == 'c' && n[1] == 'o' && n[2] == 'u' && n[3] == 'n' && n[4] == 't';
    assert forall k | k in KEYWORDS :: |k| != 5 || k[0] == 'f';
  }
}
