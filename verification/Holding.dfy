/** A value's invariant as an attribute holding the value holds it (scripts/flowexpr.py, `held_through`): the rewritten
    tokens parse as the tree with its fields read through the holder. */
module Holding {
  import opened Wrappers
  import opened Syntax
  import opened Tokens
  import opened Grammar
  import opened Building
  import opened Printer
  import opened Steps

  datatype Through = Through(fields: set<string>, holder: string)

  /** Fields no unit or currency is spelled as, and a holder that is a name and not an aggregate's own word. */
  ghost predicate Apt(h: Through) {
    && IsName(h.holder) && h.holder != "where" && h.holder != "distinct"
    && forall f | f in h.fields :: f !in UNITS && !IsCurrency(f)
  }

  // the tokens

  predicate IsDot(t: Token) {
    t == Op_(".")
  }

  /** A field read bare and not called. */
  predicate Replaced(h: Through, afterDot: bool, ts: seq<Token>)
    requires ts != []
  {
    && ts[0].kind == NameTok && ts[0].text in h.fields && ts[0].text !in KEYWORDS
    && !afterDot && Peek(ts, 1) != Op_("(")
  }

  /** The tokens in the first one's place. */
  function InPlace(h: Through, afterDot: bool, ts: seq<Token>): seq<Token>
    requires ts != []
  {
    if Replaced(h, afterDot, ts) then [Word(h.holder), Op_("."), ts[0]] else [ts[0]]
  }

  function HeldAfter(h: Through, afterDot: bool, ts: seq<Token>): seq<Token>
    decreases |ts|
  {
    if ts == [] then []
    else if ts[0] == END then [Op_(")"), END] + HeldAfter(h, false, ts[1..])
    else InPlace(h, afterDot, ts) + HeldAfter(h, IsDot(ts[0]), ts[1..])
  }

  /** The tokens rewritten, the end closing the parenthesis. */
  function Held(h: Through, ts: seq<Token>): seq<Token> {
    HeldAfter(h, false, ts)
  }

  /** The whole: `holder is null or (…)`. */
  function HeldThrough(h: Through, ts: seq<Token>): seq<Token> {
    [Word(h.holder), Word("is"), Word("null"), Word("or"), Op_("(")] + Held(h, ts)
  }

  // the tree

  /** A tree without aggregates, metrics or `changed_since`. */
  ghost predicate Plain(e: Expr)
    decreases e
  {
    match e
    case Path(base, _) => Plain(base)
    case Call(fn, args) => Plain(fn) && forall i | 0 <= i < |args| :: Plain(args[i])
    case Agg(_, _, _, _, _, _) => false
    case Metric(_, _, _, _) => false
    case Changed(_, _) => false
    case SetLit(items) => forall i | 0 <= i < |items| :: Plain(items[i])
    case Not(x) => Plain(x)
    case Neg(x) => Plain(x)
    case IsNull(x, _) => Plain(x)
    case In(l, r) => Plain(l) && Plain(r)
    case Bin(_, l, r) => Plain(l) && Plain(r)
    case If(c, a, b) => Plain(c) && Plain(a) && Plain(b)
    case _ => true
  }

  /** Each bare field read through the holder. */
  function Subst(h: Through, e: Expr): Expr
    decreases e
  {
    match e
    case Name(n) => if n in h.fields then Path(Name(h.holder), n) else e
    case Path(base, member) => Path(Subst(h, base), member)
    case Call(fn, args) => Call(if fn.Name? then fn else Subst(h, fn), SubstAll(h, args))
    case SetLit(items) => SetLit(SubstAll(h, items))
    case Not(x) => Not(Subst(h, x))
    case Neg(x) => Neg(Subst(h, x))
    case IsNull(x, negated) => IsNull(Subst(h, x), negated)
    case In(l, r) => In(Subst(h, l), Subst(h, r))
    case Bin(op, l, r) => Bin(op, Subst(h, l), Subst(h, r))
    case If(c, a, b) => If(Subst(h, c), Subst(h, a), Subst(h, b))
    case _ => e
  }

  function SubstAll(h: Through, es: seq<Expr>): seq<Expr>
    decreases es
  {
    if es == [] then [] else [Subst(h, es[0])] + SubstAll(h, es[1..])
  }

  function HeldGot(h: Through, g: Got<Expr>): Got<Expr> {
    Got(Subst(h, g.v), Held(h, g.rest), g.nest)
  }

  // how the rewritten tokens begin

  /** A word of the grammar, which no field or holder is. */
  predicate Fixed(word: string) {
    word in KEYWORDS || !IsWord(word)
  }

  /** What follows an operand that a parse goes on from: neither a call nor a field. */
  predicate Ended(h: Through, rest: seq<Token>) {
    !At(rest, "(") && !(Peek(rest, 0).kind == NameTok && Peek(rest, 0).text in h.fields && Peek(rest, 0).text !in KEYWORDS)
  }

  lemma HeldAhead(h: Through, ts: seq<Token>, word: string)
    requires Apt(h) && Lexed(ts) && Fixed(word)
    ensures word != ")" || Peek(ts, 0) != END ==> At(Held(h, ts), word) == At(ts, word)
    ensures At(ts, word) && word != "." ==> Held(h, ts)[1..] == Held(h, ts[1..])
  {
  }

  /** The first token is as it was, or the holder in a field's place. */
  lemma HeldFirst(h: Through, ts: seq<Token>)
    requires Apt(h) && Lexed(ts)
    ensures var t, u := Peek(ts, 0), Peek(Held(h, ts), 0);
            u == t || (t == END && u == Op_(")"))
            || (t.kind == NameTok && t.text in h.fields && t.text !in KEYWORDS && u == Word(h.holder))
    ensures Held(h, ts) == [] <==> ts == []
  {
  }

  lemma HeldOperators(h: Through, ts: seq<Token>)
    requires Apt(h) && Lexed(ts)
    ensures var t, u := Peek(ts, 0), Peek(Held(h, ts), 0);
            && ComparisonOp(u) == ComparisonOp(t) && Compares(u) == Compares(t)
            && (forall level: nat :: LeftOp(level, u) == LeftOp(level, t))
    ensures var t := Peek(ts, 0);
            (Compares(t) || exists level: nat :: LeftOp(level, t).Some?) ==>
              ts != [] && !IsDot(t) && Held(h, ts) == [t] + Held(h, ts[1..])
  {
    HeldFirst(h, ts);
  }

  lemma {:induction false} NotEnd(level: nat, ts: seq<Token>)
    requires level <= 9 && ParseAt(level, ts).Ok?
    ensures Peek(ts, 0) != END
    decreases 9 - level
  {
    if level < 9 {
      if (level == 0 && At(ts, "if")) || (level == 7 && (At(ts, "not") || At(ts, "-"))) {
      } else {
        NotEnd(level + 1, ts);
      }
    }
  }

  // what each level reads of the rewritten tokens

  lemma {:induction false} HeldAt(h: Through, level: nat, ts: seq<Token>)
    requires Apt(h) && level <= 8 && Lexed(ts) && ParseAt(level, ts).Ok?
    requires Plain(ParseAt(level, ts).value.v) && Ended(h, ParseAt(level, ts).value.rest)
    ensures ParseAt(level, Held(h, ts)) == Ok(HeldGot(h, ParseAt(level, ts).value))
    decreases |ts|, 10 - level, 1
  {
    if level == 0 {
      HeldIf(h, ts);
    } else if level == 1 {
      HeldImplies(h, ts);
    } else if level == 4 {
      BuildsAt(5, ts);
      var l := ParseAt(5, ts).value;
      HeldComparison(h, l);
      HeldAt(h, 5, ts);
    } else if level == 7 {
      HeldUnary(h, ts);
    } else if level == 8 {
      BuildsAt(9, ts);
      var x := ParseAt(9, ts).value;
      HeldPostfix(h, x);
      HeldPrimary(h, ts);
    } else {
      BuildsAt(level + 1, ts);
      var l := ParseAt(level + 1, ts).value;
      HeldLeft(h, level, l);
      HeldAt(h, level + 1, ts);
    }
  }

  lemma {:induction false} HeldExpr(h: Through, ts: seq<Token>)
    requires Apt(h) && Lexed(ts) && ParseExpr(ts).Ok? && Plain(ParseExpr(ts).value.v)
    requires Ended(h, ParseExpr(ts).value.rest)
    ensures ParseExpr(Held(h, ts)) == Ok(HeldGot(h, ParseExpr(ts).value))
    decreases |ts|, 11, 0
  {
    HeldAt(h, 0, ts);
  }

  /** An expression before a word of a conditional. */
  lemma {:induction false} HeldPart(h: Through, ts: seq<Token>, word: string)
    requires Apt(h) && Lexed(ts) && word in {"then", "else"} && ParseExpr(ts).Ok? && Plain(ParseExpr(ts).value.v)
    requires At(ParseExpr(ts).value.rest, word)
    ensures ParseExpr(Held(h, ts)) == Ok(HeldGot(h, ParseExpr(ts).value))
    ensures var rest := ParseExpr(ts).value.rest;
            Lexed(rest[1..]) && At(Held(h, rest), word) && Held(h, rest)[1..] == Held(h, rest[1..])
    decreases |ts|, 12, 0
  {
    BuildsAt(0, ts);
    HeldAhead(h, ParseExpr(ts).value.rest, word);
    HeldExpr(h, ts);
  }

  lemma {:induction false} HeldIf(h: Through, ts: seq<Token>)
    requires Apt(h) && Lexed(ts) && ParseIf(ts).Ok?
    requires Plain(ParseIf(ts).value.v) && Ended(h, ParseIf(ts).value.rest)
    ensures ParseIf(Held(h, ts)) == Ok(HeldGot(h, ParseIf(ts).value))
    decreases |ts|, 10, 0
  {
    HeldAhead(h, ts, "if");
    if !At(ts, "if") {
      HeldAt(h, 1, ts);
      return;
    }
    var c := ParseExpr(ts[1..]).value;
    HeldPart(h, ts[1..], "then");
    var a := ParseExpr(c.rest[1..]).value;
    HeldPart(h, c.rest[1..], "else");
    HeldExpr(h, a.rest[1..]);
    var b := ParseExpr(a.rest[1..]).value;
    IfRead(ts, c, a, b);
    IfRead(Held(h, ts), HeldGot(h, c), HeldGot(h, a), HeldGot(h, b));
  }

  lemma {:induction false} HeldImplies(h: Through, ts: seq<Token>)
    requires Apt(h) && Lexed(ts) && ParseAt(1, ts).Ok?
    requires Plain(ParseAt(1, ts).value.v) && Ended(h, ParseAt(1, ts).value.rest)
    ensures ParseAt(1, Held(h, ts)) == Ok(HeldGot(h, ParseAt(1, ts).value))
    decreases |ts|, 9, 0
  {
    BuildsAt(2, ts);
    var l := ParseAt(2, ts).value;
    HeldAhead(h, l.rest, "implies");
    HeldAt(h, 2, ts);
    if At(l.rest, "implies") {
      HeldAt(h, 1, l.rest[1..]);
    }
  }

  lemma {:induction false} HeldLeft(h: Through, level: nat, l: Got<Expr>)
    requires Apt(h) && level in {2, 3, 5, 6} && Built(l.v) && Lexed(l.rest) && ParseLeft(level, l).Ok?
    requires Plain(ParseLeft(level, l).value.v) && Ended(h, ParseLeft(level, l).value.rest)
    ensures Plain(l.v) && Ended(h, l.rest)
    ensures ParseLeft(level, HeldGot(h, l)) == Ok(HeldGot(h, ParseLeft(level, l).value))
    decreases |l.rest|, 10 - level, 1
  {
    var op := LeftOp(level, Peek(l.rest, 0));
    if op.Some? {
      HeldLeftMore(h, level, l);
    } else {
      HeldOperators(h, l.rest);
    }
  }

  lemma {:induction false} HeldLeftMore(h: Through, level: nat, l: Got<Expr>)
    requires Apt(h) && level in {2, 3, 5, 6} && Built(l.v) && Lexed(l.rest) && ParseLeft(level, l).Ok?
    requires LeftOp(level, Peek(l.rest, 0)).Some?
    requires Plain(ParseLeft(level, l).value.v) && Ended(h, ParseLeft(level, l).value.rest)
    ensures Plain(l.v) && Ended(h, l.rest)
    ensures ParseLeft(level, HeldGot(h, l)) == Ok(HeldGot(h, ParseLeft(level, l).value))
    decreases |l.rest|, 10 - level, 0
  {
    var op := LeftOp(level, Peek(l.rest, 0)).value;
    var rest := l.rest[1..];
    BuildsAt(level + 1, rest);
    var r := ParseAt(level + 1, rest).value;
    LeftStep(level, l, op, r);
    HeldLeft(h, level, Got(Bin(op, l.v, r.v), r.rest, Max(l.nest, r.nest)));
    HeldAt(h, level + 1, rest);
    HeldLeftOp(h, level, l.rest);
    LeftStep(level, HeldGot(h, l), op, HeldGot(h, r));
  }

  lemma HeldLeftOp(h: Through, level: nat, ts: seq<Token>)
    requires Apt(h) && Lexed(ts) && LeftOp(level, Peek(ts, 0)).Some?
    ensures Ended(h, ts) && Held(h, ts) != [] && Held(h, ts)[0] == ts[0] && Held(h, ts)[1..] == Held(h, ts[1..])
  {
    HeldOperators(h, ts);
  }

  lemma {:induction false} HeldComparison(h: Through, l: Got<Expr>)
    requires Apt(h) && Lexed(l.rest) && ParseComparison(l).Ok?
    requires Plain(ParseComparison(l).value.v) && Ended(h, ParseComparison(l).value.rest)
    ensures Plain(l.v) && Ended(h, l.rest)
    ensures ParseComparison(HeldGot(h, l)) == Ok(HeldGot(h, ParseComparison(l).value))
    decreases |l.rest|, 6, 0
  {
    var t := Peek(l.rest, 0);
    HeldOperators(h, l.rest);
    if Compares(t) {
      var x := ParseCompared(l, t).value;
      HeldCompared(h, l, t);
      HeldOperators(h, x.rest);
    }
  }

  lemma {:induction false} HeldCompared(h: Through, l: Got<Expr>, t: Token)
    requires Apt(h) && Lexed(l.rest) && l.rest != [] && t == l.rest[0] && Compares(t) && ParseCompared(l, t).Ok?
    requires Plain(ParseCompared(l, t).value.v) && Ended(h, ParseCompared(l, t).value.rest)
    ensures Plain(l.v) && Lexed(ParseCompared(l, t).value.rest)
    ensures Held(h, l.rest) != [] && Held(h, l.rest)[0] == t
    ensures ParseCompared(HeldGot(h, l), t) == Ok(HeldGot(h, ParseCompared(l, t).value))
    decreases |l.rest|, 5, 0
  {
    HeldOperators(h, l.rest);
    var rest := l.rest[1..];
    assert Held(h, l.rest)[1..] == Held(h, rest);
    if ComparisonOp(t).Some? || Is(t, "in") {
      BuildsAt(5, rest);
      HeldAt(h, 5, rest);
    } else {
      HeldNullTest(h, l, t);
    }
  }

  lemma HeldNullTest(h: Through, l: Got<Expr>, t: Token)
    requires Apt(h) && Lexed(l.rest) && l.rest != [] && t == l.rest[0] && Compares(t) && ParseCompared(l, t).Ok?
    requires ComparisonOp(t).None? && !Is(t, "in")
    requires Plain(ParseCompared(l, t).value.v)
    requires Held(h, l.rest) != [] && Held(h, l.rest)[0] == t && Held(h, l.rest)[1..] == Held(h, l.rest[1..])
    ensures Plain(l.v) && Lexed(ParseCompared(l, t).value.rest)
    ensures ParseCompared(HeldGot(h, l), t) == Ok(HeldGot(h, ParseCompared(l, t).value))
  {
    var rest, held := l.rest[1..], Held(h, l.rest);
    var after := if At(rest, "not") then Drop(rest) else rest;
    assert ParseCompared(l, t) == Ok(Got(IsNull(l.v, At(rest, "not")), after[1..], l.nest)) by {
      NullTestRead(l, t, after);
    }
    HeldAhead(h, rest, "not");
    HeldAhead(h, after, "null");
    assert Held(h, after) == if At(held[1..], "not") then Drop(held[1..]) else held[1..];
    NullTestRead(HeldGot(h, l), t, Held(h, after));
  }

  lemma NullTestRead(l: Got<Expr>, t: Token, after: seq<Token>)
    requires l.rest != [] && t == l.rest[0] && Compares(t) && ComparisonOp(t).None? && !Is(t, "in")
    requires after == (if At(l.rest[1..], "not") then Drop(l.rest[1..]) else l.rest[1..]) && At(after, "null")
    ensures ParseCompared(l, t) == Ok(Got(IsNull(l.v, At(l.rest[1..], "not")), after[1..], l.nest))
  {
  }

  lemma {:induction false} HeldUnary(h: Through, ts: seq<Token>)
    requires Apt(h) && Lexed(ts) && ParseAt(7, ts).Ok?
    requires Plain(ParseAt(7, ts).value.v) && Ended(h, ParseAt(7, ts).value.rest)
    ensures ParseAt(7, Held(h, ts)) == Ok(HeldGot(h, ParseAt(7, ts).value))
    decreases |ts|, 3, 0
  {
    HeldAhead(h, ts, "not");
    HeldAhead(h, ts, "-");
    if At(ts, "not") || At(ts, "-") {
      HeldAt(h, 7, ts[1..]);
      assert Held(h, ts) == [ts[0]] + Held(h, ts[1..]);
      PrefixReads(ts);
      PrefixReads(Held(h, ts));
    } else {
      HeldAt(h, 8, ts);
    }
  }

  lemma {:induction false} HeldPostfix(h: Through, x: Got<Expr>)
    requires Apt(h) && Lexed(x.rest) && ParsePostfix(x).Ok?
    requires Plain(ParsePostfix(x).value.v) && Ended(h, ParsePostfix(x).value.rest)
    ensures Plain(x.v) && (x.rest != [] && x.rest[0].kind == NameTok ==> Ended(h, x.rest))
    ensures ParsePostfix(HeldGot(h, x)) == Ok(HeldGot(h, ParsePostfix(x).value))
    decreases |x.rest|, 2, 0
  {
    HeldAhead(h, x.rest, ".");
    HeldAhead(h, x.rest, "(");
    if At(x.rest, ".") {
      HeldMember(h, x);
    } else if At(x.rest, "(") && x.v.Path? {
      BuildsList(")", x.rest[1..]);
      var args := ParseList(")", x.rest[1..]).value;
      HeldPostfix(h, Got(Call(x.v, args.v), args.rest, Max(x.nest, args.nest)));
      HeldList(h, ")", x.rest[1..]);
    }
  }

  lemma {:induction false} HeldMember(h: Through, x: Got<Expr>)
    requires Apt(h) && Lexed(x.rest) && ParsePostfix(x).Ok? && At(x.rest, ".")
    requires Plain(ParsePostfix(x).value.v) && Ended(h, ParsePostfix(x).value.rest)
    ensures Plain(x.v) && ParsePostfix(HeldGot(h, x)) == Ok(HeldGot(h, ParsePostfix(x).value))
    decreases |x.rest|, 1, 0
  {
    HeldAhead(h, x.rest, ".");
    var t, rest := x.rest[1], x.rest[1..];
    HeldPostfix(h, Got(Path(x.v, t.text), rest[1..], x.nest));
    assert Held(h, x.rest) == [x.rest[0]] + HeldAfter(h, true, rest);
    assert HeldAfter(h, true, rest) == [t] + Held(h, rest[1..]);
  }

  lemma {:induction false} HeldList(h: Through, close: string, ts: seq<Token>)
    requires Apt(h) && close in {")", "}"} && Lexed(ts) && ParseList(close, ts).Ok?
    requires forall x | x in ParseList(close, ts).value.v :: Plain(x)
    ensures var xs := ParseList(close, ts).value;
            ParseList(close, Held(h, ts)) == Ok(Got(SubstAll(h, xs.v), Held(h, xs.rest), xs.nest))
    decreases |ts|, 12, 1
  {
    HeldAhead(h, ts, close);
    if !At(ts, close) {
      HeldItem(h, close, ts);
      var x := ParseExpr(ts).value;
      if At(x.rest, close) {
        ListLast(close, ts, x);
        ListLast(close, Held(h, ts), HeldGot(h, x));
        SubstOne(h, x.v);
      } else {
        var xs := ParseList(close, x.rest[1..]).value;
        ListStep(close, ts, x, xs);
        assert ParseList(close, ts).value.v[1..] == xs.v;
        HeldList(h, close, x.rest[1..]);
        ListStep(close, Held(h, ts), HeldGot(h, x), Got(SubstAll(h, xs.v), Held(h, xs.rest), xs.nest));
      }
    }
  }

  lemma {:induction false} HeldItem(h: Through, close: string, ts: seq<Token>)
    requires Apt(h) && close in {")", "}"} && Lexed(ts) && ParseList(close, ts).Ok? && !At(ts, close)
    requires forall x | x in ParseList(close, ts).value.v :: Plain(x)
    ensures ParseExpr(ts).Ok? && ParseExpr(Held(h, ts)) == Ok(HeldGot(h, ParseExpr(ts).value))
    ensures var rest := ParseExpr(ts).value.rest;
            && Lexed(rest) && (At(Held(h, rest), close) <==> At(rest, close)) && (At(rest, close) || At(rest, ","))
            && (At(rest, ",") ==> At(Held(h, rest), ",") && Held(h, rest)[1..] == Held(h, rest[1..]))
            && (At(rest, close) ==> Held(h, rest)[1..] == Held(h, rest[1..]))
    decreases |ts|, 12, 0
  {
    BuildsAt(0, ts);
    var x := ParseExpr(ts).value;
    assert x.v == ParseList(close, ts).value.v[0];
    HeldAhead(h, x.rest, close);
    HeldAhead(h, x.rest, ",");
    NotEnd(0, ts);
    HeldExpr(h, ts);
  }

  lemma SubstOne(h: Through, x: Expr)
    ensures SubstAll(h, [x]) == [Subst(h, x)]
  {
    assert [x][1..] == [];
  }

  /** An operand reads as it did, but a field as the holder, whose member it becomes. */
  lemma {:induction false} HeldPrimary(h: Through, ts: seq<Token>)
    requires Apt(h) && Lexed(ts) && ParsePrimary(ts).Ok? && Plain(ParsePrimary(ts).value.v)
    requires Peek(ParsePrimary(ts).value.rest, 0).kind == NameTok ==> Ended(h, ParsePrimary(ts).value.rest)
    ensures ParseAt(8, Held(h, ts)) == ParsePostfix(HeldGot(h, ParsePrimary(ts).value))
    decreases |ts|, 1, 0
  {
    if At(ts, "(") || At(ts, "{") {
      HeldBracketed(h, ts);
      OperandOf(Held(h, ts), HeldGot(h, ParsePrimary(ts).value));
    } else if ts[0].kind == NameTok {
      HeldNamed(h, ts);
    } else {
      HeldLiteral(h, ts);
      OperandOf(Held(h, ts), HeldGot(h, ParsePrimary(ts).value));
    }
  }

  lemma {:induction false} HeldBracketed(h: Through, ts: seq<Token>)
    requires Apt(h) && Lexed(ts) && ParsePrimary(ts).Ok? && Plain(ParsePrimary(ts).value.v)
    requires At(ts, "(") || At(ts, "{")
    ensures ParsePrimary(Held(h, ts)) == Ok(HeldGot(h, ParsePrimary(ts).value))
    decreases |ts|, 0, 0
  {
    var rest := ts[1..];
    assert ts[0].kind == OpTok;
    if At(ts, "(") {
      HeldAhead(h, ts, "(");
      BuildsAt(0, rest);
      var x := ParseExpr(rest).value;
      HeldExpr(h, rest);
      HeldAhead(h, x.rest, ")");
      ParenStep(Held(h, ts), HeldGot(h, x));
    } else {
      HeldAhead(h, ts, "{");
      HeldList(h, "}", rest);
      var xs := ParseList("}", rest).value;
      BraceStep(Held(h, ts), Got(SubstAll(h, xs.v), Held(h, xs.rest), xs.nest));
    }
  }

  lemma HeldLiteral(h: Through, ts: seq<Token>)
    requires Apt(h) && Lexed(ts) && ParsePrimary(ts).Ok? && ts[0].kind in {NumTok, StrTok}
    requires Peek(ParsePrimary(ts).value.rest, 0).kind == NameTok ==> Ended(h, ParsePrimary(ts).value.rest)
    ensures ParsePrimary(Held(h, ts)) == Ok(HeldGot(h, ParsePrimary(ts).value))
  {
    var t, rest := ts[0], ts[1..];
    if t.kind == NumTok && Peek(rest, 0).kind == NameTok && Peek(rest, 0).text in UNITS {
      HeldDuration(h, ts);
    } else {
      HeldFirst(h, rest);
      assert Held(h, ts) == [t] + Held(h, rest);
      assert Held(h, ts)[1..] == Held(h, rest);
      LiteralRead(ts);
      LiteralRead(Held(h, ts));
    }
  }

  lemma HeldDuration(h: Through, ts: seq<Token>)
    requires Apt(h) && Lexed(ts) && ts[0].kind == NumTok && Peek(ts, 1).kind == NameTok && Peek(ts, 1).text in UNITS
    ensures ParsePrimary(ts).Ok? && ParsePrimary(Held(h, ts)) == Ok(HeldGot(h, ParsePrimary(ts).value))
  {
    var t, rest := ts[0], ts[1..];
    HeldFirst(h, rest);
    assert Held(h, ts) == [t] + Held(h, rest);
    assert Held(h, rest) == [rest[0]] + Held(h, rest[1..]);
    assert Drop(Held(h, rest)) == Held(h, rest[1..]);
    DurationRead(ts);
    DurationRead(Held(h, ts));
  }

  lemma DurationRead(ts: seq<Token>)
    requires ts != [] && ts[0].kind == NumTok && Peek(ts, 1).kind == NameTok && Peek(ts, 1).text in UNITS
    ensures ParsePrimary(ts) == Ok(Got(Dur(Literal(ts[0].text), Peek(ts, 1).text), Drop(ts[1..]), 0))
  {
  }

  lemma LiteralRead(ts: seq<Token>)
    requires ts != [] && (ts[0].kind == StrTok || (ts[0].kind == NumTok && !(Peek(ts, 1).kind == NameTok && Peek(ts, 1).text in UNITS)))
    ensures ParsePrimary(ts) ==
            if ts[0].kind == NumTok then Ok(Got(Num(Literal(ts[0].text)), ts[1..], 0))
            else Ok(Got(Str(if |ts[0].text| >= 2 then ts[0].text[1..|ts[0].text| - 1] else ""), ts[1..], 0))
  {
  }

  lemma {:induction false} HeldNamed(h: Through, ts: seq<Token>)
    requires Apt(h) && Lexed(ts) && ParsePrimary(ts).Ok? && Plain(ParsePrimary(ts).value.v)
    requires Peek(ParsePrimary(ts).value.rest, 0).kind == NameTok ==> Ended(h, ParsePrimary(ts).value.rest)
    requires ts != [] && ts[0].kind == NameTok
    ensures ParseAt(8, Held(h, ts)) == ParsePostfix(HeldGot(h, ParsePrimary(ts).value))
    decreases |ts|, 0, 0
  {
    var t, rest := ts[0], ts[1..];
    HeldAhead(h, rest, "(");
    if At(rest, "(") && t.text !in KEYWORDS {
      NamedCall(ts);
      HeldCall(h, t.text, rest);
      CallOf(h, ts);
    } else if t.text in h.fields && t.text !in KEYWORDS {
      HeldField(h, ts);
    } else {
      HeldWord(h, ts);
      OperandOf(Held(h, ts), HeldGot(h, ParsePrimary(ts).value));
    }
  }

  lemma OperandOf(ts: seq<Token>, x: Got<Expr>)
    requires ParsePrimary(ts) == Ok(x)
    ensures ParseAt(8, ts) == ParsePostfix(x)
  {
  }

  lemma CallOf(h: Through, ts: seq<Token>)
    requires ts != [] && ts[0].kind == NameTok && ts[0].text !in KEYWORDS && At(ts[1..], "(")
    requires Held(h, ts) == [ts[0]] + Held(h, ts[1..]) && At(Held(h, ts[1..]), "(")
    requires ParseCall(ts[0].text, ts[1..]).Ok?
    requires ParseCall(ts[0].text, Held(h, ts[1..])) == Ok(HeldGot(h, ParseCall(ts[0].text, ts[1..]).value))
    ensures ParsePrimary(ts).Ok? && ParseAt(8, Held(h, ts)) == ParsePostfix(HeldGot(h, ParsePrimary(ts).value))
  {
    NamedCall(ts);
    NamedCall(Held(h, ts));
    OperandOf(Held(h, ts), HeldGot(h, ParsePrimary(ts).value));
  }

  lemma NamedCall(ts: seq<Token>)
    requires ts != [] && ts[0].kind == NameTok && ts[0].text !in KEYWORDS && At(ts[1..], "(")
    ensures ParsePrimary(ts) == ParseCall(ts[0].text, ts[1..])
  {
  }

  lemma HeldWord(h: Through, ts: seq<Token>)
    requires Apt(h) && Lexed(ts) && ParsePrimary(ts).Ok?
    requires ts != [] && ts[0].kind == NameTok && (ts[0].text in KEYWORDS || ts[0].text !in h.fields)
    requires At(ts[1..], "(") ==> ts[0].text in KEYWORDS
    ensures ParsePrimary(Held(h, ts)) == Ok(HeldGot(h, ParsePrimary(ts).value))
  {
    var t, rest := ts[0], ts[1..];
    var held := Held(h, rest);
    HeldFirst(h, rest);
    HeldAhead(h, rest, "(");
    assert Held(h, ts) == [t] + held;
    assert ([t] + held)[1..] == held;
    if t.text != "true" && t.text != "false" && IsCurrency(t.text) && Peek(rest, 0).kind == NumTok {
      assert held == [rest[0]] + Held(h, rest[1..]);
      assert Drop(held) == Held(h, rest[1..]);
    }
  }

  lemma HeldField(h: Through, ts: seq<Token>)
    requires Apt(h) && Lexed(ts) && ts != [] && ts[0].kind == NameTok && ts[0].text in h.fields && ts[0].text !in KEYWORDS
    requires !At(ts[1..], "(")
    ensures ParsePrimary(ts).Ok? && ParseAt(8, Held(h, ts)) == ParsePostfix(HeldGot(h, ParsePrimary(ts).value))
  {
    assert Held(h, ts) == [Word(h.holder)] + ([Op_("."), ts[0]] + Held(h, ts[1..]));
    Dotted(h.holder, ts[0].text, Held(h, ts[1..]));
    FieldRead(h, ts);
  }

  lemma FieldRead(h: Through, ts: seq<Token>)
    requires Apt(h) && ts != [] && ts[0].kind == NameTok && ts[0].text in h.fields && ts[0].text !in KEYWORDS
    requires !At(ts[1..], "(")
    ensures ParsePrimary(ts) == Ok(Got(Name(ts[0].text), ts[1..], 0))
  {
  }

  lemma Dotted(holder: string, member: string, after: seq<Token>)
    requires IsName(holder)
    ensures ParseAt(8, [Word(holder)] + ([Op_("."), Word(member)] + after)) ==
            ParsePostfix(Got(Path(Name(holder), member), after, 0))
  {
    var rest := [Op_("."), Word(member)] + after;
    var all := [Word(holder)] + rest;
    assert all[1..] == rest;
    assert rest[1..] == [Word(member)] + after && rest[1..][1..] == after;
    var x := Got(Name(holder), rest, 0);
    assert ParsePrimary(all) == Ok(x);
    OperandOf(all, x);
  }

  /** A call read with an aggregate's words, or of a metric or `changed_since`, is not plain. */
  lemma PlainCalls(fn: string, ts: seq<Token>)
    requires ts != [] && ParseCall(fn, ts).Ok? && Plain(ParseCall(fn, ts).value.v)
    ensures fn in AGGREGATES ==> !IsComprehension(ts) && !Ahead(ts, 1, "where") && !Ahead(ts, 1, "distinct")
    ensures fn != "metric" && fn != "changed_since"
    ensures ParseList(")", ts[1..]).Ok?
    ensures ParseCall(fn, ts).value.v == Call(Name(fn), ParseList(")", ts[1..]).value.v)
  {
    MetricsAreMetrics(ts[1..]);
    LoopsAreAggregates(fn, ts[1..]);
  }

  lemma LoopsAreAggregates(fn: string, ts: seq<Token>)
    ensures ParseComprehension(fn, ts).Ok? ==> ParseComprehension(fn, ts).value.v.Agg?
    ensures ParseOwnRows(fn, ts).Ok? ==> ParseOwnRows(fn, ts).value.v.Agg?
  {
  }

  lemma MetricsAreMetrics(ts: seq<Token>)
    ensures ParseMetric(ts).Ok? ==> ParseMetric(ts).value.v.Metric?
    ensures ParseChanged(ts).Ok? ==> ParseChanged(ts).value.v.Changed?
  {
  }

  lemma {:induction false} HeldCall(h: Through, fn: string, ts: seq<Token>)
    requires Apt(h) && At(ts, "(") && Lexed(ts) && ParseCall(fn, ts).Ok? && Plain(ParseCall(fn, ts).value.v)
    ensures ParseCall(fn, Held(h, ts)) == Ok(HeldGot(h, ParseCall(fn, ts).value))
    decreases |ts|, 13, 0
  {
    HeldAhead(h, ts, "(");
    var rest := ts[1..];
    PlainCalls(fn, ts);
    HeldList(h, ")", rest);
    assert Held(h, ts) == [ts[0]] + Held(h, rest);
    var args := ParseList(")", rest).value;
    if fn in AGGREGATES {
      HeldWords(h, ts);
    }
    PlainCall(fn, Held(h, ts), SubstAll(h, args.v), Held(h, args.rest), args.nest);
  }

  /** What an aggregate would not take as its own words it does not take rewritten. */
  lemma HeldWords(h: Through, ts: seq<Token>)
    requires Apt(h) && Lexed(ts) && At(ts, "(") && |ts| > 1
    requires !IsComprehension(ts) && !Ahead(ts, 1, "where") && !Ahead(ts, 1, "distinct")
    ensures var held := Held(h, ts[1..]); !Taken(held) && !At(held, "distinct")
  {
    var rest := ts[1..];
    assert Peek(ts, 1) == rest[0] && Peek(ts, 2) == Peek(rest, 1);
    HeldFirst(h, rest);
    if rest[0] != END {
      assert Lexed(rest[1..]);
      HeldAhead(h, rest[1..], "in");
    }
  }

  // the whole

  /** The rewritten tokens parse as the tree with each bare field read through the holder, or as holding where the holder
      is null; and nest a level deeper. */
  lemma HeldThroughParses(h: Through, ts: seq<Token>, e: Expr, nest: nat)
    requires Apt(h) && Lexed(ts) && Plain(e) && ParseExpr(ts) == Ok(Got(e, [END], nest))
    ensures ParseExpr(HeldThrough(h, ts)) ==
            Ok(Got(Bin(Or, IsNull(Name(h.holder), false), Subst(h, e)), [END], nest + 1))
  {
    HeldExpr(h, ts);
    var open := [Op_("(")] + Held(h, ts);
    assert open[1..] == Held(h, ts);
    assert [END][1..] == [] && HeldAfter(h, false, []) == [];
    assert Held(h, [END]) == [Op_(")"), END];
    ParenStep(open, Got(Subst(h, e), [Op_(")"), END], nest));
    assert [Op_(")"), END][1..] == [END];
    assert HeldThrough(h, ts) == [Word(h.holder), Word("is"), Word("null"), Word("or")] + open;
    OrElse(h.holder, open, Got(Subst(h, e), [END], nest));
  }

  lemma OrElse(holder: string, ts: seq<Token>, x: Got<Expr>)
    requires IsName(holder) && ParseAt(9, ts) == Ok(x) && ts != [] && ts[0] == Op_("(") && x.rest == [END]
    ensures ParseExpr([Word(holder), Word("is"), Word("null"), Word("or")] + ts) ==
            Ok(Got(Bin(Or, IsNull(Name(holder), false), x.v), [END], x.nest + 1))
  {
    var after := [Word("or")] + ts;
    var all := [Word(holder)] + ([Word("is")] + ([] + ([Word("null")] + after)));
    assert [Word(holder), Word("is"), Word("null"), Word("or")] + ts == all;
    var l := Got(IsNull(Name(holder), false), after, 0);
    HolderIsNull(holder, after);
    Descend(3, all, l);
    RightOfOr(ts, x);
    OrFrom(all, l, ts, x);
  }

  lemma OrFrom(all: seq<Token>, l: Got<Expr>, ts: seq<Token>, x: Got<Expr>)
    requires ParseAt(3, all) == Ok(l) && all != [] && Begins(9, all[0]) && l.rest == [Word("or")] + ts
    requires ParseAt(3, ts) == Ok(x) && x.rest == [END]
    ensures ParseExpr(all) == Ok(Got(Bin(Or, l.v, x.v), [END], Max(l.nest, x.nest) + 1))
  {
    LoopStart(2, all, l);
    assert l.rest[1..] == ts;
    LeftStep(2, l, Or, x);
    var whole := Got(Bin(Or, l.v, x.v), [END], Max(l.nest, x.nest));
    LoopStop(2, whole);
    Descend(1, all, whole);
    Descend(0, all, whole);
  }

  lemma HolderIsNull(holder: string, after: seq<Token>)
    requires IsName(holder) && At(after, "or")
    ensures ParseAt(4, [Word(holder)] + ([Word("is")] + ([] + ([Word("null")] + after)))) ==
            Ok(Got(IsNull(Name(holder), false), after, 0))
  {
    var isNull := [Word("is")] + ([] + ([Word("null")] + after));
    var all := [Word(holder)] + isNull;
    var n := Got(Name(holder), isNull, 0);
    BareName(holder, isNull);
    Descend(8, all, n);
    Descend(7, all, n);
    Descend(6, all, n);
    Descend(5, all, n);
    NullStep(all, n, false, after);
  }

  lemma BareName(n: string, after: seq<Token>)
    requires IsName(n) && !At(after, "(") && Peek(after, 0).kind != NumTok
    ensures ParseAt(9, [Word(n)] + after) == Ok(Got(Name(n), after, 0))
  {
    assert ([Word(n)] + after)[1..] == after;
  }

  lemma RightOfOr(ts: seq<Token>, x: Got<Expr>)
    requires ParseAt(9, ts) == Ok(x) && ts != [] && ts[0] == Op_("(") && x.rest == [END]
    ensures ParseAt(3, ts) == Ok(x)
  {
    Descend(8, ts, x);
    Descend(7, ts, x);
    Descend(6, ts, x);
    Descend(5, ts, x);
    Descend(4, ts, x);
    Descend(3, ts, x);
  }
}
