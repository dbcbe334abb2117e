/** Single steps of the grammar: what a level reads, given what its parts read (scripts/flowexpr.py, `Parser`). */
module Steps {
  import opened Wrappers
  import opened Syntax
  import opened Tokens
  import opened Grammar

  /** A token that ends what a level reads. */
  predicate Stops(level: nat, t: Token) {
    && t.kind != NumTok && !(t.kind == NameTok && t.text in UNITS)
    && !Is(t, "(") && (level <= 8 ==> !Is(t, "."))
    && (level <= 6 ==> LeftOp(6, t).None?)
    && (level <= 5 ==> LeftOp(5, t).None?)
    && (level <= 4 ==> !Compares(t))
    && (level <= 3 ==> LeftOp(3, t).None?)
    && (level <= 2 ==> LeftOp(2, t).None?)
    && (level <= 1 ==> !Is(t, "implies"))
  }

  /** A token that may begin an operand of a level. */
  predicate Begins(level: nat, t: Token) {
    && t.kind != EndTok
    && (t.kind == OpTok ==> t.text in {"(", "{", "-"})
    && (t.kind == NameTok ==> t.text in {"true", "false", "if", "not"} || t.text !in KEYWORDS)
    && !Is(t, ")") && !Is(t, "}")
    && (level >= 1 ==> !Is(t, "if"))
    && (level >= 8 ==> !Is(t, "not") && !Is(t, "-"))
  }

  /** What a level's operand reads as, the level reads as, where no operator of the level follows. */
  lemma Descend(level: nat, ts: seq<Token>, g: Got<Expr>)
    requires level <= 8 && ts != [] && ParseAt(level + 1, ts) == Ok(g)
    requires Begins(level + 1, ts[0]) && Stops(level, Peek(g.rest, 0))
    ensures ParseAt(level, ts) == Ok(g)
  {
  }

  /** What comes after an expression within a clause ends it. */
  lemma Closers(t: Token)
    requires t in {Op_(")"), Op_("}"), Op_("]"), Op_(","), Op_(":"), Word("where"), Word("then"), Word("else"), END}
    ensures Stops(0, t) && !Is(t, "in")
  {
  }

  lemma LoopStart(level: nat, ts: seq<Token>, g: Got<Expr>)
    requires level in {2, 3, 5, 6, 8} && ParseAt(level + 1, ts) == Ok(g)
    ensures ParseAt(level, ts) == LoopOf(level, g)
  {
  }

  lemma LeftStep(level: nat, l: Got<Expr>, op: Op, r: Got<Expr>)
    requires level in {2, 3, 5, 6} && l.rest != [] && LeftOp(level, l.rest[0]) == Some(op)
    requires ParseAt(level + 1, l.rest[1..]) == Ok(r)
    ensures ParseLeft(level, l) == ParseLeft(level, Got(Bin(op, l.v, r.v), r.rest, Max(l.nest, r.nest)))
  {
  }

  lemma NamedCall(fn: string, after: seq<Token>, g: Got<Expr>)
    requires fn !in KEYWORDS && At(after, "(") && ParseCall(fn, after) == Ok(g)
    ensures ParsePrimary([Word(fn)] + after) == Ok(g)
  {
    assert ([Word(fn)] + after)[1..] == after;
  }

  lemma LoopStop(level: nat, g: Got<Expr>)
    requires level in {2, 3, 5, 6, 8} && Stops(level, Peek(g.rest, 0))
    ensures LoopOf(level, g) == Ok(g)
  {
  }

  lemma ComparedStep(ts: seq<Token>, l: Got<Expr>, t: Token, r: Got<Expr>, e: Expr)
    requires ParseAt(5, ts) == Ok(l) && l.rest != [] && l.rest[0] == t && ParseAt(5, l.rest[1..]) == Ok(r)
    requires (ComparisonOp(t).Some? && e == Bin(ComparisonOp(t).value, l.v, r.v)) || (t == Word("in") && e == In(l.v, r.v))
    requires Stops(4, Peek(r.rest, 0))
    ensures ParseAt(4, ts) == Ok(Got(e, r.rest, Max(l.nest, r.nest)))
  {
    assert ParseAt(4, ts) == ParseComparison(l);
    assert ParseCompared(l, t) == Ok(Got(e, r.rest, Max(l.nest, r.nest)));
  }

  lemma ParenStep(ts: seq<Token>, x: Got<Expr>)
    requires ts != [] && ts[0] == Op_("(") && ParseExpr(ts[1..]) == Ok(x) && At(x.rest, ")")
    ensures ParseAt(9, ts) == Ok(Got(x.v, x.rest[1..], x.nest))
  {
  }

  lemma BraceStep(ts: seq<Token>, xs: Got<seq<Expr>>)
    requires ts != [] && ts[0] == Op_("{") && ParseList("}", ts[1..]) == Ok(xs)
    ensures ParsePrimary(ts) == Ok(Got(SetLit(xs.v), xs.rest, xs.nest))
  {
  }

  lemma ListEnd(close: string, ts: seq<Token>)
    requires At(ts, close)
    ensures ParseList(close, ts) == Ok(Got([], ts[1..], 0))
  {
  }

  lemma NullStep(ts: seq<Token>, l: Got<Expr>, negated: bool, rest: seq<Token>)
    requires ParseAt(5, ts) == Ok(l) && Stops(4, Peek(rest, 0))
    requires l.rest == [Word("is")] + ((if negated then [Word("not")] else []) + ([Word("null")] + rest))
    ensures ParseAt(4, ts) == Ok(Got(IsNull(l.v, negated), rest, l.nest))
  {
    var after := l.rest[1..];
    assert after == (if negated then [Word("not")] else []) + ([Word("null")] + rest);
    if negated {
      assert after[1..] == [Word("null")] + rest;
    } else {
      assert after == [Word("null")] + rest;
    }
    assert ParseCompared(l, l.rest[0]) == Ok(Got(IsNull(l.v, negated), rest, l.nest));
  }

  lemma PrefixStep(ts: seq<Token>, x: Got<Expr>)
    requires ts != [] && (ts[0] == Word("not") || ts[0] == Op_("-")) && ParseAt(7, ts[1..]) == Ok(x)
    ensures ParseAt(7, ts) == Ok(Got(if ts[0] == Word("not") then Not(x.v) else Neg(x.v), x.rest, x.nest + 1))
  {
  }

  lemma ListLast(close: string, ts: seq<Token>, x: Got<Expr>)
    requires !At(ts, close) && ParseExpr(ts) == Ok(x) && At(x.rest, close)
    ensures ParseList(close, ts) == Ok(Got([x.v], x.rest[1..], x.nest))
  {
  }

  lemma ListStep(close: string, ts: seq<Token>, x: Got<Expr>, xs: Got<seq<Expr>>)
    requires !At(ts, close) && ParseExpr(ts) == Ok(x) && !At(x.rest, close) && At(x.rest, ",")
    requires ParseList(close, x.rest[1..]) == Ok(xs)
    ensures ParseList(close, ts) == Ok(Got([x.v] + xs.v, xs.rest, Max(x.nest, xs.nest)))
  {
  }

  function LoopOf(level: nat, g: Got<Expr>): Parse<Expr>
    requires level in {2, 3, 5, 6, 8}
  {
    if level == 8 then ParsePostfix(g) else ParseLeft(level, g)
  }

  lemma IfStep(first: seq<Token>, c: Got<Expr>, second: seq<Token>, a: Got<Expr>, third: seq<Token>, b: Got<Expr>)
    requires ParseExpr(first) == Ok(c) && c.rest == [Word("then")] + second
    requires ParseExpr(second) == Ok(a) && a.rest == [Word("else")] + third
    requires ParseExpr(third) == Ok(b)
    ensures ParseAt(0, [Word("if")] + first) == Ok(Got(If(c.v, a.v, b.v), b.rest, Max(Max(c.nest, a.nest), b.nest)))
  {
    assert ([Word("if")] + first)[1..] == first && c.rest[1..] == second && a.rest[1..] == third;
  }

  lemma PlainCall(fn: string, ts: seq<Token>, args: seq<Expr>, rest: seq<Token>, n: nat)
    requires ts != [] && fn != "metric" && fn != "changed_since"
    requires fn in AGGREGATES ==> !Taken(ts[1..]) && !At(ts[1..], "distinct")
    requires ParseList(")", ts[1..]) == Ok(Got(args, rest, n))
    ensures ParseCall(fn, ts) == Ok(Got(Call(Name(fn), args), rest, n))
  {
    assert fn in AGGREGATES ==> !IsComprehension(ts);
  }

  lemma LoopStep(kind: string, distinct: bool, binder: string, coll: Got<Expr>, where: Got<Option<Expr>>,
                 body: Got<Option<Expr>>)
    requires ParseOptional("where", coll.rest) == Ok(where) && ParseOptional(":", where.rest) == Ok(body)
    requires (kind in BODIED || distinct ==> body.v.Some?) && At(body.rest, ")")
    ensures ParseLoop(kind, distinct, binder, coll) ==
            Ok(Got(Agg(kind, distinct, Some(binder), Some(coll.v), where.v, body.v), body.rest[1..],
                   Max(Max(coll.nest, where.nest), body.nest)))
  {
  }

  lemma ComprehensionStep(kind: string, distinct: bool, binder: string, ts: seq<Token>, coll: Got<Expr>)
    requires (binder == "distinct" ==> distinct) && ParseAt(5, ts) == Ok(coll)
    ensures ParseComprehension(kind, (if distinct then [Word("distinct")] else []) + ([Word(binder), Word("in")] + ts)) ==
            ParseLoop(kind, distinct, binder, coll)
  {
    var start := [Word(binder), Word("in")] + ts;
    assert start[1..] == [Word("in")] + ts && start[1..][1..] == ts;
    if distinct {
      assert ([Word("distinct")] + start)[1..] == start;
    } else {
      assert [] + start == start;
    }
  }

  lemma OwnStep(kind: string, distinct: bool, start: seq<Token>, body: Got<Option<Expr>>, where: Got<Option<Expr>>)
    requires ParseOwnBody(start) == Ok(body) && ParseOptional("where", body.rest) == Ok(where) && At(where.rest, ")")
    requires !distinct ==> !At(start, "distinct")
    ensures ParseOwnRows(kind, (if distinct then [Word("distinct")] else []) + start) ==
            Ok(Got(Agg(kind, distinct, None, None, where.v, body.v), where.rest[1..], Max(body.nest, where.nest)))
  {
    if distinct {
      assert ([Word("distinct")] + start)[1..] == start;
    } else {
      assert [] + start == start;
    }
  }

  lemma MetricStep(ts: seq<Token>, name: Got<Expr>, g: Got<Expr>)
    requires ts != [] && ParseAt(5, ts[1..]) == Ok(name)
    requires ParseClauses(Got(Metric(name.v, [], None, None), name.rest, name.nest)) == Ok(g)
    ensures ParseCall("metric", ts) == Ok(g)
  {
  }

  lemma ClauseStep(m: Got<Expr>, ts: seq<Token>, next: Got<Expr>)
    requires m.v.Metric? && m.rest == [Op_(",")] + ts && ParseClause(Got(m.v, ts, m.nest)) == Ok(next)
    ensures ParseClauses(m) == ParseClauses(next)
  {
    assert m.rest[1..] == ts;
  }

  lemma BindingStep(m: Got<Expr>, dim: string, ts: seq<Token>, x: Got<Expr>)
    requires m.v.Metric? && m.rest == [Word(dim), Op_(":=")] + ts && dim != "over" && dim != "fresh"
    requires ParseExpr(ts) == Ok(x)
    ensures ParseClause(m) == Ok(Got(m.v.(binds := m.v.binds + [(dim, x.v)]), x.rest, Max(m.nest, x.nest)))
  {
    assert m.rest[1..] == [Op_(":=")] + ts && m.rest[1..][1..] == ts;
  }

  lemma ChangedStep(ts: seq<Token>, names: Got<seq<string>>, last: seq<Token>, event: Got<Expr>)
    requires ParseNames(ts) == Ok(names) && names.rest == [Op_(",")] + last
    requires ParseExpr(last) == Ok(event) && At(event.rest, ")")
    ensures ParseCall("changed_since", [Op_("(")] + ([Op_("[")] + ts)) ==
            Ok(Got(Changed(names.v, event.v), event.rest[1..], event.nest))
  {
    var open := [Op_("[")] + ts;
    var first := [Op_("(")] + open;
    assert first[1..] == open && open[1..] == ts && names.rest[1..] == last;
    assert ParseChanged(open) == Ok(Got(Changed(names.v, event.v), event.rest[1..], event.nest));
  }

  lemma NamesStep(ts: seq<Token>, name: string, more: seq<Token>, names: seq<string>, after: seq<Token>)
    requires ts == [Word(name), Op_(",")] + more && name != "]" && ParseNames(more) == Ok(Got(names, after, 0))
    ensures ParseNames(ts) == Ok(Got([name] + names, after, 0))
  {
    assert ts[1..] == [Op_(",")] + more && ts[1..][1..] == more;
  }

  lemma Ascend(ts: seq<Token>, g: Got<Expr>)
    requires ts != [] && ParseAt(9, ts) == Ok(g) && Begins(9, ts[0]) && Stops(0, Peek(g.rest, 0))
    ensures ParseAt(0, ts) == Ok(g)
  {
    Descend(8, ts, g);
    Descend(7, ts, g);
    Descend(6, ts, g);
    Descend(5, ts, g);
    Descend(4, ts, g);
    Descend(3, ts, g);
    Descend(2, ts, g);
    Descend(1, ts, g);
    Descend(0, ts, g);
  }

  lemma ComprehensionCall(kind: string, d: seq<Token>, binder: string, ts: seq<Token>, g: Got<Expr>)
    requires kind in AGGREGATES && (d == [] || d == [Word("distinct")])
    requires ParseComprehension(kind, d + ([Word(binder), Word("in")] + ts)) == Ok(g)
    ensures ParseCall(kind, [Op_("(")] + (d + ([Word(binder), Word("in")] + ts))) == Ok(g)
  {
    var start := d + ([Word(binder), Word("in")] + ts);
    var first := [Op_("(")] + start;
    assert first[1..] == start;
    assert IsComprehension(first) by {
      if d == [] {
        assert start[0] == Word(binder) && start[1] == Word("in");
        assert first[1] == Word(binder) && first[2] == Word("in");
      } else {
        assert start[0] == Word("distinct") && start[1] == Word(binder) && start[2] == Word("in");
        assert first[1] == start[0] && first[2] == start[1] && first[3] == start[2];
      }
    }
  }

  lemma OwnCall(kind: string, start: seq<Token>, g: Got<Expr>)
    requires kind in AGGREGATES && ParseOwnRows(kind, start) == Ok(g)
    requires !IsComprehension([Op_("(")] + start) && (At(start, "where") || At(start, "distinct"))
    ensures ParseCall(kind, [Op_("(")] + start) == Ok(g)
  {
    assert ([Op_("(")] + start)[1..] == start;
    assert Peek([Op_("(")] + start, 1) == Peek(start, 0);
  }

  lemma OverStep(m: Got<Expr>, ts: seq<Token>, p: Got<Expr>)
    requires m.v.Metric? && m.rest == [Word("over"), Word("last")] + ts && ParseAt(9, ts) == Ok(p)
    ensures ParseClause(m) == Ok(Got(m.v.(over := Some(p.v)), p.rest, Max(m.nest, p.nest)))
  {
    assert m.rest[1..] == [Word("last")] + ts && m.rest[1..][1..] == ts;
  }

  lemma FreshStep(m: Got<Expr>, ts: seq<Token>, p: Got<Expr>)
    requires m.v.Metric? && m.rest == [Word("fresh")] + ts && ParseAt(9, ts) == Ok(p)
    ensures ParseClause(m) == Ok(Got(m.v.(fresh_ := Some(p.v)), p.rest, Max(m.nest, p.nest)))
  {
    assert m.rest[1..] == ts;
  }

  lemma ListFails(close: string, ts: seq<Token>)
    requires !At(ts, close)
    requires ParseExpr(ts).Err? || (!At(ParseExpr(ts).value.rest, close) && !At(ParseExpr(ts).value.rest, ","))
    ensures ParseList(close, ts).Err?
  {
  }

  lemma ListTooDeep(close: string, ts: seq<Token>)
    requires !At(ts, close)
    ensures ParseList(close, ts).Ok? ==> ParseExpr(ts).Ok? && ParseExpr(ts).value.nest <= ParseList(close, ts).value.nest
  {
  }

  /** A further operator of a level, whose right side may not read. */
  lemma LeftReads(level: nat, l: Got<Expr>)
    requires level in {2, 3, 5, 6} && l.rest != [] && LeftOp(level, l.rest[0]).Some?
    ensures var r := ParseAt(level + 1, l.rest[1..]);
            && ParseLeft(level, l) ==
               (if r.Err? then Err(r.error)
                else ParseLeft(level, Got(Bin(LeftOp(level, l.rest[0]).value, l.v, r.value.v), r.value.rest, Max(l.nest, r.value.nest))))
            && (ParseLeft(level, l).Ok? ==> r.Ok? && r.value.nest <= ParseLeft(level, l).value.nest)
  {
  }

  /** A list after an expression and a comma. */
  lemma ListMore(close: string, ts: seq<Token>)
    requires !At(ts, close) && ParseExpr(ts).Ok?
    requires var x := ParseExpr(ts).value; !At(x.rest, close) && At(x.rest, ",")
    ensures var x := ParseExpr(ts).value;
            var more := ParseList(close, x.rest[1..]);
            ParseList(close, ts) ==
            if more.Err? then more else Ok(Got([x.v] + more.value.v, more.value.rest, Max(x.nest, more.value.nest)))
  {
  }

  lemma PrefixReads(ts: seq<Token>)
    requires At(ts, "not") || At(ts, "-")
    ensures var x := ParseAt(7, ts[1..]);
            ParseAt(7, ts) == if x.Err? then Err(x.error)
                              else Ok(Got(if ts[0].text == "not" then Not(x.value.v) else Neg(x.value.v), x.value.rest,
                                          x.value.nest + 1))
  {
  }

  lemma NamesReads(ts: seq<Token>)
    requires !At(ts, "]")
    ensures var rest := Drop(ts);
            ParseNames(ts) ==
            if At(rest, "]") && rest != [] then Ok(Got([Peek(ts, 0).text], rest[1..], 0))
            else if !At(rest, ",") then Err(ParseError)
            else
              var more := ParseNames(rest[1..]);
              if more.Err? then more else Ok(Got([Peek(ts, 0).text] + more.value.v, more.value.rest, 0))
  {
  }

  ghost predicate IfParts(ts: seq<Token>, whole: Got<Expr>)
    requires At(ts, "if")
  {
    && ParseExpr(ts[1..]).Ok? && At(ParseExpr(ts[1..]).value.rest, "then")
    && ParseExpr(ParseExpr(ts[1..]).value.rest[1..]).Ok?
    && (var (c, a) := (ParseExpr(ts[1..]).value, ParseExpr(ParseExpr(ts[1..]).value.rest[1..]).value);
        && At(a.rest, "else") && ParseExpr(a.rest[1..]).Ok?
        && (var b := ParseExpr(a.rest[1..]).value;
            whole == Got(If(c.v, a.v, b.v), b.rest, Max(Max(c.nest, a.nest), b.nest))))
  }

  /** A conditional's parts, each read where the whole is. */
  lemma IfReads(ts: seq<Token>)
    requires At(ts, "if")
    ensures ParseIf(ts).Ok? ==> IfParts(ts, ParseIf(ts).value)
  {
  }

  lemma IfRead(ts: seq<Token>, c: Got<Expr>, a: Got<Expr>, b: Got<Expr>)
    requires At(ts, "if") && ParseExpr(ts[1..]) == Ok(c) && At(c.rest, "then") && ParseExpr(c.rest[1..]) == Ok(a)
    requires At(a.rest, "else") && ParseExpr(a.rest[1..]) == Ok(b)
    ensures ParseIf(ts) == Ok(Got(If(c.v, a.v, b.v), b.rest, Max(Max(c.nest, a.nest), b.nest)))
  {
  }

  lemma OwnRowsReads(fn: string, ts: seq<Token>)
    ensures var distinct := At(ts, "distinct");
            var body := ParseOwnBody(if distinct then Drop(ts) else ts);
            ParseOwnRows(fn, ts) ==
            if body.Err? then Err(body.error)
            else
              var where := ParseOptional("where", body.value.rest);
              if where.Err? then Err(where.error)
              else if !At(where.value.rest, ")") then Err(ParseError)
              else Ok(Got(Agg(fn, distinct, None, None, where.value.v, body.value.v), where.value.rest[1..],
                          Max(body.value.nest, where.value.nest)))
  {
  }

  lemma ChangedReads(ts: seq<Token>)
    ensures ParseChanged(ts) ==
            if !At(ts, "[") then Err(ParseError)
            else
              var names := ParseNames(ts[1..]);
              if names.Err? then Err(names.error)
              else if !At(names.value.rest, ",") then Err(ParseError)
              else
                var e := ParseExpr(names.value.rest[1..]);
                if e.Err? then Err(e.error)
                else if !At(e.value.rest, ")") then Err(ParseError)
                else Ok(Got(Changed(names.value.v, e.value.v), e.value.rest[1..], e.value.nest))
  {
  }
}
