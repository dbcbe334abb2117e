/** Every tree the grammar reads from tokens as the pattern of tokens makes them is one that prints (scripts/flowexpr.py,
    `TOKEN`, `Parser`). */
module Building {
  import opened Wrappers
  import opened Syntax
  import opened Tokens
  import opened Grammar
  import opened Printer

  /** How the pattern of tokens has each kind begin. */
  predicate LexedToken(t: Token) {
    match t.kind
    case StrTok => |t.text| >= 2 && t.text[0] == '"'
    case NumTok => |t.text| >= 1 && IsDigit(t.text[0])
    case NameTok => IsWord(t.text)
    case OpTok => |t.text| >= 1 && !IsLetter(t.text[0])
    case EndTok => false
  }

  /** Tokens to the end of the text. */
  predicate Lexed(ts: seq<Token>) {
    |ts| > 0 && ts[|ts| - 1] == END && forall i | 0 <= i < |ts| - 1 :: LexedToken(ts[i])
  }

  ghost predicate Builds(r: Parse<Expr>) {
    r.Ok? ==> Built(r.value.v) && Lexed(r.value.rest)
  }

  lemma {:induction false} BuildsAt(level: nat, ts: seq<Token>)
    requires level <= 9 && Lexed(ts)
    ensures Builds(ParseAt(level, ts))
    decreases |ts|, 10 - level, 1
  {
    if level == 0 {
      BuildsIf(ts);
    } else if level == 1 {
      BuildsAt(2, ts);
      var l := ParseAt(2, ts);
      if l.Ok? && At(l.value.rest, "implies") {
        BuildsAt(1, l.value.rest[1..]);
      }
    } else if level == 4 {
      BuildsAt(5, ts);
      var l := ParseAt(5, ts);
      if l.Ok? {
        BuildsComparison(l.value);
      }
    } else if level == 7 {
      if At(ts, "not") || At(ts, "-") {
        BuildsAt(7, ts[1..]);
      } else {
        BuildsAt(8, ts);
      }
    } else if level == 8 {
      BuildsAt(9, ts);
      var x := ParseAt(9, ts);
      if x.Ok? {
        BuildsPostfix(x.value);
      }
    } else if level == 9 {
      BuildsPrimary(ts);
    } else {
      BuildsAt(level + 1, ts);
      var l := ParseAt(level + 1, ts);
      if l.Ok? {
        BuildsLeft(level, l.value);
      }
    }
  }

  lemma {:induction false} BuildsIf(ts: seq<Token>)
    requires Lexed(ts)
    ensures Builds(ParseIf(ts))
    decreases |ts|, 10, 0
  {
    if !At(ts, "if") {
      BuildsAt(1, ts);
      return;
    }
    BuildsAt(0, ts[1..]);
    var c := ParseExpr(ts[1..]);
    if c.Ok? && At(c.value.rest, "then") {
      BuildsAt(0, c.value.rest[1..]);
      var a := ParseExpr(c.value.rest[1..]);
      if a.Ok? && At(a.value.rest, "else") {
        BuildsAt(0, a.value.rest[1..]);
      }
    }
  }

  lemma {:induction false} BuildsLeft(level: nat, l: Got<Expr>)
    requires level in {2, 3, 5, 6} && Built(l.v) && Lexed(l.rest)
    ensures Builds(ParseLeft(level, l))
    decreases |l.rest|, 10 - level, 0
  {
    var op := LeftOp(level, Peek(l.rest, 0));
    if op.Some? {
      BuildsAt(level + 1, l.rest[1..]);
      var r := ParseAt(level + 1, l.rest[1..]);
      if r.Ok? {
        BuildsLeft(level, Got(Bin(op.value, l.v, r.value.v), r.value.rest, Max(l.nest, r.value.nest)));
      }
    }
  }

  lemma {:induction false} BuildsComparison(l: Got<Expr>)
    requires Built(l.v) && Lexed(l.rest)
    ensures Builds(ParseComparison(l))
    decreases |l.rest|, 6, 0
  {
    if Compares(Peek(l.rest, 0)) {
      BuildsAt(5, l.rest[1..]);
    }
  }

  lemma {:induction false} BuildsPostfix(x: Got<Expr>)
    requires Built(x.v) && Lexed(x.rest)
    ensures Builds(ParsePostfix(x))
    decreases |x.rest|, 2, 0
  {
    if At(x.rest, ".") {
      var t := Peek(x.rest, 1);
      if t.kind == NameTok {
        BuildsPostfix(Got(Path(x.v, t.text), Drop(x.rest[1..]), x.nest));
      }
    } else if At(x.rest, "(") && x.v.Path? {
      BuildsList(")", x.rest[1..]);
      var args := ParseList(")", x.rest[1..]);
      if args.Ok? {
        BuildsPostfix(Got(Call(x.v, args.value.v), args.value.rest, Max(x.nest, args.value.nest)));
      }
    }
  }

  lemma {:induction false} BuildsList(close: string, ts: seq<Token>)
    requires Lexed(ts)
    ensures ParseList(close, ts).Ok? ==>
              BuiltAll(ParseList(close, ts).value.v) && Lexed(ParseList(close, ts).value.rest)
    decreases |ts|, 12, 0
  {
    if !At(ts, close) {
      BuildsAt(0, ts);
      var x := ParseExpr(ts);
      if x.Ok? && !At(x.value.rest, close) && At(x.value.rest, ",") {
        BuildsList(close, x.value.rest[1..]);
      }
    }
  }

  lemma {:induction false} BuildsPrimary(ts: seq<Token>)
    requires Lexed(ts)
    ensures Builds(ParsePrimary(ts))
    decreases |ts|, 1, 0
  {
    if ts != [] {
      if At(ts, "(") {
        BuildsAt(0, ts[1..]);
      } else if At(ts, "{") {
        BuildsList("}", ts[1..]);
      } else if ts[0].kind == NameTok && ts[0].text !in KEYWORDS && At(ts[1..], "(") {
        BuildsCall(ts[0].text, ts[1..]);
      }
    }
  }

  lemma {:induction false} BuildsCall(fn: string, ts: seq<Token>)
    requires At(ts, "(") && Lexed(ts) && IsName(fn)
    ensures Builds(ParseCall(fn, ts))
    decreases |ts|, 13, 0
  {
    if fn in AGGREGATES && !IsComprehension(ts) && (Ahead(ts, 1, "where") || Ahead(ts, 1, "distinct")) {
      BuildsOwnRows(fn, ts[1..]);
    } else if fn in AGGREGATES && IsComprehension(ts) {
      BuildsComprehension(fn, ts[1..]);
    } else if fn == "metric" {
      BuildsMetric(ts[1..]);
    } else if fn == "changed_since" {
      BuildsChanged(ts[1..]);
    } else {
      BuildsList(")", ts[1..]);
    }
  }

  lemma {:induction false} BuildsOptional(word: string, ts: seq<Token>)
    requires Lexed(ts)
    ensures var r := ParseOptional(word, ts); r.Ok? ==> BuiltOptional(r.value.v) && Lexed(r.value.rest)
    decreases |ts|, 12, 0
  {
    if At(ts, word) {
      BuildsAt(0, ts[1..]);
    }
  }

  lemma {:induction false} BuildsOwnBody(ts: seq<Token>)
    requires Lexed(ts)
    ensures var r := ParseOwnBody(ts); r.Ok? ==> BuiltOptional(r.value.v) && Lexed(r.value.rest)
    decreases |ts|, 12, 0
  {
    if !At(ts, "where") {
      BuildsAt(0, ts);
    }
  }

  lemma {:induction false} BuildsOwnRows(fn: string, ts: seq<Token>)
    requires Lexed(ts) && fn in AGGREGATES && (At(ts, "where") || At(ts, "distinct"))
    ensures Builds(ParseOwnRows(fn, ts))
    decreases |ts|, 14, 0
  {
    var start := if At(ts, "distinct") then Drop(ts) else ts;
    BuildsOwnBody(start);
    var body := ParseOwnBody(start);
    if body.Ok? {
      BuildsOptional("where", body.value.rest);
    }
  }

  lemma {:induction false} BuildsComprehension(fn: string, ts: seq<Token>)
    requires Lexed(ts) && fn in AGGREGATES && (At(ts, "distinct") || Peek(ts, 0).kind == NameTok)
    ensures Builds(ParseComprehension(fn, ts))
    decreases |ts|, 14, 0
  {
    var distinct := At(ts, "distinct");
    var start := if distinct then Drop(ts) else ts;
    if At(Drop(start), "in") {
      var rest := Drop(start)[1..];
      BuildsAt(5, rest);
      var coll := ParseAt(5, rest);
      if coll.Ok? {
        BuildsLoop(fn, distinct, Peek(start, 0).text, coll.value);
      }
    }
  }

  lemma {:induction false} BuildsLoop(fn: string, distinct: bool, binder: string, coll: Got<Expr>)
    requires Lexed(coll.rest) && Built(coll.v) && fn in AGGREGATES && (binder == "distinct" ==> distinct)
    ensures Builds(ParseLoop(fn, distinct, binder, coll))
    decreases |coll.rest|, 14, 0
  {
    BuildsOptional("where", coll.rest);
    var where := ParseOptional("where", coll.rest);
    if where.Ok? {
      BuildsOptional(":", where.value.rest);
    }
  }

  lemma {:induction false} BuildsMetric(ts: seq<Token>)
    requires Lexed(ts)
    ensures Builds(ParseMetric(ts))
    decreases |ts|, 14, 0
  {
    BuildsAt(5, ts);
    var name := ParseAt(5, ts);
    if name.Ok? {
      BuildsClauses(Got(Metric(name.value.v, [], None, None), name.value.rest, name.value.nest));
    }
  }

  lemma {:induction false} BuildsClauses(m: Got<Expr>)
    requires m.v.Metric? && Built(m.v) && Lexed(m.rest)
    ensures Builds(ParseClauses(m))
    decreases |m.rest|, 12, 0
  {
    if At(m.rest, ",") {
      var l := Got(m.v, m.rest[1..], m.nest);
      BuildsClause(l);
      var more := ParseClause(l);
      if more.Ok? {
        BuildsClauses(more.value);
      }
    }
  }

  lemma {:induction false} BuildsClause(m: Got<Expr>)
    requires m.v.Metric? && Built(m.v) && Lexed(m.rest)
    ensures Builds(ParseClause(m))
    decreases |m.rest|, 13, 0
  {
    if At(m.rest, "over") {
      if At(m.rest[1..], "last") {
        BuildsAt(9, m.rest[1..][1..]);
      }
    } else if At(m.rest, "fresh") {
      BuildsAt(9, m.rest[1..]);
    } else if At(Drop(m.rest), ":=") {
      BuildsAt(0, Drop(m.rest)[1..]);
    }
  }

  lemma {:induction false} BuildsChanged(ts: seq<Token>)
    requires Lexed(ts)
    ensures Builds(ParseChanged(ts))
    decreases |ts|, 14, 0
  {
    if At(ts, "[") {
      BuildsNames(ts[1..]);
      var names := ParseNames(ts[1..]);
      if names.Ok? && At(names.value.rest, ",") {
        BuildsAt(0, names.value.rest[1..]);
      }
    }
  }

  lemma {:induction false} BuildsNames(ts: seq<Token>)
    requires Lexed(ts)
    ensures var r := ParseNames(ts); r.Ok? ==> "]" !in r.value.v && Lexed(r.value.rest)
    decreases |ts|
  {
    if !At(ts, "]") && At(Drop(ts), ",") {
      BuildsNames(Drop(ts)[1..]);
    }
  }
}
