/** The recursive-descent parser, its place in the tokens and its depth of nesting kept as it goes (scripts/flowexpr.py,
    `Parser`): it reads what the grammar reads, where it nests no deeper than the bound. */
module Parser {
  import opened Wrappers
  import opened Syntax
  import opened Tokens
  import opened Grammar
  import Steps

  type Read<T> = Result<T, ParseError>

  class Parser {
    const toks: seq<Token>
    var i: nat
    var depth: nat

    ghost predicate Valid()
      reads this
    {
      |toks| > 0 && toks[|toks| - 1] == END && depth <= MAX_NESTING
    }

    /** The tokens ahead. */
    ghost function Rest(): seq<Token>
      reads this
    {
      if i <= |toks| then toks[i..] else []
    }

    /** A read is what the grammar reads of the tokens that were ahead, where it nests within the bound, and leaves the
        parser past it. */
    ghost predicate Reads<T>(r: Read<T>, s: Parse<T>, before: nat)
      reads this
    {
      && (r.Ok? <==> s.Ok? && before + s.value.nest <= MAX_NESTING)
      && (r.Ok? ==> r.value == s.value.v && Rest() == s.value.rest && depth == before)
    }

    constructor (tokens: seq<Token>)
      requires |tokens| > 0 && tokens[|tokens| - 1] == END
      ensures Valid() && toks == tokens && Rest() == tokens && depth == 0
    {
      toks, i, depth := tokens, 0, 0;
    }

    method Nest() returns (ok: bool)
      requires Valid()
      modifies this`depth
      ensures ok <==> old(depth) < MAX_NESTING
      ensures depth == old(depth) + 1 && (ok ==> Valid())
    {
      depth := depth + 1;
      ok := depth <= MAX_NESTING;
    }

    method Ahead_(k: nat) returns (t: Token)
      requires Valid()
      ensures t == Peek(Rest(), k)
    {
      t := toks[if i + k < |toks| - 1 then i + k else |toks| - 1];
    }

    method At_(text: string, k: nat := 0) returns (b: bool)
      requires Valid()
      ensures b == Ahead(Rest(), k, text)
    {
      var t := Ahead_(k);
      b := Is(t, text);
    }

    /** The token ahead, whatever it is. */
    method Next() returns (t: Token)
      requires Valid()
      modifies this`i
      ensures t == Peek(old(Rest()), 0) && Rest() == Drop(old(Rest()))
    {
      t := Ahead_(0);
      i := i + 1;
    }

    method Expect(text: string) returns (ok: bool)
      requires Valid()
      modifies this`i
      ensures ok <==> Grammar.Take(old(Rest()), text).Ok?
      ensures ok ==> Grammar.Take(old(Rest()), text) == Ok(Rest())
    {
      ok := At_(text);
      if ok {
        var _ := Next();
      }
    }

    method Expression() returns (r: Read<Expr>)
      requires Valid()
      modifies this
      ensures Reads(r, ParseExpr(old(Rest())), old(depth))
      ensures depth >= old(depth) && (r.Ok? ==> Valid())
      decreases |Rest()|, 13
    {
      var nested := Nest();
      if !nested {
        return Err(ParseError);
      }
      r := NestedExpr();
      depth := depth - 1;
    }

    method NestedExpr() returns (r: Read<Expr>)
      requires Valid()
      modifies this
      ensures Reads(r, ParseAt(0, old(Rest())), old(depth))
      ensures depth >= old(depth) && (r.Ok? ==> Valid())
      decreases |Rest()|, 12
    {
      var ok := At_("if");
      if !ok {
        r := Implication();
        return;
      }
      r := Conditional();
    }

    method Conditional() returns (r: Read<Expr>)
      requires Valid() && At(Rest(), "if")
      modifies this
      ensures Reads(r, ParseIf(old(Rest())), old(depth))
      ensures depth >= old(depth) && (r.Ok? ==> Valid())
      decreases |Rest()|, 0
    {
      ghost var ts := Rest();
      Steps.IfReads(ts);
      var _ := Next();
      var cond := Expression();
      if cond.Err? {
        return Err(ParseError);
      }
      ghost var c := ParseExpr(ts[1..]).value;
      var ok := Expect("then");
      if !ok {
        return Err(ParseError);
      }
      var thn := Expression();
      if thn.Err? {
        return Err(ParseError);
      }
      ghost var a := ParseExpr(c.rest[1..]).value;
      ok := Expect("else");
      if !ok {
        return Err(ParseError);
      }
      var els := Expression();
      if els.Err? {
        return Err(ParseError);
      }
      Steps.IfRead(ts, c, a, ParseExpr(a.rest[1..]).value);
      return Ok(If(cond.value, thn.value, els.value));
    }

    method Implication() returns (r: Read<Expr>)
      requires Valid()
      modifies this
      ensures Reads(r, ParseAt(1, old(Rest())), old(depth))
      ensures depth >= old(depth) && (r.Ok? ==> Valid())
      decreases |Rest()|, 11
    {
      var left := Disjunction();
      if left.Err? {
        return Err(ParseError);
      }
      var ok := At_("implies");
      if !ok {
        return left;
      }
      var _ := Next();
      var right := Implication();
      if right.Err? {
        return Err(ParseError);
      }
      return Ok(Bin(Implies, left.value, right.value));
    }

    method Disjunction() returns (r: Read<Expr>)
      requires Valid()
      modifies this
      ensures Reads(r, ParseAt(2, old(Rest())), old(depth))
      ensures depth >= old(depth) && (r.Ok? ==> Valid())
      decreases |Rest()|, 10
    {
      ghost var s := ParseAt(2, Rest());
      var left := Conjunction();
      if left.Err? {
        return Err(ParseError);
      }
      ghost var nest := ParseAt(3, old(Rest())).value.nest;
      var more := At_("or");
      while more
        invariant Valid() && depth == old(depth) && left.Ok? && |Rest()| < |old(Rest())|
        invariant s == ParseLeft(2, Got(left.value, Rest(), nest)) && depth + nest <= MAX_NESTING
        invariant more == LeftOp(2, Peek(Rest(), 0)).Some?
        decreases |Rest()|
      {
        ghost var ahead := Rest();
        var _ := Next();
        var op := Or;
        var right := Conjunction();
        if right.Err? {
          return Err(ParseError);
        }
        nest := Max(nest, ParseAt(3, ahead[1..]).value.nest);
        left := Ok(Bin(op, left.value, right.value));
        more := At_("or");
      }
      return left;
    }

    method Conjunction() returns (r: Read<Expr>)
      requires Valid()
      modifies this
      ensures Reads(r, ParseAt(3, old(Rest())), old(depth))
      ensures depth >= old(depth) && (r.Ok? ==> Valid())
      decreases |Rest()|, 9
    {
      ghost var s := ParseAt(3, Rest());
      var left := Compare();
      if left.Err? {
        return Err(ParseError);
      }
      ghost var nest := ParseAt(4, old(Rest())).value.nest;
      var more := At_("and");
      while more
        invariant Valid() && depth == old(depth) && left.Ok? && |Rest()| < |old(Rest())|
        invariant s == ParseLeft(3, Got(left.value, Rest(), nest)) && depth + nest <= MAX_NESTING
        invariant more == LeftOp(3, Peek(Rest(), 0)).Some?
        decreases |Rest()|
      {
        ghost var ahead := Rest();
        var _ := Next();
        var op := And;
        Steps.LeftReads(3, Got(left.value, ahead, nest));
        var right := Compare();
        if right.Err? {
          return Err(ParseError);
        }
        nest := Max(nest, ParseAt(4, ahead[1..]).value.nest);
        left := Ok(Bin(op, left.value, right.value));
        more := At_("and");
      }
      return left;
    }

    method Compare() returns (r: Read<Expr>)
      requires Valid()
      modifies this
      ensures Reads(r, ParseAt(4, old(Rest())), old(depth))
      ensures depth >= old(depth) && (r.Ok? ==> Valid())
      decreases |Rest()|, 8
    {
      var left := Additive();
      if left.Err? {
        return Err(ParseError);
      }
      ghost var l := ParseAt(5, old(Rest())).value;
      assert ParseAt(4, old(Rest())) == ParseComparison(l);
      var t := Ahead_(0);
      if !Compares(t) {
        return left;
      }
      var node := Compared(l, left.value, t);
      if node.Err? {
        return Err(ParseError);
      }
      t := Ahead_(0);
      return if Compares(t) then Err(ParseError) else node;
    }

    /** What follows a comparison's left side. */
    method Compared(ghost l: Got<Expr>, left: Expr, t: Token) returns (r: Read<Expr>)
      requires Valid() && Rest() != [] && l.rest == Rest() && l.v == left && depth + l.nest <= MAX_NESTING
      requires t == Rest()[0] && Compares(t)
      modifies this
      ensures Reads(r, ParseCompared(l, t), old(depth))
      ensures depth >= old(depth) && (r.Ok? ==> Valid())
      decreases |Rest()|, 7
    {
      var _ := Next();
      if ComparisonOp(t).Some? {
        var right := Additive();
        if right.Err? {
          return Err(ParseError);
        }
        return Ok(Bin(ComparisonOp(t).value, left, right.value));
      } else if Is(t, "in") {
        var right := Additive();
        if right.Err? {
          return Err(ParseError);
        }
        return Ok(In(left, right.value));
      } else {
        var negated := At_("not");
        if negated {
          var _ := Next();
        }
        assert Rest() == if negated then Drop(l.rest[1..]) else l.rest[1..];
        var ok := Expect("null");
        return if ok then Ok(IsNull(left, negated)) else Err(ParseError);
      }
    }

    method Additive() returns (r: Read<Expr>)
      requires Valid()
      modifies this
      ensures Reads(r, ParseAt(5, old(Rest())), old(depth))
      ensures depth >= old(depth) && (r.Ok? ==> Valid())
      decreases |Rest()|, 7
    {
      ghost var s := ParseAt(5, Rest());
      var left := Multiplicative();
      if left.Err? {
        return Err(ParseError);
      }
      ghost var nest := ParseAt(6, old(Rest())).value.nest;
      var t := Ahead_(0);
      var more := LeftOp(5, t).Some?;
      while more
        invariant Valid() && depth == old(depth) && left.Ok? && |Rest()| < |old(Rest())|
        invariant s == ParseLeft(5, Got(left.value, Rest(), nest)) && depth + nest <= MAX_NESTING
        invariant more == LeftOp(5, t).Some? && t == Peek(Rest(), 0)
        decreases |Rest()|
      {
        ghost var ahead := Rest();
        var op := LeftOp(5, t).value;
        var _ := Next();
        var right := Multiplicative();
        if right.Err? {
          return Err(ParseError);
        }
        nest := Max(nest, ParseAt(6, ahead[1..]).value.nest);
        left := Ok(Bin(op, left.value, right.value));
        t := Ahead_(0);
        more := LeftOp(5, t).Some?;
      }
      return left;
    }

    method Multiplicative() returns (r: Read<Expr>)
      requires Valid()
      modifies this
      ensures Reads(r, ParseAt(6, old(Rest())), old(depth))
      ensures depth >= old(depth) && (r.Ok? ==> Valid())
      decreases |Rest()|, 6
    {
      ghost var s := ParseAt(6, Rest());
      var left := Unary();
      if left.Err? {
        return Err(ParseError);
      }
      ghost var nest := ParseAt(7, old(Rest())).value.nest;
      var t := Ahead_(0);
      var more := LeftOp(6, t).Some?;
      while more
        invariant Valid() && depth == old(depth) && left.Ok? && |Rest()| < |old(Rest())|
        invariant s == ParseLeft(6, Got(left.value, Rest(), nest)) && depth + nest <= MAX_NESTING
        invariant more == LeftOp(6, t).Some? && t == Peek(Rest(), 0)
        decreases |Rest()|
      {
        ghost var ahead := Rest();
        var op := LeftOp(6, t).value;
        var _ := Next();
        var right := Unary();
        if right.Err? {
          return Err(ParseError);
        }
        nest := Max(nest, ParseAt(7, ahead[1..]).value.nest);
        left := Ok(Bin(op, left.value, right.value));
        t := Ahead_(0);
        more := LeftOp(6, t).Some?;
      }
      return left;
    }

    method Unary() returns (r: Read<Expr>)
      requires Valid()
      modifies this
      ensures Reads(r, ParseAt(7, old(Rest())), old(depth))
      ensures depth >= old(depth) && (r.Ok? ==> Valid())
      decreases |Rest()|, 5
    {
      var isNot := At_("not");
      var isMinus := At_("-");
      if !isNot && !isMinus {
        r := Postfix();
        return;
      }
      Steps.PrefixReads(Rest());
      var nested := Nest();
      if !nested {
        return Err(ParseError);
      }
      var t := Next();
      var x := Unary();
      depth := depth - 1;
      if x.Err? {
        return Err(ParseError);
      }
      return Ok(if t.text == "not" then Not(x.value) else Neg(x.value));
    }

    method Postfix() returns (r: Read<Expr>)
      requires Valid()
      modifies this
      ensures Reads(r, ParseAt(8, old(Rest())), old(depth))
      ensures depth >= old(depth) && (r.Ok? ==> Valid())
      decreases |Rest()|, 4
    {
      var first := Primary();
      if first.Err? {
        return Err(ParseError);
      }
      var node := first.value;
      ghost var s := ParseAt(8, old(Rest()));
      ghost var nest := ParsePrimary(old(Rest())).value.nest;
      while true
        invariant Valid() && depth == old(depth) && |Rest()| < |old(Rest())|
        invariant s == ParsePostfix(Got(node, Rest(), nest)) && depth + nest <= MAX_NESTING
        decreases |Rest()|
      {
        ghost var ahead := Rest();
        var dot := At_(".");
        var open := At_("(");
        if dot {
          var _ := Next();
          var t := Ahead_(0);
          if t.kind != NameTok {
            return Err(ParseError);
          }
          var _ := Next();
          node := Path(node, t.text);
        } else if open && node.Path? {
          var args := Arguments(")");
          if args.Err? {
            return Err(ParseError);
          }
          nest := Max(nest, ParseList(")", ahead[1..]).value.nest);
          node := Call(node, args.value);
        } else {
          return Ok(node);
        }
      }
    }

    /** A call's arguments, or a set's items, from the opening token. */
    method Arguments(close: string) returns (r: Read<seq<Expr>>)
      requires Valid() && Rest() != []
      modifies this
      ensures Reads(r, ParseList(close, Drop(old(Rest()))), old(depth))
      ensures depth >= old(depth) && (r.Ok? ==> Valid())
      decreases |Drop(Rest())|, 15
    {
      var _ := Next();
      ghost var s := ParseList(close, Rest());
      var args: seq<Expr> := [];
      ghost var nest: nat := 0;
      assert s.Ok? ==> args + s.value.v == s.value.v;
      while true
        invariant Valid() && depth == old(depth) && |Rest()| <= |Drop(old(Rest()))|
        invariant s == Listed(args, nest, ParseList(close, Rest())) && depth + nest <= MAX_NESTING
        decreases |Rest()|
      {
        ghost var ahead := Rest();
        ghost var rest := ParseList(close, ahead);
        var end := At_(close);
        if end {
          Steps.ListEnd(close, ahead);
          var _ := Next();
          assert args + [] == args;
          return Ok(args);
        }
        Steps.ListTooDeep(close, ahead);
        var x, last := Item(close);
        if x.Err? {
          ItemFails(close, ahead, old(depth));
          return Err(ParseError);
        }
        ghost var read := ParseExpr(ahead).value;
        if last {
          Steps.ListLast(close, ahead, read);
          return Ok(args + [x.value]);
        }
        Steps.ListMore(close, ahead);
        ListedMore(args, nest, read, ParseList(close, Rest()));
        nest := Max(nest, read.nest);
        args := args + [x.value];
      }
    }

    /** An expression, and the token that closes the list or the comma after it. */
    method Item(close: string) returns (x: Read<Expr>, last: bool)
      requires Valid()
      modifies this
      ensures depth >= old(depth)
      ensures x.Ok? <==> ItemReads(close, old(Rest()), old(depth))
      ensures x.Ok? ==> var read := ParseExpr(old(Rest())).value;
                        && x.value == read.v && Rest() == read.rest[1..] && last == At(read.rest, close)
                        && depth == old(depth) && Valid()
      decreases |Rest()|, 14
    {
      last := false;
      x := Expression();
      if x.Err? {
        return;
      }
      last := At_(close);
      if last {
        var _ := Next();
        return;
      }
      var ok := Expect(",");
      if !ok {
        x := Err(ParseError);
      }
    }

    method Primary() returns (r: Read<Expr>)
      requires Valid()
      modifies this
      ensures Reads(r, ParseAt(9, old(Rest())), old(depth))
      ensures depth >= old(depth) && (r.Ok? ==> Valid())
      decreases |Rest()|, 3
    {
      var t := Ahead_(0);
      if t.kind == NumTok {
        var _ := Next();
        var next := Ahead_(0);
        if next.kind == NameTok && next.text in UNITS {
          var _ := Next();
          return Ok(Dur(Literal(t.text), next.text));
        }
        return Ok(Num(Literal(t.text)));
      }
      if t.kind == StrTok {
        var _ := Next();
        return Ok(Str(if |t.text| >= 2 then t.text[1..|t.text| - 1] else ""));
      }
      if t.kind == NameTok {
        r := Named(t);
        return;
      }
      var open := At_("(");
      if open {
        var _ := Next();
        var x := Expression();
        if x.Err? {
          return Err(ParseError);
        }
        var ok := Expect(")");
        return if ok then x else Err(ParseError);
      }
      open := At_("{");
      if open {
        var items := Arguments("}");
        if items.Err? {
          return Err(ParseError);
        }
        return Ok(SetLit(items.value));
      }
      return Err(ParseError);
    }

    /** An operand that begins with a name. */
    method Named(t: Token) returns (r: Read<Expr>)
      requires Valid() && Rest() != [] && t == Peek(Rest(), 0) && t.kind == NameTok
      modifies this
      ensures Reads(r, ParsePrimary(old(Rest())), old(depth))
      ensures depth >= old(depth) && (r.Ok? ==> Valid())
      decreases |Rest()|, 2
    {
      if t.text == "true" || t.text == "false" {
        var _ := Next();
        return Ok(Bool(t.text == "true"));
      }
      var next := Ahead_(1);
      if IsCurrency(t.text) && next.kind == NumTok {
        var _ := Next();
        var amount := Next();
        return Ok(Money(t.text, amount.text));
      }
      if t.text in KEYWORDS {
        return Err(ParseError);
      }
      var _ := Next();
      var called := At_("(");
      if called {
        r := Call_(t.text);
        return;
      }
      return Ok(Name(t.text));
    }

    method Call_(fn: string) returns (r: Read<Expr>)
      requires Valid() && At(Rest(), "(")
      modifies this
      ensures Reads(r, ParseCall(fn, old(Rest())), old(depth))
      ensures depth >= old(depth) && (r.Ok? ==> Valid())
      decreases |Rest()|, 16
    {
      var d := At_("distinct", 1);
      var first := Ahead_(1);
      var second := Ahead_(2);
      var inThird := At_("in", 3);
      var inSecond := At_("in", 2);
      var w := At_("where", 1);
      var comprehension := (d && second.kind == NameTok && inThird) || (first.kind == NameTok && inSecond);
      if fn in AGGREGATES && !comprehension && (w || d) {
        r := OwnRows(fn);
      } else if fn in AGGREGATES && comprehension {
        r := Comprehension(fn);
      } else if fn == "metric" {
        r := Metric_();
      } else if fn == "changed_since" {
        r := ChangedSince();
      } else {
        var args := Arguments(")");
        r := if args.Ok? then Ok(Call(Name(fn), args.value)) else Err(ParseError);
      }
    }

    /** A clause a word opens, where it is there. */
    method Clause(word: string) returns (r: Read<Option<Expr>>)
      requires Valid()
      modifies this
      ensures Reads(r, ParseOptional(word, old(Rest())), old(depth))
      ensures depth >= old(depth) && (r.Ok? ==> Valid())
      decreases |Rest()|, 14
    {
      var there := At_(word);
      if !there {
        return Ok(None);
      }
      var _ := Next();
      var x := Expression();
      r := if x.Ok? then Ok(Some(x.value)) else Err(ParseError);
    }

    method OwnBody() returns (r: Read<Option<Expr>>)
      requires Valid()
      modifies this
      ensures Reads(r, ParseOwnBody(old(Rest())), old(depth))
      ensures depth >= old(depth) && (r.Ok? ==> Valid())
      decreases |Rest()|, 14
    {
      var where := At_("where");
      if where {
        return Ok(None);
      }
      var x := Expression();
      r := if x.Ok? then Ok(Some(x.value)) else Err(ParseError);
    }

    method OwnRows(fn: string) returns (r: Read<Expr>)
      requires Valid() && At(Rest(), "(")
      modifies this
      ensures Reads(r, ParseOwnRows(fn, Drop(old(Rest()))), old(depth))
      ensures depth >= old(depth) && (r.Ok? ==> Valid())
      decreases |Rest()|, 15
    {
      Steps.OwnRowsReads(fn, Drop(Rest()));
      var _ := Next();
      var distinct := At_("distinct");
      if distinct {
        var _ := Next();
      }
      var body := OwnBody();
      if body.Err? {
        return Err(ParseError);
      }
      var where := Clause("where");
      if where.Err? {
        return Err(ParseError);
      }
      var ok := Expect(")");
      return if ok then Ok(Agg(fn, distinct, None, None, where.value, body.value)) else Err(ParseError);
    }

    method Comprehension(fn: string) returns (r: Read<Expr>)
      requires Valid() && At(Rest(), "(")
      modifies this
      ensures Reads(r, ParseComprehension(fn, Drop(old(Rest()))), old(depth))
      ensures depth >= old(depth) && (r.Ok? ==> Valid())
      decreases |Rest()|, 15
    {
      var _ := Next();
      var distinct := At_("distinct");
      if distinct {
        var _ := Next();
      }
      var binder := Next();
      var ok := Expect("in");
      if !ok {
        return Err(ParseError);
      }
      ghost var ahead := Rest();
      var coll := Additive();
      if coll.Err? {
        return Err(ParseError);
      }
      r := Loop(fn, distinct, binder.text, coll.value, ParseAt(5, ahead).value);
    }

    /** A comprehension's clauses, after its collection. */
    method Loop(fn: string, distinct: bool, binder: string, over: Expr, ghost coll: Got<Expr>) returns (r: Read<Expr>)
      requires Valid() && coll.rest == Rest() && coll.v == over && depth + coll.nest <= MAX_NESTING
      modifies this
      ensures Reads(r, ParseLoop(fn, distinct, binder, coll), old(depth))
      ensures depth >= old(depth) && (r.Ok? ==> Valid())
      decreases |Rest()|, 15
    {
      var where := Clause("where");
      if where.Err? {
        return Err(ParseError);
      }
      var body := Clause(":");
      if body.Err? || (body.value.None? && (fn in BODIED || distinct)) {
        return Err(ParseError);
      }
      var ok := Expect(")");
      return if ok then Ok(Agg(fn, distinct, Some(binder), Some(over), where.value, body.value)) else Err(ParseError);
    }

    method Metric_() returns (r: Read<Expr>)
      requires Valid() && At(Rest(), "(")
      modifies this
      ensures Reads(r, ParseMetric(Drop(old(Rest()))), old(depth))
      ensures depth >= old(depth) && (r.Ok? ==> Valid())
      decreases |Rest()|, 15
    {
      var _ := Next();
      ghost var s := ParseMetric(Rest());
      ghost var nest: nat := if ParseAt(5, Rest()).Ok? then ParseAt(5, Rest()).value.nest else 0;
      var name := Additive();
      if name.Err? {
        return Err(ParseError);
      }
      var m := Metric(name.value, [], None, None);
      var more := At_(",");
      while more
        invariant Valid() && depth == old(depth) && |Rest()| < |old(Rest())| && m.Metric?
        invariant s == ParseClauses(Got(m, Rest(), nest))
        invariant depth + nest <= MAX_NESTING && more == At(Rest(), ",")
        decreases |Rest()|
      {
        var _ := Next();
        ghost var l := Got(m, Rest(), nest);
        var next := MetricClause(m, l);
        if next.Err? {
          return Err(ParseError);
        }
        m := next.value;
        nest := ParseClause(l).value.nest;
        more := At_(",");
      }
      var ok := Expect(")");
      return if ok then Ok(m) else Err(ParseError);
    }

    /** One of a metric's clauses, after its comma. */
    method MetricClause(m: Expr, ghost l: Got<Expr>) returns (r: Read<Expr>)
      requires Valid() && m.Metric? && l.v == m && l.rest == Rest() && depth + l.nest <= MAX_NESTING
      modifies this
      ensures Reads(r, ParseClause(l), old(depth))
      ensures depth >= old(depth) && (r.Ok? ==> Valid())
      decreases |Rest()|, 14
    {
      var isOver := At_("over");
      var isFresh := At_("fresh");
      if isOver {
        var _ := Next();
        var ok := Expect("last");
        if !ok {
          return Err(ParseError);
        }
        var p := Primary();
        return if p.Ok? then Ok(m.(over := Some(p.value))) else Err(ParseError);
      } else if isFresh {
        var _ := Next();
        var p := Primary();
        return if p.Ok? then Ok(m.(fresh_ := Some(p.value))) else Err(ParseError);
      } else {
        var dim := Next();
        var ok := Expect(":=");
        if !ok {
          return Err(ParseError);
        }
        var x := Expression();
        return if x.Ok? then Ok(m.(binds := m.binds + [(dim.text, x.value)])) else Err(ParseError);
      }
    }

    method ChangedSince() returns (r: Read<Expr>)
      requires Valid() && At(Rest(), "(")
      modifies this
      ensures Reads(r, ParseChanged(Drop(old(Rest()))), old(depth))
      ensures depth >= old(depth) && (r.Ok? ==> Valid())
      decreases |Rest()|, 15
    {
      Steps.ChangedReads(Drop(Rest()));
      var _ := Next();
      var ok := Expect("[");
      if !ok {
        return Err(ParseError);
      }
      var names := Names();
      if names.Err? {
        return Err(ParseError);
      }
      ok := Expect(",");
      if !ok {
        return Err(ParseError);
      }
      var event := Expression();
      if event.Err? {
        return Err(ParseError);
      }
      ok := Expect(")");
      return if ok then Ok(Changed(names.value, event.value)) else Err(ParseError);
    }

    /** The names of `changed_since`, up to the closing bracket. */
    method Names() returns (r: Read<seq<string>>)
      requires Valid()
      modifies this
      ensures Reads(r, ParseNames(old(Rest())), old(depth))
      ensures depth >= old(depth) && (r.Ok? ==> Valid())
    {
      ghost var s := ParseNames(Rest());
      var names: seq<string> := [];
      assert s.Ok? ==> names + s.value.v == s.value.v;
      while true
        invariant Valid() && depth == old(depth)
        invariant s == NamesAfter(names, ParseNames(Rest()))
        decreases |Rest()|
      {
        ghost var ahead := Rest();
        var end := At_("]");
        if end {
          var _ := Next();
          assert names + [] == names;
          return Ok(names);
        }
        Steps.NamesReads(ahead);
        var name := Next();
        end := At_("]");
        if end {
          var _ := Next();
          return Ok(names + [name.text]);
        }
        var ok := Expect(",");
        if !ok {
          return Err(ParseError);
        }
        NamesMore(names, name.text, ParseNames(Rest()));
        names := names + [name.text];
      }
    }
  }

  /** An expression reads within the bound, and the list closes or goes on after it. */
  ghost predicate ItemReads(close: string, ts: seq<Token>, depth: nat) {
    var x := ParseExpr(ts);
    x.Ok? && depth + x.value.nest <= MAX_NESTING && (At(x.value.rest, close) || At(x.value.rest, ","))
  }

  lemma ItemFails(close: string, ts: seq<Token>, depth: nat)
    requires !At(ts, close) && !ItemReads(close, ts, depth)
    ensures var more := ParseList(close, ts); more.Err? || depth + more.value.nest > MAX_NESTING
  {
    Steps.ListTooDeep(close, ts);
    if ParseExpr(ts).Err? || (!At(ParseExpr(ts).value.rest, close) && !At(ParseExpr(ts).value.rest, ",")) {
      Steps.ListFails(close, ts);
    }
  }

  /** What a list reads after some of its expressions. */
  ghost function Listed(args: seq<Expr>, nest: nat, more: Parse<seq<Expr>>): Parse<seq<Expr>> {
    if more.Err? then more else Ok(Got(args + more.value.v, more.value.rest, Max(nest, more.value.nest)))
  }

  lemma ListedMore(args: seq<Expr>, nest: nat, x: Got<Expr>, more: Parse<seq<Expr>>)
    ensures Listed(args, nest, if more.Err? then more
                               else Ok(Got([x.v] + more.value.v, more.value.rest, Max(x.nest, more.value.nest)))) ==
            Listed(args + [x.v], Max(nest, x.nest), more)
  {
    if more.Ok? {
      assert args + ([x.v] + more.value.v) == args + [x.v] + more.value.v;
    }
  }

  /** What the names of `changed_since` are after some of them. */
  ghost function NamesAfter(names: seq<string>, more: Parse<seq<string>>): Parse<seq<string>> {
    if more.Err? then more else Ok(Got(names + more.value.v, more.value.rest, 0))
  }

  lemma NamesMore(names: seq<string>, name: string, more: Parse<seq<string>>)
    ensures NamesAfter(names, if more.Err? then more else Ok(Got([name] + more.value.v, more.value.rest, 0))) ==
            NamesAfter(names + [name], more)
  {
    if more.Ok? {
      assert names + ([name] + more.value.v) == names + [name] + more.value.v;
    }
  }
}
