/** The objects conditions are evaluated on: one there is, and one a creation is about to make, which the analysis reads as
    though there were one already. */
module Objects {
  import opened Wrappers
  import opened Syntax
  import opened TypeModel
  import opened Bounds
  import opened Atoms
  import opened CaseProducts
  import opened Conditions
  import opened Expansion
  import opened Exactness

  /** A variable never read: on a creation, that of an attribute of an input's name. */
  predicate Shadowed(m: Model, x: Var) {
    m.created && x.AttrVar? && x.attr in m.inputs
  }

  /** The values read are as declared. */
  ghost predicate Typed(m: Model, vars: imap<Var, Value>) {
    forall x | VarInfo(m, x).Some? && !x.CountVar? && !Shadowed(m, x) :: Fits(VarInfo(m, x).value, Lookup(vars, x))
  }

  /** An object there is: its values typed as declared, its derived attributes as they derive. */
  ghost predicate Ordinary(m: Model, w: World) {
    !m.created && Typed(m, w.vars) && Coherent(m, w)
  }

  /** Values a valuation may have: on a creation, those of an attribute of an input's name are the input's. */
  ghost predicate Readable(m: Model, u: World) {
    Typed(m, u.vars) && (m.created ==> forall n | n in m.attrs && n in m.inputs :: Lookup(u.vars, AttrVar(n)) == Lookup(u.vars, InputVar(n)))
  }

  // ── an object about to be created ────────────────────────────────────────

  /** What a creation's guards are evaluated on: there is no object, so no state, no attribute but one the creation takes as
      an input, which is as supplied, and no derived one. */
  ghost predicate Unborn(m: Model, taken: set<string>, w: World) {
    && m.created && taken <= m.inputs.Keys
    && Lookup(w.vars, StateVar).None? && (forall s :: Lookup(w.vars, EnteredVar(s)).None?)
    && (forall n | n in m.attrs :: Lookup(w.vars, AttrVar(n)) == if n in taken then Lookup(w.vars, InputVar(n)) else None)
    && (forall d | d in m.derived :: Truth(m, w, Name(d)) == U)
    && (forall x: Var | (x.InputVar? || x.NowVar?) && VarInfo(m, x).Some? :: Fits(VarInfo(m, x).value, Lookup(w.vars, x)))
  }

  /** An attribute that counts, which is never absent of an object there is. */
  predicate IsCounter(m: Model, n: string) {
    n in m.attrs && Kind(m, Some(m.attrs[n]), true) == Some(Integral(false))
  }

  /** What the analysis reads there where there is nothing: a state, a number in each counter, and each input as the
      attribute of its name. */
  ghost function ReadVar(m: Model, to: string, w: World, x: Var): Option<Value> {
    match x
    case StateVar => Some(VName(to))
    case AttrVar(n) =>
      if n in m.attrs && n in m.inputs then Lookup(w.vars, InputVar(n))
      else if IsCounter(m, n) then Some(VNum(0.0))
      else Lookup(w.vars, x)
    case _ => Lookup(w.vars, x)
  }

  ghost function AsRead(m: Model, to: string, w: World): World {
    w.(vars := imap x: Var | ReadVar(m, to, w, x).Some? :: ReadVar(m, to, w, x).value)
  }

  lemma AsReadVar(m: Model, to: string, w: World, x: Var)
    ensures Lookup(AsRead(m, to, w).vars, x) == ReadVar(m, to, w, x)
  {
  }

  lemma AsReadReadable(m: Model, taken: set<string>, to: string, w: World)
    requires Unborn(m, taken, w) && to in m.states
    ensures Readable(m, AsRead(m, to, w))
  {
    var u := AsRead(m, to, w);
    forall x | VarInfo(m, x).Some? && !x.CountVar? && !Shadowed(m, x) ensures Fits(VarInfo(m, x).value, Lookup(u.vars, x)) {
      AsReadVar(m, to, w, x);
      if x.StateVar? {
        assert VName(to) in StateValues(m);
      }
    }
    forall n | n in m.attrs && n in m.inputs ensures Lookup(u.vars, AttrVar(n)) == Lookup(u.vars, InputVar(n)) {
      AsReadVar(m, to, w, AttrVar(n));
      AsReadVar(m, to, w, InputVar(n));
    }
  }

  /** The names read there where there is nothing. */
  function Assumed(m: Model, taken: set<string>): set<string> {
    {"state"} + set n | n in m.attrs && IsAttr(m, n) && n !in taken && (n in m.inputs || IsCounter(m, n)) :: n
  }

  /** The name of its own object that an expression is. */
  function OwnName(e: Expr): Option<string> {
    if e.Name? then Some(e.name) else if e.Path? && e.base == Name("this") then Some(e.member) else None
  }

  /** The names whose absence a condition tests, and the analysis reads the test of. */
  function NamesTested(a: Analysis, e: Expr, inlining: set<string>): set<string>
    decreases a.m.derived.Keys - inlining, e
  {
    if IsConnective(e) then NamesTested(a, e.left, inlining) + NamesTested(a, e.right, inlining)
    else if e.Not? then NamesTested(a, e.e, inlining)
    else if Inlines(a, e, inlining) then NamesTested(a, a.m.derived[e.name], inlining + {e.name})
    else if e.IsNull? && OwnName(e.e).Some? && !IsOpaque(a, e) then {OwnName(e.e).value}
    else {}
  }

  /** No condition tests for its absence what is read there where there is nothing. */
  predicate TestsApart(m: Model, taken: set<string>, e: Expr) {
    NamesTested(Unwritten(m), e, {}) !! Assumed(m, taken)
  }

  // ── what is known of nothing is known of what is read there ──────────────

  /** A value there is is the value read. */
  ghost predicate Grows(value: Option<Value>, read: Option<Value>) {
    value.None? || value == read
  }

  lemma NameGrows(m: Model, taken: set<string>, to: string, w: World, n: string)
    requires Unborn(m, taken, w) && ResolveName(Unwritten(m), n) != NotModelled && NamesApart(m)
    ensures Grows(NameValue(m, w, n), NameValue(m, AsRead(m, to, w), n))
    ensures n !in Assumed(m, taken) ==> NameValue(m, w, n) == NameValue(m, AsRead(m, to, w), n)
  {
    AsReadVar(m, to, w, NowVar);
    AsReadVar(m, to, w, AttrVar(n));
  }

  lemma PathGrows(m: Model, taken: set<string>, to: string, w: World, e: Expr)
    requires Unborn(m, taken, w) && e.Path? && Resolve(Unwritten(m), e) != NotModelled && NamesApart(m)
    ensures Grows(ValueOf(m, w, e), ValueOf(m, AsRead(m, to, w), e))
    ensures (OwnName(e).Some? ==> OwnName(e).value !in Assumed(m, taken)) ==> ValueOf(m, w, e) == ValueOf(m, AsRead(m, to, w), e)
  {
    assert Resolve(Unwritten(m), e) == ResolvePath(Unwritten(m), e.base, e.member);
    if e.base == Name("this") {
      NameGrows(m, taken, to, w, e.member);
    } else if e.base == Name("inputs") {
      AsReadVar(m, to, w, InputVar(e.member));
    }
  }

  lemma ValueGrows(m: Model, taken: set<string>, to: string, w: World, e: Expr)
    requires Unborn(m, taken, w) && Resolve(Unwritten(m), e) != NotModelled && NamesApart(m)
    ensures Grows(ValueOf(m, w, e), ValueOf(m, AsRead(m, to, w), e))
    ensures (OwnName(e).Some? ==> OwnName(e).value !in Assumed(m, taken)) ==> ValueOf(m, w, e) == ValueOf(m, AsRead(m, to, w), e)
  {
    if e.Name? {
      NameGrows(m, taken, to, w, e.name);
    } else if e.Path? {
      PathGrows(m, taken, to, w, e);
    } else if e.Call? {
      AsReadVar(m, to, w, EnteredVar(e.args[0].name));
    }
  }

  lemma CountGrows(m: Model, to: string, w: World, e: Expr)
    requires e.Agg?
    ensures CountOf(AsRead(m, to, w), e) == CountOf(w, e) && AnyOf(AsRead(m, to, w), e) == AnyOf(w, e)
  {
  }

  lemma SumGrows(m: Model, w: World, u: World, e: Expr)
    requires e.Bin? && (e.op == Add || e.op == Sub)
    requires Grows(ValueOf(m, w, e.left), ValueOf(m, u, e.left)) && Grows(ValueOf(m, w, e.right), ValueOf(m, u, e.right))
    ensures Grows(ValueOf(m, w, e), ValueOf(m, u, e))
  {
  }

  lemma {:induction false} LineGrows(m: Model, taken: set<string>, to: string, w: World, e: Expr)
    requires Unborn(m, taken, w) && Linear(Unwritten(m), e).Some? && NamesApart(m)
    ensures Grows(ValueOf(m, w, e), ValueOf(m, AsRead(m, to, w), e))
  {
    if e.Bin? && (e.op == Add || e.op == Sub) {
      LineGrows(m, taken, to, w, e.left);
      LineGrows(m, taken, to, w, e.right);
      SumGrows(m, w, AsRead(m, to, w), e);
    } else if IsCount(m, e) {
      CountGrows(m, to, w, e);
    } else {
      ValueGrows(m, taken, to, w, e);
    }
  }

  lemma ComparedGrows(op: Op, a: Option<Value>, b: Option<Value>, x: Option<Value>, y: Option<Value>)
    requires IsComparison(op) && (a.None? || b.None? || (a == x && b == y))
    ensures Below(Compared(op, a, b), Compared(op, x, y))
  {
  }

  lemma CompareGrows(m: Model, taken: set<string>, to: string, w: World, e: Expr)
    requires Unborn(m, taken, w) && NamesApart(m) && e.Bin? && IsComparison(e.op) && !IsOpaque(Unwritten(m), e)
    ensures Below(Truth(m, w, e), Truth(m, AsRead(m, to, w), e))
  {
    var a, u := Unwritten(m), AsRead(m, to, w);
    assert LeafCases(a, e, T) != OpaqueCases(e, T);
    if LinearDecides(a, e) {
      LineGrows(m, taken, to, w, e.left);
      LineGrows(m, taken, to, w, e.right);
    } else {
      assert ShapeCases(a, e, T).Some?;
      SidesGrow(m, taken, to, w, e);
    }
    ComparedTruth(m, w, e);
    ComparedTruth(m, u, e);
    ComparedGrows(e.op, ValueOf(m, w, e.left), ValueOf(m, w, e.right), ValueOf(m, u, e.left), ValueOf(m, u, e.right));
  }

  lemma SidesGrow(m: Model, taken: set<string>, to: string, w: World, e: Expr)
    requires Unborn(m, taken, w) && NamesApart(m) && e.Bin? && IsComparison(e.op) && ShapeCases(Unwritten(m), e, T).Some?
    ensures var u := AsRead(m, to, w); var a, b := ValueOf(m, w, e.left), ValueOf(m, w, e.right);
            a.None? || b.None? || (a == ValueOf(m, u, e.left) && b == ValueOf(m, u, e.right))
  {
    var l, r := Resolve(Unwritten(m), e.left), Resolve(Unwritten(m), e.right);
    if l.NullValue? {
      NullIsAbsent(m, w, e.left);
    } else if r.NullValue? {
      NullIsAbsent(m, w, e.right);
    } else if l != NotModelled && r != NotModelled {
      ValueGrows(m, taken, to, w, e.left);
      ValueGrows(m, taken, to, w, e.right);
    } else {
      assert IsStateCategory(e.left) && ValueOf(m, w, e.left) == None;
    }
  }

  lemma NullIsAbsent(m: Model, w: World, e: Expr)
    requires Resolve(Unwritten(m), e).NullValue?
    ensures ValueOf(m, w, e) == None
  {
    NullIsNull(m, e);
  }

  lemma NameNotNull(m: Model, n: string)
    ensures !ResolveName(Unwritten(m), n).NullValue?
  {
  }

  lemma NullIsNull(m: Model, e: Expr)
    ensures Resolve(Unwritten(m), e).NullValue? ==> e.Null?
  {
    var a := Unwritten(m);
    if e.Path? {
      assert Resolve(a, e) == ResolvePath(a, e.base, e.member);
      NameNotNull(m, e.member);
    } else if e.Name? {
      NameNotNull(m, e.name);
    }
  }

  lemma MembershipGrows(m: Model, taken: set<string>, to: string, w: World, e: Expr)
    requires Unborn(m, taken, w) && NamesApart(m) && e.In? && !IsOpaque(Unwritten(m), e)
    ensures Below(Truth(m, w, e), Truth(m, AsRead(m, to, w), e))
  {
    var a, u := Unwritten(m), AsRead(m, to, w);
    assert MembershipCases(a, e, T) == LeafCases(a, e, T) != OpaqueCases(e, T);
    ValueGrows(m, taken, to, w, e.left);
    if e.right.SetLit? {
      var items := e.right.items;
      forall i | 0 <= i < |items| ensures ValueOf(m, w, items[i]) == ValueOf(m, u, items[i]) {
        assert Resolve(a, items[i]).Literal?;
        LiteralGrows(m, w, u, items[i]);
      }
    }
  }

  lemma LiteralGrows(m: Model, w: World, u: World, e: Expr)
    requires Resolve(Unwritten(m), e).Literal? && NamesApart(m)
    ensures ValueOf(m, w, e) == ValueOf(m, u, e)
  {
    if e.Path? {
      assert Resolve(Unwritten(m), e) == ResolvePath(Unwritten(m), e.base, e.member);
      NamedLiteral(m, w, u, e.member);
    } else if e.Name? {
      NamedLiteral(m, w, u, e.name);
    }
  }

  lemma NamedLiteral(m: Model, w: World, u: World, n: string)
    requires NamesApart(m)
    ensures ResolveName(Unwritten(m), n).Literal? ==> NameValue(m, w, n) == NameValue(m, u, n)
  {
  }

  lemma LeafGrows(m: Model, taken: set<string>, to: string, w: World, e: Expr)
    requires Unborn(m, taken, w) && NamesApart(m) && !IsConnective(e) && !e.Not?
    requires !IsOpaque(Unwritten(m), e)
    requires e.IsNull? && OwnName(e.e).Some? ==> OwnName(e.e).value !in Assumed(m, taken)
    ensures Below(Truth(m, w, e), Truth(m, AsRead(m, to, w), e))
  {
    var a, u := Unwritten(m), AsRead(m, to, w);
    assert LeafCases(a, e, T) != OpaqueCases(e, T);
    if e.Bin? && IsComparison(e.op) {
      CompareGrows(m, taken, to, w, e);
    } else if e.In? {
      MembershipGrows(m, taken, to, w, e);
    } else if IsAnyOrNone(m, e) {
      CountGrows(m, to, w, e);
    } else if e.IsNull? {
      ValueGrows(m, taken, to, w, e.e);
    } else if e == Name("open") && "open" !in m.attrs {
      assert ValueOf(m, w, e) == None;
    } else if !e.Bool? {
      ValueGrows(m, taken, to, w, e);
    }
  }

  // ── a guard's leaves, of either ──────────────────────────────────────────

  /** An object a request is asked of, and what the analysis reads of it for a condition: the object there is; or, on a
      creation, what it reads there where there is none, where the condition does not test for that. */
  ghost predicate AskedAs(m: Model, taken: set<string>, w: World, u: World, e: Expr) {
    if m.created then Unborn(m, taken, w) && TestsApart(m, taken, e) && exists to :: to in m.states && u == AsRead(m, to, w)
    else Ordinary(m, w) && u == w
  }

  /** A valuation that has what the analysis reads, and the truth of what is left opaque, reads a guard. */
  lemma AskedSound(m: Model, taken: set<string>, w: World, u: World, v: Valuation, e: Expr)
    requires AskedAs(m, taken, w, u, e) && Agrees(Unwritten(m), u, v, NamesResolved(Unwritten(m), e, {}))
    requires LeavesAgree(Unwritten(m), w, v, e, {}) && CountsRelate(Covering, w, v.vars, CountsRead(Unwritten(m), e, {}))
    ensures Sound(Covering, Unwritten(m), w, v, e, {})
  {
    if m.created {
      var to :| to in m.states && u == AsRead(m, to, w);
      UnbornSound(m, taken, to, w, v, e, {});
    } else {
      ReadsForSound(Covering, Unwritten(m), w, v, e, {});
    }
  }

  lemma {:induction false} UnbornSound(m: Model, taken: set<string>, to: string, w: World, v: Valuation, e: Expr,
                                       inlining: set<string>)
    requires Unborn(m, taken, w) && NamesTested(Unwritten(m), e, inlining) !! Assumed(m, taken)
    requires Agrees(Unwritten(m), AsRead(m, to, w), v, NamesResolved(Unwritten(m), e, inlining))
    requires LeavesAgree(Unwritten(m), w, v, e, inlining)
    requires CountsRelate(Covering, w, v.vars, CountsRead(Unwritten(m), e, inlining))
    ensures Sound(Covering, Unwritten(m), w, v, e, inlining)
    decreases m.derived.Keys - inlining, e
  {
    var a := Unwritten(m);
    if IsConnective(e) {
      assert NamesResolved(a, e, inlining) == NamesResolved(a, e.left, inlining) + NamesResolved(a, e.right, inlining);
      assert CountsRead(a, e, inlining) == CountsRead(a, e.left, inlining) + CountsRead(a, e.right, inlining);
      UnbornSound(m, taken, to, w, v, e.left, inlining);
      UnbornSound(m, taken, to, w, v, e.right, inlining);
    } else if e.Not? {
      UnbornSound(m, taken, to, w, v, e.e, inlining);
    } else if Inlines(a, e, inlining) {
      UnbornSound(m, taken, to, w, v, m.derived[e.name], inlining + {e.name});
      assert Truth(m, w, Name(e.name)) == U;
    } else {
      UnbornLeaf(m, taken, to, w, v, e, inlining);
    }
  }

  lemma UnbornLeaf(m: Model, taken: set<string>, to: string, w: World, v: Valuation, e: Expr, inlining: set<string>)
    requires !IsConnective(e) && !e.Not? && !Inlines(Unwritten(m), e, inlining)
    requires Unborn(m, taken, w) && NamesTested(Unwritten(m), e, inlining) !! Assumed(m, taken)
    requires Agrees(Unwritten(m), AsRead(m, to, w), v, LeafNames(Unwritten(m), e))
    requires IsOpaque(Unwritten(m), e) ==> OracleAgrees(m, w, v, e)
    requires CountsRelate(Covering, w, v.vars, LeafCounts(Unwritten(m), e))
    ensures LeafSound(Covering, Unwritten(m), w, v, e)
  {
    var a, u := Unwritten(m), AsRead(m, to, w);
    if IsOpaque(a, e) {
      OpaqueLeafIs(a, w, v, e);
      LeafReadIs(a, v, e, Truth(m, w, e));
    } else {
      CountsAsRead(m, to, w, v.vars, LeafCounts(a, e));
      var read := LeafReads(Covering, a, u, v, e, LeafNames(a, e));
      LeafReadIs(a, v, e, read);
      LeafGrows(m, taken, to, w, e);
    }
  }

  lemma CountsAsRead(m: Model, to: string, w: World, vars: imap<Var, Value>, counts: set<Expr>)
    requires CountsRelate(Covering, w, vars, counts)
    ensures CountsRelate(Covering, AsRead(m, to, w), vars, counts)
  {
    forall g | g in counts && g.Agg? && g.coll.Some? ensures CountReads(Covering, AsRead(m, to, w), g, Lookup(vars, KeyOf(g))) {
      CountGrows(m, to, w, g);
      assert CountReads(Covering, w, g, Lookup(vars, KeyOf(g)));
    }
  }
}
