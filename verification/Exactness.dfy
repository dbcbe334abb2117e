/** Case expansion is exact: a condition has a value over an object exactly where a case of that value's expansion
    holds of what the object holds. */
module Exactness {
  import opened Wrappers
  import opened Syntax
  import opened TypeModel
  import opened Weights
  import opened Bounds
  import opened Atoms
  import opened CaseProducts
  import opened Conditions
  import opened Expansion

  // ── the counts a condition reads ─────────────────────────────────────────

  predicate IsTallied(m: Model, e: Expr) {
    IsCount(m, e) || IsAnyOrNone(m, e)
  }

  /** The counts a linear form reads. */
  function CountsIn(m: Model, e: Expr): (r: set<Expr>)
    ensures forall g | g in r :: IsCount(m, g)
  {
    if e.Bin? && (e.op == Add || e.op == Sub) then CountsIn(m, e.left) + CountsIn(m, e.right)
    else if IsCount(m, e) then {e}
    else {}
  }

  /** The aggregates of own collections that a leaf is read through. */
  function LeafCounts(a: Analysis, e: Expr): (r: set<Expr>)
    ensures forall g | g in r :: IsTallied(a.m, g)
  {
    if e.Bin? && IsComparison(e.op) && LinearDecides(a, e) then CountsIn(a.m, e.left) + CountsIn(a.m, e.right)
    else if IsAnyOrNone(a.m, e) then {e}
    else {}
  }

  function CountsRead(a: Analysis, e: Expr, inlining: set<string>): (r: set<Expr>)
    ensures forall g | g in r :: IsTallied(a.m, g)
    decreases a.m.derived.Keys - inlining, e
  {
    if IsConnective(e) then CountsRead(a, e.left, inlining) + CountsRead(a, e.right, inlining)
    else if e.Not? then CountsRead(a, e.e, inlining)
    else if Inlines(a, e, inlining) then CountsRead(a, a.m.derived[e.name], inlining + {e.name})
    else LeafCounts(a, e)
  }

  /** The variable an aggregate is read through: its collection and its filter, and no more of it. */
  function KeyOf(g: Expr): Var
    requires g.Agg? && g.coll.Some?
  {
    CountVar(g.coll.value, g.where)
  }

  // ── the names a condition resolves ───────────────────────────────────────

  /** The name of its own object a value's node is read by, if any. */
  function ValueNames(e: Expr): set<string> {
    match e
    case Name(n) => {n}
    case Path(base, member) =>
      if base == Name("this") then {member} else if base == Name("state") then {"state"} else {}
    case Call(f, _) => if f == Name("entered_at") then {"state"} else {}
    case _ => {}
  }

  function LineNames(m: Model, e: Expr): set<string> {
    if e.Bin? && (e.op == Add || e.op == Sub) then LineNames(m, e.left) + LineNames(m, e.right)
    else if IsCount(m, e) then {}
    else ValueNames(e)
  }

  function ItemNames(items: seq<Expr>): set<string> {
    set i, n | 0 <= i < |items| && n in ValueNames(items[i]) :: n
  }

  /** The names of two sides compared, as forms or as values. */
  function CompareNames(m: Model, e: Expr): set<string>
    requires e.Bin?
  {
    LineNames(m, e.left) + LineNames(m, e.right) + ValueNames(e.left) + ValueNames(e.right)
  }

  /** The analysis leaves a leaf opaque. */
  predicate IsOpaque(a: Analysis, e: Expr) {
    exists t: Tri :: LeafCases(a, e, t) == OpaqueCases(e, t)
  }

  /** The names of its own object that a leaf is read by, none where it is opaque. */
  function LeafNames(a: Analysis, e: Expr): set<string> {
    if IsOpaque(a, e) || e.Bool? || IsAnyOrNone(a.m, e) then {}
    else if e.IsNull? then ValueNames(e.e)
    else if e.Bin? && IsComparison(e.op) then CompareNames(a.m, e)
    else if e.In? then ValueNames(e.left) + (if e.right.SetLit? then ItemNames(e.right.items) else {})
    else if e == Name("open") && "open" !in a.m.attrs then {"state"}
    else ValueNames(e)
  }

  function NamesResolved(a: Analysis, e: Expr, inlining: set<string>): set<string>
    decreases a.m.derived.Keys - inlining, e
  {
    if IsConnective(e) then NamesResolved(a, e.left, inlining) + NamesResolved(a, e.right, inlining)
    else if e.Not? then NamesResolved(a, e.e, inlining)
    else if Inlines(a, e, inlining) then NamesResolved(a, a.m.derived[e.name], inlining + {e.name})
    else LeafNames(a, e)
  }

  // ── what a valuation says of an object ───────────────────────────────────

  /** How far what a valuation has of the aggregates is what the object has: wholly; wherever the object's is known; or
      wherever the valuation's is. */
  datatype Reading = Exact | Covering | Under

  predicate Reads(r: Reading, read: Tri, truth: Tri) {
    match r
    case Exact => read == truth
    case Covering => Below(truth, read)
    case Under => Below(read, truth)
  }

  predicate ReadsValue(r: Reading, read: Option<Value>, value: Option<Value>) {
    match r
    case Exact => read == value
    case Covering => value.None? || read == value
    case Under => read.None? || read == value
  }

  /** What `any` makes of a count. */
  function AnySeen(c: Option<Value>): Tri {
    match c
    case Some(VNum(r)) => OfBool(r >= 1.0)
    case _ => U
  }

  /** A count variable's value reads an aggregate. */
  ghost predicate CountReads(r: Reading, w: World, g: Expr, c: Option<Value>)
    requires g.Agg?
  {
    if g.kind == "count" then ReadsValue(r, c, CountOf(w, g)) else Reads(r, AnySeen(c), AnyOf(w, g))
  }

  ghost predicate CountsRelate(r: Reading, w: World, vars: imap<Var, Value>, counts: set<Expr>) {
    forall g | g in counts && g.Agg? && g.coll.Some? :: CountReads(r, w, g, Lookup(vars, KeyOf(g)))
  }

  ghost predicate Denotes(vars: imap<Var, Value>, r: Resolved, value: Option<Value>) {
    match r
    case Variable(x) => value == Lookup(vars, x)
    case Literal(_, v) => value == Some(v)
    case NullValue => value == None
    case NotModelled => true
  }

  ghost predicate AttrsDenoted(a: Analysis, w: World, vars: imap<Var, Value>, names: set<string>) {
    forall n | n in names && IsAttr(a.m, n) :: Denotes(vars, ResolveName(a, n), Lookup(w.vars, AttrVar(n)))
  }

  /** A name that is read as an attribute. */
  predicate IsAttr(m: Model, n: string) {
    n in m.attrs && n != "now" && n != "state"
  }

  ghost predicate StateAgrees(a: Analysis, w: World, vars: imap<Var, Value>) {
    match a.fixedState
    case Some(s) => s in a.m.states && Lookup(w.vars, StateVar) == Some(VName(s))
    case None =>
      && Lookup(w.vars, StateVar) == Lookup(vars, StateVar)
      && forall s :: Lookup(w.vars, EnteredVar(s)) == Lookup(vars, EnteredVar(s))
  }

  /** A valuation has what the analysis reads of an object by some of its names, and of the inputs. */
  ghost predicate ReadsAgree(a: Analysis, w: World, vars: imap<Var, Value>, names: set<string>) {
    && AttrsDenoted(a, w, vars, names)
    && ("state" in names ==> StateAgrees(a, w, vars))
    && Lookup(w.vars, NowVar) == Lookup(vars, NowVar)
    && (forall i :: Lookup(w.vars, InputVar(i)) == Lookup(vars, InputVar(i)))
  }

  /** A valuation says of an object what the analysis reads of it by some names, each value through what the writes make
      of it, the aggregates apart. */
  ghost predicate Agrees(a: Analysis, w: World, v: Valuation, names: set<string>) {
    WellTyped(a.m, v.vars) && ReadsAgree(a, w, v.vars, names) && NamesApart(a.m)
  }

  ghost predicate OracleAgrees(m: Model, w: World, v: Valuation, e: Expr) {
    Lookup(v.oracle, e) == Some(Truth(m, w, e))
  }

  // ── values ───────────────────────────────────────────────────────────────

  lemma NameDenotes(a: Analysis, w: World, vars: imap<Var, Value>, n: string, names: set<string>)
    requires ReadsAgree(a, w, vars, names) && NamesApart(a.m) && n in names
    ensures Denotes(vars, ResolveName(a, n), NameValue(a.m, w, n))
  {
    if IsAttr(a.m, n) {
      assert Denotes(vars, ResolveName(a, n), Lookup(w.vars, AttrVar(n)));
    }
  }

  lemma PathDenotes(a: Analysis, w: World, vars: imap<Var, Value>, base: Expr, member: string, names: set<string>)
    requires ReadsAgree(a, w, vars, names) && NamesApart(a.m) && ValueNames(Path(base, member)) <= names
    ensures Denotes(vars, ResolvePath(a, base, member), PathValue(a.m, w, base, member))
  {
    if base == Name("this") {
      NameDenotes(a, w, vars, member, names);
    }
  }

  lemma ResolveDenotes(a: Analysis, w: World, vars: imap<Var, Value>, e: Expr, names: set<string>)
    requires ReadsAgree(a, w, vars, names) && NamesApart(a.m) && ValueNames(e) <= names
    ensures Denotes(vars, Resolve(a, e), ValueOf(a.m, w, e))
  {
    if e.Name? {
      NameDenotes(a, w, vars, e.name, names);
    } else if e.Path? {
      PathDenotes(a, w, vars, e.base, e.member, names);
    } else if e.Call? {
      CallDenotes(a, w, vars, e, names);
    }
  }

  lemma CallDenotes(a: Analysis, w: World, vars: imap<Var, Value>, e: Expr, names: set<string>)
    requires ReadsAgree(a, w, vars, names) && e.Call? && ValueNames(e) <= names
    ensures Denotes(vars, Resolve(a, e), ValueOf(a.m, w, e))
  {
  }

  ghost function LineValue(vars: imap<Var, Value>, l: Line): Option<Value> {
    match l.x
    case None => Some(VNum(l.c))
    case Some(x) => (match Lookup<Var, Value>(vars, x) case Some(VNum(r)) => Some(VNum(r + l.c)) case _ => None)
  }

  ghost predicate LineFits(m: Model, vars: imap<Var, Value>, l: Line) {
    l.x.Some? ==> OrderOf(m, l.x.value).Some? && (l.x.value in vars ==> vars[l.x.value].VNum?)
  }

  lemma OrderedIsNumber(m: Model, vars: imap<Var, Value>, x: Var)
    requires WellTyped(m, vars) && OrderOf(m, x).Some?
    ensures x in vars ==> vars[x].VNum?
  {
    assert Fits(VarInfo(m, x).value, Lookup(vars, x));
  }

  /** What a linear form says of an expression's value. */
  ghost predicate LineDenotes(r: Reading, m: Model, vars: imap<Var, Value>, l: Line, value: Option<Value>) {
    LineFits(m, vars, l) && ReadsValue(r, LineValue(vars, l), value)
  }

  lemma CountDenotes(r: Reading, a: Analysis, w: World, v: Valuation, e: Expr, names: set<string>)
    requires Agrees(a, w, v, names) && IsCount(a.m, e) && CountsRelate(r, w, v.vars, {e})
    ensures LineDenotes(r, a.m, v.vars, Line(Some(KeyOf(e)), 0.0, KInt), ValueOf(a.m, w, e))
  {
    OrderedIsNumber(a.m, v.vars, KeyOf(e));
    assert CountReads(r, w, e, Lookup(v.vars, KeyOf(e)));
  }

  lemma ValueLineDenotes(r: Reading, a: Analysis, w: World, v: Valuation, e: Expr, names: set<string>)
    requires Agrees(a, w, v, names) && ValueNames(e) <= names && !e.Bin? && !IsCount(a.m, e) && Linear(a, e).Some?
    ensures LineDenotes(r, a.m, v.vars, Linear(a, e).value, ValueOf(a.m, w, e))
  {
    ResolveDenotes(a, w, v.vars, e, names);
    if Resolve(a, e).Variable? {
      OrderedIsNumber(a.m, v.vars, Resolve(a, e).x);
    }
    ResolvedLine(a, v.vars, Resolve(a, e), Linear(a, e).value, ValueOf(a.m, w, e));
  }

  /** A resolved value's line has its value. */
  lemma ResolvedLine(a: Analysis, vars: imap<Var, Value>, r: Resolved, l: Line, value: Option<Value>)
    requires Denotes(vars, r, value)
    requires match r
             case Variable(x) =>
               OrderOf(a.m, x).Some? && l == Line(Some(x), 0.0, OrderOf(a.m, x).value) && (x in vars ==> vars[x].VNum?)
             case Literal(kind, v) => v.VNum? && l.x.None? && l.c == v.r
             case _ => false
    ensures LineFits(a.m, vars, l) && LineValue(vars, l) == value
  {
  }

  lemma SumDenotes(r: Reading, a: Analysis, w: World, vars: imap<Var, Value>, e: Expr)
    requires e.Bin? && (e.op == Add || e.op == Sub) && Linear(a, e).Some?
    requires LineDenotes(r, a.m, vars, Linear(a, e.left).value, ValueOf(a.m, w, e.left))
    requires LineDenotes(r, a.m, vars, Linear(a, e.right).value, ValueOf(a.m, w, e.right))
    ensures LineDenotes(r, a.m, vars, Linear(a, e).value, ValueOf(a.m, w, e))
  {
  }

  lemma {:induction false} LinearDenotes(r: Reading, a: Analysis, w: World, v: Valuation, e: Expr, names: set<string>)
    requires Agrees(a, w, v, names) && LineNames(a.m, e) <= names && CountsRelate(r, w, v.vars, CountsIn(a.m, e))
    requires Linear(a, e).Some?
    ensures LineDenotes(r, a.m, v.vars, Linear(a, e).value, ValueOf(a.m, w, e))
  {
    if e.Bin? && (e.op == Add || e.op == Sub) {
      LinearDenotes(r, a, w, v, e.left, names);
      LinearDenotes(r, a, w, v, e.right, names);
      SumDenotes(r, a, w, v.vars, e);
    } else if IsCount(a.m, e) {
      CountDenotes(r, a, w, v, e, names);
    } else if !e.Bin? {
      ValueLineDenotes(r, a, w, v, e, names);
    }
  }

  // ── comparisons ──────────────────────────────────────────────────────────

  lemma OneCase(v: Valuation, c: Case)
    ensures SomeHolds(v, [c]) <==> CaseHolds(v, c)
  {
    assert [c][0] == c;
  }

  lemma TwoCases(v: Valuation, c: Case, d: Case)
    ensures SomeHolds(v, [c, d]) <==> CaseHolds(v, c) || CaseHolds(v, d)
  {
    assert [c, d][0] == c && [c, d][1] == d;
  }

  lemma KnownHolds(v: Valuation, b: bool)
    ensures SomeHolds(v, Known(b)) <==> b
  {
    if b {
      OneCase(v, {});
    }
  }

  lemma OpaqueHolds(m: Model, w: World, v: Valuation, e: Expr, want: Tri)
    requires OracleAgrees(m, w, v, e)
    ensures SomeHolds(v, OpaqueCases(e, want)) <==> Truth(m, w, e) == want
  {
    OneCase(v, {Opaque(e, want)});
  }

  /** A difference bound is the comparison it is read from. */
  lemma BoundCompares(vars: imap<Var, Value>, m: Model, l: Line, r: Line, c: real, strict: bool)
    requires LineFits(m, vars, l) && LineFits(m, vars, r)
    requires LineValue(vars, l).Some? && LineValue(vars, r).Some?
    ensures DiffHolds(vars, Bound(NodeOf(l.x), NodeOf(r.x), r.c - l.c, strict)) <==>
              Ordered(if strict then Lt else Le, LineValue(vars, l).value.r, LineValue(vars, r).value.r)
  {
  }

  lemma PresentHolds(v: Valuation, m: Model, l: Line, r: Line)
    requires LineFits(m, v.vars, l) && LineFits(m, v.vars, r)
    ensures CaseHolds(v, PresentAtoms(l.x, r.x)) <==> LineValue(v.vars, l).Some? && LineValue(v.vars, r).Some?
  {
    if CaseHolds(v, PresentAtoms(l.x, r.x)) {
      assert l.x.Some? ==> AtomHolds(v, Present(l.x.value));
      assert r.x.Some? ==> AtomHolds(v, Present(r.x.value));
    }
  }

  lemma PresentAnd(v: Valuation, present: Case, a: Atom)
    ensures CaseHolds(v, present + {a}) <==> CaseHolds(v, present) && AtomHolds(v, a)
  {
    UnionHolds(v, present, {a});
  }

  /** A bound with what it compares present. */
  lemma BoundCases(v: Valuation, m: Model, l: Line, r: Line, strict: bool)
    requires LineFits(m, v.vars, l) && LineFits(m, v.vars, r)
    ensures CaseHolds(v, PresentAtoms(l.x, r.x) + {Diff(Bound(NodeOf(l.x), NodeOf(r.x), r.c - l.c, strict))}) <==>
              Compared(if strict then Lt else Le, LineValue(v.vars, l), LineValue(v.vars, r)) == T
  {
    PresentAnd(v, PresentAtoms(l.x, r.x), Diff(Bound(NodeOf(l.x), NodeOf(r.x), r.c - l.c, strict)));
    PresentHolds(v, m, l, r);
    if CaseHolds(v, PresentAtoms(l.x, r.x)) {
      BoundCompares(v.vars, m, l, r, r.c - l.c, strict);
    }
  }

  lemma OrderedExact(v: Valuation, m: Model, op: Op, l: Line, r: Line, want: Tri)
    requires IsComparison(op) && LineFits(m, v.vars, l) && LineFits(m, v.vars, r)
    ensures SomeHolds(v, OrderedCases(op, l, r, want)) <==> Compared(op, LineValue(v.vars, l), LineValue(v.vars, r)) == want
  {
    if want == U {
      var xs := if l.x.Some? then [{Absent(l.x.value)}] else [];
      var ys := if r.x.Some? then [{Absent(r.x.value)}] else [];
      ConcatHolds(v, xs, ys);
      if l.x.Some? {
        OneCase(v, {Absent(l.x.value)});
      }
      if r.x.Some? {
        OneCase(v, {Absent(r.x.value)});
      }
    } else {
      OrderedKnown(v, m, if want == T then op else Negation(op), l, r);
    }
  }

  lemma EqualKnown(v: Valuation, m: Model, l: Line, r: Line)
    requires LineFits(m, v.vars, l) && LineFits(m, v.vars, r)
    ensures SomeHolds(v, OrderedCases(Eq, l, r, T)) <==> Compared(Eq, LineValue(v.vars, l), LineValue(v.vars, r)) == T
  {
    var present := PresentAtoms(l.x, r.x);
    var le := Diff(Bound(NodeOf(l.x), NodeOf(r.x), r.c - l.c, false));
    var ge := Diff(Bound(NodeOf(r.x), NodeOf(l.x), l.c - r.c, false));
    assert -(r.c - l.c) == l.c - r.c && PresentAtoms(r.x, l.x) == present;
    BoundCases(v, m, l, r, false);
    BoundCases(v, m, r, l, false);
    OneCase(v, present + {le, ge});
    assert present + {le, ge} == (present + {le}) + (present + {ge});
    UnionHolds(v, present + {le}, present + {ge});
  }

  lemma OrderedKnown(v: Valuation, m: Model, op: Op, l: Line, r: Line)
    requires IsComparison(op) && LineFits(m, v.vars, l) && LineFits(m, v.vars, r)
    ensures SomeHolds(v, OrderedCases(op, l, r, T)) <==> Compared(op, LineValue(v.vars, l), LineValue(v.vars, r)) == T
  {
    if op == Eq {
      EqualKnown(v, m, l, r);
    } else if op == Ne {
      UnequalKnown(v, m, l, r);
    } else {
      var strict := op == Lt || op == Gt;
      assert -(r.c - l.c) == l.c - r.c && PresentAtoms(l.x, r.x) == PresentAtoms(r.x, l.x);
      if op == Lt || op == Le {
        BoundCases(v, m, l, r, strict);
      } else {
        BoundCases(v, m, r, l, strict);
      }
      OneCase(v, OrderedCases(op, l, r, T)[0]);
    }
  }

  lemma UnequalKnown(v: Valuation, m: Model, l: Line, r: Line)
    requires LineFits(m, v.vars, l) && LineFits(m, v.vars, r)
    ensures SomeHolds(v, OrderedCases(Ne, l, r, T)) <==> Compared(Ne, LineValue(v.vars, l), LineValue(v.vars, r)) == T
  {
    BoundCases(v, m, l, r, true);
    BoundCases(v, m, r, l, true);
    assert -(r.c - l.c) == l.c - r.c && PresentAtoms(l.x, r.x) == PresentAtoms(r.x, l.x);
    var cases := OrderedCases(Ne, l, r, T);
    TwoCases(v, cases[0], cases[1]);
  }

  /** A finite variable compared with values its domain has. */
  lemma FiniteExact(v: Valuation, m: Model, x: Var, allowed: set<Value>, want: Tri)
    requires WellTyped(m, v.vars) && VarInfo(m, x).Some? && VarInfo(m, x).value.Finite?
    requires allowed <= VarInfo(m, x).value.domain
    ensures SomeHolds(v, FiniteCases(x, VarInfo(m, x).value.domain, allowed, want)) <==>
              want == (if x in v.vars then OfBool(v.vars[x] in allowed) else U)
  {
    assert Fits(VarInfo(m, x).value, Lookup(v.vars, x));
    OneCase(v, FiniteCases(x, VarInfo(m, x).value.domain, allowed, want)[0]);
  }

  lemma EqualityExact(v: Valuation, x: Var, s: string, equal: bool, want: Tri)
    ensures SomeHolds(v, EqualityCases(x, s, equal, want)) <==>
              want == (if x in v.vars then OfBool((v.vars[x] == VStr(s)) == equal) else U)
  {
    OneCase(v, EqualityCases(x, s, equal, want)[0]);
  }

  lemma StateExact(v: Valuation, m: Model, allowed: set<Value>, want: Tri)
    requires WellTyped(m, v.vars) && allowed <= StateValues(m)
    ensures StateVar in v.vars && v.vars[StateVar] in StateValues(m)
    ensures SomeHolds(v, StateCases(m, allowed, want)) <==> want == OfBool(v.vars[StateVar] in allowed)
  {
    assert Fits(VarInfo(m, StateVar).value, Lookup(v.vars, StateVar));
    if want != U {
      OneCase(v, StateCases(m, allowed, want)[0]);
    }
  }

  lemma PairExact(a: Analysis, w: World, v: Valuation, e: Expr, want: Tri)
    requires WellTyped(a.m, v.vars) && e.Bin? && IsComparison(e.op)
    requires Denotes(v.vars, Resolve(a, e.left), ValueOf(a.m, w, e.left))
    requires Denotes(v.vars, Resolve(a, e.right), ValueOf(a.m, w, e.right))
    requires VarAndLiteral(e.op, Resolve(a, e.left), Resolve(a, e.right)).Some?
    ensures var (x, lit) := VarAndLiteral(e.op, Resolve(a, e.left), Resolve(a, e.right)).value;
            Truth(a.m, w, e) == if x in v.vars then OfBool((v.vars[x] == lit.v) == (e.op == Eq)) else U
  {
  }

  lemma CategoryExact(a: Analysis, w: World, v: Valuation, e: Expr, want: Tri)
    requires WellTyped(a.m, v.vars) && StateAgrees(a, w, v.vars) && NamesApart(a.m)
    requires e.Bin? && (e.op == Eq || e.op == Ne) && IsStateCategory(e.left) && a.fixedState.None?
    requires Denotes(v.vars, Resolve(a, e.right), ValueOf(a.m, w, e.right))
    requires Resolve(a, e.right).Literal? && Resolve(a, e.right).v.VName?
    ensures var withIt := StatesOfCategory(a.m, Resolve(a, e.right).v.name);
            SomeHolds(v, StateCases(a.m, if e.op == Eq then withIt else StateValues(a.m) - withIt, want)) <==>
              Truth(a.m, w, e) == want
  {
    var c := Resolve(a, e.right).v.name;
    var withIt := StatesOfCategory(a.m, c);
    StateExact(v, a.m, if e.op == Eq then withIt else StateValues(a.m) - withIt, want);
    CategoryTruth(a.m, w, e, c);
    assert Lookup(w.vars, StateVar) == Lookup(v.vars, StateVar);
  }

  lemma CategoryTruth(m: Model, w: World, e: Expr, c: string)
    requires e.Bin? && (e.op == Eq || e.op == Ne) && IsStateCategory(e.left) && ValueOf(m, w, e.right) == Some(VName(c))
    requires NamesApart(m) && Lookup(w.vars, StateVar).Some? && Lookup(w.vars, StateVar).value in StateValues(m)
    ensures Truth(m, w, e) == OfBool((Lookup(w.vars, StateVar).value in StatesOfCategory(m, c)) == (e.op == Eq))
  {
    var s :| s in m.states && Lookup(w.vars, StateVar) == Some(VName(s));
    assert StateNow(w) == Some(s) && CategoryNow(m, w) == Some(m.states[s].category);
    assert ValueOf(m, w, e.left) == Some(VName(m.states[s].category));
  }

  /** What a leaf's cases say under a valuation: those of one truth hold, and of no other. */
  ghost predicate LeafIs(a: Analysis, v: Valuation, e: Expr, read: Tri) {
    forall want: Tri :: SomeHolds(v, LeafCases(a, e, want)) <==> read == want
  }

  lemma ComparedReads(r: Reading, op: Op, a: Option<Value>, b: Option<Value>, x: Option<Value>, y: Option<Value>)
    requires IsComparison(op) && ReadsValue(r, a, x) && ReadsValue(r, b, y)
    ensures Reads(r, Compared(op, a, b), Compared(op, x, y))
  {
  }

  lemma OrderedReads(v: Valuation, m: Model, op: Op, l: Line, r: Line)
    requires IsComparison(op) && LineFits(m, v.vars, l) && LineFits(m, v.vars, r)
    ensures forall want: Tri ::
              SomeHolds(v, OrderedCases(op, l, r, want)) <==> Compared(op, LineValue(v.vars, l), LineValue(v.vars, r)) == want
  {
    forall want: Tri
      ensures SomeHolds(v, OrderedCases(op, l, r, want)) <==> Compared(op, LineValue(v.vars, l), LineValue(v.vars, r)) == want
    {
      OrderedExact(v, m, op, l, r, want);
    }
  }

  lemma ComparedTruth(m: Model, w: World, e: Expr)
    requires e.Bin? && IsComparison(e.op)
    ensures Truth(m, w, e) == Compared(e.op, ValueOf(m, w, e.left), ValueOf(m, w, e.right))
  {
  }

  lemma LinesRead(r: Reading, a: Analysis, w: World, v: Valuation, e: Expr, names: set<string>)
    requires e.Bin? && IsComparison(e.op) && LinearDecides(a, e)
    requires Agrees(a, w, v, names) && CompareNames(a.m, e) <= names && CountsRelate(r, w, v.vars, LeafCounts(a, e))
    ensures var x, y := Linear(a, e.left).value, Linear(a, e.right).value;
            && LineFits(a.m, v.vars, x) && LineFits(a.m, v.vars, y)
            && Reads(r, Compared(e.op, LineValue(v.vars, x), LineValue(v.vars, y)), Truth(a.m, w, e))
  {
    var x, y := Linear(a, e.left).value, Linear(a, e.right).value;
    CountsOfSides(r, a, w, v.vars, e);
    LinearDenotes(r, a, w, v, e.left, names);
    LinearDenotes(r, a, w, v, e.right, names);
    ComparedTruth(a.m, w, e);
    ComparedReads(r, e.op, LineValue(v.vars, x), LineValue(v.vars, y), ValueOf(a.m, w, e.left), ValueOf(a.m, w, e.right));
  }

  lemma CountsOfSides(r: Reading, a: Analysis, w: World, vars: imap<Var, Value>, e: Expr)
    requires e.Bin? && IsComparison(e.op) && LinearDecides(a, e) && CountsRelate(r, w, vars, LeafCounts(a, e))
    ensures CountsRelate(r, w, vars, CountsIn(a.m, e.left)) && CountsRelate(r, w, vars, CountsIn(a.m, e.right))
  {
  }

  lemma LinearReads(r: Reading, a: Analysis, w: World, v: Valuation, e: Expr, names: set<string>) returns (read: Tri)
    requires e.Bin? && IsComparison(e.op) && LinearDecides(a, e)
    requires Agrees(a, w, v, names) && CompareNames(a.m, e) <= names && CountsRelate(r, w, v.vars, LeafCounts(a, e))
    ensures Reads(r, read, Truth(a.m, w, e))
    ensures forall want: Tri :: SomeHolds(v, LinearCases(a, e, want)) <==> read == want
  {
    LinesRead(r, a, w, v, e, names);
    var x, y := Linear(a, e.left).value, Linear(a, e.right).value;
    read := Compared(e.op, LineValue(v.vars, x), LineValue(v.vars, y));
    OrderedReads(v, a.m, e.op, x, y);
  }

  lemma PairCasesExact(v: Valuation, m: Model, op: Op, x: Var, lit: Resolved, want: Tri)
    requires WellTyped(m, v.vars) && lit.Literal? && (op == Eq || op == Ne) && PairCases(m, op, x, lit, want).Some?
    ensures SomeHolds(v, PairCases(m, op, x, lit, want).value) <==>
              want == (if x in v.vars then OfBool((v.vars[x] == lit.v) == (op == Eq)) else U)
  {
    if FiniteValue(VarInfo(m, x), lit).Some? {
      var domain := VarInfo(m, x).value.domain;
      FiniteExact(v, m, x, if op == Eq then {lit.v} else domain - {lit.v}, want);
      assert Fits(VarInfo(m, x).value, Lookup(v.vars, x));
    } else {
      EqualityExact(v, x, lit.v.s, op == Eq, want);
    }
  }

  /** A comparison one of whose sides is absent, or both of whose sides are literals. */
  lemma ConstantExact(a: Analysis, w: World, v: Valuation, e: Expr, want: Tri)
    requires e.Bin? && IsComparison(e.op)
    requires Denotes(v.vars, Resolve(a, e.left), ValueOf(a.m, w, e.left))
    requires Denotes(v.vars, Resolve(a, e.right), ValueOf(a.m, w, e.right))
    ensures Resolve(a, e.left).NullValue? || Resolve(a, e.right).NullValue? ==> Truth(a.m, w, e) == U
    ensures Resolve(a, e.left).Literal? && Resolve(a, e.right).Literal? && (e.op == Eq || e.op == Ne) ==>
              Truth(a.m, w, e) == OfBool((Resolve(a, e.left).v == Resolve(a, e.right).v) == (e.op == Eq))
  {
  }

  lemma ShapeExact(a: Analysis, w: World, v: Valuation, e: Expr, want: Tri, names: set<string>)
    requires e.Bin? && IsComparison(e.op)
    requires Agrees(a, w, v, names) && CompareNames(a.m, e) <= names
    requires ShapeCases(a, e, want).Some?
    ensures SomeHolds(v, ShapeCases(a, e, want).value) <==> Truth(a.m, w, e) == want
  {
    var l, r := Resolve(a, e.left), Resolve(a, e.right);
    ResolveDenotes(a, w, v.vars, e.left, names);
    ResolveDenotes(a, w, v.vars, e.right, names);
    ConstantExact(a, w, v, e, want);
    if l.NullValue? || r.NullValue? {
      KnownHolds(v, want == U);
    } else if l.Literal? && r.Literal? && (e.op == Eq || e.op == Ne) && l.kind == r.kind {
      KnownHolds(v, want == OfBool((l.v == r.v) == (e.op == Eq)));
    } else if VarAndLiteral(e.op, l, r).Some? {
      var (x, lit) := VarAndLiteral(e.op, l, r).value;
      PairExact(a, w, v, e, want);
      PairCasesExact(v, a.m, e.op, x, lit, want);
    } else {
      CategoryExact(a, w, v, e, want);
    }
  }

  /** A comparison read as two linear forms is not one its values' shapes decide. */
  lemma ShapeOrLinear(a: Analysis, e: Expr)
    requires e.Bin? && IsComparison(e.op) && LinearDecides(a, e)
    ensures forall want: Tri :: LeafCases(a, e, want) == LinearCases(a, e, want)
  {
    forall want: Tri ensures ShapeCases(a, e, want).None? {
    }
  }

  lemma CompareReads(r: Reading, a: Analysis, w: World, v: Valuation, e: Expr, names: set<string>) returns (read: Tri)
    requires e.Bin? && IsComparison(e.op) && CountsRelate(r, w, v.vars, LeafCounts(a, e)) && !IsOpaque(a, e)
    requires Agrees(a, w, v, names) && CompareNames(a.m, e) <= names
    ensures Reads(r, read, Truth(a.m, w, e)) && LeafIs(a, v, e, read)
  {
    read := Truth(a.m, w, e);
    if LinearDecides(a, e) {
      read := LinearReads(r, a, w, v, e, names);
      ShapeOrLinear(a, e);
    } else {
      forall want: Tri ensures SomeHolds(v, LeafCases(a, e, want)) <==> read == want {
        assert LeafCases(a, e, want) == CompareCases(a, e, want) && LeafCases(a, e, want) != OpaqueCases(e, want);
        ShapeExact(a, w, v, e, want, names);
      }
    }
  }

  // ── the other leaves ─────────────────────────────────────────────────────

  lemma LiteralItems(a: Analysis, w: World, vars: imap<Var, Value>, items: seq<Expr>, names: set<string>)
    requires ReadsAgree(a, w, vars, names) && NamesApart(a.m) && ItemNames(items) <= names
    requires forall i | 0 <= i < |items| :: Resolve(a, items[i]).Literal?
    ensures forall i | 0 <= i < |items| :: ValueOf(a.m, w, items[i]) == Some(Resolve(a, items[i]).v)
  {
    forall i | 0 <= i < |items| ensures ValueOf(a.m, w, items[i]) == Some(Resolve(a, items[i]).v) {
      assert ValueNames(items[i]) <= ItemNames(items);
      ResolveDenotes(a, w, vars, items[i], names);
    }
  }

  lemma InSetTruth(m: Model, w: World, e: Expr, values: seq<Value>)
    requires e.In? && e.right.SetLit? && |values| == |e.right.items|
    requires forall i | 0 <= i < |values| :: ValueOf(m, w, e.right.items[i]) == Some(values[i])
    ensures Truth(m, w, e) ==
            if ValueOf(m, w, e.left).None? then U else OfBool(ValueOf(m, w, e.left).value in values)
  {
    var items := e.right.items;
    if ValueOf(m, w, e.left).Some? && ValueOf(m, w, e.left).value in values {
      var i :| 0 <= i < |values| && values[i] == ValueOf(m, w, e.left).value;
      assert ValueOf(m, w, items[i]) == ValueOf(m, w, e.left);
    }
  }

  lemma SetTruth(a: Analysis, w: World, vars: imap<Var, Value>, e: Expr, names: set<string>)
    requires ReadsAgree(a, w, vars, names) && NamesApart(a.m) && e.In? && e.right.SetLit? && ItemNames(e.right.items) <= names
    requires forall i | 0 <= i < |e.right.items| :: Resolve(a, e.right.items[i]).Literal?
    ensures Truth(a.m, w, e) ==
            if ValueOf(a.m, w, e.left).None? then U
            else OfBool(ValueOf(a.m, w, e.left).value in LiteralValues(a, e.right.items))
  {
    var items := e.right.items;
    LiteralItems(a, w, vars, items, names);
    var values := seq(|items|, i requires 0 <= i < |items| => Resolve(a, items[i]).v);
    InSetTruth(a.m, w, e, values);
    forall x ensures x in LiteralValues(a, items) <==> x in values {
      if x in LiteralValues(a, items) {
        var i :| 0 <= i < |items| && Resolve(a, items[i]).Literal? && Resolve(a, items[i]).v == x;
        assert values[i] == x;
      }
      if x in values {
        var i :| 0 <= i < |values| && values[i] == x;
        assert Resolve(a, items[i]).v == x;
      }
    }
  }

  lemma MembershipExact(a: Analysis, w: World, v: Valuation, e: Expr, want: Tri, names: set<string>)
    requires e.In? && Agrees(a, w, v, names) && ValueNames(e.left) <= names
    requires e.right.SetLit? ==> ItemNames(e.right.items) <= names
    requires MembershipCases(a, e, want) != OpaqueCases(e, want)
    ensures SomeHolds(v, MembershipCases(a, e, want)) <==> Truth(a.m, w, e) == want
  {
    var l := Resolve(a, e.left);
    ResolveDenotes(a, w, v.vars, e.left, names);
    if l.Literal? {
      SetTruth(a, w, v.vars, e, names);
      KnownHolds(v, want == Truth(a.m, w, e));
    } else if e.right.SetLit? {
      SetTruth(a, w, v.vars, e, names);
      FiniteExact(v, a.m, l.x, LiteralValues(a, e.right.items), want);
    } else {
      FiniteExact(v, a.m, l.x, VarInfo(a.m, l.x).value.domain, want);
    }
  }

  lemma NullTestExact(a: Analysis, w: World, v: Valuation, e: Expr, want: Tri, names: set<string>)
    requires e.IsNull? && Agrees(a, w, v, names) && ValueNames(e.e) <= names
    requires NullTestCases(a, e, want) != OpaqueCases(e, want)
    ensures SomeHolds(v, NullTestCases(a, e, want)) <==> Truth(a.m, w, e) == want
  {
    var r := Resolve(a, e.e);
    ResolveDenotes(a, w, v.vars, e.e, names);
    if r.NullValue? {
      KnownHolds(v, want == OfBool(!e.negated));
    } else if want != U {
      OneCase(v, NullTestCases(a, e, want)[0]);
    }
  }

  lemma AnyReads(r: Reading, a: Analysis, w: World, v: Valuation, e: Expr) returns (read: Tri)
    requires IsAnyOrNone(a.m, e) && WellTyped(a.m, v.vars) && CountsRelate(r, w, v.vars, {e})
    ensures Reads(r, read, Truth(a.m, w, e))
    ensures forall want: Tri :: SomeHolds(v, AnyCases(e, want)) <==> read == want
  {
    var c := Lookup(v.vars, KeyOf(e));
    assert CountReads(r, w, e, c);
    assert Truth(a.m, w, e) == if e.kind == "any" then AnyOf(w, e) else NotTri(AnyOf(w, e));
    read := if e.kind == "any" then AnySeen(c) else NotTri(AnySeen(c));
    assert Fits(VarInfo(a.m, KeyOf(e)).value, c);
    forall want: Tri ensures SomeHolds(v, AnyCases(e, want)) <==> read == want {
      AnyCaseHolds(a.m, v, e, want);
    }
  }

  lemma AnyCaseHolds(m: Model, v: Valuation, e: Expr, want: Tri)
    requires IsAnyOrNone(m, e) && WellTyped(m, v.vars)
    ensures var c := AnySeen(Lookup(v.vars, KeyOf(e)));
            SomeHolds(v, AnyCases(e, want)) <==> want == if e.kind == "any" then c else NotTri(c)
  {
    assert Fits(VarInfo(m, KeyOf(e)).value, Lookup(v.vars, KeyOf(e)));
    OneCase(v, AnyCases(e, want)[0]);
    assert AnyCases(e, want) == [AnyCases(e, want)[0]];
  }

  lemma OpenExact(a: Analysis, w: World, v: Valuation, want: Tri)
    requires WellTyped(a.m, v.vars) && StateAgrees(a, w, v.vars) && "open" !in a.m.attrs
    ensures SomeHolds(v, OpenCases(a, want)) <==> Truth(a.m, w, Name("open")) == want
  {
    assert OpenStates(a.m) <= StateValues(a.m);
    if a.fixedState.Some? {
      KnownHolds(v, (VName(a.fixedState.value) in OpenStates(a.m)) == (want == T));
    } else {
      StateExact(v, a.m, OpenStates(a.m), want);
    }
  }

  lemma ValueExact(a: Analysis, w: World, v: Valuation, e: Expr, want: Tri, names: set<string>)
    requires Agrees(a, w, v, names) && ValueNames(e) <= names && !IsLogical(a.m, e)
    requires ValueCases(a, e, want) != OpaqueCases(e, want)
    ensures SomeHolds(v, ValueCases(a, e, want)) <==> Truth(a.m, w, e) == want
  {
    var r := Resolve(a, e);
    ResolveDenotes(a, w, v.vars, e, names);
    if r.Variable? {
      FiniteExact(v, a.m, r.x, {VBool(true)}, want);
      assert Fits(VarInfo(a.m, r.x).value, Lookup(v.vars, r.x));
    } else {
      KnownHolds(v, want == TriOfValue(Some(r.v)));
    }
  }

  /** A leaf that reads no count. */
  lemma PlainLeafExact(a: Analysis, w: World, v: Valuation, e: Expr, want: Tri, names: set<string>)
    requires !IsConnective(e) && !e.Not? && !IsAnyOrNone(a.m, e) && !(e.Bin? && IsComparison(e.op))
    requires Agrees(a, w, v, names) && LeafNames(a, e) <= names && !IsOpaque(a, e)
    ensures SomeHolds(v, LeafCases(a, e, want)) <==> Truth(a.m, w, e) == want
  {
    assert LeafCases(a, e, want) != OpaqueCases(e, want);
    if e.Bool? {
      KnownHolds(v, want == OfBool(e.b));
    } else if e.IsNull? {
      NullTestExact(a, w, v, e, want, names);
    } else if e.In? {
      MembershipExact(a, w, v, e, want, names);
    } else if e == Name("open") && "open" !in a.m.attrs {
      OpenExact(a, w, v, want);
    } else {
      ValueExact(a, w, v, e, want, names);
    }
  }

  /** A leaf opaque for one truth is opaque for each. */
  lemma OpaqueThroughout(a: Analysis, e: Expr, want: Tri)
    requires !IsConnective(e) && !e.Not? && IsOpaque(a, e)
    ensures LeafCases(a, e, want) == OpaqueCases(e, want)
  {
    var t: Tri :| LeafCases(a, e, t) == OpaqueCases(e, t);
    assert LeafCases(a, e, t) == [{Opaque(e, t)}] && Opaque(e, t) in LeafCases(a, e, t)[0];
    if e.Bin? && IsComparison(e.op) {
      OpaqueComparison(a, e, t, want);
    } else if e.In? {
      assert MembershipCases(a, e, want) == OpaqueCases(e, want);
    }
  }

  lemma OpaqueComparison(a: Analysis, e: Expr, t: Tri, want: Tri)
    requires e.Bin? && IsComparison(e.op) && CompareCases(a, e, t) == OpaqueCases(e, t)
    ensures CompareCases(a, e, want) == OpaqueCases(e, want)
  {
    assert OpaqueCases(e, t) == [{Opaque(e, t)}] && Opaque(e, t) in OpaqueCases(e, t)[0];
    ShapeOfEach(a, e, t, want);
    LinearNotOpaque(a, e, t);
  }

  lemma LinearNotOpaque(a: Analysis, e: Expr, t: Tri)
    requires e.Bin? && IsComparison(e.op)
    ensures LinearDecides(a, e) ==> LinearCases(a, e, t) != OpaqueCases(e, t)
  {
    assert Opaque(e, t) in OpaqueCases(e, t)[0];
  }

  /** Shapes that decide a comparison decide it for each truth, and leave nothing opaque. */
  lemma ShapeOfEach(a: Analysis, e: Expr, t: Tri, want: Tri)
    requires e.Bin? && IsComparison(e.op)
    ensures ShapeCases(a, e, t).Some? <==> ShapeCases(a, e, want).Some?
    ensures ShapeCases(a, e, t).Some? && |ShapeCases(a, e, t).value| > 0 ==> Opaque(e, t) !in ShapeCases(a, e, t).value[0]
  {
  }

  /** What the analysis reads of a leaf. */
  lemma LeafReads(r: Reading, a: Analysis, w: World, v: Valuation, e: Expr, names: set<string>) returns (read: Tri)
    requires Agrees(a, w, v, names) && LeafNames(a, e) <= names
    requires CountsRelate(r, w, v.vars, LeafCounts(a, e)) && !IsConnective(e) && !e.Not?
    requires IsOpaque(a, e) ==> OracleAgrees(a.m, w, v, e)
    ensures Reads(r, read, Truth(a.m, w, e)) && LeafIs(a, v, e, read)
  {
    if IsOpaque(a, e) {
      read := Truth(a.m, w, e);
      OpaqueLeafIs(a, w, v, e);
    } else if e.Bin? && IsComparison(e.op) {
      read := CompareReads(r, a, w, v, e, names);
    } else if IsAnyOrNone(a.m, e) {
      read := AnyReads(r, a, w, v, e);
    } else {
      read := Truth(a.m, w, e);
      forall want: Tri ensures SomeHolds(v, LeafCases(a, e, want)) <==> read == want {
        PlainLeafExact(a, w, v, e, want, names);
      }
    }
  }

  lemma OpaqueLeafIs(a: Analysis, w: World, v: Valuation, e: Expr)
    requires !IsConnective(e) && !e.Not? && IsOpaque(a, e) && OracleAgrees(a.m, w, v, e)
    ensures LeafIs(a, v, e, Truth(a.m, w, e))
  {
    forall want: Tri ensures SomeHolds(v, LeafCases(a, e, want)) <==> Truth(a.m, w, e) == want {
      OpaqueThroughout(a, e, want);
      OpaqueHolds(a.m, w, v, e, want);
    }
  }

  // ── the expansion ────────────────────────────────────────────────────────

  /** The expressions an expansion leaves opaque. */
  function OpaqueLeaves(a: Analysis, e: Expr, inlining: set<string>): set<Expr>
    decreases a.m.derived.Keys - inlining, e
  {
    if IsConnective(e) then OpaqueLeaves(a, e.left, inlining) + OpaqueLeaves(a, e.right, inlining)
    else if e.Not? then OpaqueLeaves(a, e.e, inlining)
    else if Inlines(a, e, inlining) then OpaqueLeaves(a, a.m.derived[e.name], inlining + {e.name})
    else if IsOpaque(a, e) then {e}
    else {}
  }

  /** The valuation has the truth of every expression the expansion leaves opaque. */
  ghost predicate LeavesAgree(a: Analysis, w: World, v: Valuation, e: Expr, inlining: set<string>) {
    forall x | x in OpaqueLeaves(a, e, inlining) :: OracleAgrees(a.m, w, v, x)
  }

  lemma PairProduct(v: Valuation, xs: seq<Case>, ys: seq<Case>)
    requires Products([xs, ys]).Ok?
    ensures SomeHolds(v, Products([xs, ys]).value) <==> SomeHolds(v, xs) && SomeHolds(v, ys)
  {
    ProductHolds(v, [xs, ys]);
    assert [xs, ys][0] == xs && [xs, ys][1] == ys;
  }

  lemma PairUnion(v: Valuation, xs: seq<Case>, ys: seq<Case>)
    ensures SomeHolds(v, Flat([xs, ys])) <==> SomeHolds(v, xs) || SomeHolds(v, ys)
  {
    FlatHolds(v, [xs, ys]);
    assert [xs, ys][0] == xs && [xs, ys][1] == ys;
  }

  lemma UnknownHolds(v: Valuation, lU: seq<Case>, lOther: seq<Case>, rU: seq<Case>, rOther: seq<Case>)
    requires ExpandUnknown(lU, lOther, rU, rOther).Ok?
    ensures SomeHolds(v, ExpandUnknown(lU, lOther, rU, rOther).value) <==>
              || (SomeHolds(v, lU) && SomeHolds(v, rOther))
              || (SomeHolds(v, lOther) && SomeHolds(v, rU))
              || (SomeHolds(v, lU) && SomeHolds(v, rU))
  {
    PairProduct(v, lU, rOther);
    PairProduct(v, lOther, rU);
    PairProduct(v, lU, rU);
    var ps := [Products([lU, rOther]).value, Products([lOther, rU]).value, Products([lU, rU]).value];
    FlatHolds(v, ps);
    assert ps[0] == Products([lU, rOther]).value && ps[1] == Products([lOther, rU]).value;
    assert ps[2] == Products([lU, rU]).value;
  }

  /** What the analysis makes of a condition under a valuation. */
  ghost function Read(a: Analysis, v: Valuation, e: Expr, inlining: set<string>): Tri
    decreases a.m.derived.Keys - inlining, e
  {
    if IsConnective(e) then Joined(e.op, Read(a, v, e.left, inlining), Read(a, v, e.right, inlining))
    else if e.Not? then NotTri(Read(a, v, e.e, inlining))
    else if Inlines(a, e, inlining) then Read(a, v, a.m.derived[e.name], inlining + {e.name})
    else LeafRead(a, v, e)
  }

  ghost function LeafRead(a: Analysis, v: Valuation, e: Expr): Tri {
    if SomeHolds(v, LeafCases(a, e, T)) then T else if SomeHolds(v, LeafCases(a, e, F)) then F else U
  }

  function Joined(op: Op, l: Tri, r: Tri): Tri {
    if op == And then AndTri(l, r) else if op == Or then OrTri(l, r) else OrTri(NotTri(l), r)
  }

  /** A valuation reads an object for one condition: the values it resolves, the truth of all the expansion leaves opaque,
      and the aggregates it turns on. */
  ghost predicate ReadsFor(r: Reading, a: Analysis, w: World, v: Valuation, e: Expr, inlining: set<string>) {
    && Agrees(a, w, v, NamesResolved(a, e, inlining)) && Coherent(a.m, w) && LeavesAgree(a, w, v, e, inlining)
    && CountsRelate(r, w, v.vars, CountsRead(a, e, inlining))
  }

  /** A leaf is read as one truth, related to its own. */
  ghost predicate LeafSound(r: Reading, a: Analysis, w: World, v: Valuation, e: Expr) {
    Reads(r, LeafRead(a, v, e), Truth(a.m, w, e)) && LeafIs(a, v, e, LeafRead(a, v, e))
  }

  /** Each leaf of a condition is, and each derived attribute replaced is read as the expression that derives it. */
  ghost predicate Sound(r: Reading, a: Analysis, w: World, v: Valuation, e: Expr, inlining: set<string>)
    decreases a.m.derived.Keys - inlining, e
  {
    if IsConnective(e) then Sound(r, a, w, v, e.left, inlining) && Sound(r, a, w, v, e.right, inlining)
    else if e.Not? then Sound(r, a, w, v, e.e, inlining)
    else if Inlines(a, e, inlining) then
      && Reads(r, Truth(a.m, w, a.m.derived[e.name]), Truth(a.m, w, e))
      && Sound(r, a, w, v, a.m.derived[e.name], inlining + {e.name})
    else LeafSound(r, a, w, v, e)
  }

  lemma LeafReadIs(a: Analysis, v: Valuation, e: Expr, read: Tri)
    requires LeafIs(a, v, e, read)
    ensures LeafRead(a, v, e) == read
  {
  }

  lemma JoinedReads(r: Reading, op: Op, a: Tri, b: Tri, x: Tri, y: Tri)
    requires Reads(r, a, x) && Reads(r, b, y)
    ensures Reads(r, Joined(op, a, b), Joined(op, x, y)) && Reads(r, NotTri(a), NotTri(x))
  {
  }

  lemma JoinedTruth(m: Model, w: World, e: Expr)
    requires IsConnective(e)
    ensures Truth(m, w, e) == Joined(e.op, Truth(m, w, e.left), Truth(m, w, e.right))
  {
  }

  lemma SidesReadsFor(r: Reading, a: Analysis, w: World, v: Valuation, e: Expr, inlining: set<string>)
    requires ReadsFor(r, a, w, v, e, inlining) && IsConnective(e)
    ensures ReadsFor(r, a, w, v, e.left, inlining) && ReadsFor(r, a, w, v, e.right, inlining)
  {
    assert NamesResolved(a, e, inlining) == NamesResolved(a, e.left, inlining) + NamesResolved(a, e.right, inlining);
    assert CountsRead(a, e, inlining) == CountsRead(a, e.left, inlining) + CountsRead(a, e.right, inlining);
  }

  /** A valuation that reads an object for a condition reads each of its leaves. */
  lemma {:induction false} ReadsForSound(r: Reading, a: Analysis, w: World, v: Valuation, e: Expr, inlining: set<string>)
    requires ReadsFor(r, a, w, v, e, inlining)
    ensures Sound(r, a, w, v, e, inlining)
    decreases a.m.derived.Keys - inlining, e
  {
    if IsConnective(e) {
      SidesReadsFor(r, a, w, v, e, inlining);
      ReadsForSound(r, a, w, v, e.left, inlining);
      ReadsForSound(r, a, w, v, e.right, inlining);
    } else if e.Not? {
      ReadsForSound(r, a, w, v, e.e, inlining);
    } else if Inlines(a, e, inlining) {
      ReadsForSound(r, a, w, v, a.m.derived[e.name], inlining + {e.name});
      assert Truth(a.m, w, Name(e.name)) == Truth(a.m, w, a.m.derived[e.name]);
    } else {
      assert IsOpaque(a, e) ==> OpaqueLeaves(a, e, inlining) == {e};
      var read := LeafReads(r, a, w, v, e, NamesResolved(a, e, inlining));
      LeafReadIs(a, v, e, read);
    }
  }

  /** What the analysis makes of a condition is what it is, as far as it reads the aggregates the condition turns on. */
  lemma {:induction false} ReadRelates(r: Reading, a: Analysis, w: World, v: Valuation, e: Expr, inlining: set<string>)
    requires Sound(r, a, w, v, e, inlining)
    ensures Reads(r, Read(a, v, e, inlining), Truth(a.m, w, e))
    decreases a.m.derived.Keys - inlining, e
  {
    if IsConnective(e) {
      ReadRelates(r, a, w, v, e.left, inlining);
      ReadRelates(r, a, w, v, e.right, inlining);
      JoinedTruth(a.m, w, e);
      JoinedReads(r, e.op, Read(a, v, e.left, inlining), Read(a, v, e.right, inlining), Truth(a.m, w, e.left),
                  Truth(a.m, w, e.right));
    } else if e.Not? {
      ReadRelates(r, a, w, v, e.e, inlining);
    } else if Inlines(a, e, inlining) {
      ReadRelates(r, a, w, v, a.m.derived[e.name], inlining + {e.name});
    }
  }

  /** The cases of the truth a condition is read as hold, and of no other. */
  lemma {:induction false} ExpandReads(r: Reading, a: Analysis, w: World, v: Valuation, e: Expr, want: Tri,
                                       inlining: set<string>)
    requires Sound(r, a, w, v, e, inlining) && Expand(a, e, want, inlining).Ok?
    ensures SomeHolds(v, Expand(a, e, want, inlining).value) <==> Read(a, v, e, inlining) == want
    decreases a.m.derived.Keys - inlining, e
  {
    if IsConnective(e) {
      ConnectiveReads(r, a, w, v, e, want, inlining);
    } else if e.Not? {
      ExpandReads(r, a, w, v, e.e, NotTri(want), inlining);
    } else if Inlines(a, e, inlining) {
      ExpandReads(r, a, w, v, a.m.derived[e.name], want, inlining + {e.name});
    }
  }

  /** What a connective is read as, of its sides. */
  lemma ConnectiveRead(a: Analysis, v: Valuation, e: Expr, inlining: set<string>)
    requires IsConnective(e)
    ensures var l := LeftWant(e.op, Read(a, v, e.left, inlining));
            var r := Read(a, v, e.right, inlining);
            Read(a, v, e, inlining) == if l == ShortOf(e.op) || r == ShortOf(e.op) then ShortOf(e.op)
                                       else if l == U || r == U then U else NotTri(ShortOf(e.op))
  {
  }

  lemma {:induction false} ConnectiveReads(r: Reading, a: Analysis, w: World, v: Valuation, e: Expr, want: Tri,
                                           inlining: set<string>)
    requires Sound(r, a, w, v, e, inlining) && Expand(a, e, want, inlining).Ok? && IsConnective(e)
    ensures SomeHolds(v, Expand(a, e, want, inlining).value) <==> Read(a, v, e, inlining) == want
    decreases a.m.derived.Keys - inlining, e, 0
  {
    var short, other := ShortOf(e.op), NotTri(ShortOf(e.op));
    ConnectiveRead(a, v, e, inlining);
    if want == U {
      ExpandReads(r, a, w, v, e.left, U, inlining);
      ExpandReads(r, a, w, v, e.right, other, inlining);
      ExpandReads(r, a, w, v, e.left, LeftWant(e.op, other), inlining);
      ExpandReads(r, a, w, v, e.right, U, inlining);
      UnknownHolds(v, Expand(a, e.left, U, inlining).value, Expand(a, e.left, LeftWant(e.op, other), inlining).value,
                   Expand(a, e.right, U, inlining).value, Expand(a, e.right, other, inlining).value);
    } else {
      ExpandReads(r, a, w, v, e.left, LeftWant(e.op, want), inlining);
      ExpandReads(r, a, w, v, e.right, want, inlining);
      var x := Expand(a, e.left, LeftWant(e.op, want), inlining).value;
      var y := Expand(a, e.right, want, inlining).value;
      if want == short {
        PairUnion(v, x, y);
      } else {
        PairProduct(v, x, y);
      }
    }
  }

  /** Case expansion is exact: over every object, under every valuation that has of it what the condition reads, the
      condition has the wanted value exactly where some case of the expansion holds. */
  lemma ExpandExact(a: Analysis, w: World, v: Valuation, e: Expr, want: Tri, inlining: set<string>)
    requires ReadsFor(Exact, a, w, v, e, inlining) && Expand(a, e, want, inlining).Ok?
    ensures SomeHolds(v, Expand(a, e, want, inlining).value) <==> Truth(a.m, w, e) == want
  {
    ReadsForSound(Exact, a, w, v, e, inlining);
    ReadRelates(Exact, a, w, v, e, inlining);
    ExpandReads(Exact, a, w, v, e, want, inlining);
  }
}
