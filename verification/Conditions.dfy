/** A condition as cases, over one type and one transition's inputs (scripts/flowlogic.py, `Analysis`). */
module Conditions {
  import opened Wrappers
  import opened Syntax
  import opened TypeModel
  import opened Bounds
  import opened Atoms
  import opened CaseProducts

  /** `written` holds the tree of each attribute's value after a transition's writes; `fixedState` the state the
      object is then known to be in. */
  datatype Analysis = Analysis(m: Model, written: map<string, Expr>, fixedState: Option<string>)

  /** The analysis of a condition before any write. */
  function Unwritten(m: Model): Analysis {
    Analysis(m, map[], None)
  }

  // ── the values a condition reads ─────────────────────────────────────────

  datatype LitKind = LState | LCategory | LEnum | LNumber | LDuration | LMoney | LString | LBool

  datatype Resolved = Variable(x: Var) | Literal(kind: LitKind, v: Value) | NullValue | NotModelled

  function ResolveName(a: Analysis, n: string): Resolved
    decreases a.written, 0
  {
    if n == "now" then Variable(NowVar)
    else if n == "state" then
      (if a.fixedState.Some? then Literal(LState, VName(a.fixedState.value)) else Variable(StateVar))
    else if n in a.m.attrs then
      if n in a.written then Resolve(a.(written := a.written - {n}), a.written[n])
      else if a.m.created && n in a.m.inputs then Variable(InputVar(n))
      else Variable(AttrVar(n))
    else if n in a.m.states then Literal(LState, VName(n))
    else if IsCategory(a.m, n) then Literal(LCategory, VName(n))
    else NotModelled
  }

  function ResolvePath(a: Analysis, base: Expr, member: string): Resolved
    decreases a.written, 1
  {
    if base == Name("inputs") then (if member in a.m.inputs then Variable(InputVar(member)) else NotModelled)
    else if base == Name("this") then ResolveName(a, member)
    else if base.Name? && base.name in a.m.enums && member in a.m.enums[base.name] then Literal(LEnum, VName(member))
    else if base == Name(a.m.name) && member in a.m.states then Literal(LState, VName(member))
    else if base == Name("state") && member == "category" && a.fixedState.Some? && a.fixedState.value in a.m.states then
      Literal(LCategory, VName(a.m.states[a.fixedState.value].category))
    else NotModelled
  }

  /** A value node as a variable, a literal, or null, or not modelled. A write is resolved as it stood before it. */
  function Resolve(a: Analysis, e: Expr): Resolved
    decreases a.written, 2
  {
    match e
    case Null => NullValue
    case Name(n) => ResolveName(a, n)
    case Path(base, member) => ResolvePath(a, base, member)
    case Call(f, args) =>
      if f == Name("entered_at") && |args| == 1 && args[0].Name? && args[0].name in a.m.states && a.fixedState.None?
      then Variable(EnteredVar(args[0].name)) else NotModelled
    case Num(l) => Literal(LNumber, VNum(LitValue(l)))
    case Dur(n, unit) => Literal(LDuration, VNum(LitValue(n) * Seconds(unit)))
    case Money(_, amount) => Literal(LMoney, VNum(DecimalValue(amount)))
    case Str(s) => Literal(LString, VStr(s))
    case Bool(b) => Literal(LBool, VBool(b))
    case _ => NotModelled
  }

  /** x + c, or c alone. */
  datatype Line = Line(x: Option<Var>, c: real, kind: OrderKind)

  predicate IsNumeric(k: OrderKind) {
    k == KInt || k == KDecimal
  }

  /** The kind of a ± b, b a constant, or none where the types do not add. */
  function SumKind(a: OrderKind, b: OrderKind): Option<OrderKind> {
    if a == KTimestamp && b == KDuration then Some(KTimestamp)
    else if a == b && (a == KDuration || a == KMoney || a == KNumber) then Some(a)
    else if b == KNumber && IsNumeric(a) then Some(a)
    else None
  }

  /** Whether two ordered kinds compare: one kind, or a numeric literal against a number or an amount. */
  predicate Comparable(a: OrderKind, b: OrderKind) {
    if a == b then a != KNumber
    else if a == KNumber then IsNumeric(b) || b == KMoney
    else b == KNumber && (IsNumeric(a) || a == KMoney)
  }

  function Linear(a: Analysis, e: Expr): Option<Line> {
    if e.Bin? && (e.op == Add || e.op == Sub) then
      var l, r := Linear(a, e.left), Linear(a, e.right);
      if l.None? || r.None? || r.value.x.Some? then None
      else
        var kind := SumKind(l.value.kind, r.value.kind);
        if kind.None? then None
        else Some(Line(l.value.x, if e.op == Add then l.value.c + r.value.c else l.value.c - r.value.c, kind.value))
    else if IsCount(a.m, e) then Some(Line(Some(CountVar(e.coll.value, e.where)), 0.0, KInt))
    else
      match Resolve(a, e)
      case Variable(x) =>
        (match OrderOf(a.m, x) case Some(k) => Some(Line(Some(x), 0.0, k)) case None => None)
      case Literal(LNumber, VNum(r)) => Some(Line(None, r, KNumber))
      case Literal(LDuration, VNum(r)) => Some(Line(None, r, KDuration))
      case Literal(LMoney, VNum(r)) => Some(Line(None, r, KMoney))
      case _ => None
  }

  /** A literal a finite variable may take. */
  function FiniteValue(info: Option<Info>, r: Resolved): Option<Value> {
    if info.Some? && info.value.Finite? && r.Literal? && (r.kind == LState || r.kind == LEnum || r.kind == LBool)
       && r.v in info.value.domain
    then Some(r.v) else None
  }

  // ── a condition as cases ─────────────────────────────────────────────────

  function OpaqueCases(e: Expr, want: Tri): seq<Case> {
    [{Opaque(e, want)}]
  }

  /** The one empty case, or none. */
  function Known(holds: bool): seq<Case> {
    if holds then [{}] else []
  }

  function NodeOf(x: Option<Var>): Node {
    match x case None => Zero case Some(x) => At(x)
  }

  function PresentAtoms(x: Option<Var>, y: Option<Var>): Case {
    (if x.Some? then {Present(x.value)} else {}) + (if y.Some? then {Present(y.value)} else {})
  }

  function Negation(op: Op): (r: Op)
    requires IsComparison(op)
    ensures IsComparison(r)
  {
    match op
    case Le => Gt
    case Lt => Ge
    case Ge => Lt
    case Gt => Le
    case Eq => Ne
    case _ => Eq
  }

  /** u + cu op v + cv, as difference bounds on u - v. */
  function OrderedCases(op: Op, l: Line, r: Line, want: Tri): seq<Case>
    requires IsComparison(op)
  {
    if want == U then
      (if l.x.Some? then [{Absent(l.x.value)}] else []) + (if r.x.Some? then [{Absent(r.x.value)}] else [])
    else
      var present := PresentAtoms(l.x, r.x);
      var u, v, c := NodeOf(l.x), NodeOf(r.x), r.c - l.c;
      var le := (strict: bool) => Diff(Bound(u, v, c, strict));
      var ge := (strict: bool) => Diff(Bound(v, u, -c, strict));
      match if want == T then op else Negation(op)
      case Le => [present + {le(false)}]
      case Lt => [present + {le(true)}]
      case Ge => [present + {ge(false)}]
      case Gt => [present + {ge(true)}]
      case Eq => [present + {le(false), ge(false)}]
      case _ => [present + {le(true)}, present + {ge(true)}]
  }

  /** A finite variable equal to a value, or not. */
  function FiniteCases(x: Var, domain: set<Value>, allowed: set<Value>, want: Tri): seq<Case> {
    if want == U then [{Absent(x)}]
    else [{Present(x), Dom(x, if want == T then allowed else domain - allowed)}]
  }

  function EqualityCases(x: Var, s: string, equal: bool, want: Tri): seq<Case> {
    if want == U then [{Absent(x)}]
    else [{Present(x), if equal == (want == T) then EqStr(x, s) else NeStr(x, s)}]
  }

  function StateCases(m: Model, allowed: set<Value>, want: Tri): seq<Case> {
    if want == U then [] else [{Dom(StateVar, if want == T then allowed else StateValues(m) - allowed)}]
  }

  /** A variable compared for equality with a literal: of its finite domain, or a string. */
  function PairCases(m: Model, op: Op, x: Var, lit: Resolved, want: Tri): Option<seq<Case>>
    requires lit.Literal?
  {
    var info := VarInfo(m, x);
    if FiniteValue(info, lit).Some? then
      var domain := info.value.domain;
      Some(FiniteCases(x, domain, if op == Eq then {lit.v} else domain - {lit.v}, want))
    else if info.Some? && info.value.Equality? && lit.kind == LString && lit.v.VStr? then
      Some(EqualityCases(x, lit.v.s, op == Eq, want))
    else None
  }

  /** The variable and the literal of a comparison for equality, where it has one of each. */
  function VarAndLiteral(op: Op, l: Resolved, r: Resolved): (p: Option<(Var, Resolved)>)
    ensures p.Some? ==> p.value.1.Literal?
  {
    if op != Eq && op != Ne then None
    else if l.Variable? && r.Literal? then Some((l.x, r))
    else if l.Literal? && r.Variable? then Some((r.x, l))
    else None
  }

  /** Whether a comparison is of two linear forms, one with a variable, of kinds that compare. */
  predicate LinearDecides(a: Analysis, e: Expr)
    requires e.Bin?
  {
    var l, r := Linear(a, e.left), Linear(a, e.right);
    l.Some? && r.Some? && (l.value.x.Some? || r.value.x.Some?) && Comparable(l.value.kind, r.value.kind)
  }

  function LinearCases(a: Analysis, e: Expr, want: Tri): seq<Case>
    requires e.Bin? && IsComparison(e.op)
  {
    if LinearDecides(a, e) then OrderedCases(e.op, Linear(a, e.left).value, Linear(a, e.right).value, want)
    else OpaqueCases(e, want)
  }

  predicate IsStateCategory(e: Expr) {
    e == Path(Name("state"), "category")
  }

  /** A comparison the values' shapes decide before they are read as linear forms. */
  function ShapeCases(a: Analysis, e: Expr, want: Tri): Option<seq<Case>>
    requires e.Bin? && IsComparison(e.op)
  {
    var l, r := Resolve(a, e.left), Resolve(a, e.right);
    var pair := VarAndLiteral(e.op, l, r);
    if l.NullValue? || r.NullValue? then Some(Known(want == U))
    else if l.Literal? && r.Literal? && (e.op == Eq || e.op == Ne) && l.kind == r.kind then
      Some(Known(want == OfBool((l.v == r.v) == (e.op == Eq))))
    else if pair.Some? && PairCases(a.m, e.op, pair.value.0, pair.value.1, want).Some? then
      PairCases(a.m, e.op, pair.value.0, pair.value.1, want)
    else if IsStateCategory(e.left) && (e.op == Eq || e.op == Ne) && r.Literal? && r.kind == LCategory && r.v.VName?
            && a.fixedState.None? then
      var withIt := StatesOfCategory(a.m, r.v.name);
      Some(StateCases(a.m, if e.op == Eq then withIt else StateValues(a.m) - withIt, want))
    else None
  }

  function CompareCases(a: Analysis, e: Expr, want: Tri): seq<Case>
    requires e.Bin? && IsComparison(e.op)
  {
    match ShapeCases(a, e, want)
    case Some(cases) => cases
    case None => LinearCases(a, e, want)
  }

  /** The values of a set's literals. */
  function LiteralValues(a: Analysis, items: seq<Expr>): set<Value> {
    set i | 0 <= i < |items| && Resolve(a, items[i]).Literal? :: Resolve(a, items[i]).v
  }

  function MembershipCases(a: Analysis, e: Expr, want: Tri): seq<Case>
    requires e.In?
  {
    var l := Resolve(a, e.left);
    if l.Literal? && e.right.SetLit? then
      var items := e.right.items;
      if forall i | 0 <= i < |items| :: Resolve(a, items[i]).Literal? && Resolve(a, items[i]).kind == l.kind then
        Known(want == OfBool(l.v in LiteralValues(a, items)))
      else OpaqueCases(e, want)
    else if !l.Variable? || VarInfo(a.m, l.x).None? || !VarInfo(a.m, l.x).value.Finite? then OpaqueCases(e, want)
    else
      var info := VarInfo(a.m, l.x);
      var domain := info.value.domain;
      if e.right.SetLit? then
        var items := e.right.items;
        if forall i | 0 <= i < |items| :: FiniteValue(info, Resolve(a, items[i])).Some? then
          FiniteCases(l.x, domain, LiteralValues(a, items), want)
        else OpaqueCases(e, want)
      else if e.right.Name? && e.right.name in a.m.enums && domain == NamesOf(a.m.enums[e.right.name]) then
        FiniteCases(l.x, domain, domain, want)
      else OpaqueCases(e, want)
  }
}
