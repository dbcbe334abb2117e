/** What the contradiction checker knows of one type (scripts/flowlogic.py, `TypeModel`), and what a condition means
    over an object of it: the three-valued logic of docs/design/declaration-syntax.md section 8.2. */
module TypeModel {
  import opened Wrappers
  import opened Syntax

  // ── the declaration ──────────────────────────────────────────────────────

  /** An attribute's or an input's declaration: what it references, or the base name of its type; a set or one; whether it may
      be absent, and whether it has a value where none is supplied: a default, or one minted or stamped at a creation. */
  datatype Spec = Spec(reference: Option<string>, typ: string, many: bool, optional: bool, default_: bool)

  datatype State = State(category: string, final: bool, required: seq<string>)

  /** The kinds of ordered value; `KNumber` is a bare literal's. */
  datatype OrderKind = KInt | KDecimal | KMoney | KTimestamp | KDuration | KNumber

  datatype Value = VName(name: string) | VBool(b: bool) | VNum(r: real) | VStr(s: string) | VOther(tag: string)

  /** How a variable's value is decided: by a finite domain, as an integer, as a rational, or by equality alone. */
  datatype Info =
    | Finite(domain: set<Value>, nullable: bool)
    | Integral(nullable: bool)
    | Rational(order: OrderKind, nullable: bool)
    | Equality(nullable: bool)

  /** A value a condition reads. A count is of an own collection, under a filter. */
  datatype Var =
    | StateVar
    | NowVar
    | EnteredVar(state: string)
    | AttrVar(attr: string)
    | InputVar(input: string)
    | CountVar(coll: Expr, where: Option<Expr>)

  datatype Model = Model(
    name: string,
    attrs: map<string, Spec>,
    derived: map<string, Expr>,
    states: map<string, State>,
    observations: set<string>,
    enums: map<string, set<string>>,
    inputs: map<string, Option<Spec>>,
    present: set<string>,
    created: bool)

  const BOOLS: set<Value> := {VBool(true), VBool(false)}

  function NamesOf(names: set<string>): set<Value> {
    set n | n in names :: VName(n)
  }

  function StateValues(m: Model): set<Value> {
    NamesOf(m.states.Keys)
  }

  function OpenStates(m: Model): set<Value> {
    set s | s in m.states && m.states[s].category != "closed" && !m.states[s].final :: VName(s)
  }

  function StatesOfCategory(m: Model, category: string): set<Value> {
    set s | s in m.states && m.states[s].category == category :: VName(s)
  }

  predicate IsCategory(m: Model, n: string) {
    n == "closed" || exists s | s in m.states :: m.states[s].category == n
  }

  function Kind(m: Model, spec: Option<Spec>, nullable: bool): Option<Info> {
    if spec.None? then None
    else
      var s := spec.value;
      if s.reference.Some? then (if s.many then None else Some(Equality(nullable)))
      else if s.many then None
      else if s.typ in m.enums then Some(Finite(NamesOf(m.enums[s.typ]), nullable))
      else if s.typ == "bool" then Some(Finite(BOOLS, nullable))
      else if s.typ == "counter" then Some(Integral(false))
      else if s.typ == "int" then Some(Integral(nullable))
      else if s.typ == "decimal" then Some(Rational(KDecimal, nullable))
      else if s.typ == "money" then Some(Rational(KMoney, nullable))
      else if s.typ == "timestamp" then Some(Rational(KTimestamp, nullable))
      else if s.typ == "duration" then Some(Rational(KDuration, nullable))
      else if s.typ in {"string", "identity", "file"} then Some(Equality(nullable))
      else None
  }

  function VarInfo(m: Model, x: Var): Option<Info> {
    match x
    case StateVar => Some(Finite(StateValues(m), false))
    case NowVar => Some(Rational(KTimestamp, false))
    case EnteredVar(_) => Some(Rational(KTimestamp, true))
    case CountVar(_, _) => Some(Integral(true))
    case AttrVar(a) =>
      if a in m.attrs then Kind(m, Some(m.attrs[a]), m.created || m.attrs[a].optional) else None
    case InputVar(i) =>
      if i in m.inputs then Kind(m, m.inputs[i], i !in m.present) else None
  }

  function OrderOf(m: Model, x: Var): Option<OrderKind> {
    match VarInfo(m, x)
    case Some(Integral(_)) => Some(KInt)
    case Some(Rational(k, _)) => Some(k)
    case _ => None
  }

  predicate OwnCollection(m: Model, e: Expr) {
    e.Name? && (e.name in m.attrs || e.name in m.observations)
  }

  /** No name is declared twice in what a bare name may resolve to (section 9.2 of the declaration syntax). */
  predicate NamesApart(m: Model) {
    && (forall d | d in m.derived ::
          d !in m.attrs && d !in m.states && !IsCategory(m, d) && d !in {"now", "state", "open"})
    && "open" !in m.states && !IsCategory(m, "open")
    && "state" !in m.enums && m.name != "state"
  }

  // ── an object and what a condition means of it ───────────────────────────

  datatype Tri = T | F | U

  function NotTri(a: Tri): Tri {
    match a case T => F case F => T case U => U
  }

  function AndTri(a: Tri, b: Tri): Tri {
    if a == F || b == F then F else if a == T && b == T then T else U
  }

  function OrTri(a: Tri, b: Tri): Tri {
    NotTri(AndTri(NotTri(a), NotTri(b)))
  }

  function OfBool(b: bool): Tri {
    if b then T else F
  }

  /** How many elements of a collection meet a filter, and of how many it is unknown whether they do. */
  datatype Tally = Tally(yes: nat, unknown: nat)

  /** An object at an instant: the values it holds and its inputs supply, an absent one not in `vars`; the tally of
      each aggregate; and the value of every expression the declaration alone does not give, such as a path to
      another object or a metric. */
  datatype World = World(vars: imap<Var, Value>, tallies: imap<Expr, Tally>, other: imap<Expr, Value>)

  ghost function Lookup<K, V>(m: imap<K, V>, k: K): Option<V> {
    if k in m then Some(m[k]) else None
  }

  predicate Fits(info: Info, v: Option<Value>) {
    match v
    case None => info.nullable
    case Some(v) =>
      match info
      case Finite(domain, _) => v in domain
      case Integral(_) => v.VNum? && v.r.Floor as real == v.r
      case Rational(_, _) => v.VNum?
      case Equality(_) => v.VStr?
  }

  ghost predicate WellTyped(m: Model, vars: imap<Var, Value>) {
    && (forall x :: VarInfo(m, x).Some? ==> Fits(VarInfo(m, x).value, Lookup(vars, x)))
    && (forall c, f :: CountVar(c, f) in vars ==> vars[CountVar(c, f)].VNum? && vars[CountVar(c, f)].r >= 0.0)
  }

  function TriOfValue(v: Option<Value>): Tri {
    if v == Some(VBool(true)) then T else if v == Some(VBool(false)) then F else U
  }

  function ValueOfTri(t: Tri): Option<Value> {
    match t case T => Some(VBool(true)) case F => Some(VBool(false)) case U => None
  }

  function Ordered(op: Op, a: real, b: real): bool
    requires IsComparison(op)
  {
    match op
    case Eq => a == b
    case Ne => a != b
    case Lt => a < b
    case Le => a <= b
    case Gt => a > b
    case _ => a >= b
  }

  /** A comparison is unknown when a value it reads is absent; only numbers are ordered. */
  function Compared(op: Op, a: Option<Value>, b: Option<Value>): Tri
    requires IsComparison(op)
  {
    if a.None? || b.None? then U
    else if op == Eq then OfBool(a == b)
    else if op == Ne then OfBool(a != b)
    else if a.value.VNum? && b.value.VNum? then OfBool(Ordered(op, a.value.r, b.value.r))
    else U
  }

  function Seconds(unit: string): real {
    if unit == "s" then 1.0
    else if unit == "min" then 60.0
    else if unit == "h" then 3600.0
    else if unit == "day" || unit == "days" then 86400.0
    else 604800.0
  }

  /** The tally an aggregate of an own collection reads: one whatever its kind, and whatever binder it is written with
      where its filter and its body do not turn on it. */
  function TallyKey(e: Expr): Expr
    requires e.Agg?
  {
    e.(kind := "count", binder := if BinderOf(e.binder) <= InnerFree(e.where, e.body) then e.binder else None)
  }

  ghost function CountOf(w: World, agg: Expr): Option<Value>
    requires agg.Agg?
  {
    var t := Lookup(w.tallies, TallyKey(agg));
    if t.None? || t.value.unknown > 0 then None else Some(VNum(t.value.yes as real))
  }

  /** Some element meets the filter; unknown where none is known to and one may. */
  ghost function AnyOf(w: World, agg: Expr): Tri
    requires agg.Agg?
  {
    var t := Lookup(w.tallies, TallyKey(agg));
    if t.None? then U else if t.value.yes > 0 then T else if t.value.unknown > 0 then U else F
  }

  predicate IsCount(m: Model, e: Expr) {
    e.Agg? && e.kind == "count" && e.binder.Some? && e.coll.Some? && OwnCollection(m, e.coll.value)
  }

  predicate IsAnyOrNone(m: Model, e: Expr) {
    e.Agg? && (e.kind == "any" || e.kind == "none") && e.binder.Some? && e.body.None? && e.coll.Some?
    && OwnCollection(m, e.coll.value)
  }

  /** Whether an expression's value is a truth its shape gives. */
  predicate IsLogical(m: Model, e: Expr) {
    || e.Not? || e.IsNull? || e.In? || (e.Bin? && !IsArithmetic(e.op)) || IsAnyOrNone(m, e)
  }

  ghost function StateNow(w: World): Option<string> {
    match Lookup<Var, Value>(w.vars, StateVar) case Some(VName(s)) => Some(s) case _ => None
  }

  ghost function CategoryNow(m: Model, w: World): Option<string> {
    match StateNow(w)
    case Some(s) => if s in m.states then Some(m.states[s].category) else None
    case None => None
  }

  ghost function NameValue(m: Model, w: World, n: string): Option<Value> {
    if n == "now" then Lookup(w.vars, NowVar)
    else if n == "state" then Lookup(w.vars, StateVar)
    else if n in m.attrs then Lookup(w.vars, AttrVar(n))
    else if n == "open" then
      (match Lookup<Var, Value>(w.vars, StateVar) case Some(s) => Some(VBool(s in OpenStates(m))) case None => None)
    else if n in m.derived then Lookup(w.other, Name(n))
    else if n in m.states || IsCategory(m, n) then Some(VName(n))
    else Lookup(w.other, Name(n))
  }

  ghost function PathValue(m: Model, w: World, base: Expr, member: string): Option<Value> {
    if base == Name("inputs") && member in m.inputs then Lookup(w.vars, InputVar(member))
    else if base == Name("this") then NameValue(m, w, member)
    else if base.Name? && base.name in m.enums && member in m.enums[base.name] then Some(VName(member))
    else if base == Name(m.name) && member in m.states then Some(VName(member))
    else if base == Name("state") && member == "category" then
      (match CategoryNow(m, w) case Some(c) => Some(VName(c)) case None => None)
    else Lookup(w.other, Path(base, member))
  }

  ghost function ValueOf(m: Model, w: World, e: Expr): Option<Value>
    decreases e, if IsLogical(m, e) then 1 else 0
  {
    if IsLogical(m, e) then ValueOfTri(Truth(m, w, e))
    else
      match e
      case Null => None
      case Name(n) => NameValue(m, w, n)
      case Path(base, member) => PathValue(m, w, base, member)
      case Call(Name(f), args) =>
        if f == "entered_at" && |args| == 1 && args[0].Name? && args[0].name in m.states
        then Lookup(w.vars, EnteredVar(args[0].name)) else Lookup(w.other, e)
      case Num(l) => Some(VNum(LitValue(l)))
      case Dur(n, unit) => Some(VNum(LitValue(n) * Seconds(unit)))
      case Money(_, amount) => Some(VNum(DecimalValue(amount)))
      case Str(s) => Some(VStr(s))
      case Bool(b) => Some(VBool(b))
      case Bin(op, l, r) =>
        if op != Add && op != Sub then Lookup(w.other, e)
        else
          (match (ValueOf(m, w, l), ValueOf(m, w, r))
           case (Some(VNum(a)), Some(VNum(b))) => Some(VNum(if op == Add then a + b else a - b))
           case _ => None)
      case Agg(_, _, _, _, _, _) => if IsCount(m, e) then CountOf(w, e) else Lookup(w.other, e)
      case _ => Lookup(w.other, e)
  }

  ghost function Truth(m: Model, w: World, e: Expr): Tri
    decreases e, if IsLogical(m, e) then 0 else 1
  {
    if !IsLogical(m, e) then TriOfValue(ValueOf(m, w, e))
    else
      match e
      case Not(x) => NotTri(Truth(m, w, x))
      case IsNull(x, negated) => OfBool(ValueOf(m, w, x).Some? == negated)
      case Bin(op, l, r) =>
        if op == And then AndTri(Truth(m, w, l), Truth(m, w, r))
        else if op == Or then OrTri(Truth(m, w, l), Truth(m, w, r))
        else if op == Implies then OrTri(NotTri(Truth(m, w, l)), Truth(m, w, r))
        else Compared(op, ValueOf(m, w, l), ValueOf(m, w, r))
      case In(l, SetLit(items)) =>
        var v := ValueOf(m, w, l);
        if v.None? then U
        else if exists i | 0 <= i < |items| :: ValueOf(m, w, items[i]) == v then T
        else if exists i | 0 <= i < |items| :: ValueOf(m, w, items[i]).None? then U
        else F
      case In(l, Name(n)) =>
        var v := ValueOf(m, w, l);
        if n !in m.enums then TriOfValue(Lookup(w.other, e))
        else if v.None? then U
        else OfBool(v.value in NamesOf(m.enums[n]))
      case Agg(kind, _, _, _, _, _) => if kind == "any" then AnyOf(w, e) else NotTri(AnyOf(w, e))
      case _ => TriOfValue(Lookup(w.other, e))
  }

  /** A derived attribute is true, false or unknown as the expression that derives it. */
  ghost predicate Coherent(m: Model, w: World) {
    forall d | d in m.derived :: Truth(m, w, Name(d)) == Truth(m, w, m.derived[d])
  }

  /** What is known of one value is known of the other. */
  predicate Below(a: Tri, b: Tri) {
    a == U || a == b
  }
}
