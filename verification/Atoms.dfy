/** The atoms a condition expands to, and the valuations that decide them (scripts/flowlogic.py, module comment). */
module Atoms {
  import opened Wrappers
  import opened Syntax
  import opened TypeModel
  import opened Weights
  import opened Bounds

  datatype Atom =
    | Absent(x: Var)
    | Present(x: Var)
    | Dom(x: Var, values: set<Value>)
    | EqStr(x: Var, s: string)
    | NeStr(x: Var, s: string)
    | Diff(bound: Bound)
    | Opaque(e: Expr, want: Tri)

  /** A conjunction of atoms. */
  type Case = set<Atom>

  /** Each variable absent or a value, each opaque expression true, false or unknown. */
  datatype Valuation = Valuation(vars: imap<Var, Value>, oracle: imap<Expr, Tri>)

  ghost function NodeValue(vars: imap<Var, Value>, n: Node): Option<real> {
    match n
    case Zero => Some(0.0)
    case At(x) => if x in vars && vars[x].VNum? then Some(vars[x].r) else None
  }

  ghost predicate DiffHolds(vars: imap<Var, Value>, b: Bound) {
    var u, v := NodeValue(vars, b.u), NodeValue(vars, b.v);
    u.Some? && v.Some? && Within(u.value - v.value, Weight(b.c, b.strict))
  }

  ghost predicate AtomHolds(v: Valuation, a: Atom) {
    match a
    case Absent(x) => x !in v.vars
    case Present(x) => x in v.vars
    case Dom(x, values) => x in v.vars && v.vars[x] in values
    case EqStr(x, s) => x in v.vars && v.vars[x] == VStr(s)
    case NeStr(x, s) => x in v.vars && v.vars[x] != VStr(s)
    case Diff(b) => DiffHolds(v.vars, b)
    case Opaque(e, want) => e in v.oracle && v.oracle[e] == want
  }

  ghost predicate CaseHolds(v: Valuation, c: Case) {
    forall a | a in c :: AtomHolds(v, a)
  }

  /** Some case of a list holds. */
  ghost predicate SomeHolds(v: Valuation, cases: seq<Case>) {
    exists i | 0 <= i < |cases| :: CaseHolds(v, cases[i])
  }

  // ── the shape every case the analysis builds has ─────────────────────────

  /** A variable an atom reads the value of is said present, or is the state, which every object has. */
  predicate Anchored(c: Case, x: Var) {
    Present(x) in c || x == StateVar
  }

  predicate OrderedNode(m: Model, c: Case, n: Node) {
    n.At? ==> OrderOf(m, n.x).Some? && Anchored(c, n.x)
  }

  predicate AtomFits(m: Model, c: Case, a: Atom) {
    match a
    case Absent(x) => VarInfo(m, x).Some?
    case Present(x) => VarInfo(m, x).Some?
    case Dom(x, values) =>
      VarInfo(m, x).Some? && VarInfo(m, x).value.Finite? && values <= VarInfo(m, x).value.domain && Anchored(c, x)
    case EqStr(x, _) => VarInfo(m, x).Some? && VarInfo(m, x).value.Equality? && Anchored(c, x)
    case NeStr(x, _) => VarInfo(m, x).Some? && VarInfo(m, x).value.Equality? && Anchored(c, x)
    case Diff(b) => OrderedNode(m, c, b.u) && OrderedNode(m, c, b.v)
    case Opaque(_, _) => true
  }

  predicate WellFormed(m: Model, c: Case) {
    forall a | a in c :: AtomFits(m, c, a)
  }

  predicate AllWellFormed(m: Model, cases: seq<Case>) {
    forall i | 0 <= i < |cases| :: WellFormed(m, cases[i])
  }

  lemma UnionFits(m: Model, c: Case, d: Case)
    requires WellFormed(m, c) && WellFormed(m, d)
    ensures WellFormed(m, c + d)
  {
    forall a | a in c + d ensures AtomFits(m, c + d, a) {
      if a in c {
        assert AtomFits(m, c, a);
      } else {
        assert AtomFits(m, d, a);
      }
    }
  }

  /** Every finite domain of the type has a value: its enumerations and its states are not empty. */
  predicate Inhabited(m: Model) {
    m.states != map[] && forall n | n in m.enums :: m.enums[n] != {}
  }
}
