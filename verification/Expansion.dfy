/** The conjunctions of atoms under which a condition is true, false or unknown (scripts/flowlogic.py,
    `Analysis.cases`). */
module Expansion {
  import opened Wrappers
  import opened Syntax
  import opened TypeModel
  import opened Bounds
  import opened Atoms
  import opened CaseProducts
  import opened Conditions

  function NullTestCases(a: Analysis, e: Expr, want: Tri): seq<Case>
    requires e.IsNull?
  {
    var r := Resolve(a, e.e);
    if r.NullValue? then Known(want == OfBool(!e.negated))
    else if r.Variable? && VarInfo(a.m, r.x).Some? then
      (if want == U then [] else if (want == T) != e.negated then [{Absent(r.x)}] else [{Present(r.x)}])
    else OpaqueCases(e, want)
  }

  /** `any` and `none` of an own collection, read through its count. */
  function AnyCases(e: Expr, want: Tri): seq<Case>
    requires e.Agg? && e.coll.Some?
  {
    var count := CountVar(e.coll.value, e.where);
    if want == U then [{Absent(count)}]
    else if (e.kind == "none") == (want == T) then [{Present(count), Diff(Bound(At(count), Zero, 0.0, false))}]
    else [{Present(count), Diff(Bound(Zero, At(count), -1.0, false))}]
  }

  function OpenCases(a: Analysis, want: Tri): seq<Case> {
    if want == U then []
    else if a.fixedState.Some? then Known((VName(a.fixedState.value) in OpenStates(a.m)) == (want == T))
    else StateCases(a.m, OpenStates(a.m), want)
  }

  /** A value taken as a condition: a boolean variable or literal, or opaque. */
  function ValueCases(a: Analysis, e: Expr, want: Tri): seq<Case> {
    var r := Resolve(a, e);
    if r.Variable? && VarInfo(a.m, r.x).Some? && VarInfo(a.m, r.x).value.Finite?
       && VarInfo(a.m, r.x).value.domain == BOOLS
    then FiniteCases(r.x, BOOLS, {VBool(true)}, want)
    else if r.Literal? && r.kind == LBool then Known(want == TriOfValue(Some(r.v)))
    else OpaqueCases(e, want)
  }

  /** `implies` reads its premise negated, as `or`. */
  function LeftWant(op: Op, want: Tri): Tri {
    if op == Implies then NotTri(want) else want
  }

  /** The value that decides `and` or `or` from one side. */
  function ShortOf(op: Op): Tri {
    if op == And then F else T
  }

  /** A condition that is not a connective of others, nor a derived attribute being replaced. */
  function LeafCases(a: Analysis, e: Expr, want: Tri): seq<Case> {
    if e.Bool? then Known(want == OfBool(e.b))
    else if e.IsNull? then NullTestCases(a, e, want)
    else if e.Bin? && IsComparison(e.op) then CompareCases(a, e, want)
    else if e.In? then MembershipCases(a, e, want)
    else if IsAnyOrNone(a.m, e) then AnyCases(e, want)
    else if e == Name("open") && "open" !in a.m.attrs then OpenCases(a, want)
    else ValueCases(a, e, want)
  }

  predicate IsConnective(e: Expr) {
    e.Bin? && (e.op == And || e.op == Or || e.op == Implies)
  }

  /** A derived attribute not already being replaced by its expression. */
  predicate Inlines(a: Analysis, e: Expr, inlining: set<string>) {
    e.Name? && !(e.name == "open" && "open" !in a.m.attrs) && e.name in a.m.derived && e.name !in inlining
  }

  function ExpandUnknown(aU: seq<Case>, aOther: seq<Case>, bU: seq<Case>, bOther: seq<Case>): Cases {
    var p :- Products([aU, bOther]);
    var q :- Products([aOther, bU]);
    var r :- Products([aU, bU]);
    Unions([p, q, r])
  }

  function Expand(a: Analysis, e: Expr, want: Tri, inlining: set<string>): Cases
    decreases a.m.derived.Keys - inlining, e
  {
    if IsConnective(e) then
      var short, other := ShortOf(e.op), NotTri(ShortOf(e.op));
      if want == short then
        var l :- Expand(a, e.left, LeftWant(e.op, short), inlining);
        var r :- Expand(a, e.right, short, inlining);
        Unions([l, r])
      else if want == other then
        var l :- Expand(a, e.left, LeftWant(e.op, other), inlining);
        var r :- Expand(a, e.right, other, inlining);
        Products([l, r])
      else
        var lU :- Expand(a, e.left, U, inlining);
        var rOther :- Expand(a, e.right, other, inlining);
        var lOther :- Expand(a, e.left, LeftWant(e.op, other), inlining);
        var rU :- Expand(a, e.right, U, inlining);
        ExpandUnknown(lU, lOther, rU, rOther)
    else if e.Not? then Expand(a, e.e, NotTri(want), inlining)
    else if Inlines(a, e, inlining) then
      Expand(a, a.m.derived[e.name], want, inlining + {e.name})
    else Ok(LeafCases(a, e, want))
  }
}
