/** Every case an expansion gives is well formed, so `satisfiable` decides it. */
module Shapes {
  import opened Wrappers
  import opened Syntax
  import opened TypeModel
  import opened Bounds
  import opened Atoms
  import opened CaseProducts
  import opened Conditions
  import opened Expansion

  predicate LineOrdered(m: Model, l: Line) {
    l.x.Some? ==> OrderOf(m, l.x.value).Some?
  }

  lemma {:induction false} LinearOrdered(a: Analysis, e: Expr)
    requires Linear(a, e).Some?
    ensures LineOrdered(a.m, Linear(a, e).value)
  {
    if e.Bin? && (e.op == Add || e.op == Sub) {
      LinearOrdered(a, e.left);
    }
  }

  lemma BoundFits(m: Model, l: Line, r: Line, atoms: Case)
    requires LineOrdered(m, l) && LineOrdered(m, r)
    requires forall a | a in atoms :: a.Diff? && a.bound.u in {NodeOf(l.x), NodeOf(r.x)} && a.bound.v in {NodeOf(l.x), NodeOf(r.x)}
    ensures WellFormed(m, PresentAtoms(l.x, r.x) + atoms)
  {
  }

  lemma OrderedTrueFits(m: Model, op: Op, l: Line, r: Line)
    requires IsComparison(op) && LineOrdered(m, l) && LineOrdered(m, r)
    ensures AllWellFormed(m, OrderedCases(op, l, r, T))
  {
    var u, v, c := NodeOf(l.x), NodeOf(r.x), r.c - l.c;
    var strict := op != Le && op != Ge && op != Eq;
    var le, ge := Diff(Bound(u, v, c, strict)), Diff(Bound(v, u, -c, strict));
    BoundFits(m, l, r, {le});
    BoundFits(m, l, r, {ge});
    BoundFits(m, l, r, {le, ge});
  }

  lemma OrderedFits(m: Model, op: Op, l: Line, r: Line, want: Tri)
    requires IsComparison(op) && LineOrdered(m, l) && LineOrdered(m, r)
    ensures AllWellFormed(m, OrderedCases(op, l, r, want))
  {
    if want != U {
      OrderedTrueFits(m, if want == T then op else Negation(op), l, r);
      assert OrderedCases(op, l, r, want) == OrderedCases(if want == T then op else Negation(op), l, r, T);
    }
  }

  lemma FiniteFits(m: Model, x: Var, allowed: set<Value>, want: Tri)
    requires VarInfo(m, x).Some? && VarInfo(m, x).value.Finite? && allowed <= VarInfo(m, x).value.domain
    ensures AllWellFormed(m, FiniteCases(x, VarInfo(m, x).value.domain, allowed, want))
  {
  }

  lemma StateFits(m: Model, allowed: set<Value>, want: Tri)
    requires allowed <= StateValues(m)
    ensures AllWellFormed(m, StateCases(m, allowed, want))
  {
    assert VarInfo(m, StateVar) == Some(Finite(StateValues(m), false));
  }

  lemma CompareFits(a: Analysis, e: Expr, want: Tri)
    requires e.Bin? && IsComparison(e.op)
    ensures AllWellFormed(a.m, CompareCases(a, e, want))
  {
    if ShapeCases(a, e, want).Some? {
      var pair := VarAndLiteral(e.op, Resolve(a, e.left), Resolve(a, e.right));
      if pair.Some? && FiniteValue(VarInfo(a.m, pair.value.0), pair.value.1).Some? {
        var domain := VarInfo(a.m, pair.value.0).value.domain;
        FiniteFits(a.m, pair.value.0, if e.op == Eq then {pair.value.1.v} else domain - {pair.value.1.v}, want);
      } else if Resolve(a, e.right).Literal? && Resolve(a, e.right).v.VName? {
        var withIt := StatesOfCategory(a.m, Resolve(a, e.right).v.name);
        assert withIt <= StateValues(a.m);
        StateFits(a.m, if e.op == Eq then withIt else StateValues(a.m) - withIt, want);
      }
    } else if LinearDecides(a, e) {
      LinearOrdered(a, e.left);
      LinearOrdered(a, e.right);
      OrderedFits(a.m, e.op, Linear(a, e.left).value, Linear(a, e.right).value, want);
    }
  }

  lemma MembershipFits(a: Analysis, e: Expr, want: Tri)
    requires e.In?
    ensures AllWellFormed(a.m, MembershipCases(a, e, want))
  {
    var l := Resolve(a, e.left);
    if l.Variable? && VarInfo(a.m, l.x).Some? && VarInfo(a.m, l.x).value.Finite? {
      var domain := VarInfo(a.m, l.x).value.domain;
      FiniteFits(a.m, l.x, domain, want);
      if e.right.SetLit? && LiteralValues(a, e.right.items) <= domain {
        FiniteFits(a.m, l.x, LiteralValues(a, e.right.items), want);
      }
    }
  }

  lemma ValueFits(a: Analysis, e: Expr, want: Tri)
    ensures AllWellFormed(a.m, ValueCases(a, e, want))
  {
    var r := Resolve(a, e);
    if r.Variable? && VarInfo(a.m, r.x).Some? && VarInfo(a.m, r.x).value.Finite?
       && VarInfo(a.m, r.x).value.domain == BOOLS {
      FiniteFits(a.m, r.x, {VBool(true)}, want);
    }
  }

  lemma OpenFits(a: Analysis, want: Tri)
    ensures AllWellFormed(a.m, OpenCases(a, want))
  {
    assert OpenStates(a.m) <= StateValues(a.m);
    StateFits(a.m, OpenStates(a.m), want);
  }

  lemma LeafFits(a: Analysis, e: Expr, want: Tri)
    ensures AllWellFormed(a.m, LeafCases(a, e, want))
  {
    if e.Bin? && IsComparison(e.op) {
      CompareFits(a, e, want);
    } else if e.In? {
      MembershipFits(a, e, want);
    } else if e == Name("open") && "open" !in a.m.attrs {
      OpenFits(a, want);
    } else {
      ValueFits(a, e, want);
    }
  }

  lemma {:induction false} ProductFits(m: Model, xs: seq<Case>, ys: seq<Case>)
    requires AllWellFormed(m, xs) && AllWellFormed(m, ys) && Products([xs, ys]).Ok?
    ensures AllWellFormed(m, Products([xs, ys]).value)
  {
    assert WellFormed(m, {});
    FoldFits(m, [{}], [xs, ys]);
  }

  lemma {:induction false} ExpandFits(a: Analysis, e: Expr, want: Tri, inlining: set<string>)
    requires Expand(a, e, want, inlining).Ok?
    ensures AllWellFormed(a.m, Expand(a, e, want, inlining).value)
    decreases a.m.derived.Keys - inlining, e
  {
    if IsConnective(e) {
      var other := NotTri(ShortOf(e.op));
      if want == U {
        ExpandFits(a, e.left, U, inlining);
        ExpandFits(a, e.right, other, inlining);
        ExpandFits(a, e.left, LeftWant(e.op, other), inlining);
        ExpandFits(a, e.right, U, inlining);
        var lU, rU := Expand(a, e.left, U, inlining).value, Expand(a, e.right, U, inlining).value;
        var lO := Expand(a, e.left, LeftWant(e.op, other), inlining).value;
        var rO := Expand(a, e.right, other, inlining).value;
        ProductFits(a.m, lU, rO);
        ProductFits(a.m, lO, rU);
        ProductFits(a.m, lU, rU);
        FlatFits(a.m, [Products([lU, rO]).value, Products([lO, rU]).value, Products([lU, rU]).value]);
      } else {
        ExpandFits(a, e.left, LeftWant(e.op, want), inlining);
        ExpandFits(a, e.right, want, inlining);
        var l := Expand(a, e.left, LeftWant(e.op, want), inlining).value;
        var r := Expand(a, e.right, want, inlining).value;
        if want == other {
          ProductFits(a.m, l, r);
        } else {
          FlatFits(a.m, [l, r]);
        }
      }
    } else if e.Not? {
      ExpandFits(a, e.e, NotTri(want), inlining);
    } else if Inlines(a, e, inlining) {
      ExpandFits(a, a.m.derived[e.name], want, inlining + {e.name});
    } else {
      LeafFits(a, e, want);
    }
  }
}
