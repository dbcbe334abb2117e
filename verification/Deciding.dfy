/** Whether a conjunction of atoms can hold (scripts/flowlogic.py, `satisfiable`). */
module Deciding {
  import opened Wrappers
  import opened Syntax
  import opened TypeModel
  import opened Weights
  import opened Bounds
  import opened Atoms

  // ── what the dictionaries say of a case's atoms ──────────────────────────

  ghost predicate PresenceSays(presence: map<Var, bool>, c: Case) {
    forall x :: (Present(x) in c <==> x in presence && presence[x]) && (Absent(x) in c <==> x in presence && !presence[x])
  }

  ghost predicate DomainsSay(domains: map<Var, set<Value>>, c: Case) {
    && (forall x, d | Dom(x, d) in c :: x in domains && domains[x] <= d)
    && (forall x | x in domains :: exists d :: Dom(x, d) in c)
    && (forall x, v | x in domains && v !in domains[x] :: exists d :: Dom(x, d) in c && v !in d)
  }

  ghost predicate EqualSays(equal: map<Var, string>, c: Case) {
    forall x, s :: EqStr(x, s) in c <==> x in equal && equal[x] == s
  }

  ghost predicate UnequalSays(unequal: map<Var, set<string>>, c: Case) {
    forall x, s :: NeStr(x, s) in c <==> x in unequal && s in unequal[x]
  }

  ghost predicate BoundsSay(bounds: seq<Bound>, c: Case) {
    forall b :: Diff(b) in c <==> b in bounds
  }

  ghost predicate OracleSays(oracle: map<Expr, Tri>, c: Case) {
    forall e, t :: Opaque(e, t) in c <==> e in oracle && oracle[e] == t
  }

  lemma DomainsAfter(domains: map<Var, set<Value>>, c: Case, x: Var, d: set<Value>)
    requires DomainsSay(domains, c)
    ensures DomainsSay(domains[x := if x in domains then domains[x] * d else d], c + {Dom(x, d)})
  {
    var after := domains[x := if x in domains then domains[x] * d else d];
    var c' := c + {Dom(x, d)};
    forall y, v | y in after && v !in after[y] ensures exists e :: Dom(y, e) in c' && v !in e {
      if y == x && v !in d {
        assert Dom(x, d) in c';
      } else {
        var e :| Dom(y, e) in c && v !in e;
        assert Dom(y, e) in c';
      }
    }
    forall y | y in after ensures exists e :: Dom(y, e) in c' {
      if y == x {
        assert Dom(x, d) in c';
      } else {
        var e :| Dom(y, e) in c;
        assert Dom(y, e) in c';
      }
    }
  }

  lemma DomainsKept(domains: map<Var, set<Value>>, c: Case, a: Atom)
    requires DomainsSay(domains, c) && !a.Dom?
    ensures DomainsSay(domains, c + {a})
  {
    forall y, v | y in domains && v !in domains[y] ensures exists e :: Dom(y, e) in c + {a} && v !in e {
      var e :| Dom(y, e) in c && v !in e;
      assert Dom(y, e) in c + {a};
    }
    forall y | y in domains ensures exists e :: Dom(y, e) in c + {a} {
      var e :| Dom(y, e) in c;
      assert Dom(y, e) in c + {a};
    }
  }

  /** The dictionaries filled from a case's atoms, or none where two atoms clash. */
  method Gather(c: Case) returns (clash: bool, presence: map<Var, bool>, domains: map<Var, set<Value>>,
                                  equal: map<Var, string>, unequal: map<Var, set<string>>, bounds: seq<Bound>,
                                  oracle: map<Expr, Tri>)
    ensures clash ==> forall v :: !CaseHolds(v, c)
    ensures !clash ==> PresenceSays(presence, c) && DomainsSay(domains, c) && EqualSays(equal, c)
    ensures !clash ==> UnequalSays(unequal, c) && BoundsSay(bounds, c) && OracleSays(oracle, c)
  {
    clash, presence, domains, equal, unequal, bounds, oracle := false, map[], map[], map[], map[], [], map[];
    var rest := c;
    while rest != {}
      invariant rest <= c
      invariant PresenceSays(presence, c - rest) && DomainsSay(domains, c - rest) && EqualSays(equal, c - rest)
      invariant UnequalSays(unequal, c - rest) && BoundsSay(bounds, c - rest) && OracleSays(oracle, c - rest)
      decreases rest
    {
      var a :| a in rest;
      ghost var done := c - rest;
      rest := rest - {a};
      assert c - rest == done + {a};
      if !a.Dom? {
        DomainsKept(domains, done, a);
      }
      match a {
        case Absent(x) =>
          if x in presence && presence[x] {
            assert Present(x) in done;
            forall v ensures !CaseHolds(v, c) {
              assert !(AtomHolds(v, Present(x)) && AtomHolds(v, a));
            }
            clash := true;
            return;
          }
          presence := presence[x := false];
        case Present(x) =>
          if x in presence && !presence[x] {
            assert Absent(x) in done;
            forall v ensures !CaseHolds(v, c) {
              assert !(AtomHolds(v, Absent(x)) && AtomHolds(v, a));
            }
            clash := true;
            return;
          }
          presence := presence[x := true];
        case Dom(x, d) =>
          DomainsAfter(domains, done, x, d);
          domains := domains[x := if x in domains then domains[x] * d else d];
        case EqStr(x, s) =>
          if x in equal && equal[x] != s {
            assert EqStr(x, equal[x]) in done;
            forall v ensures !CaseHolds(v, c) {
              assert !(AtomHolds(v, EqStr(x, equal[x])) && AtomHolds(v, a));
            }
            clash := true;
            return;
          }
          equal := equal[x := s];
        case NeStr(x, s) =>
          unequal := unequal[x := (if x in unequal then unequal[x] else {}) + {s}];
        case Diff(b) =>
          bounds := bounds + [b];
        case Opaque(e, t) =>
          if e in oracle && oracle[e] != t {
            assert Opaque(e, oracle[e]) in done;
            forall v ensures !CaseHolds(v, c) {
              assert !(AtomHolds(v, Opaque(e, oracle[e])) && AtomHolds(v, a));
            }
            clash := true;
            return;
          }
          oracle := oracle[e := t];
      }
    }
    assert c - rest == c;
  }

  // ── what the answer decides ──────────────────────────────────────────────

  ghost predicate HasNode(c: Case, n: Node) {
    exists b :: Diff(b) in c && (b.u == n || b.v == n)
  }

  /** Every ordered value the case compares is an integer. */
  ghost predicate CaseIntegral(m: Model, c: Case) {
    forall n | HasNode(c, n) :: IntegralNode(m, n)
  }

  /** The integer variables the test takes as rationals: those a case compares beside a rational. */
  ghost predicate Loose(m: Model, c: Case, x: Var) {
    !CaseIntegral(m, c) && HasNode(c, At(x)) && IntegralNode(m, At(x))
  }

  /** The ordered values of the case are of one sort, all integers or none. */
  ghost predicate OneSort(m: Model, c: Case) {
    CaseIntegral(m, c) || forall x | HasNode(c, At(x)) :: !IntegralNode(m, At(x))
  }

  predicate FitsLoosely(info: Info, loose: bool, v: Option<Value>) {
    Fits(info, v) || (loose && info.Integral? && v.Some? && v.value.VNum?)
  }

  /** Well typed but for the loose variables, each of which is any number. */
  ghost predicate LooselyTyped(m: Model, c: Case, vars: imap<Var, Value>) {
    && (forall x :: VarInfo(m, x).Some? ==> FitsLoosely(VarInfo(m, x).value, Loose(m, c, x), Lookup(vars, x)))
    && (forall k, f :: CountVar(k, f) in vars ==> vars[CountVar(k, f)].VNum? && vars[CountVar(k, f)].r >= 0.0)
  }

  /** Some loosely typed valuation satisfies the case. */
  ghost predicate LooselySatisfiable(m: Model, c: Case) {
    exists v: Valuation :: LooselyTyped(m, c, v.vars) && CaseHolds(v, c)
  }

  /** Some well-typed valuation satisfies the case. */
  ghost predicate HasValuation(m: Model, c: Case) {
    exists v: Valuation :: WellTyped(m, v.vars) && CaseHolds(v, c)
  }

  lemma OneSortIsExact(m: Model, c: Case, vars: imap<Var, Value>)
    ensures WellTyped(m, vars) ==> LooselyTyped(m, c, vars)
    ensures OneSort(m, c) && LooselyTyped(m, c, vars) ==> WellTyped(m, vars)
  {
  }

  /** A count is at least zero. */
  function CountFloors(bounds: seq<Bound>): set<Bound> {
    set n | n in Nodes(bounds) && n.At? && n.x.CountVar? :: Bound(Zero, n, 0.0, false)
  }

  method WithFloors(bounds: seq<Bound>) returns (all: seq<Bound>)
    ensures forall b :: b in all <==> b in bounds || b in CountFloors(bounds)
  {
    all := bounds;
    var rest := CountFloors(bounds);
    while rest != {}
      invariant rest <= CountFloors(bounds)
      invariant forall b :: b in all <==> b in bounds || b in CountFloors(bounds) - rest
      decreases rest
    {
      var b :| b in rest;
      all := all + [b];
      rest := rest - {b};
    }
  }

  lemma SameNodes(m: Model, c: Case, bounds: seq<Bound>, all: seq<Bound>)
    requires BoundsSay(bounds, c)
    requires forall b :: b in all <==> b in bounds || b in CountFloors(bounds)
    ensures forall n :: n in Nodes(bounds) <==> HasNode(c, n)
    ensures forall n :: n in Nodes(all) ==> n in Nodes(bounds) || n == Zero
    ensures forall n :: n in Nodes(bounds) ==> n in Nodes(all)
    ensures AllIntegral(m, all) <==> CaseIntegral(m, c)
  {
    forall n ensures n in Nodes(bounds) <==> HasNode(c, n) {
      if n in Nodes(bounds) {
        var b :| b in bounds && (b.u == n || b.v == n);
        assert Diff(b) in c;
      }
    }
    forall n | n in Nodes(all) ensures n in Nodes(bounds) || n == Zero {
      var b :| b in all && (b.u == n || b.v == n);
    }
    forall n | n in Nodes(bounds) ensures n in Nodes(all) {
      var b :| b in bounds && (b.u == n || b.v == n);
      assert b in all;
    }
  }

  /** The values a valuation gives the nodes of a case's bounds solve them. */
  lemma ValuationSolves(m: Model, c: Case, bounds: seq<Bound>, all: seq<Bound>, v: Valuation)
    requires BoundsSay(bounds, c) && CaseHolds(v, c) && LooselyTyped(m, c, v.vars)
    requires forall b :: b in all <==> b in bounds || b in CountFloors(bounds)
    ensures exists x :: Solves(m, all, x)
  {
    SameNodes(m, c, bounds, all);
    var x := imap n | NodeValue(v.vars, n).Some? :: NodeValue(v.vars, n).value;
    forall n | n in Nodes(bounds) ensures n in x {
      var b :| b in bounds && (b.u == n || b.v == n);
      assert AtomHolds(v, Diff(b));
    }
    forall b | b in all ensures BoundHolds(x, b) {
      if b in bounds {
        assert AtomHolds(v, Diff(b));
      }
    }
    if AllIntegral(m, all) {
      forall n | n in Nodes(all) ensures n in x && IsWhole(x[n]) {
        if n.At? {
          assert FitsLoosely(VarInfo(m, n.x).value, Loose(m, c, n.x), Lookup(v.vars, n.x));
        }
      }
    }
    assert Solves(m, all, x);
  }

  ghost function LongerThan(s: set<string>): (n: nat)
    ensures forall t | t in s :: |t| < n
  {
    if s == {} then 0
    else
      var t :| t in s;
      var n := LongerThan(s - {t});
      if |t| < n then n else |t| + 1
  }

  /** A string unlike any of some others. */
  ghost function Fresh(s: set<string>): (t: string)
    ensures t !in s
  {
    seq(LongerThan(s), i => 'x')
  }

  /** What the checks before the bounds leave of a case: no two atoms clash, no value that is always there is said
      absent, and each finite variable has a value in all its domains. */
  ghost predicate Passes(m: Model, c: Case) {
    && (forall y :: !(Absent(y) in c && Present(y) in c))
    && (forall y | Absent(y) in c && VarInfo(m, y).Some? :: VarInfo(m, y).value.nullable)
    && (forall y, s, t :: EqStr(y, s) in c && EqStr(y, t) in c ==> s == t)
    && (forall y, s :: !(EqStr(y, s) in c && NeStr(y, s) in c))
    && (forall e, s, t :: Opaque(e, s) in c && Opaque(e, t) in c ==> s == t)
    && (forall y | VarInfo(m, y).Some? && VarInfo(m, y).value.Finite? :: exists v :: InDomains(m, c, y, v))
  }

  ghost predicate InDomains(m: Model, c: Case, y: Var, v: Value)
    requires VarInfo(m, y).Some? && VarInfo(m, y).value.Finite?
  {
    v in VarInfo(m, y).value.domain && forall d | Dom(y, d) in c :: v in d
  }

  /** Values for the nodes of a case within its bounds, counts at least zero, and integers where all are. */
  ghost predicate CaseSolved(m: Model, c: Case, x: imap<Node, real>) {
    && Zero in x && x[Zero] == 0.0
    && (forall b | Diff(b) in c :: BoundHolds(x, b))
    && (forall n | HasNode(c, n) :: n in x && (n.At? && n.x.CountVar? ==> x[n] >= 0.0))
    && (CaseIntegral(m, c) ==> forall n | HasNode(c, n) :: n in x && IsWhole(x[n]))
  }

  /** What a variable takes in the valuation a passed case and a solution of its bounds leave room for. */
  ghost function Choice(m: Model, c: Case, x: imap<Node, real>, y: Var): Option<Value>
    requires Passes(m, c) && CaseSolved(m, c, x)
  {
    var info := VarInfo(m, y);
    if info.None? || Absent(y) in c || (Present(y) !in c && info.value.nullable) then None
    else
      match info.value
      case Finite(domain, _) => var v :| InDomains(m, c, y, v); Some(v)
      case Equality(_) =>
        if exists s :: EqStr(y, s) in c then (var s :| EqStr(y, s) in c; Some(VStr(s)))
        else Some(VStr(Fresh(set a | a in c && a.NeStr? && a.x == y :: a.s)))
      case _ => Some(VNum(if HasNode(c, At(y)) then x[At(y)] else 0.0))
  }

  lemma ChoiceFits(m: Model, c: Case, x: imap<Node, real>, y: Var)
    requires Passes(m, c) && CaseSolved(m, c, x) && VarInfo(m, y).Some?
    ensures FitsLoosely(VarInfo(m, y).value, Loose(m, c, y), Choice(m, c, x, y))
  {
    assert 0.0.Floor == 0;
  }

  lemma ChoiceHolds(m: Model, c: Case, x: imap<Node, real>, v: Valuation, a: Atom)
    requires Passes(m, c) && CaseSolved(m, c, x) && WellFormed(m, c) && a in c
    requires forall y :: Lookup(v.vars, y) == Choice(m, c, x, y)
    requires forall e, t | Opaque(e, t) in c :: e in v.oracle && v.oracle[e] == t
    ensures AtomHolds(v, a)
  {
    assert AtomFits(m, c, a);
    if a.Diff? {
      var b := a.bound;
      assert BoundHolds(x, b) && HasNode(c, b.u) && HasNode(c, b.v);
      forall n | n in {b.u, b.v} ensures NodeValue(v.vars, n) == Some(x[n]) {
        if n.At? {
          assert Lookup(v.vars, n.x) == Choice(m, c, x, n.x);
        }
      }
    } else if !a.Opaque? {
      assert Lookup(v.vars, a.x) == Choice(m, c, x, a.x);
      if a.NeStr? && !exists s :: EqStr(a.x, s) in c {
        assert a.s in (set b | b in c && b.NeStr? && b.x == a.x :: b.s);
      }
    }
  }

  /** A well-formed case that passes the checks and whose bounds have a solution holds. */
  lemma SolutionHolds(m: Model, c: Case, oracle: map<Expr, Tri>, x: imap<Node, real>)
    requires WellFormed(m, c) && Passes(m, c) && CaseSolved(m, c, x) && OracleSays(oracle, c)
    ensures LooselySatisfiable(m, c)
  {
    var vars := imap y | Choice(m, c, x, y).Some? :: Choice(m, c, x, y).value;
    var v := Valuation(vars, imap e | e in oracle :: oracle[e]);
    forall a | a in c ensures AtomHolds(v, a) {
      ChoiceHolds(m, c, x, v, a);
    }
    forall y | VarInfo(m, y).Some? ensures FitsLoosely(VarInfo(m, y).value, Loose(m, c, y), Lookup(v.vars, y)) {
      ChoiceFits(m, c, x, y);
    }
    assert LooselyTyped(m, c, v.vars);
  }

  lemma InhabitedDomain(m: Model, y: Var)
    requires Inhabited(m) && VarInfo(m, y).Some? && VarInfo(m, y).value.Finite?
    ensures VarInfo(m, y).value.domain != {}
  {
    match y {
      case StateVar =>
        var s :| s in m.states;
        assert VName(s) in StateValues(m);
      case AttrVar(a) => KindInhabited(m, Some(m.attrs[a]), m.created || m.attrs[a].optional);
      case InputVar(i) => KindInhabited(m, m.inputs[i], i !in m.present);
      case _ =>
    }
  }

  lemma KindInhabited(m: Model, spec: Option<Spec>, nullable: bool)
    requires Inhabited(m)
    ensures var k := Kind(m, spec, nullable); k.Some? && k.value.Finite? ==> k.value.domain != {}
  {
    if spec.Some? && spec.value.typ in m.enums {
      var n :| n in m.enums[spec.value.typ];
      assert VName(n) in NamesOf(m.enums[spec.value.typ]);
    } else {
      assert VBool(true) in BOOLS;
    }
  }

  /** The checks before the bounds, on the dictionaries. */
  ghost predicate Checked(m: Model, presence: map<Var, bool>, domains: map<Var, set<Value>>, equal: map<Var, string>,
                          unequal: map<Var, set<string>>) {
    && (forall x | x in presence && !presence[x] && VarInfo(m, x).Some? :: VarInfo(m, x).value.nullable)
    && (forall x | x in domains :: domains[x] != {})
    && (forall x | x in equal && x in unequal :: equal[x] !in unequal[x])
  }

  lemma HeldPasses(m: Model, c: Case, presence: map<Var, bool>, domains: map<Var, set<Value>>,
                   equal: map<Var, string>, unequal: map<Var, set<string>>, v: Valuation)
    requires LooselyTyped(m, c, v.vars) && CaseHolds(v, c)
    requires PresenceSays(presence, c) && DomainsSay(domains, c) && EqualSays(equal, c) && UnequalSays(unequal, c)
    ensures Checked(m, presence, domains, equal, unequal)
  {
    forall x | x in presence && !presence[x] && VarInfo(m, x).Some? ensures VarInfo(m, x).value.nullable {
      assert AtomHolds(v, Absent(x));
      assert FitsLoosely(VarInfo(m, x).value, Loose(m, c, x), Lookup(v.vars, x));
    }
    forall x | x in domains ensures domains[x] != {} {
      var d0 :| Dom(x, d0) in c;
      assert AtomHolds(v, Dom(x, d0));
      assert forall d | Dom(x, d) in c :: AtomHolds(v, Dom(x, d));
      assert v.vars[x] in domains[x];
    }
    forall x | x in equal && x in unequal ensures equal[x] !in unequal[x] {
      assert AtomHolds(v, EqStr(x, equal[x]));
      assert forall s | NeStr(x, s) in c :: AtomHolds(v, NeStr(x, s));
    }
  }

  lemma DomainsPass(m: Model, c: Case, domains: map<Var, set<Value>>, y: Var)
    requires Inhabited(m) && WellFormed(m, c) && DomainsSay(domains, c)
    requires forall x | x in domains :: domains[x] != {}
    requires VarInfo(m, y).Some? && VarInfo(m, y).value.Finite?
    ensures exists v :: InDomains(m, c, y, v)
  {
    InhabitedDomain(m, y);
    if y in domains {
      var v :| v in domains[y];
      var d :| Dom(y, d) in c;
      assert AtomFits(m, c, Dom(y, d));
      assert InDomains(m, c, y, v);
    } else {
      var v :| v in VarInfo(m, y).value.domain;
      assert InDomains(m, c, y, v);
    }
  }

  lemma BoundsSolved(m: Model, c: Case, bounds: seq<Bound>, all: seq<Bound>, x: imap<Node, real>)
    requires BoundsSay(bounds, c) && Solves(m, all, x)
    requires forall b :: b in all <==> b in bounds || b in CountFloors(bounds)
    ensures CaseSolved(m, c, x)
  {
    SameNodes(m, c, bounds, all);
    forall n | HasNode(c, n) ensures n in x && (n.At? && n.x.CountVar? ==> x[n] >= 0.0) {
      var b :| Diff(b) in c && (b.u == n || b.v == n);
      assert BoundHolds(x, b);
      if n.At? && n.x.CountVar? {
        assert BoundHolds(x, Bound(Zero, n, 0.0, false));
      }
    }
  }

  /** A case no valuation satisfies is never accepted without cause, and none that one satisfies is rejected: the
      answer is exact, but that where integers and rationals are compared in one case the integers are taken as
      rationals. */
  method Satisfiable(c: Case, m: Model) returns (ok: bool)
    ensures LooselySatisfiable(m, c) ==> ok
    ensures ok && WellFormed(m, c) && Inhabited(m) ==> LooselySatisfiable(m, c)
  {
    var clash, presence, domains, equal, unequal, bounds, oracle := Gather(c);
    if clash {
      return false;
    }
    forall v: Valuation | LooselyTyped(m, c, v.vars) && CaseHolds(v, c) ensures Checked(m, presence, domains, equal, unequal) {
      HeldPasses(m, c, presence, domains, equal, unequal, v);
    }
    if exists x | x in presence :: !presence[x] && VarInfo(m, x).Some? && !VarInfo(m, x).value.nullable {
      return false;
    }
    if exists x | x in domains :: domains[x] == {} {
      return false;
    }
    if exists x | x in equal :: x in unequal && equal[x] in unequal[x] {
      return false;
    }
    var all := WithFloors(bounds);
    ok := Consistent(all, m);
    forall v | CaseHolds(v, c) && LooselyTyped(m, c, v.vars) ensures ok {
      ValuationSolves(m, c, bounds, all, v);
    }
    if ok && WellFormed(m, c) && Inhabited(m) {
      ghost var x :| Solves(m, all, x);
      BoundsSolved(m, c, bounds, all, x);
      forall y | VarInfo(m, y).Some? && VarInfo(m, y).value.Finite? ensures exists v :: InDomains(m, c, y, v) {
        DomainsPass(m, c, domains, y);
      }
      SolutionHolds(m, c, oracle, x);
    }
  }
}
