/** Contradictions within one type: conditions that can never hold together (scripts/flowlogic.py, `analyse_type`). */
module Findings {
  import opened Wrappers
  import opened Syntax
  import opened TypeModel
  import opened Bounds
  import opened Atoms
  import opened CaseProducts
  import opened Conditions
  import opened Expansion
  import opened Exactness
  import opened Shapes
  import opened Deciding
  import opened Requirements
  import opened Declarations
  import opened Objects
  import opened Observed
  import opened Writing

  datatype Finding =
    | NeverIn(state: string, names: seq<string>)
    | NeverTaken(transition: string, names: seq<string>)
    | NeverPasses(transition: string, guard: string)
    | WriteBreaks(transition: string, names: seq<string>)
    | UndecidedState(state: string)
    | UndecidedTransition(transition: string)

  // ── what a finding claims ────────────────────────────────────────────────

  /** A condition a transition's guards name, and how a guard naming it acts. */
  predicate IsGuard(t: TypeDecl, x: Transition, name: string, mode: Mode) {
    name in t.conditions && exists i | 0 <= i < |x.guards| :: x.guards[i] == (name, mode)
  }

  /** No name of the type means two things, and aggregates that are read as one number are one. */
  predicate Distinct(t: TypeDecl, counts: set<Expr>) {
    NamesApart(ModelOf(t)) && Unmixed(counts)
  }

  /** The aggregates a type's invariants turn on. */
  function InvariantCounts(t: TypeDecl): set<Expr> {
    set tree, g | tree in InvariantTrees(t) && g in CountsRead(Unwritten(ModelOf(t)), tree, {}) :: g
  }

  function ConditionCounts(t: TypeDecl, x: Transition, g: string): set<Expr> {
    if g in t.conditions then CountsRead(Unwritten(ModelFor(t, x)), t.conditions[g], {}) else {}
  }

  /** What a transition's blocking guards leave opaque, and the aggregates they turn on. */
  function GuardReads(t: TypeDecl, x: Transition): Phase {
    Phase(set i, e | 0 <= i < |x.guards| && x.guards[i].1 == Deny && x.guards[i].0 in t.conditions
                     && e in OpaqueLeaves(Unwritten(ModelFor(t, x)), t.conditions[x.guards[i].0], {}) :: e,
          set i, g | 0 <= i < |x.guards| && x.guards[i].1 == Deny && g in ConditionCounts(t, x, x.guards[i].0) :: g)
  }

  /** What the invariants that read only what a transition writes leave opaque after it, and the aggregates they turn on. */
  function CheckedReads(t: TypeDecl, x: Transition): Phase {
    Phase(set tree, e | tree in InvariantTrees(t) && ReadsOnlyWrites(t, x, tree) && e in OpaqueLeaves(After(t, x), tree, {}) :: e,
          set tree, g | tree in InvariantTrees(t) && ReadsOnlyWrites(t, x, tree) && g in CountsRead(After(t, x), tree, {}) :: g)
  }

  ghost predicate InState(w: World, states: set<string>) {
    exists s | s in states :: Lookup(w.vars, StateVar) == Some(VName(s))
  }

  /** An object a request for a transition may be taken on: in one of its states, or none where it creates one, its
      blocking guards true. */
  ghost predicate Takeable(t: TypeDecl, x: Transition, w: World) {
    && (if x.kind == Initial then Unborn(ModelFor(t, x), Taken(x), w) else Ordinary(ModelFor(t, x), w) && InState(w, x.from))
    && forall g | IsGuard(t, x, g, Deny) :: Truth(ModelFor(t, x), w, t.conditions[g]) == T
  }

  /** A creation's guard does not test for its absence what the analysis reads though there is no object yet. */
  predicate IsAskable(t: TypeDecl, x: Transition, g: string) {
    x.kind == Initial && g in t.conditions ==> TestsApart(ModelFor(t, x), Taken(x), t.conditions[g])
  }

  /** None of a transition's blocking guards does. */
  predicate Askable(t: TypeDecl, x: Transition) {
    EntersDeclared(t, x) && forall i | 0 <= i < |x.guards| && x.guards[i].1 == Deny :: IsAskable(t, x, x.guards[i].0)
  }

  /** No object can be in a state: of one that were, some invariant would be false. */
  ghost predicate NoneIn(t: TypeDecl, s: string) {
    Distinct(t, InvariantCounts(t)) ==>
      forall w | Ordinary(ModelOf(t), w) && InState(w, {s}) ::
        exists tree :: IsInvariant(t, tree) && Truth(ModelOf(t), w, tree) == F
  }

  /** A transition can never be taken for its guards. */
  ghost predicate NoneTakes(t: TypeDecl, x: Transition) {
    Distinct(t, GuardReads(t, x).counts) && Askable(t, x) ==> forall w :: !Takeable(t, x, w)
  }

  /** A guard that audits or warns is never true where the transition is taken. */
  ghost predicate NonePasses(t: TypeDecl, x: Transition, g: string) {
    g in t.conditions &&
    (Distinct(t, GuardReads(t, x).counts + ConditionCounts(t, x, g)) && Askable(t, x) && IsAskable(t, x, g) ==>
       forall w | Takeable(t, x, w) :: Truth(ModelFor(t, x), w, t.conditions[g]) != T)
  }

  /** The names that the invariants that read only what a transition writes are read by after it. */
  function CheckedNames(t: TypeDecl, x: Transition): set<string> {
    set tree, n | tree in InvariantTrees(t) && ReadsOnlyWrites(t, x, tree) && n in NamesResolved(After(t, x), tree, {}) :: n
  }

  /** What a transition leaves of an object it is taken on, where the invariants it is held to are read by what it leaves and
      what its guards share with them is after it as before. */
  ghost predicate Leaves(t: TypeDecl, x: Transition, w: World, w': World) {
    && ReadsAgree(After(t, x), w', ReadFor(t, x, w).vars, CheckedNames(t, x)) && Coherent(ModelFor(t, x), w')
    && SharedCountsAgree(GuardReads(t, x).counts, CheckedReads(t, x).counts, w, w')
    && SharedOpaqueAgree(ModelFor(t, x), GuardReads(t, x).opaques, CheckedReads(t, x).opaques, w, w')
  }

  /** What a transition writes makes an invariant false, whatever the request. */
  ghost predicate NoneWrites(t: TypeDecl, x: Transition) {
    Distinct(t, GuardReads(t, x).counts) && Askable(t, x) && Unmixed(CheckedReads(t, x).counts) ==>
      forall w, w' | Takeable(t, x, w) && Leaves(t, x, w, w') ::
        exists tree :: IsInvariant(t, tree) && ReadsOnlyWrites(t, x, tree) && Truth(ModelFor(t, x), w', tree) == F
  }

  /** A finding is never a false alarm. */
  ghost predicate Justified(t: TypeDecl, f: Finding) {
    match f
    case NeverIn(s, _) => NoneIn(t, s)
    case NeverTaken(x, _) => x in t.transitions && NoneTakes(t, t.transitions[x])
    case NeverPasses(x, g) => x in t.transitions && NonePasses(t, t.transitions[x], g)
    case WriteBreaks(x, _) => x in t.transitions && NoneWrites(t, t.transitions[x])
    case UndecidedState(_) => true
    case UndecidedTransition(_) => true
  }

  // ── a condition as a requirement ─────────────────────────────────────────

  lemma NamesApartFor(t: TypeDecl, x: Transition)
    ensures NamesApart(ModelFor(t, x)) <==> NamesApart(ModelOf(t))
  {
  }

  method InvariantRequirements(t: TypeDecl, invariants: map<string, Expr>) returns (r: Result<seq<Requirement>, TooLarge>)
    ensures r.Ok? ==> EveryInvariant(t, invariants, r.value) && OfInvariants(t, invariants, r.value)
  {
    var a := Unwritten(ModelOf(t));
    var reqs: seq<Requirement> := [];
    var rest := invariants.Keys;
    while rest != {}
      invariant rest <= invariants.Keys
      invariant forall n | n in invariants && n !in rest :: HasRequirement(a, invariants[n], reqs)
      invariant OfInvariants(t, invariants, reqs)
      decreases rest
    {
      var n :| n in rest;
      rest := rest - {n};
      var cases := HoldsCases(a, invariants[n]);
      if cases.Err? {
        return Err(TooLarge);
      }
      var r := Requirement("invariant " + n, cases.value);
      assert OfInvariant(a, invariants, r);
      forall tree | HasRequirement(a, tree, reqs) || HoldsCases(a, tree) == Ok(r.cases)
        ensures HasRequirement(a, tree, reqs + [r])
      {
        RequirementKept(a, tree, reqs, r);
      }
      reqs := reqs + [r];
    }
    return Ok(reqs);
  }

  ghost predicate HasRequirement(a: Analysis, tree: Expr, reqs: seq<Requirement>) {
    exists i | 0 <= i < |reqs| :: HoldsCases(a, tree) == Ok(reqs[i].cases)
  }

  lemma RequirementKept(a: Analysis, tree: Expr, reqs: seq<Requirement>, r: Requirement)
    requires HasRequirement(a, tree, reqs) || HoldsCases(a, tree) == Ok(r.cases)
    ensures HasRequirement(a, tree, reqs + [r])
  {
    if HoldsCases(a, tree) == Ok(r.cases) {
      assert (reqs + [r])[|reqs|] == r;
    } else {
      var i :| 0 <= i < |reqs| && HoldsCases(a, tree) == Ok(reqs[i].cases);
      assert (reqs + [r])[i] == reqs[i];
    }
  }

  /** Every invariant has its requirement. */
  ghost predicate EveryInvariant(t: TypeDecl, invariants: map<string, Expr>, reqs: seq<Requirement>) {
    forall n | n in invariants :: HasRequirement(Unwritten(ModelOf(t)), invariants[n], reqs)
  }

  ghost predicate OfInvariant(a: Analysis, invariants: map<string, Expr>, r: Requirement) {
    exists n | n in invariants :: HoldsCases(a, invariants[n]) == Ok(r.cases)
  }

  /** Every requirement is an invariant's. */
  ghost predicate OfInvariants(t: TypeDecl, invariants: map<string, Expr>, reqs: seq<Requirement>) {
    forall i | 0 <= i < |reqs| :: OfInvariant(Unwritten(ModelOf(t)), invariants, reqs[i])
  }

  // ── a state ──────────────────────────────────────────────────────────────

  function Given(s: string): Case {
    {Dom(StateVar, {VName(s)}), Present(StateVar)}
  }

  /** A state's requirements after the state itself. */
  function BeingIn(s: string, rest: seq<Requirement>): seq<Requirement> {
    [Requirement("in " + s, [Given(s)])] + rest
  }

  lemma GivenHolds(t: TypeDecl, counts: set<Expr>, w: World, s: string)
    requires InState(w, {s})
    ensures CaseHolds(Seen(Under, ModelOf(t), counts, w), Given(s))
  {
    assert VarSeen(Under, ModelOf(t), counts, w, StateVar) == Some(VName(s));
  }

  lemma InvariantsSeen(t: TypeDecl, w: World, invariants: map<string, Expr>, reqs: seq<Requirement>)
    requires Distinct(t, InvariantCounts(t)) && Ordinary(ModelOf(t), w)
    requires OfInvariants(t, invariants, reqs) && forall n | n in invariants :: IsInvariant(t, invariants[n])
    requires forall tree | IsInvariant(t, tree) :: Truth(ModelOf(t), w, tree) != F
    ensures Met(Seen(Under, ModelOf(t), InvariantCounts(t), w), reqs)
  {
    var m, counts := ModelOf(t), InvariantCounts(t);
    forall i | 0 <= i < |reqs| ensures SomeHolds(Seen(Under, m, counts, w), reqs[i].cases) {
      assert OfInvariant(Unwritten(m), invariants, reqs[i]);
      var n :| n in invariants && HoldsCases(Unwritten(m), invariants[n]) == Ok(reqs[i].cases);
      var tree := invariants[n];
      assert IsInvariant(t, tree);
      assert CountsRead(Unwritten(m), tree, {}) <= counts;
      SeenReads(Under, m, counts, w, tree);
      UnderHolds(Unwritten(m), w, Seen(Under, m, counts, w), tree);
    }
  }

  /** Some values, and truths of what is not decided, leave every invariant true or unknown in a state. */
  ghost predicate CanBeIn(t: TypeDecl, s: string, invariants: map<string, Expr>) {
    var a := Unwritten(ModelOf(t));
    exists v: Valuation :: WellTyped(a.m, v.vars) && CaseHolds(v, Given(s))
      && forall n | n in invariants :: HoldsCases(a, invariants[n]).Ok? && SomeHolds(v, HoldsCases(a, invariants[n]).value)
  }

  /** The ordered values the invariants compare are of one sort, and what the type declares is inhabited. */
  ghost predicate InvariantsComparable(t: TypeDecl, s: string, invariants: map<string, Expr>, integral: bool) {
    var a := Unwritten(ModelOf(t));
    Inhabited(a.m) && s in t.states
    && forall n | n in invariants && HoldsCases(a, invariants[n]).Ok? ::
         AllOfSort(a.m, integral, HoldsCases(a, invariants[n]).value)
  }

  ghost predicate Entered(t: TypeDecl, s: string) {
    exists x | x in t.transitions :: (t.transitions[x].kind == Initial || t.transitions[x].kind == External)
                                     && t.transitions[x].to == Some(s)
  }

  lemma GivenFormed(t: TypeDecl, s: string)
    requires s in t.states && Inhabited(ModelOf(t))
    ensures WellFormed(ModelOf(t), Given(s)) && !exists n :: HasNode(Given(s), n)
    ensures HasValuation(ModelOf(t), Given(s))
  {
    var m, c := ModelOf(t), Given(s);
    assert VarInfo(m, StateVar) == Some(Finite(StateValues(m), false)) && VName(s) in StateValues(m);
    forall y | VarInfo(m, y).Some? && VarInfo(m, y).value.Finite? ensures exists v :: InDomains(m, c, y, v) {
      InhabitedDomain(m, y);
      var v :| v in VarInfo(m, y).value.domain && (y == StateVar ==> v == VName(s));
      assert InDomains(m, c, y, v);
    }
    SolutionHolds(m, c, map[], imap[Zero := 0.0]);
    var v: Valuation :| LooselyTyped(m, c, v.vars) && CaseHolds(v, c);
    OneSortIsExact(m, c, v.vars);
  }

  /** A state whose requirements can hold, or all of whose requirements the state settles. */
  lemma HeldIsIn(t: TypeDecl, s: string, invariants: map<string, Expr>, whole: seq<Requirement>, rest: seq<Requirement>)
    requires s in t.states && Inhabited(ModelOf(t)) && EveryInvariant(t, invariants, whole)
    requires forall v: Valuation | WellTyped(ModelOf(t), v.vars) && CaseHolds(v, Given(s)) :: Met(v, rest) <==> Met(v, whole)
    requires rest == [] || CanHold(ModelOf(t), BeingIn(s, rest))
    ensures CanBeIn(t, s, invariants)
  {
    var m, a := ModelOf(t), Unwritten(ModelOf(t));
    var v: Valuation;
    if rest == [] {
      GivenFormed(t, s);
      v :| WellTyped(m, v.vars) && CaseHolds(v, Given(s));
    } else {
      v :| WellTyped(m, v.vars) && Met(v, BeingIn(s, rest));
      GivenFirst(v, rest, "in " + s, Given(s));
    }
    forall n | n in invariants
      ensures HoldsCases(a, invariants[n]).Ok? && SomeHolds(v, HoldsCases(a, invariants[n]).value)
    {
      assert HasRequirement(a, invariants[n], whole);
      var i :| 0 <= i < |whole| && HoldsCases(a, invariants[n]) == Ok(whole[i].cases);
    }
  }

  lemma StateHeld(t: TypeDecl, s: string, invariants: map<string, Expr>, whole: seq<Requirement>, rest: seq<Requirement>,
                  comparable: bool)
    requires EveryInvariant(t, invariants, whole)
    requires forall v: Valuation | WellTyped(ModelOf(t), v.vars) && CaseHolds(v, Given(s)) :: Met(v, rest) <==> Met(v, whole)
    requires comparable == (InvariantsComparable(t, s, invariants, true) || InvariantsComparable(t, s, invariants, false))
    requires comparable && Entered(t, s) ==> rest == [] || CanHold(ModelOf(t), BeingIn(s, rest))
    ensures comparable && Entered(t, s) ==> CanBeIn(t, s, invariants)
  {
    if comparable && Entered(t, s) {
      HeldIsIn(t, s, invariants, whole, rest);
    }
  }

  lemma StateExactly(t: TypeDecl, s: string, invariants: map<string, Expr>, whole: seq<Requirement>, integral: bool)
    requires InvariantsComparable(t, s, invariants, integral) && OfInvariants(t, invariants, whole)
    ensures Formed(ModelOf(t), whole) && Sorted(ModelOf(t), integral, whole)
  {
    var a := Unwritten(ModelOf(t));
    forall i | 0 <= i < |whole|
      ensures AllWellFormed(a.m, whole[i].cases) && AllOfSort(a.m, integral, whole[i].cases)
    {
      assert OfInvariant(a, invariants, whole[i]);
      var n :| n in invariants && HoldsCases(a, invariants[n]) == Ok(whole[i].cases);
      ExpandFits(a, invariants[n], T, {});
      ExpandFits(a, invariants[n], U, {});
      FlatFits(a.m, [Expand(a, invariants[n], T, {}).value, Expand(a, invariants[n], U, {}).value]);
    }
  }

  lemma GivenExactly(t: TypeDecl, s: string, rest: seq<Requirement>, integral: bool)
    requires s in t.states && Inhabited(ModelOf(t))
    requires Formed(ModelOf(t), rest) && Sorted(ModelOf(t), integral, rest)
    ensures Exactly(ModelOf(t), BeingIn(s, rest))
  {
    GivenFormed(t, s);
    var all := BeingIn(s, rest);
    assert all[0].cases == [Given(s)];
    assert AllOfSort(ModelOf(t), integral, [Given(s)]);
    assert forall i | 0 < i < |all| :: all[i] == rest[i - 1];
    assert Formed(ModelOf(t), all) && Sorted(ModelOf(t), integral, all);
  }

  lemma ComparableExactly(t: TypeDecl, s: string, invariants: map<string, Expr>, whole: seq<Requirement>,
                          rest: seq<Requirement>)
    requires InvariantsComparable(t, s, invariants, true) || InvariantsComparable(t, s, invariants, false)
    requires OfInvariants(t, invariants, whole) && (Formed(ModelOf(t), whole) ==> Formed(ModelOf(t), rest))
    requires forall integral | Sorted(ModelOf(t), integral, whole) :: Sorted(ModelOf(t), integral, rest)
    ensures Exactly(ModelOf(t), BeingIn(s, rest))
  {
    var integral := InvariantsComparable(t, s, invariants, true);
    StateExactly(t, s, invariants, whole, integral);
    GivenExactly(t, s, rest, integral);
  }

  /** Requirements that cannot all hold are of a state no object is in. */
  lemma NotIn(t: TypeDecl, s: string, invariants: map<string, Expr>, whole: seq<Requirement>, rest: seq<Requirement>)
    requires OfInvariants(t, invariants, whole) && forall n | n in invariants :: IsInvariant(t, invariants[n])
    requires forall v: Valuation | WellTyped(ModelOf(t), v.vars) && CaseHolds(v, Given(s)) :: Met(v, rest) <==> Met(v, whole)
    requires !CanHold(ModelOf(t), BeingIn(s, rest))
    ensures NoneIn(t, s)
  {
    var m, counts := ModelOf(t), InvariantCounts(t);
    if Distinct(t, counts) {
      forall w | Ordinary(m, w) && InState(w, {s}) ensures exists tree :: IsInvariant(t, tree) && Truth(m, w, tree) == F {
        if forall tree | IsInvariant(t, tree) :: Truth(m, w, tree) != F {
          InvariantsSeen(t, w, invariants, whole);
          GivenHolds(t, counts, w, s);
          SeenAgrees(Under, m, counts, w, w, {});
          GivenFirst(Seen(Under, m, counts, w), rest, "in " + s, Given(s));
        }
      }
    }
  }

  /** A state's finding, justified; and where it has none, an object may be in it as far as the analysis reads it, where
      the invariants compare values of one sort. */
  method AnalyseState(t: TypeDecl, s: string, invariants: map<string, Expr>) returns (f: Option<Finding>)
    requires forall n | n in invariants :: IsInvariant(t, invariants[n])
    ensures f.Some? ==> Justified(t, f.value)
    ensures f.Some? ==> f.value == UndecidedState(s) || (f.value.NeverIn? && f.value.state == s)
    ensures f.None? && Entered(t, s)
            && (InvariantsComparable(t, s, invariants, true) || InvariantsComparable(t, s, invariants, false)) ==>
              CanBeIn(t, s, invariants)
  {
    var whole := InvariantRequirements(t, invariants);
    if whole.Err? {
      return Some(UndecidedState(s));
    }
    var rest := Fixed(whole.value, Given(s), ModelOf(t));
    ghost var comparable := InvariantsComparable(t, s, invariants, true) || InvariantsComparable(t, s, invariants, false);
    if comparable {
      ComparableExactly(t, s, invariants, whole.value, rest);
    }
    var never := NeverBoth(t, s, rest);
    if never.Err? {
      return Some(UndecidedState(s));
    }
    if never.value.None? {
      assert comparable && Entered(t, s) ==> rest == [] || CanHold(ModelOf(t), BeingIn(s, rest));
      StateHeld(t, s, invariants, whole.value, rest, comparable);
      return None;
    }
    NotIn(t, s, invariants, whole.value, rest);
    return Some(NeverIn(s, never.value.value));
  }

  /** Whether a state's requirements cannot all hold, and a transition enters it: then the smallest set that cannot. */
  method NeverBoth(t: TypeDecl, s: string, rest: seq<Requirement>) returns (r: Result<Option<seq<string>>, TooLarge>)
    ensures r.Ok? && r.value.Some? ==> !CanHold(ModelOf(t), BeingIn(s, rest))
    ensures r.Ok? && r.value.None? && Entered(t, s) && Exactly(ModelOf(t), BeingIn(s, rest)) ==>
              rest == [] || CanHold(ModelOf(t), BeingIn(s, rest))
  {
    var reqs := BeingIn(s, rest);
    if |reqs| == 1 {
      return Ok(None);
    }
    var any := AnySatisfiable(reqs, ModelOf(t));
    if any.Err? {
      return Err(TooLarge);
    }
    if any.value || !(exists x | x in t.transitions ::
                        (t.transitions[x].kind == Initial || t.transitions[x].kind == External)
                        && t.transitions[x].to == Some(s)) {
      return Ok(None);
    }
    var kept := Core(reqs, ModelOf(t));
    if kept.Err? {
      return Err(TooLarge);
    }
    return Ok(Some(NamesOfKept(reqs, kept.value)));
  }

  function NamesOfKept(reqs: seq<Requirement>, kept: seq<nat>): seq<string>
    requires forall k | k in kept :: k < |reqs|
  {
    seq(|kept|, i requires 0 <= i < |kept| => assert kept[i] in kept; reqs[kept[i]].name)
  }

  // ── a transition ─────────────────────────────────────────────────────────

  /** A requirement is that one of a transition's guards is true. */
  ghost predicate RequiresGuard(t: TypeDecl, x: Transition, r: Requirement, mode: Mode) {
    exists g :: IsGuard(t, x, g, mode) && Expand(Unwritten(ModelFor(t, x)), t.conditions[g], T, {}) == Ok(r.cases)
  }

  /** The cases of a transition's from-states, on all but a creation. */
  function FromRequirements(x: Transition): seq<Requirement> {
    if x.kind == Initial then [] else [Requirement("from", [{Dom(StateVar, NamesOf(x.from))}])]
  }

  lemma FromSeen(t: TypeDecl, x: Transition, w: World, v: Valuation)
    requires x.kind != Initial ==> InState(w, x.from)
    requires Lookup(v.vars, StateVar) == Lookup(w.vars, StateVar)
    ensures Met(v, FromRequirements(x))
  {
    if x.kind != Initial {
      OneCase(v, {Dom(StateVar, NamesOf(x.from))});
    }
  }

  lemma StateSeen(m: Model, counts: set<Expr>, w: World, u: World)
    ensures Lookup(SeenAs(Covering, m, counts, w, u).vars, StateVar) == Lookup(u.vars, StateVar)
  {
    assert VarSeen(Covering, m, counts, u, StateVar) == Lookup(u.vars, StateVar);
  }

  /** An object a request may be taken on is asked its guards, as the analysis reads it. */
  lemma TakeableAsked(t: TypeDecl, x: Transition, w: World, g: string)
    requires Takeable(t, x, w) && Askable(t, x) && IsAskable(t, x, g) && g in t.conditions
    ensures AskedAs(ModelFor(t, x), Taken(x), w, ReadFor(t, x, w), t.conditions[g])
  {
  }

  lemma GuardAskable(t: TypeDecl, x: Transition, g: string)
    requires Askable(t, x) && IsGuard(t, x, g, Deny)
    ensures IsAskable(t, x, g)
  {
    var i :| 0 <= i < |x.guards| && x.guards[i] == (g, Deny);
  }

  lemma TakeableReadable(t: TypeDecl, x: Transition, w: World)
    requires Takeable(t, x, w) && Askable(t, x)
    ensures Readable(ModelFor(t, x), ReadFor(t, x, w))
    ensures x.kind != Initial ==> InState(ReadFor(t, x, w), x.from)
  {
    if x.kind == Initial {
      AsReadReadable(ModelFor(t, x), Taken(x), x.to.value, w);
    }
  }

  /** Requirements that are of the from-states and of blocking guards. */
  ghost predicate RequiresTakeable(t: TypeDecl, x: Transition, reqs: seq<Requirement>) {
    forall i | 0 <= i < |reqs| :: reqs[i] in FromRequirements(x) || RequiresGuard(t, x, reqs[i], Deny)
  }

  lemma TakeableMeets(t: TypeDecl, x: Transition, counts: set<Expr>, w: World, reqs: seq<Requirement>)
    requires Takeable(t, x, w) && RequiresTakeable(t, x, reqs) && Askable(t, x)
    requires Distinct(t, counts) && GuardReads(t, x).counts <= counts
    ensures Met(SeenAs(Covering, ModelFor(t, x), counts, w, ReadFor(t, x, w)), reqs)
  {
    var m, u := ModelFor(t, x), ReadFor(t, x, w);
    var v := SeenAs(Covering, m, counts, w, u);
    NamesApartFor(t, x);
    StateSeen(m, counts, w, u);
    TakeableReadable(t, x, w);
    FromSeen(t, x, u, v);
    forall i | 0 <= i < |reqs| ensures SomeHolds(v, reqs[i].cases) {
      if reqs[i] in FromRequirements(x) {
        assert SomeHolds(v, FromRequirements(x)[0].cases);
      } else {
        var g :| IsGuard(t, x, g, Deny) && Expand(Unwritten(m), t.conditions[g], T, {}) == Ok(reqs[i].cases);
        GuardReadsHold(t, x, g);
        GuardAskable(t, x, g);
        TakeableAsked(t, x, w, g);
        SeenCovers(m, Taken(x), counts, w, u, t.conditions[g], T);
      }
    }
  }

  lemma TakeableTyped(t: TypeDecl, x: Transition, counts: set<Expr>, w: World)
    requires Takeable(t, x, w) && Askable(t, x) && Distinct(t, counts)
    ensures WellTyped(ModelFor(t, x), SeenAs(Covering, ModelFor(t, x), counts, w, ReadFor(t, x, w)).vars)
  {
    NamesApartFor(t, x);
    TakeableReadable(t, x, w);
    SeenAgrees(Covering, ModelFor(t, x), counts, w, ReadFor(t, x, w), {});
  }

  lemma GuardReadsHold(t: TypeDecl, x: Transition, g: string)
    requires IsGuard(t, x, g, Deny)
    ensures OpaqueLeaves(Unwritten(ModelFor(t, x)), t.conditions[g], {}) <= GuardReads(t, x).opaques
    ensures CountsRead(Unwritten(ModelFor(t, x)), t.conditions[g], {}) <= GuardReads(t, x).counts
  {
    var i :| 0 <= i < |x.guards| && x.guards[i] == (g, Deny);
    forall c | c in CountsRead(Unwritten(ModelFor(t, x)), t.conditions[g], {}) ensures c in GuardReads(t, x).counts {
      assert c in ConditionCounts(t, x, x.guards[i].0);
    }
  }

  /** Requirements that cannot all hold are of a transition that is never taken. */
  lemma NotTakeable(t: TypeDecl, x: Transition, reqs: seq<Requirement>)
    requires RequiresTakeable(t, x, reqs) && !CanHold(ModelFor(t, x), reqs)
    ensures NoneTakes(t, x)
  {
    var counts := GuardReads(t, x).counts;
    if Distinct(t, counts) && Askable(t, x) {
      forall w ensures !Takeable(t, x, w) {
        if Takeable(t, x, w) {
          TakeableMeets(t, x, counts, w, reqs);
          TakeableTyped(t, x, counts, w);
        }
      }
    }
  }

  lemma NotPassed(t: TypeDecl, x: Transition, reqs: seq<Requirement>, g: string, r: Requirement)
    requires RequiresTakeable(t, x, reqs) && g in t.conditions && !CanHold(ModelFor(t, x), reqs + [r])
    requires Expand(Unwritten(ModelFor(t, x)), t.conditions[g], T, {}) == Ok(r.cases)
    ensures NonePasses(t, x, g)
  {
    var m, counts := ModelFor(t, x), GuardReads(t, x).counts + ConditionCounts(t, x, g);
    if Distinct(t, counts) && Askable(t, x) && IsAskable(t, x, g) {
      forall w | Takeable(t, x, w) ensures Truth(m, w, t.conditions[g]) != T {
        if Truth(m, w, t.conditions[g]) == T {
          TakeableMeets(t, x, counts, w, reqs);
          TakeableTyped(t, x, counts, w);
          NamesApartFor(t, x);
          TakeableAsked(t, x, w, g);
          SeenCovers(m, Taken(x), counts, w, ReadFor(t, x, w), t.conditions[g], T);
          MetAppended(SeenAs(Covering, m, counts, w, ReadFor(t, x, w)), reqs, r);
        }
      }
    }
  }

  /** A requirement is that an invariant reading only what the transition writes holds after it. */
  ghost predicate RequiresAfter(t: TypeDecl, x: Transition, r: Requirement) {
    exists tree :: IsInvariant(t, tree) && ReadsOnlyWrites(t, x, tree) && HoldsCases(After(t, x), tree) == Ok(r.cases)
  }

  ghost function Both(t: TypeDecl, x: Transition, w: World, w': World): Valuation {
    SeenBoth(ModelFor(t, x), GuardReads(t, x), CheckedReads(t, x).counts, w, ReadFor(t, x, w), w')
  }

  lemma TakeableMeetsBoth(t: TypeDecl, x: Transition, w: World, w': World, reqs: seq<Requirement>)
    requires Distinct(t, GuardReads(t, x).counts) && Askable(t, x) && Takeable(t, x, w) && RequiresTakeable(t, x, reqs)
    requires SharedCountsAgree(GuardReads(t, x).counts, CheckedReads(t, x).counts, w, w')
    ensures Met(Both(t, x, w, w'), reqs)
  {
    var m, u, v := ModelFor(t, x), ReadFor(t, x, w), Both(t, x, w, w');
    NamesApartFor(t, x);
    assert BothVars(m, GuardReads(t, x).counts, CheckedReads(t, x).counts, u, w', StateVar) == Lookup(u.vars, StateVar);
    TakeableReadable(t, x, w);
    FromSeen(t, x, u, v);
    forall i | 0 <= i < |reqs| ensures SomeHolds(v, reqs[i].cases) {
      if reqs[i] in FromRequirements(x) {
        assert SomeHolds(v, FromRequirements(x)[0].cases);
      } else {
        var g :| IsGuard(t, x, g, Deny) && Expand(Unwritten(m), t.conditions[g], T, {}) == Ok(reqs[i].cases);
        GuardReadsHold(t, x, g);
        GuardAskable(t, x, g);
        TakeableAsked(t, x, w, g);
        CoversBefore(m, Taken(x), GuardReads(t, x), CheckedReads(t, x).counts, w, u, w', t.conditions[g]);
      }
    }
  }

  lemma AfterMeets(t: TypeDecl, x: Transition, w: World, w': World, r: Requirement)
    requires NamesApart(ModelOf(t)) && Unmixed(CheckedReads(t, x).counts) && Readable(ModelFor(t, x), ReadFor(t, x, w))
    requires Leaves(t, x, w, w')
    requires forall tree | IsInvariant(t, tree) && ReadsOnlyWrites(t, x, tree) :: Truth(ModelFor(t, x), w', tree) != F
    requires RequiresAfter(t, x, r)
    ensures SomeHolds(Both(t, x, w, w'), r.cases)
  {
    var tree :| IsInvariant(t, tree) && ReadsOnlyWrites(t, x, tree) && HoldsCases(After(t, x), tree) == Ok(r.cases);
    NamesApartFor(t, x);
    assert CountsRead(After(t, x), tree, {}) <= CheckedReads(t, x).counts;
    assert OpaqueLeaves(After(t, x), tree, {}) <= CheckedReads(t, x).opaques;
    assert NamesResolved(After(t, x), tree, {}) <= CheckedNames(t, x);
    HoldsAfter(After(t, x), GuardReads(t, x), CheckedReads(t, x).counts, w, ReadFor(t, x, w), w', tree);
  }

  lemma BothMeet(t: TypeDecl, x: Transition, w: World, w': World, reqs: seq<Requirement>, post: seq<Requirement>)
    requires Distinct(t, GuardReads(t, x).counts) && Askable(t, x) && Unmixed(CheckedReads(t, x).counts)
    requires Takeable(t, x, w) && Leaves(t, x, w, w')
    requires forall tree | IsInvariant(t, tree) && ReadsOnlyWrites(t, x, tree) :: Truth(ModelFor(t, x), w', tree) != F
    requires RequiresTakeable(t, x, reqs) && forall i | 0 <= i < |post| :: RequiresAfter(t, x, post[i])
    ensures CanHold(ModelFor(t, x), reqs + post)
  {
    var v := Both(t, x, w, w');
    TakeableMeetsBoth(t, x, w, w', reqs);
    TakeableReadable(t, x, w);
    forall i | 0 <= i < |reqs + post| ensures SomeHolds(v, (reqs + post)[i].cases) {
      if i >= |reqs| {
        AfterMeets(t, x, w, w', post[i - |reqs|]);
      }
    }
    BothTyped(ModelFor(t, x), GuardReads(t, x), CheckedReads(t, x).counts, w, ReadFor(t, x, w), w');
  }

  /** Requirements of taking a transition and of what its writes leave that cannot all hold: the writes break one. */
  lemma NotWritten(t: TypeDecl, x: Transition, reqs: seq<Requirement>, post: seq<Requirement>)
    requires RequiresTakeable(t, x, reqs) && forall i | 0 <= i < |post| :: RequiresAfter(t, x, post[i])
    requires !CanHold(ModelFor(t, x), reqs + post)
    ensures NoneWrites(t, x)
  {
    if Distinct(t, GuardReads(t, x).counts) && Askable(t, x) && Unmixed(CheckedReads(t, x).counts) {
      forall w, w' | Takeable(t, x, w) && Leaves(t, x, w, w')
        ensures exists tree :: IsInvariant(t, tree) && ReadsOnlyWrites(t, x, tree) && Truth(ModelFor(t, x), w', tree) == F
      {
        if forall tree | IsInvariant(t, tree) && ReadsOnlyWrites(t, x, tree) :: Truth(ModelFor(t, x), w', tree) != F {
          BothMeet(t, x, w, w', reqs, post);
        }
      }
    }
  }

  // ── what no finding says ─────────────────────────────────────────────────

  /** Values of what a transition reads, and truths of what is not decided, meet its from-states and all its blocking
      guards. */
  ghost predicate TakenUnder(t: TypeDecl, x: Transition, v: Valuation) {
    var m := ModelFor(t, x);
    && WellTyped(m, v.vars)
    && (x.kind != Initial ==> AtomHolds(v, Dom(StateVar, NamesOf(x.from))))
    && forall g | IsGuard(t, x, g, Deny) :: Expand(Unwritten(m), t.conditions[g], T, {}).Ok?
         && SomeHolds(v, Expand(Unwritten(m), t.conditions[g], T, {}).value)
  }

  ghost predicate CanBeTaken(t: TypeDecl, x: Transition) {
    exists v: Valuation :: TakenUnder(t, x, v)
  }

  /** And a further guard. */
  ghost predicate CanPass(t: TypeDecl, x: Transition, g: string) {
    && g in t.conditions && Expand(Unwritten(ModelFor(t, x)), t.conditions[g], T, {}).Ok?
    && exists v: Valuation :: TakenUnder(t, x, v)
         && SomeHolds(v, Expand(Unwritten(ModelFor(t, x)), t.conditions[g], T, {}).value)
  }

  /** The invariants that read only what a transition writes. */
  function Checked(t: TypeDecl, x: Transition, invariants: map<string, Expr>): map<string, Expr> {
    map n | n in invariants && ReadsOnlyWrites(t, x, invariants[n]) :: invariants[n]
  }

  /** And leave every invariant that reads only what it writes true or unknown. */
  ghost predicate CanBeWritten(t: TypeDecl, x: Transition, invariants: map<string, Expr>) {
    exists v: Valuation :: TakenUnder(t, x, v) && forall n | n in Checked(t, x, invariants) ::
      HoldsCases(After(t, x), invariants[n]).Ok? && SomeHolds(v, HoldsCases(After(t, x), invariants[n]).value)
  }

  /** The ordered values the blocking guards compare are of one sort, and what the type declares is inhabited. */
  ghost predicate Comparably(t: TypeDecl, x: Transition, integral: bool) {
    var m := ModelFor(t, x);
    Inhabited(m) && x.from <= t.states.Keys
    && forall g | IsGuard(t, x, g, Deny) :: Expand(Unwritten(m), t.conditions[g], T, {}).Ok? ==>
         AllOfSort(m, integral, Expand(Unwritten(m), t.conditions[g], T, {}).value)
  }

  ghost predicate PassesComparably(t: TypeDecl, x: Transition, g: string, integral: bool) {
    var m := ModelFor(t, x);
    && Comparably(t, x, integral)
    && (g in t.conditions && Expand(Unwritten(m), t.conditions[g], T, {}).Ok? ==>
          AllOfSort(m, integral, Expand(Unwritten(m), t.conditions[g], T, {}).value))
  }

  ghost predicate WritesComparably(t: TypeDecl, x: Transition, invariants: map<string, Expr>, integral: bool) {
    && Comparably(t, x, integral)
    && forall n | n in Checked(t, x, invariants) && HoldsCases(After(t, x), invariants[n]).Ok? ::
         AllOfSort(ModelFor(t, x), integral, HoldsCases(After(t, x), invariants[n]).value)
  }

  /** Every blocking guard has its requirement. */
  ghost predicate EveryGuard(t: TypeDecl, x: Transition, reqs: seq<Requirement>) {
    forall g | IsGuard(t, x, g, Deny) ::
      exists i | 0 <= i < |reqs| :: Expand(Unwritten(ModelFor(t, x)), t.conditions[g], T, {}) == Ok(reqs[i].cases)
  }

  lemma TakeableFormed(t: TypeDecl, x: Transition, reqs: seq<Requirement>, integral: bool)
    requires RequiresTakeable(t, x, reqs) && Comparably(t, x, integral)
    ensures Formed(ModelFor(t, x), reqs) && Sorted(ModelFor(t, x), integral, reqs) && Exactly(ModelFor(t, x), reqs)
  {
    var m := ModelFor(t, x);
    forall i | 0 <= i < |reqs| ensures AllWellFormed(m, reqs[i].cases) && AllOfSort(m, integral, reqs[i].cases) {
      if RequiresGuard(t, x, reqs[i], Deny) {
        var g :| IsGuard(t, x, g, Deny) && Expand(Unwritten(m), t.conditions[g], T, {}) == Ok(reqs[i].cases);
        ExpandFits(Unwritten(m), t.conditions[g], T, {});
      } else {
        assert NamesOf(x.from) <= StateValues(m);
        assert VarInfo(m, StateVar) == Some(Finite(StateValues(m), false));
      }
    }
  }

  lemma MetIsTaken(t: TypeDecl, x: Transition, denied: seq<Requirement>, v: Valuation)
    requires WellTyped(ModelFor(t, x), v.vars) && Met(v, FromRequirements(x) + denied) && EveryGuard(t, x, denied)
    ensures TakenUnder(t, x, v)
  {
    var m, from := ModelFor(t, x), FromRequirements(x);
    forall g | IsGuard(t, x, g, Deny)
      ensures Expand(Unwritten(m), t.conditions[g], T, {}).Ok?
        && SomeHolds(v, Expand(Unwritten(m), t.conditions[g], T, {}).value)
    {
      var i :| 0 <= i < |denied| && Expand(Unwritten(m), t.conditions[g], T, {}) == Ok(denied[i].cases);
      assert (from + denied)[|from| + i] == denied[i];
    }
    if x.kind != Initial {
      assert SomeHolds(v, (from + denied)[0].cases);
      OneCase(v, {Dom(StateVar, NamesOf(x.from))});
    }
  }

  lemma HeldIsTaken(t: TypeDecl, x: Transition, denied: seq<Requirement>)
    requires CanHold(ModelFor(t, x), FromRequirements(x) + denied) && EveryGuard(t, x, denied)
    ensures CanBeTaken(t, x)
  {
    var v: Valuation :| WellTyped(ModelFor(t, x), v.vars) && Met(v, FromRequirements(x) + denied);
    MetIsTaken(t, x, denied, v);
  }

  lemma HeldPasses(t: TypeDecl, x: Transition, denied: seq<Requirement>, g: string, r: Requirement)
    requires CanHold(ModelFor(t, x), FromRequirements(x) + denied + [r]) && EveryGuard(t, x, denied)
    requires IsCondition(t, x, g, r)
    ensures CanPass(t, x, g)
  {
    var v: Valuation :| WellTyped(ModelFor(t, x), v.vars) && Met(v, FromRequirements(x) + denied + [r]);
    MetAppended(v, FromRequirements(x) + denied, r);
    MetIsTaken(t, x, denied, v);
  }

  lemma PassesFormed(t: TypeDecl, x: Transition, reqs: seq<Requirement>, g: string, r: Requirement, integral: bool)
    requires RequiresTakeable(t, x, reqs) && PassesComparably(t, x, g, integral) && IsCondition(t, x, g, r)
    ensures Exactly(ModelFor(t, x), reqs + [r])
  {
    var m := ModelFor(t, x);
    TakeableFormed(t, x, reqs, integral);
    ExpandFits(Unwritten(m), t.conditions[g], T, {});
    AppendedExactly(m, reqs, [r], integral);
  }

  lemma AppendedExactly(m: Model, reqs: seq<Requirement>, more: seq<Requirement>, integral: bool)
    requires Formed(m, reqs) && Sorted(m, integral, reqs) && Formed(m, more) && Sorted(m, integral, more) && Inhabited(m)
    ensures Exactly(m, reqs + more)
  {
    assert Formed(m, reqs + more) && Sorted(m, integral, reqs + more);
  }

  /** Every invariant checked after has its requirement, and every requirement is one's. */
  ghost predicate EveryChecked(t: TypeDecl, x: Transition, invariants: map<string, Expr>, post: seq<Requirement>) {
    && (forall n | n in Checked(t, x, invariants) :: HasRequirement(After(t, x), invariants[n], post))
    && (forall i | 0 <= i < |post| :: OfInvariant(After(t, x), Checked(t, x, invariants), post[i]))
  }

  lemma HeldIsWritten(t: TypeDecl, x: Transition, denied: seq<Requirement>, invariants: map<string, Expr>,
                      post: seq<Requirement>)
    requires CanHold(ModelFor(t, x), FromRequirements(x) + denied + post) && EveryGuard(t, x, denied)
    requires EveryChecked(t, x, invariants, post)
    ensures CanBeWritten(t, x, invariants)
  {
    var reqs := FromRequirements(x) + denied;
    var v: Valuation :| WellTyped(ModelFor(t, x), v.vars) && Met(v, reqs + post);
    MetParts(v, reqs, post);
    MetIsTaken(t, x, denied, v);
    forall n | n in Checked(t, x, invariants)
      ensures HoldsCases(After(t, x), invariants[n]).Ok? && SomeHolds(v, HoldsCases(After(t, x), invariants[n]).value)
    {
      assert HasRequirement(After(t, x), invariants[n], post);
      var i :| 0 <= i < |post| && HoldsCases(After(t, x), invariants[n]) == Ok(post[i].cases);
    }
  }

  lemma MetParts(v: Valuation, reqs: seq<Requirement>, more: seq<Requirement>)
    requires Met(v, reqs + more)
    ensures Met(v, reqs) && Met(v, more)
  {
    assert forall i | 0 <= i < |reqs| :: (reqs + more)[i] == reqs[i];
    assert forall i | 0 <= i < |more| :: (reqs + more)[|reqs| + i] == more[i];
  }

  lemma WrittenFormed(t: TypeDecl, x: Transition, reqs: seq<Requirement>, invariants: map<string, Expr>,
                      post: seq<Requirement>, integral: bool)
    requires RequiresTakeable(t, x, reqs) && WritesComparably(t, x, invariants, integral) && EveryChecked(t, x, invariants, post)
    ensures Exactly(ModelFor(t, x), reqs + post)
  {
    var m := ModelFor(t, x);
    forall i | 0 <= i < |post| ensures AllWellFormed(m, post[i].cases) && AllOfSort(m, integral, post[i].cases) {
      assert OfInvariant(After(t, x), Checked(t, x, invariants), post[i]);
      var n :| n in Checked(t, x, invariants) && HoldsCases(After(t, x), invariants[n]) == Ok(post[i].cases);
      HoldsFits(After(t, x), invariants[n]);
    }
    TakeableFormed(t, x, reqs, integral);
    AppendedExactly(m, reqs, post, integral);
  }

  lemma HoldsFits(a: Analysis, tree: Expr)
    requires HoldsCases(a, tree).Ok? && Inhabited(a.m)
    ensures AllWellFormed(a.m, HoldsCases(a, tree).value)
  {
    ExpandFits(a, tree, T, {});
    ExpandFits(a, tree, U, {});
    FlatFits(a.m, [Expand(a, tree, T, {}).value, Expand(a, tree, U, {}).value]);
  }

  /** A condition's requirement: its cases are those it is true in. */
  ghost predicate IsCondition(t: TypeDecl, x: Transition, g: string, r: Requirement) {
    g in t.conditions && Expand(Unwritten(ModelFor(t, x)), t.conditions[g], T, {}) == Ok(r.cases)
  }

  /** The requirements of some of a transition's guards: of each that denies, and of none else; and of each other. */
  ghost predicate GuardsSoFar(t: TypeDecl, x: Transition, denied: seq<Requirement>, n: nat)
    requires n <= |x.guards|
  {
    && (forall j | 0 <= j < |denied| :: RequiresGuard(t, x, denied[j], Deny))
    && (forall h | 0 <= h < n && x.guards[h].1 == Deny && x.guards[h].0 in t.conditions ::
          exists j :: 0 <= j < |denied| && IsCondition(t, x, x.guards[h].0, denied[j]))
  }

  ghost predicate FlagsSoFar(t: TypeDecl, x: Transition, flagged: seq<(string, Requirement)>, n: nat)
    requires n <= |x.guards|
  {
    && (forall j | 0 <= j < |flagged| :: IsCondition(t, x, flagged[j].0, flagged[j].1))
    && (forall h | 0 <= h < n && x.guards[h].1 != Deny && x.guards[h].0 in t.conditions ::
          exists j :: 0 <= j < |flagged| && flagged[j].0 == x.guards[h].0)
  }

  lemma GuardFlagged(t: TypeDecl, x: Transition, flagged: seq<(string, Requirement)>, n: nat, r: Requirement)
    requires n < |x.guards| && FlagsSoFar(t, x, flagged, n) && IsCondition(t, x, x.guards[n].0, r)
    ensures FlagsSoFar(t, x, flagged + [(x.guards[n].0, r)], n + 1)
  {
    var next := flagged + [(x.guards[n].0, r)];
    forall h | 0 <= h < n + 1 && x.guards[h].1 != Deny && x.guards[h].0 in t.conditions
      ensures exists j :: 0 <= j < |next| && next[j].0 == x.guards[h].0
    {
      if h < n {
        var j :| 0 <= j < |flagged| && flagged[j].0 == x.guards[h].0;
        assert next[j] == flagged[j];
      } else {
        assert next[|flagged|].0 == x.guards[n].0;
      }
    }
  }

  /** A guard that audits or warns. */
  predicate IsFlag(t: TypeDecl, x: Transition, g: string) {
    g in t.conditions && exists i :: 0 <= i < |x.guards| && x.guards[i].0 == g && x.guards[i].1 != Deny
  }

  ghost predicate EveryFlag(t: TypeDecl, x: Transition, flagged: seq<(string, Requirement)>) {
    && (forall j | 0 <= j < |flagged| :: IsCondition(t, x, flagged[j].0, flagged[j].1))
    && (forall g | IsFlag(t, x, g) :: exists j :: 0 <= j < |flagged| && flagged[j].0 == g)
  }

  lemma FlagsAreAll(t: TypeDecl, x: Transition, flagged: seq<(string, Requirement)>)
    requires FlagsSoFar(t, x, flagged, |x.guards|)
    ensures EveryFlag(t, x, flagged)
  {
    forall g | IsFlag(t, x, g) ensures exists j :: 0 <= j < |flagged| && flagged[j].0 == g {
      var h :| 0 <= h < |x.guards| && x.guards[h].0 == g && x.guards[h].1 != Deny;
    }
  }

  lemma GuardDenied(t: TypeDecl, x: Transition, denied: seq<Requirement>, n: nat, r: Requirement)
    requires n < |x.guards| && GuardsSoFar(t, x, denied, n)
    requires x.guards[n].1 == Deny && IsCondition(t, x, x.guards[n].0, r)
    ensures GuardsSoFar(t, x, denied + [r], n + 1)
  {
    var next, g := denied + [r], x.guards[n].0;
    assert IsGuard(t, x, g, Deny) && next[|denied|] == r;
    forall h | 0 <= h < n + 1 && x.guards[h].1 == Deny && x.guards[h].0 in t.conditions
      ensures exists j :: 0 <= j < |next| && IsCondition(t, x, x.guards[h].0, next[j])
    {
      if h < n {
        var j :| 0 <= j < |denied| && IsCondition(t, x, x.guards[h].0, denied[j]);
        assert next[j] == denied[j];
      }
    }
  }

  lemma GuardsAreAll(t: TypeDecl, x: Transition, denied: seq<Requirement>)
    requires GuardsSoFar(t, x, denied, |x.guards|)
    ensures EveryGuard(t, x, denied)
  {
    forall g | IsGuard(t, x, g, Deny)
      ensures exists i | 0 <= i < |denied| :: Expand(Unwritten(ModelFor(t, x)), t.conditions[g], T, {}) == Ok(denied[i].cases)
    {
      var h :| 0 <= h < |x.guards| && x.guards[h] == (g, Deny);
      var j :| 0 <= j < |denied| && IsCondition(t, x, x.guards[h].0, denied[j]);
    }
  }

  /** The requirements of a transition's guards, the blocking ones and the others, none where a condition is too large. */
  method GuardRequirements(t: TypeDecl, x: Transition)
    returns (denied: seq<Requirement>, flagged: seq<(string, Requirement)>, tooLarge: bool)
    ensures forall i | 0 <= i < |denied| :: RequiresGuard(t, x, denied[i], Deny)
    ensures !tooLarge ==> EveryGuard(t, x, denied) && EveryFlag(t, x, flagged)
  {
    denied, flagged, tooLarge := [], [], false;
    for i := 0 to |x.guards|
      invariant GuardsSoFar(t, x, denied, i) && FlagsSoFar(t, x, flagged, i)
    {
      var (g, mode) := x.guards[i];
      if g in t.conditions {
        var cases := Expand(Unwritten(ModelFor(t, x)), t.conditions[g], T, {});
        if cases.Err? {
          tooLarge := true;
          return;
        }
        var r := Requirement("guard " + g, cases.value);
        assert IsCondition(t, x, g, r);
        GuardTaken(t, x, denied, flagged, i, r);
        denied := if mode == Deny then denied + [r] else denied;
        flagged := if mode == Deny then flagged else flagged + [(g, r)];
      }
    }
    GuardsAreAll(t, x, denied);
    FlagsAreAll(t, x, flagged);
  }

  /** A guard more, among those that deny or among the others. */
  lemma GuardTaken(t: TypeDecl, x: Transition, denied: seq<Requirement>, flagged: seq<(string, Requirement)>, n: nat,
                   r: Requirement)
    requires n < |x.guards| && GuardsSoFar(t, x, denied, n) && FlagsSoFar(t, x, flagged, n)
    requires IsCondition(t, x, x.guards[n].0, r)
    ensures GuardsSoFar(t, x, if x.guards[n].1 == Deny then denied + [r] else denied, n + 1)
    ensures FlagsSoFar(t, x, if x.guards[n].1 == Deny then flagged else flagged + [(x.guards[n].0, r)], n + 1)
  {
    if x.guards[n].1 == Deny {
      GuardDenied(t, x, denied, n, r);
      NoneFlagged(t, x, flagged, n);
    } else {
      GuardFlagged(t, x, flagged, n, r);
      NoneDenied(t, x, denied, n);
    }
  }

  lemma NoneFlagged(t: TypeDecl, x: Transition, flagged: seq<(string, Requirement)>, n: nat)
    requires n < |x.guards| && FlagsSoFar(t, x, flagged, n) && x.guards[n].1 == Deny
    ensures FlagsSoFar(t, x, flagged, n + 1)
  {
  }

  lemma NoneDenied(t: TypeDecl, x: Transition, denied: seq<Requirement>, n: nat)
    requires n < |x.guards| && GuardsSoFar(t, x, denied, n) && x.guards[n].1 != Deny
    ensures GuardsSoFar(t, x, denied, n + 1)
  {
  }

  /** The requirements of the invariants that read only what a transition writes. */
  method AfterRequirements(t: TypeDecl, x: Transition, invariants: map<string, Expr>)
    returns (r: Result<seq<Requirement>, TooLarge>)
    requires forall n | n in invariants :: IsInvariant(t, invariants[n])
    ensures r.Ok? ==> forall i | 0 <= i < |r.value| :: RequiresAfter(t, x, r.value[i])
    ensures r.Ok? ==> EveryChecked(t, x, invariants, r.value)
  {
    var written := Writes(x);
    var a := Analysis(ModelFor(t, x), written, StateAfter(x));
    var reqs: seq<Requirement> := [];
    var rest := invariants.Keys;
    while rest != {}
      invariant rest <= invariants.Keys
      invariant CheckedSoFar(t, x, invariants, rest, reqs)
      decreases rest
    {
      var n :| n in rest;
      rest := rest - {n};
      if ReadsOnlyWrites(t, x, invariants[n]) {
        var cases := HoldsCases(a, invariants[n]);
        if cases.Err? {
          return Err(TooLarge);
        }
        var r := Requirement("invariant " + n, cases.value);
        CheckedMore(t, x, invariants, rest, reqs, n, r);
        reqs := reqs + [r];
      }
    }
    CheckedAreRequired(t, x, invariants, reqs);
    return Ok(reqs);
  }

  lemma CheckedAreRequired(t: TypeDecl, x: Transition, invariants: map<string, Expr>, post: seq<Requirement>)
    requires forall n | n in invariants :: IsInvariant(t, invariants[n])
    requires CheckedSoFar(t, x, invariants, {}, post)
    ensures EveryChecked(t, x, invariants, post) && forall i | 0 <= i < |post| :: RequiresAfter(t, x, post[i])
  {
    forall i | 0 <= i < |post| ensures RequiresAfter(t, x, post[i]) {
      assert OfInvariant(After(t, x), Checked(t, x, invariants), post[i]);
      var n :| n in Checked(t, x, invariants) && HoldsCases(After(t, x), invariants[n]) == Ok(post[i].cases);
      assert IsInvariant(t, invariants[n]);
    }
  }

  ghost predicate CheckedSoFar(t: TypeDecl, x: Transition, invariants: map<string, Expr>, rest: set<string>,
                               post: seq<Requirement>)
  {
    && (forall n | n in Checked(t, x, invariants) && n !in rest :: HasRequirement(After(t, x), invariants[n], post))
    && (forall i | 0 <= i < |post| :: OfInvariant(After(t, x), Checked(t, x, invariants), post[i]))
  }

  lemma CheckedMore(t: TypeDecl, x: Transition, invariants: map<string, Expr>, rest: set<string>, post: seq<Requirement>,
                    n: string, r: Requirement)
    requires CheckedSoFar(t, x, invariants, rest + {n}, post) && n in Checked(t, x, invariants)
    requires HoldsCases(After(t, x), invariants[n]) == Ok(r.cases)
    ensures CheckedSoFar(t, x, invariants, rest, post + [r])
  {
    var a := After(t, x);
    forall k | k in Checked(t, x, invariants) && k !in rest ensures HasRequirement(a, invariants[k], post + [r]) {
      RequirementKept(a, invariants[k], post, r);
    }
    assert OfInvariant(a, Checked(t, x, invariants), r);
  }

  ghost predicate AllJustified(t: TypeDecl, out: seq<Finding>) {
    forall f | f in out :: Justified(t, f)
  }

  /** Where the values compared are of one sort, some values meet a transition's from-states and blocking guards. */
  ghost predicate TakenIsMet(t: TypeDecl, x: Transition) {
    Comparably(t, x, true) || Comparably(t, x, false) ==> CanBeTaken(t, x)
  }

  ghost predicate PassIsMet(t: TypeDecl, x: Transition, g: string) {
    PassesComparably(t, x, g, true) || PassesComparably(t, x, g, false) ==> CanPass(t, x, g)
  }

  ghost predicate WriteIsMet(t: TypeDecl, x: Transition, invariants: map<string, Expr>) {
    WritesComparably(t, x, invariants, true) || WritesComparably(t, x, invariants, false) ==> CanBeWritten(t, x, invariants)
  }

  ghost predicate StateIsMet(t: TypeDecl, s: string, invariants: map<string, Expr>) {
    Entered(t, s) && (InvariantsComparable(t, s, invariants, true) || InvariantsComparable(t, s, invariants, false)) ==>
      CanBeIn(t, s, invariants)
  }

  /** Whether a transition's blocking guards can hold together, with the finding where they cannot or it is not decided. */
  method TakenFinding(t: TypeDecl, xn: string, denied: seq<Requirement>) returns (f: Option<Finding>)
    requires xn in t.transitions && EveryGuard(t, t.transitions[xn], denied)
    requires forall i | 0 <= i < |denied| :: RequiresGuard(t, t.transitions[xn], denied[i], Deny)
    ensures f.Some? ==> Justified(t, f.value) && (f.value == UndecidedTransition(xn) || (f.value.NeverTaken? && f.value.transition == xn))
    ensures f.None? ==> TakenIsMet(t, t.transitions[xn])
  {
    var x := t.transitions[xn];
    var m := ModelFor(t, x);
    var reqs := FromRequirements(x) + denied;
    assert RequiresTakeable(t, x, reqs);
    var any := AnySatisfiable(reqs, m);
    if any.Err? {
      return Some(UndecidedTransition(xn));
    }
    if !any.value {
      NotTakeable(t, x, reqs);
      var kept := Core(reqs, m);
      return Some(if kept.Err? then UndecidedTransition(xn) else NeverTaken(xn, NamesOfKept(reqs, kept.value)));
    }
    if Comparably(t, x, true) || Comparably(t, x, false) {
      TakeableFormed(t, x, reqs, Comparably(t, x, true));
      HeldIsTaken(t, x, denied);
    }
    return None;
  }

  /** The other conditions that can never hold where the transition is taken; cut short at one too large. */
  method FlaggedFindings(t: TypeDecl, xn: string, denied: seq<Requirement>, flagged: seq<(string, Requirement)>)
    returns (out: seq<Finding>, decided: bool)
    requires xn in t.transitions && RequiresTakeable(t, t.transitions[xn], FromRequirements(t.transitions[xn]) + denied)
    requires EveryGuard(t, t.transitions[xn], denied)
    requires forall i | 0 <= i < |flagged| :: IsCondition(t, t.transitions[xn], flagged[i].0, flagged[i].1)
    ensures OnlyFlags(t, xn, out) && (!decided ==> UndecidedTransition(xn) in out)
    ensures decided ==> FlagsAnswered(t, xn, flagged, |flagged|, out)
  {
    var x := t.transitions[xn];
    var reqs := FromRequirements(x) + denied;
    out := [];
    for i := 0 to |flagged|
      invariant OnlyFlags(t, xn, out) && FlagsAnswered(t, xn, flagged, i, out)
    {
      var (g, r) := flagged[i];
      var passes := AnySatisfiable(reqs + [r], ModelFor(t, x));
      if passes.Err? {
        return out + [UndecidedTransition(xn)], false;
      }
      if passes.value {
        PassFound(t, x, denied, g, r);
      } else {
        NotPassed(t, x, reqs, g, r);
      }
      FlagAnswered(t, xn, flagged, i, out, passes.value);
      out := if passes.value then out else out + [NeverPasses(xn, g)];
    }
    decided := true;
  }

  ghost predicate OnlyFlags(t: TypeDecl, xn: string, out: seq<Finding>) {
    AllJustified(t, out) && forall f | f in out :: f == UndecidedTransition(xn) || f.NeverPasses?
  }

  ghost predicate FlagsAnswered(t: TypeDecl, xn: string, flagged: seq<(string, Requirement)>, n: nat, out: seq<Finding>)
    requires xn in t.transitions && n <= |flagged|
  {
    forall j | 0 <= j < n :: NeverPasses(xn, flagged[j].0) in out || PassIsMet(t, t.transitions[xn], flagged[j].0)
  }

  lemma FlagAnswered(t: TypeDecl, xn: string, flagged: seq<(string, Requirement)>, n: nat, out: seq<Finding>, passes: bool)
    requires xn in t.transitions && n < |flagged| && OnlyFlags(t, xn, out) && FlagsAnswered(t, xn, flagged, n, out)
    requires passes ==> PassIsMet(t, t.transitions[xn], flagged[n].0)
    requires !passes ==> NonePasses(t, t.transitions[xn], flagged[n].0)
    ensures var next := if passes then out else out + [NeverPasses(xn, flagged[n].0)];
            OnlyFlags(t, xn, next) && FlagsAnswered(t, xn, flagged, n + 1, next)
  {
    var next := if passes then out else out + [NeverPasses(xn, flagged[n].0)];
    assert !passes ==> next[|out|] == NeverPasses(xn, flagged[n].0);
  }

  lemma PassFound(t: TypeDecl, x: Transition, denied: seq<Requirement>, g: string, r: Requirement)
    requires RequiresTakeable(t, x, FromRequirements(x) + denied) && EveryGuard(t, x, denied) && IsCondition(t, x, g, r)
    requires Exactly(ModelFor(t, x), FromRequirements(x) + denied + [r]) ==>
               CanHold(ModelFor(t, x), FromRequirements(x) + denied + [r])
    ensures PassIsMet(t, x, g)
  {
    if PassesComparably(t, x, g, true) || PassesComparably(t, x, g, false) {
      PassesFormed(t, x, FromRequirements(x) + denied, g, r, PassesComparably(t, x, g, true));
      HeldPasses(t, x, denied, g, r);
    }
  }

  /** Whether some invariant the transition's writes decide must fail after it. */
  method WriteFinding(t: TypeDecl, xn: string, denied: seq<Requirement>, invariants: map<string, Expr>)
    returns (f: Option<Finding>)
    requires xn in t.transitions && RequiresTakeable(t, t.transitions[xn], FromRequirements(t.transitions[xn]) + denied)
    requires EveryGuard(t, t.transitions[xn], denied) && TakenIsMet(t, t.transitions[xn])
    requires forall n | n in invariants :: IsInvariant(t, invariants[n])
    ensures f.Some? ==> Justified(t, f.value) && (f.value == UndecidedTransition(xn) || (f.value.WriteBreaks? && f.value.transition == xn))
    ensures f.None? ==> WriteIsMet(t, t.transitions[xn], invariants)
  {
    var x := t.transitions[xn];
    var m := ModelFor(t, x);
    var reqs := FromRequirements(x) + denied;
    var post := AfterRequirements(t, x, invariants);
    if post.Err? {
      return Some(UndecidedTransition(xn));
    }
    if post.value == [] {
      NoneChecked(t, x, invariants);
      return None;
    }
    var left := AnySatisfiable(reqs + post.value, m);
    if left.Err? {
      return Some(UndecidedTransition(xn));
    }
    if left.value {
      WriteFound(t, x, denied, invariants, post.value);
      return None;
    }
    NotWritten(t, x, reqs, post.value);
    var kept := Core(reqs + post.value, m);
    return Some(if kept.Err? then UndecidedTransition(xn) else WriteBreaks(xn, NamesOfKept(reqs + post.value, kept.value)));
  }

  lemma NothingRequired(a: Analysis)
    ensures forall tree :: !HasRequirement(a, tree, [])
  {
  }

  lemma NoneChecked(t: TypeDecl, x: Transition, invariants: map<string, Expr>)
    requires EveryChecked(t, x, invariants, []) && TakenIsMet(t, x)
    ensures WriteIsMet(t, x, invariants)
  {
    if CanBeTaken(t, x) {
      var v: Valuation :| TakenUnder(t, x, v);
      NothingRequired(After(t, x));
    }
  }

  lemma WriteFound(t: TypeDecl, x: Transition, denied: seq<Requirement>, invariants: map<string, Expr>,
                   post: seq<Requirement>)
    requires RequiresTakeable(t, x, FromRequirements(x) + denied) && EveryGuard(t, x, denied)
    requires EveryChecked(t, x, invariants, post)
    requires Exactly(ModelFor(t, x), FromRequirements(x) + denied + post) ==>
               CanHold(ModelFor(t, x), FromRequirements(x) + denied + post)
    ensures WriteIsMet(t, x, invariants)
  {
    if WritesComparably(t, x, invariants, true) || WritesComparably(t, x, invariants, false) {
      WrittenFormed(t, x, FromRequirements(x) + denied, invariants, post, WritesComparably(t, x, invariants, true));
      HeldIsWritten(t, x, denied, invariants, post);
    }
  }

  /** What no finding of a transition says: it can be taken, each further guard can pass, and what it writes can be kept. */
  ghost predicate Answered(t: TypeDecl, xn: string, invariants: map<string, Expr>, out: seq<Finding>)
    requires xn in t.transitions
  {
    var x := t.transitions[xn];
    UndecidedTransition(xn) !in out && (forall f | f in out && f.NeverTaken? :: f.transition != xn) ==>
      && TakenIsMet(t, x)
      && (forall g | IsFlag(t, x, g) && NeverPasses(xn, g) !in out :: PassIsMet(t, x, g))
      && ((forall f | f in out && f.WriteBreaks? :: f.transition != xn) ==> WriteIsMet(t, x, invariants))
  }

  ghost predicate StateAnswered(t: TypeDecl, s: string, invariants: map<string, Expr>, out: seq<Finding>) {
    UndecidedState(s) !in out && (forall f | f in out && f.NeverIn? :: f.state != s) ==> StateIsMet(t, s, invariants)
  }

  /** A transition's findings, each justified, and all that hold: those found before a condition proved too large stand. */
  method AnalyseTransition(t: TypeDecl, xn: string, invariants: map<string, Expr>) returns (out: seq<Finding>)
    requires xn in t.transitions && forall n | n in invariants :: IsInvariant(t, invariants[n])
    ensures AllJustified(t, out) && Answered(t, xn, invariants, out)
  {
    var x := t.transitions[xn];
    var denied, flagged, tooLarge := GuardRequirements(t, x);
    if tooLarge {
      out := [UndecidedTransition(xn)];
      assert out[0] in out;
      return;
    }
    var taken := TakenFinding(t, xn, denied);
    if taken.Some? {
      out := [taken.value];
      assert taken.value in out;
      return;
    }
    assert RequiresTakeable(t, x, FromRequirements(x) + denied);
    var flags, decided := FlaggedFindings(t, xn, denied, flagged);
    if !decided {
      return flags;
    }
    var f := WriteFinding(t, xn, denied, invariants);
    out := if f.Some? then flags + [f.value] else flags;
    AllAnswered(t, xn, invariants, flagged, flags, f);
  }

  lemma AllAnswered(t: TypeDecl, xn: string, invariants: map<string, Expr>, flagged: seq<(string, Requirement)>,
                    flags: seq<Finding>, f: Option<Finding>)
    requires xn in t.transitions && TakenIsMet(t, t.transitions[xn]) && EveryFlag(t, t.transitions[xn], flagged)
    requires FlagsAnswered(t, xn, flagged, |flagged|, flags)
    requires f.Some? ==> f.value == UndecidedTransition(xn) || (f.value.WriteBreaks? && f.value.transition == xn)
    requires f.None? ==> WriteIsMet(t, t.transitions[xn], invariants)
    ensures Answered(t, xn, invariants, if f.Some? then flags + [f.value] else flags)
  {
    var out := if f.Some? then flags + [f.value] else flags;
    assert f.Some? ==> out[|flags|] == f.value;
    forall g | IsFlag(t, t.transitions[xn], g) && NeverPasses(xn, g) !in out ensures PassIsMet(t, t.transitions[xn], g) {
      var i :| 0 <= i < |flagged| && flagged[i].0 == g;
    }
  }

  predicate IsAnalysed(t: TypeDecl, xn: string) {
    xn in t.transitions && t.transitions[xn].kind != Assertion && t.transitions[xn].kind != Erasure
  }

  /** The analysis is sound in the direction a refusal needs: every contradiction it finds is one. And it is complete as far
      as it reads a type: where it finds none and the values compared are of one sort, some values meet what it read. */
  method AnalyseType(t: TypeDecl) returns (out: seq<Finding>, ghost invariants: map<string, Expr>)
    ensures AreInvariants(t, invariants)
    ensures AllJustified(t, out)
    ensures forall s | s in t.states :: StateAnswered(t, s, invariants, out)
    ensures forall xn | IsAnalysed(t, xn) :: Answered(t, xn, invariants, out)
  {
    var kept, all := StateInvariants(t);
    invariants := kept;
    out := StateFindings(t, kept);
    var transitions := t.transitions.Keys;
    while transitions != {}
      invariant transitions <= t.transitions.Keys && AllJustified(t, out)
      invariant forall s | s in t.states :: StateAnswered(t, s, kept, out)
      invariant forall xn | IsAnalysed(t, xn) && xn !in transitions :: Answered(t, xn, kept, out)
      decreases transitions
    {
      var xn :| xn in transitions;
      transitions := transitions - {xn};
      if IsAnalysed(t, xn) {
        var found := AnalyseTransition(t, xn, kept);
        MoreAnswered(t, kept, out, found, xn, transitions);
        out := out + found;
      }
    }
  }

  /** The invariants the analysis reads: all, but those left out. */
  ghost predicate AreInvariants(t: TypeDecl, invariants: map<string, Expr>) {
    exists all :: WithGenerated(t, t.states.Keys, all) && invariants == map n | n in all && !IsLeftOut(t, all, n) :: all[n]
  }

  method StateFindings(t: TypeDecl, invariants: map<string, Expr>) returns (out: seq<Finding>)
    requires forall n | n in invariants :: IsInvariant(t, invariants[n])
    ensures AllJustified(t, out)
    ensures forall s | s in t.states :: StateAnswered(t, s, invariants, out)
  {
    out := [];
    var states := t.states.Keys;
    while states != {}
      invariant states <= t.states.Keys && AllJustified(t, out)
      invariant forall s | s in t.states && s !in states :: StateAnswered(t, s, invariants, out)
      decreases states
    {
      var s :| s in states;
      states := states - {s};
      var f := AnalyseState(t, s, invariants);
      if f.Some? {
        out := out + [f.value];
        assert f.value in out;
      }
    }
  }

  lemma MoreAnswered(t: TypeDecl, invariants: map<string, Expr>, out: seq<Finding>, found: seq<Finding>, xn: string,
                     transitions: set<string>)
    requires xn in t.transitions && Answered(t, xn, invariants, found)
    requires forall s | s in t.states :: StateAnswered(t, s, invariants, out)
    requires forall y | IsAnalysed(t, y) && y !in transitions && y != xn :: Answered(t, y, invariants, out)
    ensures forall s | s in t.states :: StateAnswered(t, s, invariants, out + found)
    ensures forall y | IsAnalysed(t, y) && y !in transitions :: Answered(t, y, invariants, out + found)
  {
  }
}
