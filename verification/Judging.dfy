/** Every object judged under the new version, once the mappings are done, and what a report without anything fatal
    promises (scripts/flowpublish.py, `impact`). */
module Judging {
  import opened Wrappers
  import opened Reports
  import opened Versions
  import opened Impact
  import opened Mappings
  import opened Simulating

  /** The store as the mappings left it, and which objects they moved. */
  datatype Outcome = Outcome(s: Stored, v: Version, objects: map<Id, Obj>, moving: map<Id, string>)

  ghost predicate Sized(x: Outcome) {
    x.objects.Keys == x.s.objects.Keys && x.moving.Keys <= x.objects.Keys
  }

  function KindsOf(x: Outcome): Kinds {
    Kept(x.s.kinds, x.v.kinds)
  }

  function RetiredOf(x: Outcome): set<string> {
    Retired(x.s.kinds, x.v.kinds)
  }

  function ViewOf(x: Outcome): View {
    View(KindsOf(x), x.v.enums, x.s.version + 1, x.s.now, x.objects)
  }

  predicate Judged(x: Outcome, id: Id) {
    id in x.objects && Reached(KindsOf(x), RetiredOf(x), x.objects[id])
  }

  /** What an object is found to be: its references, its values, its state, its parts, its admissions and its
      invariants. */
  function JudgedMets(r: Runner, x: Outcome, id: Id): set<Met>
    requires id in x.objects && id in x.s.objects
  {
    var o, kinds := x.objects[id], KindsOf(x);
    var failing := r.failing(ViewOf(x), id);
    (if o.tn !in BUILT_IN && o.tn in kinds then MisfitMets(kinds, x.s.objects, x.objects, x.moving, id) else {})
    + (if !Judged(x, id) then {}
       else
         RemovedMets(kinds[o.tn], RemovedMembers(x.v.migration, x.s.enums, x.v.enums), id, o)
         + AbsentMets(kinds, kinds[o.tn], id, o) + StateMets(kinds[o.tn], id, o)
         + StrandedMets(r, ViewOf(x), kinds[o.tn], x.s.objects[id], id, o)
         + DischargeMets(failing, x.moving, id, o) + ViolationMets(x.v, kinds, failing, x.moving, id, o))
  }

  function OtherMets(r: Runner, x: Outcome): set<Met> {
    RemovedTypeMets(x.s, x.v.migration, RetiredOf(x)) + ProposalMets(r, x.s, KindsOf(x)) + SupersededMets(x.s)
    + TypeChangedMets(x.s, x.v, KindsOf(x), RetiredOf(x))
    + set n | n in r.noted(x.s, x.v) :: Met(if n.0 then Fatal else Notice, Noted(n.1), n.2)
  }

  // what the findings name

  /** An object's finding of an invariant is of one it fails and no standing admission covers. */
  predicate Violates(r: Runner, x: Outcome, id: Id, tn: string, n: string) {
    && Judged(x, id) && x.objects[id].tn == tn && tn !in x.v.observations
    && n in r.failing(ViewOf(x), id) && !Stands(x.moving, id, x.objects[id], n)
  }

  /** An object's discharge is of an admission its move leaves behind, or its version cures. */
  predicate Cured(r: Runner, x: Outcome, id: Id, tn: string, n: string) {
    && Judged(x, id) && n in x.objects[id].admissions
    && if id in x.moving then tn == x.moving[id]
       else tn == x.objects[id].tn && n !in r.failing(ViewOf(x), id)
  }

  predicate Invalidates(r: Runner, x: Outcome, p: Id) {
    p in x.s.proposals && x.s.proposals[p].pending && Breaks(r, KindsOf(x), x.s.proposals[p])
  }

  /** A finding's own: of the mappings, of the report's rest, or of an object judged. */
  ghost predicate Sourced(r: Runner, x: Outcome, m: Met)
    requires Sized(x)
  {
    Early(m.code) || m in OtherMets(r, x) || OfObject(r, x, m)
  }

  ghost predicate OfObject(r: Runner, x: Outcome, m: Met)
    requires Sized(x)
  {
    m.id.Some? && m.id.value in x.objects && m in JudgedMets(r, x, m.id.value)
  }

  ghost predicate Told(r: Runner, x: Outcome, met: set<Met>, id: Id)
    requires Sized(x) && id in x.objects
  {
    JudgedMets(r, x, id) <= met
  }

  /** What is met beyond the mappings: every judgement, and nothing else of these codes. */
  ghost predicate Complete(r: Runner, x: Outcome, met: set<Met>)
    requires Sized(x)
  {
    && OtherMets(r, x) <= met
    && (forall id | id in x.objects :: Told(r, x, met, id))
    && (forall m | m in met :: Sourced(r, x, m))
  }

  lemma JudgedCodes(r: Runner, x: Outcome, id: Id, m: Met)
    requires Sized(x) && id in x.objects && m in JudgedMets(r, x, id)
    ensures m.id == Some(id) && !m.code.Superseded? && !m.code.ProposalsInvalidated?
    ensures m.code.Invariant? ==> Violates(r, x, id, m.code.tn, m.code.n)
    ensures m.code.Discharged? ==> Cured(r, x, id, m.code.tn, m.code.n)
  {
    var o, kinds := x.objects[id], KindsOf(x);
    if !Judged(x, id) {
      assert m in MisfitMets(kinds, x.s.objects, x.objects, x.moving, id);
    } else if m in ViolationMets(x.v, kinds, r.failing(ViewOf(x), id), x.moving, id, o) {
    } else if m in DischargeMets(r.failing(ViewOf(x), id), x.moving, id, o) {
    } else {
      PlainCodes(r, x, id, m);
    }
  }

  /** A finding of an object's values, state, parts or references is of none of the others' codes. */
  lemma PlainCodes(r: Runner, x: Outcome, id: Id, m: Met)
    requires Sized(x) && Judged(x, id)
    requires var o, kinds := x.objects[id], KindsOf(x);
             || m in MisfitMets(kinds, x.s.objects, x.objects, x.moving, id)
             || m in RemovedMets(kinds[o.tn], RemovedMembers(x.v.migration, x.s.enums, x.v.enums), id, o)
             || m in AbsentMets(kinds, kinds[o.tn], id, o) || m in StateMets(kinds[o.tn], id, o)
             || m in StrandedMets(r, ViewOf(x), kinds[o.tn], x.s.objects[id], id, o)
    ensures m.id == Some(id) && !m.code.Superseded? && !m.code.ProposalsInvalidated?
    ensures !m.code.Invariant? && !m.code.Discharged?
  {
  }

  predicate IsOther(c: Code) {
    c.RemovedType? || c.RetiredType? || c.ProposalsInvalidated? || c.Superseded? || c.TypeChanged? || c.Noted?
  }

  lemma RemovedTypeCodes(s: Stored, m: Migration, retired: set<string>, x: Met)
    requires x in RemovedTypeMets(s, m, retired)
    ensures x.code.RemovedType? || x.code.RetiredType?
  {
  }

  lemma OtherCodes(r: Runner, x: Outcome, m: Met)
    requires Sized(x) && m in OtherMets(r, x)
    ensures IsOther(m.code)
    ensures m.code.Superseded? ==> m.id.Some? && m.id.value in x.s.open
    ensures m.code.ProposalsInvalidated? ==> m.id.Some? && Invalidates(r, x, m.id.value)
  {
    if m in RemovedTypeMets(x.s, x.v.migration, RetiredOf(x)) {
      RemovedTypeCodes(x.s, x.v.migration, RetiredOf(x), m);
    }
  }

  /** Every finding of these codes says what is so. */
  lemma Truthful(r: Runner, x: Outcome, met: set<Met>, m: Met)
    requires Sized(x) && Complete(r, x, met) && m in met
    ensures m.code.Invariant? ==> m.id.Some? && Violates(r, x, m.id.value, m.code.tn, m.code.n)
    ensures m.code.Discharged? ==> m.id.Some? && Cured(r, x, m.id.value, m.code.tn, m.code.n)
    ensures m.code.Superseded? ==> m.id.Some? && m.id.value in x.s.open
    ensures m.code.ProposalsInvalidated? ==> m.id.Some? && Invalidates(r, x, m.id.value)
  {
    assert Sourced(r, x, m);
    if m in OtherMets(r, x) {
      OtherCodes(r, x, m);
    } else if OfObject(r, x, m) {
      JudgedCodes(r, x, m.id.value, m);
    }
  }

  lemma ViolationMet(r: Runner, x: Outcome, id: Id, tn: string, n: string)
    requires Sized(x) && Violates(r, x, id, tn, n)
    ensures Met(Decision, Invariant(tn, n), Some(id)) in JudgedMets(r, x, id)
  {
    assert Met(Decision, Invariant(tn, n), Some(id)) in
           ViolationMets(x.v, KindsOf(x), r.failing(ViewOf(x), id), x.moving, id, x.objects[id]);
  }

  lemma DischargeMet(r: Runner, x: Outcome, id: Id, tn: string, n: string)
    requires Sized(x) && Cured(r, x, id, tn, n)
    ensures Met(Notice, Discharged(tn, n), Some(id)) in JudgedMets(r, x, id)
  {
    assert Met(Notice, Discharged(tn, n), Some(id)) in
           DischargeMets(r.failing(ViewOf(x), id), x.moving, id, x.objects[id]);
  }

  /** A report names an object under an invariant exactly where it violates it and no standing admission covers it. */
  lemma ViolationsNamed(r: Runner, x: Outcome, met: set<Met>, tn: string, n: string, id: Id)
    requires Sized(x) && Complete(r, x, met)
    ensures Names(met, Invariant(tn, n), id) <==> Violates(r, x, id, tn, n)
  {
    if Names(met, Invariant(tn, n), id) {
      var m :| m in met && m.code == Invariant(tn, n) && m.id == Some(id);
      Truthful(r, x, met, m);
    }
    if Violates(r, x, id, tn, n) {
      assert Told(r, x, met, id);
      ViolationMet(r, x, id, tn, n);
    }
  }

  /** And names it discharged exactly where its move leaves the admission behind, or its version cures it. */
  lemma DischargesNamed(r: Runner, x: Outcome, met: set<Met>, tn: string, n: string, id: Id)
    requires Sized(x) && Complete(r, x, met)
    ensures Names(met, Discharged(tn, n), id) <==> Cured(r, x, id, tn, n)
  {
    if Names(met, Discharged(tn, n), id) {
      var m :| m in met && m.code == Discharged(tn, n) && m.id == Some(id);
      Truthful(r, x, met, m);
    }
    if Cured(r, x, id, tn, n) {
      assert Told(r, x, met, id);
      DischargeMet(r, x, id, tn, n);
    }
  }

  lemma ProposalsNamed(r: Runner, x: Outcome, met: set<Met>, p: Id)
    requires Sized(x) && Complete(r, x, met)
    ensures Names(met, ProposalsInvalidated, p) <==> Invalidates(r, x, p)
  {
    if Names(met, ProposalsInvalidated, p) {
      var m :| m in met && m.code == ProposalsInvalidated && m.id == Some(p);
      Truthful(r, x, met, m);
    }
    if Invalidates(r, x, p) {
      assert Met(Notice, ProposalsInvalidated, Some(p)) in ProposalMets(r, x.s, KindsOf(x));
    }
  }

  lemma SupersededNamed(r: Runner, x: Outcome, met: set<Met>, c: Id)
    requires Sized(x) && Complete(r, x, met)
    ensures Names(met, Superseded, c) <==> c in x.s.open
  {
    if Names(met, Superseded, c) {
      var m :| m in met && m.code == Superseded && m.id == Some(c);
      Truthful(r, x, met, m);
    }
    if c in x.s.open {
      assert Met(Notice, Superseded, Some(c)) in SupersededMets(x.s);
    }
  }

  // what is found of an object's values, state and references

  predicate IsFault(c: Code) {
    c.MappingReference? || c.MovedReference? || c.RemovedMember? || c.RequiredAbsent? || c.UnreachableState? || c.Stranded?
  }

  /** What each says of an object is so. */
  ghost predicate IsSo(r: Runner, x: Outcome, id: Id, c: Code)
    requires Sized(x) && id in x.objects
  {
    var o, kinds := x.objects[id], KindsOf(x);
    match c
    case MappingReference(tn, a) =>
      o.tn !in BUILT_IN && o.tn in kinds && tn == o.tn && a in kinds[tn].attributes
      && var misfit := MisfitOf(kinds, x.s.objects, x.objects, x.moving, id, a); misfit.Some? && misfit.value !in x.moving
    case MovedReference(tn, a) =>
      o.tn !in BUILT_IN && o.tn in kinds && tn == o.tn && a in kinds[tn].attributes
      && var misfit := MisfitOf(kinds, x.s.objects, x.objects, x.moving, id, a); misfit.Some? && misfit.value in x.moving
    case RemovedMember(e, n) =>
      Judged(x, id) && (e, n) in RemovedMembers(x.v.migration, x.s.enums, x.v.enums)
      && exists a :: a in kinds[o.tn].attributes && a in o.attrs && Holds(o.attrs[a], Member(e, n))
    case RequiredAbsent(tn, a) =>
      Judged(x, id) && tn == o.tn && a in kinds[tn].attributes && Required(kinds, kinds[tn].attributes[a]) && a !in o.attrs
    case UnreachableState(tn, state) =>
      Judged(x, id) && tn == o.tn && state == o.state && !kinds[tn].mirror && state in kinds[tn].states
      && !Reachable(kinds[tn], state)
    case Stranded(tn, a) =>
      Judged(x, id) && tn == o.tn && a in kinds[tn].attributes && kinds[tn].attributes[a].composite
      && x.s.objects[id].state != o.state && Final(kinds, o)
      && exists p :: p in r.parts(ViewOf(x), id, a) && p in x.objects && !Final(kinds, x.objects[p])
    case _ => false
  }

  lemma FaultIsSo(r: Runner, x: Outcome, id: Id, m: Met)
    requires Sized(x) && id in x.objects && m in JudgedMets(r, x, id) && IsFault(m.code)
    ensures m.id == Some(id) && IsSo(r, x, id, m.code)
  {
    var o, kinds := x.objects[id], KindsOf(x);
    if o.tn !in BUILT_IN && o.tn in kinds && m in MisfitMets(kinds, x.s.objects, x.objects, x.moving, id) {
    } else {
      assert Judged(x, id);
      ValueFaultIsSo(r, x, id, m);
    }
  }

  lemma ValueFaultIsSo(r: Runner, x: Outcome, id: Id, m: Met)
    requires Sized(x) && Judged(x, id) && IsFault(m.code)
    requires var o, kinds := x.objects[id], KindsOf(x);
             || m in RemovedMets(kinds[o.tn], RemovedMembers(x.v.migration, x.s.enums, x.v.enums), id, o)
             || m in AbsentMets(kinds, kinds[o.tn], id, o) || m in StateMets(kinds[o.tn], id, o)
             || m in StrandedMets(r, ViewOf(x), kinds[o.tn], x.s.objects[id], id, o)
             || m in DischargeMets(r.failing(ViewOf(x), id), x.moving, id, o)
             || m in ViolationMets(x.v, kinds, r.failing(ViewOf(x), id), x.moving, id, o)
    ensures m.id == Some(id) && IsSo(r, x, id, m.code)
  {
    var o, kinds := x.objects[id], KindsOf(x);
    if m in RemovedMets(kinds[o.tn], RemovedMembers(x.v.migration, x.s.enums, x.v.enums), id, o) {
      RemovedIsSo(r, x, id, m);
    } else if m in StrandedMets(r, ViewOf(x), kinds[o.tn], x.s.objects[id], id, o) {
      StrandedIsSo(r, x, id, m);
    }
  }

  lemma StrandedIsSo(r: Runner, x: Outcome, id: Id, m: Met)
    requires Sized(x) && Judged(x, id)
    requires m in StrandedMets(r, ViewOf(x), KindsOf(x)[x.objects[id].tn], x.s.objects[id], id, x.objects[id])
    ensures m.id == Some(id) && m.code.Stranded? && IsSo(r, x, id, m.code)
  {
  }

  lemma RemovedIsSo(r: Runner, x: Outcome, id: Id, m: Met)
    requires Sized(x) && Judged(x, id)
    requires m in RemovedMets(KindsOf(x)[x.objects[id].tn], RemovedMembers(x.v.migration, x.s.enums, x.v.enums), id, x.objects[id])
    ensures m.id == Some(id) && m.code.RemovedMember? && IsSo(r, x, id, m.code)
  {
  }

  lemma SoIsFound(r: Runner, x: Outcome, id: Id, c: Code)
    requires Sized(x) && id in x.objects && IsSo(r, x, id, c)
    ensures Met(Fatal, c, Some(id)) in JudgedMets(r, x, id)
  {
    var o, kinds, m := x.objects[id], KindsOf(x), Met(Fatal, c, Some(id));
    match c {
      case MappingReference(_, _) => assert m in MisfitMets(kinds, x.s.objects, x.objects, x.moving, id);
      case MovedReference(_, _) => assert m in MisfitMets(kinds, x.s.objects, x.objects, x.moving, id);
      case RemovedMember(e, n) =>
        var p := (e, n);
        assert p in RemovedMembers(x.v.migration, x.s.enums, x.v.enums) && Met(Fatal, RemovedMember(p.0, p.1), Some(id)) == m;
        assert m in RemovedMets(kinds[o.tn], RemovedMembers(x.v.migration, x.s.enums, x.v.enums), id, o);
      case RequiredAbsent(_, _) => assert m in AbsentMets(kinds, kinds[o.tn], id, o);
      case UnreachableState(_, _) => assert m in StateMets(kinds[o.tn], id, o);
      case Stranded(_, _) => assert m in StrandedMets(r, ViewOf(x), kinds[o.tn], x.s.objects[id], id, o);
      case _ =>
    }
  }

  /** A report names an object under a fault of its references, its values, its state or its parts exactly where it has it,
      and each is fatal. */
  lemma FaultsNamed(r: Runner, x: Outcome, met: set<Met>, c: Code, id: Id)
    requires Sized(x) && Complete(r, x, met) && IsFault(c)
    ensures Names(met, c, id) <==> id in x.objects && IsSo(r, x, id, c)
    ensures Names(met, c, id) ==> Met(Fatal, c, Some(id)) in met
  {
    if Names(met, c, id) {
      var m :| m in met && m.code == c && m.id == Some(id);
      FaultFound(r, x, met, m);
    }
    if id in x.objects && IsSo(r, x, id, c) {
      assert Told(r, x, met, id);
      SoIsFound(r, x, id, c);
    }
  }

  lemma FaultFound(r: Runner, x: Outcome, met: set<Met>, m: Met)
    requires Sized(x) && Complete(r, x, met) && IsFault(m.code) && m in met
    ensures m.id.Some? && m.id.value in x.objects && IsSo(r, x, m.id.value, m.code)
  {
    assert Sourced(r, x, m) && !Early(m.code);
    if m in OtherMets(r, x) {
      OtherCodes(r, x, m);
    }
    FaultIsSo(r, x, m.id.value, m);
  }

  // what nothing fatal promises

  /** An object's values: none a removed member, and none required absent. */
  ghost predicate ValuesRight(x: Outcome, id: Id)
    requires Judged(x, id)
  {
    var o, kinds := x.objects[id], KindsOf(x);
    var declared := kinds[o.tn].attributes;
    && (forall a, e, n | a in declared && a in o.attrs
                         && (e, n) in RemovedMembers(x.v.migration, x.s.enums, x.v.enums) ::
          !Holds(o.attrs[a], Member(e, n)))
    && (forall a | a in declared && Required(kinds, declared[a]) :: a in o.attrs)
  }

  /** An object's state: one its type declares and, of a mirror's apart, that some transition enters; none of its live parts
      left behind by a mapping into a final one. */
  ghost predicate StateReached(r: Runner, x: Outcome, id: Id)
    requires Judged(x, id) && Sized(x)
  {
    var o, kinds := x.objects[id], KindsOf(x);
    && (o.tn !in x.v.observations ==> o.state in kinds[o.tn].states)
    && (!kinds[o.tn].mirror && o.state in kinds[o.tn].states ==> Reachable(kinds[o.tn], o.state))
    && (x.s.objects[id].state != o.state && Final(kinds, o) ==>
          forall a, p | a in kinds[o.tn].attributes && kinds[o.tn].attributes[a].composite
                        && p in r.parts(ViewOf(x), id, a) && p in x.objects :: Final(kinds, x.objects[p]))
  }

  /** A reference a mapping wrote, or to an object that moved, is to an object of the type it references. */
  ghost predicate ReferencesFit(x: Outcome, id: Id)
    requires Sized(x) && id in x.objects
  {
    var o, kinds := x.objects[id], KindsOf(x);
    o.tn !in BUILT_IN && o.tn in kinds ==>
      forall a, p | a in kinds[o.tn].attributes && kinds[o.tn].attributes[a].reference
                    && !DerivedEnd(kinds[o.tn].attributes[a]) && p in Referents(Get(o.attrs, a)) && p in x.objects
                    && (WrittenBy(x.s.objects[id], o, a) || p in x.moving) ::
        IsA(kinds, x.objects[p].tn, kinds[o.tn].attributes[a].holds)
  }

  ghost predicate Conforms(r: Runner, x: Outcome)
    requires Sized(x)
  {
    forall id | id in x.objects ::
      ReferencesFit(x, id) && (Judged(x, id) ==> ValuesRight(x, id) && StateReached(r, x, id))
  }

  lemma NotFatal(met: set<Met>, m: Met)
    requires !AnyFatal(met) && m in met
    ensures m.severity != Fatal
  {
  }

  lemma ReferencesFitWhere(r: Runner, x: Outcome, met: set<Met>, id: Id)
    requires Sized(x) && id in x.objects && Told(r, x, met, id) && !AnyFatal(met)
    ensures ReferencesFit(x, id)
  {
    var o, kinds := x.objects[id], KindsOf(x);
    if o.tn !in BUILT_IN && o.tn in kinds {
      forall a | a in kinds[o.tn].attributes
        ensures MisfitOf(kinds, x.s.objects, x.objects, x.moving, id, a).None?
      {
        var misfit := MisfitOf(kinds, x.s.objects, x.objects, x.moving, id, a);
        if misfit.Some? {
          var m := Met(Fatal, if misfit.value in x.moving then MovedReference(o.tn, a) else MappingReference(o.tn, a), Some(id));
          assert m in MisfitMets(kinds, x.s.objects, x.objects, x.moving, id);
          NotFatal(met, m);
        }
      }
    }
  }

  lemma ValuesRightWhere(r: Runner, x: Outcome, met: set<Met>, id: Id)
    requires Sized(x) && Judged(x, id) && Told(r, x, met, id) && !AnyFatal(met)
    ensures ValuesRight(x, id)
  {
    var o, kinds := x.objects[id], KindsOf(x);
    var declared, removed := kinds[o.tn].attributes, RemovedMembers(x.v.migration, x.s.enums, x.v.enums);
    forall a, e, n | a in declared && a in o.attrs && (e, n) in removed
      ensures !Holds(o.attrs[a], Member(e, n))
    {
      var p := (e, n);
      if Holds(o.attrs[a], Member(p.0, p.1)) {
        var m := Met(Fatal, RemovedMember(p.0, p.1), Some(id));
        assert m in RemovedMets(kinds[o.tn], removed, id, o);
        NotFatal(met, m);
      }
    }
    forall a | a in declared && Required(kinds, declared[a])
      ensures a in o.attrs
    {
      if a !in o.attrs {
        var m := Met(Fatal, RequiredAbsent(o.tn, a), Some(id));
        assert m in AbsentMets(kinds, kinds[o.tn], id, o);
        NotFatal(met, m);
      }
    }
  }

  lemma StateReachedWhere(r: Runner, x: Outcome, met: set<Met>, id: Id)
    requires Sized(x) && Judged(x, id) && Told(r, x, met, id) && !AnyFatal(met)
    requires StateRight(x.s, x.v, x.objects[id], met) && StatesDeclared(x.s) && TargetsDeclared(x.v, KindsOf(x))
    ensures StateReached(r, x, id)
  {
    var o, kinds := x.objects[id], KindsOf(x);
    if !kinds[o.tn].mirror && o.state in kinds[o.tn].states && !Reachable(kinds[o.tn], o.state) {
      var m := Met(Fatal, UnreachableState(o.tn, o.state), Some(id));
      assert m in StateMets(kinds[o.tn], id, o);
      NotFatal(met, m);
    }
    if x.s.objects[id].state != o.state && Final(kinds, o) {
      forall a, p | a in kinds[o.tn].attributes && kinds[o.tn].attributes[a].composite
                    && p in r.parts(ViewOf(x), id, a) && p in x.objects
        ensures Final(kinds, x.objects[p])
      {
        if !Final(kinds, x.objects[p]) {
          var m := Met(Fatal, Stranded(o.tn, a), Some(id));
          assert m in StrandedMets(r, ViewOf(x), kinds[o.tn], x.s.objects[id], id, o);
          NotFatal(met, m);
        }
      }
    }
  }

  /** A dry run that finds nothing fatal leaves a store that conforms to the new version, where the store conformed to the
      old and the mappings' targets are states the new version declares. */
  lemma CleanRunConforms(r: Runner, x: Outcome, met: set<Met>)
    requires Sized(x) && Complete(r, x, met) && !AnyFatal(met)
    requires StatesDeclared(x.s) && TargetsDeclared(x.v, KindsOf(x))
    requires AllApplied(x.s, x.v, x.objects, x.moving, met, x.s.objects.Keys)
    ensures Conforms(r, x)
  {
    forall id | id in x.objects
      ensures ReferencesFit(x, id) && (Judged(x, id) ==> ValuesRight(x, id) && StateReached(r, x, id))
    {
      ReferencesFitWhere(r, x, met, id);
      if Judged(x, id) {
        ValuesRightWhere(r, x, met, id);
        assert Settled(x.s, x.v, x.s.objects[id], x.objects[id], From(x.moving, id), met, id);
        StateReachedWhere(r, x, met, id);
      }
    }
  }

  // the run

  /** What a version makes of a store, and all that is found of it. */
  ghost predicate IsImpact(r: Runner, s: Stored, v: Version, x: Outcome, met: set<Met>) {
    && x.s == s && x.v == v && Sized(x) && Complete(r, x, met)
    && AllApplied(s, v, x.objects, x.moving, met, s.objects.Keys)
    && x.objects == Simulated(r, s, v) && x.moving == MovingOf(s, MovedObjects(r, s, v, |v.migration.movedTypes|))
    && (AnyFatal(met) || AllTaken(s, v, x.moving, |v.migration.movedTypes|))
  }

  /** Steps two and three over every object: what the mappings leave, and everything found of it. */
  method Run(r: Runner, s: Stored, v: Version, found: Found) returns (x: Outcome)
    requires found.Valid() && Ordered(s) && AllEarly(found.met)
    modifies found
    ensures found.Valid() && old(found.met) <= found.met && IsImpact(r, s, v, x, found.met)
  {
    var sim := new Simulation(r, s, v, found);
    sim.Moves();
    sim.Apply();
    sim.Backfills();
    sim.Clears();
    x := Outcome(s, v, sim.objects, sim.moving);
    ghost var early := found.met;
    JudgeAll(r, x, found);
    AppliedMore(s, v, x.objects, x.moving, early, s.objects.Keys, found.met);
    FatalMore(early, found.met);
    MakesImpact(r, s, v, x, found.met);
  }

  lemma MakesImpact(r: Runner, s: Stored, v: Version, x: Outcome, met: set<Met>)
    requires x.s == s && x.v == v && Sized(x) && Complete(r, x, met)
    requires AllApplied(s, v, x.objects, x.moving, met, s.objects.Keys)
    requires x.objects == Simulated(r, s, v) && x.moving == MovingOf(s, MovedObjects(r, s, v, |v.migration.movedTypes|))
    requires AnyFatal(met) || AllTaken(s, v, x.moving, |v.migration.movedTypes|)
    ensures IsImpact(r, s, v, x, met)
  {
  }

  /** What is found so far: the mappings' findings, and those of the objects judged. */
  ghost predicate SoFar(r: Runner, x: Outcome, early: set<Met>, met: set<Met>, done: set<Id>)
    requires Sized(x)
  {
    && early <= met
    && (forall id | id in done :: id in x.objects && Told(r, x, met, id))
    && (forall m | m in met :: m in early || OfObject(r, x, m))
  }

  lemma OneMore(r: Runner, x: Outcome, early: set<Met>, met: set<Met>, done: set<Id>, id: Id)
    requires Sized(x) && SoFar(r, x, early, met, done) && id in x.objects
    ensures SoFar(r, x, early, met + JudgedMets(r, x, id), done + {id})
  {
    var more := met + JudgedMets(r, x, id);
    forall m | m in more
      ensures m in early || OfObject(r, x, m)
    {
      if m in JudgedMets(r, x, id) {
        JudgedCodes(r, x, id, m);
      }
    }
  }

  method JudgeAll(r: Runner, x: Outcome, found: Found)
    requires found.Valid() && Ordered(x.s) && AllEarly(found.met) && Sized(x)
    modifies found
    ensures found.Valid() && old(found.met) <= found.met && Complete(r, x, found.met)
  {
    ghost var early := found.met;
    ghost var done: set<Id> := {};
    for k := 0 to |x.s.order|
      invariant found.Valid() && SoFar(r, x, early, found.met, done)
      invariant forall id :: id in done <==> id in x.s.order[..k]
    {
      var id := x.s.order[k];
      assert id in x.s.objects;
      assert x.s.order[..k + 1] == x.s.order[..k] + [id];
      OneMore(r, x, early, found.met, done, id);
      found.AddAll(JudgedMets(r, x, id));
      done := done + {id};
    }
    assert x.s.order[..|x.s.order|] == x.s.order;
    ghost var judged := found.met;
    found.AddAll(OtherMets(r, x));
    forall m | m in found.met
      ensures Sourced(r, x, m)
    {
      assert m in judged || m in OtherMets(r, x);
    }
  }
}
