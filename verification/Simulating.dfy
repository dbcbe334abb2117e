/** The store as a version's mappings leave it, object by object, with what the dry run finds on the way
    (scripts/flowpublish.py, `moves` and `impact`). */
module Simulating {
  import opened Wrappers
  import opened Reports
  import opened Versions
  import opened Impact
  import opened Mappings

  /** The order names each object once. */
  ghost predicate Ordered(s: Stored) {
    && (forall id :: id in s.objects <==> id in s.order)
    && (forall i, j | 0 <= i < j < |s.order| :: s.order[i] != s.order[j])
  }

  /** A store that conforms to the version installed: every object's state is one its type declares. */
  ghost predicate StatesDeclared(s: Stored) {
    forall id | id in s.objects && s.objects[id].tn !in BUILT_IN ::
      s.objects[id].tn in s.kinds && s.objects[id].state in s.kinds[s.objects[id].tn].states
  }

  /** Mapping targets the new version declares. */
  ghost predicate TargetsDeclared(v: Version, kinds: Kinds) {
    && (forall i, e, st | 0 <= i < |v.migration.movedTypes| && e in v.migration.movedTypes[i].1 && st in e.states ::
          e.to in v.kinds ==> e.states[st] in v.kinds[e.to].states)
    && (forall i, e | 0 <= i < |v.migration.movedTypes| && e in v.migration.movedTypes[i].1 :: e.to !in BUILT_IN)
    && (forall i, tn, st | 0 <= i < |v.migration.removedStates| && tn in v.kinds && st in v.migration.removedStates[i].1
                           && IsA(kinds, tn, v.migration.removedStates[i].0) ::
          v.migration.removedStates[i].1[st] in v.kinds[tn].states)
  }

  /** Observation kinds keep their states: each is born in its one, which is final. */
  ghost predicate ObservationsStay(s: Stored, v: Version) {
    forall tn | tn in v.observations && tn in v.kinds && tn in s.kinds :: s.kinds[tn].states.Keys <= v.kinds[tn].states.Keys
  }

  lemma {:induction false} StateTargetDeclared(v: Version, kinds: Kinds, tn: string, state: string, k: nat)
    requires TargetsDeclared(v, kinds) && tn in v.kinds && k <= |v.migration.removedStates|
    requires StateTarget(kinds, tn, v.migration.removedStates[k..], state).Some?
    ensures StateTarget(kinds, tn, v.migration.removedStates[k..], state).value in v.kinds[tn].states
    decreases |v.migration.removedStates| - k
  {
    var maps := v.migration.removedStates;
    assert maps[k..][0] == maps[k] && maps[k..][1..] == maps[k + 1..];
    if !(IsA(kinds, tn, maps[k].0) && state in maps[k].1) {
      StateTargetDeclared(v, kinds, tn, state, k + 1);
    }
  }

  /** What no mapping and no move changes. */
  predicate Keeps(was: Obj, o: Obj) {
    o.admissions == was.admissions && o.erased == was.erased && o.version == was.version
  }

  /** A mapping's finding names an object. */
  ghost predicate Mapped(met: set<Met>, id: Id) {
    exists m :: m in met && IsMapping(m.code) && m.id == Some(id)
  }

  /** The codes met before the objects are judged. */
  predicate Early(c: Code) {
    || c.Check? || c.MovedType? || c.MovedTypeTwice? || c.MovedState? || IsMapping(c) || c.BackfillRewrites? || c.RemovedState?
  }

  ghost predicate AllEarly(met: set<Met>) {
    forall m | m in met :: Early(m.code)
  }

  // moves

  /** An object moved: of a type its entry names, in a state of it, and named in the report. */
  ghost predicate MovedRight(s: Stored, v: Version, was: Obj, o: Obj, from: string, met: set<Met>, id: Id) {
    && was.tn == from && from in Retired(s.kinds, v.kinds) && o.tn in v.kinds && Keeps(was, o)
    && Names(met, MappingMove(from, o.tn), id)
    && (TargetsDeclared(v, Kept(s.kinds, v.kinds)) ==> o.tn !in BUILT_IN && o.state in v.kinds[o.tn].states)
  }

  /** Each object is moved, or as it was. */
  ghost predicate AllMoved(s: Stored, v: Version, objects: map<Id, Obj>, moving: map<Id, string>, met: set<Met>) {
    && objects.Keys == s.objects.Keys && moving.Keys <= objects.Keys
    && forall id | id in s.objects ::
         if id in moving then MovedRight(s, v, s.objects[id], objects[id], moving[id], met, id)
         else objects[id] == s.objects[id]
  }

  /** Every object of a type the version moves has moved. */
  ghost predicate AllTaken(s: Stored, v: Version, moving: map<Id, string>, n: nat)
    requires n <= |v.migration.movedTypes|
  {
    forall h, id | 0 <= h < n && MovesType(s, v, v.migration.movedTypes[h].0) && id in s.objects
                   && s.objects[id].tn == v.migration.movedTypes[h].0 :: id in moving
  }

  ghost predicate TakenSoFar(s: Stored, tn: string, moving: map<Id, string>, k: nat)
    requires k <= |s.order|
  {
    forall j | 0 <= j < k && s.order[j] in s.objects && s.objects[s.order[j]].tn == tn :: s.order[j] in moving
  }

  /** An object of a moved type has moved, unless something fatal is found. */
  ghost predicate OneTaken(s: Stored, tn: string, moving: map<Id, string>, met: set<Met>, id: Id) {
    AnyFatal(met) || (id in s.objects && s.objects[id].tn == tn ==> id in moving)
  }

  lemma TakenFurther(s: Stored, tn: string, was: map<Id, string>, before: set<Met>, moving: map<Id, string>, met: set<Met>,
                     k: nat)
    requires k < |s.order| && was.Keys <= moving.Keys && before <= met
    requires (AnyFatal(before) || TakenSoFar(s, tn, was, k)) && OneTaken(s, tn, moving, met, s.order[k])
    ensures AnyFatal(met) || TakenSoFar(s, tn, moving, k + 1)
  {
    FatalMore(before, met);
  }

  lemma TakenNext(s: Stored, v: Version, was: map<Id, string>, moving: map<Id, string>, i: nat)
    requires i < |v.migration.movedTypes| && was.Keys <= moving.Keys && Ordered(s)
    ensures AllTaken(s, v, was, i)
            && (MovesType(s, v, v.migration.movedTypes[i].0) ==>
                  TakenSoFar(s, v.migration.movedTypes[i].0, moving, |s.order|)) ==>
              AllTaken(s, v, moving, i + 1)
  {
  }

  lemma FatalMore(met: set<Met>, more: set<Met>)
    requires met <= more
    ensures AnyFatal(met) ==> AnyFatal(more)
  {
  }

  lemma NotOfType(s: Stored, v: Version, objects: map<Id, Obj>, moving: map<Id, string>, met: set<Met>, id: Id)
    requires AllMoved(s, v, objects, moving, met) && id in s.objects
    ensures s.objects[id].tn != objects[id].tn ==> id in moving
  {
  }

  lemma MovingIsMoved(s: Stored, v: Version, objects: map<Id, Obj>, moving: map<Id, string>, met: set<Met>)
    requires AllMoved(s, v, objects, moving, met)
    ensures moving == MovingOf(s, objects)
  {
    forall id | id in s.objects
      ensures (id in moving <==> objects[id].tn != s.objects[id].tn) && (id in moving ==> moving[id] == s.objects[id].tn)
    {
      MovingChanges(s, v, objects, moving, met, id);
    }
    SameMap(s, objects, moving);
  }

  lemma SameMap(s: Stored, objects: map<Id, Obj>, moving: map<Id, string>)
    requires objects.Keys == s.objects.Keys && moving.Keys <= objects.Keys
    requires forall id | id in s.objects ::
               (id in moving <==> objects[id].tn != s.objects[id].tn) && (id in moving ==> moving[id] == s.objects[id].tn)
    ensures moving == MovingOf(s, objects)
  {
  }

  lemma MovingChanges(s: Stored, v: Version, objects: map<Id, Obj>, moving: map<Id, string>, met: set<Met>, id: Id)
    requires AllMoved(s, v, objects, moving, met) && id in s.objects
    ensures id in moving <==> objects[id].tn != s.objects[id].tn
    ensures id in moving ==> moving[id] == s.objects[id].tn
  {
    if id in moving {
      assert MovedRight(s, v, s.objects[id], objects[id], moving[id], met, id);
    }
  }

  lemma MovedMore(s: Stored, v: Version, objects: map<Id, Obj>, moving: map<Id, string>, met: set<Met>, more: set<Met>)
    requires AllMoved(s, v, objects, moving, met) && met <= more
    ensures AllMoved(s, v, objects, moving, more)
  {
    forall id | id in s.objects
      ensures if id in moving then MovedRight(s, v, s.objects[id], objects[id], moving[id], more, id)
              else objects[id] == s.objects[id]
    {
      if id in moving {
        var m :| m in met && m.code == MappingMove(moving[id], objects[id].tn) && m.id == Some(id);
        assert m in more;
      }
    }
  }

  function EntryMets(r: Runner, m: Migration, view: View, id: Id, was: Kind, now: Kind, e: Move, tn: string): (all: set<Met>)
    requires id in view.objects
    ensures AllEarly(all) && Met(Notice, MappingMove(tn, e.to), Some(id)) in all
  {
    Unfit(r, m, view, id, was, now, e, tn) + {Met(Notice, MappingMove(tn, e.to), Some(id))}
  }

  function FillMets(w: Written, id: Id, rewrites: bool): (all: set<Met>)
    ensures AllEarly(all) && Met(Notice, MappingBackfill(w.tn, w.attr), Some(id)) in all
  {
    {Met(Notice, MappingBackfill(w.tn, w.attr), Some(id))}
    + (if rewrites then {Met(Notice, BackfillRewrites(w.tn, w.attr), Some(id))} else {})
  }

  /** An object entering its target was where it began, and the report names it. */
  lemma Entered(r: Runner, s: Stored, v: Version, objects: map<Id, Obj>, moving: map<Id, string>,
                met: set<Met>, id: Id, e: Move, state: string)
    requires AllMoved(s, v, objects, moving, met)
    requires id in objects && objects[id].tn in Retired(s.kinds, v.kinds) && e.to in v.kinds
    requires TargetsDeclared(v, Kept(s.kinds, v.kinds)) ==> e.to !in BUILT_IN && state in v.kinds[e.to].states
    requires Met(Notice, MappingMove(objects[id].tn, e.to), Some(id)) in met
    ensures AllMoved(s, v, objects[id := EnteredBy(r, s, v, objects, id, e, state)], moving[id := objects[id].tn], met)
  {
    assert id !in moving;
    assert Names(met, MappingMove(objects[id].tn, e.to), id);
    MovedOne(s, v, objects, moving, met, id, EnteredBy(r, s, v, objects, id, e, state), objects[id].tn);
  }

  lemma MovedOne(s: Stored, v: Version, objects: map<Id, Obj>, moving: map<Id, string>, met: set<Met>, id: Id, o: Obj,
                 from: string)
    requires AllMoved(s, v, objects, moving, met) && id in s.objects
    requires MovedRight(s, v, s.objects[id], o, from, met, id)
    ensures AllMoved(s, v, objects[id := o], moving[id := from], met)
  {
    var after, movers := objects[id := o], moving[id := from];
    forall x | x in s.objects
      ensures if x in movers then MovedRight(s, v, s.objects[x], after[x], movers[x], met, x)
              else after[x] == s.objects[x]
    {
      if x != id {
        assert x in movers <==> x in moving;
      }
    }
  }

  lemma TargetState(s: Stored, v: Version, i: nat, e: Move, state: string, to: string)
    requires i < |v.migration.movedTypes| && e in v.migration.movedTypes[i].1 && e.to in v.kinds
    requires StateAfter(e, v.kinds[e.to], state) == Some(to)
    ensures TargetsDeclared(v, Kept(s.kinds, v.kinds)) ==> e.to !in BUILT_IN && to in v.kinds[e.to].states
  {
  }

  lemma {:induction false} TakesAmong(r: Runner, view: View, id: Id, entries: seq<Move>)
    ensures forall e | e in Takes(r, view, id, entries) :: e in entries
  {
    if entries != [] {
      TakesAmong(r, view, id, entries[1..]);
    }
  }

  // mappings

  /** An object no mapping names: as it was, under its new names. */
  function Unmapped(s: Stored, v: Version, o: Obj): Obj {
    if Reached(Kept(s.kinds, v.kinds), Retired(s.kinds, v.kinds), o)
    then Carried(v.migration, Kept(s.kinds, v.kinds), KindOf(s.kinds, o.tn), o, false)
    else o
  }

  /** The state of an object a transition may take, where nothing found refuses the publish. */
  ghost predicate StateRight(s: Stored, v: Version, o: Obj, met: set<Met>) {
    (StatesDeclared(s) && TargetsDeclared(v, Kept(s.kinds, v.kinds)) && !AnyFatal(met)
     && Reached(Kept(s.kinds, v.kinds), Retired(s.kinds, v.kinds), o) && (o.tn in v.observations ==> ObservationsStay(s, v))) ==>
      o.state in v.kinds[o.tn].states
  }

  /** An object as the mappings leave it: named in the report, or as it was but for renames. */
  ghost predicate Settled(s: Stored, v: Version, was: Obj, o: Obj, from: Option<string>, met: set<Met>, id: Id) {
    && Keeps(was, o) && StateRight(s, v, o, met)
    && (from.None? ==> o.tn == was.tn)
    && (from.None? && !Reached(Kept(s.kinds, v.kinds), Retired(s.kinds, v.kinds), o) ==> o == was)
    && (from.Some? ==> was.tn == from.value && from.value in Retired(s.kinds, v.kinds) && o.tn in v.kinds
                       && (TargetsDeclared(v, Kept(s.kinds, v.kinds)) ==> o.tn !in BUILT_IN))
    && (Mapped(met, id) || (from.None? && o == Unmapped(s, v, was)))
  }

  function From(moving: map<Id, string>, id: Id): Option<string> {
    if id in moving then Some(moving[id]) else None
  }

  /** Those done settled, the others moved or as they were. */
  ghost predicate AllApplied(s: Stored, v: Version, objects: map<Id, Obj>, moving: map<Id, string>, met: set<Met>,
                             done: set<Id>) {
    && objects.Keys == s.objects.Keys && moving.Keys <= objects.Keys
    && forall id | id in s.objects ::
         if id in done then Settled(s, v, s.objects[id], objects[id], From(moving, id), met, id)
         else if id in moving then MovedRight(s, v, s.objects[id], objects[id], moving[id], met, id)
         else objects[id] == s.objects[id]
  }

  lemma AppliedMore(s: Stored, v: Version, objects: map<Id, Obj>, moving: map<Id, string>, met: set<Met>, done: set<Id>,
                    more: set<Met>)
    requires AllApplied(s, v, objects, moving, met, done) && met <= more
    ensures AllApplied(s, v, objects, moving, more, done)
  {
    forall id | id in s.objects
      ensures if id in done then Settled(s, v, s.objects[id], objects[id], From(moving, id), more, id)
              else if id in moving then MovedRight(s, v, s.objects[id], objects[id], moving[id], more, id)
              else objects[id] == s.objects[id]
    {
      if id in done {
        SettledMore(s, v, s.objects[id], objects[id], From(moving, id), met, id, more);
      } else if id in moving {
        var m :| m in met && m.code == MappingMove(moving[id], objects[id].tn) && m.id == Some(id);
        assert m in more;
      }
    }
  }

  lemma SettledMore(s: Stored, v: Version, was: Obj, o: Obj, from: Option<string>, met: set<Met>, id: Id, more: set<Met>)
    requires Settled(s, v, was, o, from, met, id) && met <= more
    ensures Settled(s, v, was, o, from, more, id)
  {
    if Mapped(met, id) {
      var m :| m in met && IsMapping(m.code) && m.id == Some(id);
      assert m in more;
    }
    if AnyFatal(met) {
      var m :| m in met && m.severity == Fatal;
      assert m in more;
    }
  }

  lemma AppliedOne(s: Stored, v: Version, objects: map<Id, Obj>, moving: map<Id, string>, met: set<Met>, done: set<Id>,
                   id: Id, o: Obj)
    requires AllApplied(s, v, objects, moving, met, done) && id in s.objects
    requires Settled(s, v, s.objects[id], o, From(moving, id), met, id)
    ensures AllApplied(s, v, objects[id := o], moving, met, done + {id})
  {
    var after := objects[id := o];
    forall x | x in s.objects
      ensures if x in done + {id} then Settled(s, v, s.objects[x], after[x], From(moving, x), met, x)
              else if x in moving then MovedRight(s, v, s.objects[x], after[x], moving[x], met, x)
              else after[x] == s.objects[x]
    {
      assert x != id ==> after[x] == objects[x];
    }
  }

  /** An object whose attributes alone a mapping that names it writes. */
  lemma WrittenSettles(s: Stored, v: Version, objects: map<Id, Obj>, moving: map<Id, string>, met: set<Met>, id: Id, o: Obj)
    requires AllApplied(s, v, objects, moving, met, s.objects.Keys) && id in s.objects && Mapped(met, id)
    requires o == objects[id].(attrs := o.attrs) && Reached(Kept(s.kinds, v.kinds), Retired(s.kinds, v.kinds), o)
    ensures AllApplied(s, v, objects[id := o], moving, met, s.objects.Keys)
  {
    assert Settled(s, v, s.objects[id], objects[id], From(moving, id), met, id);
    AppliedOne(s, v, objects, moving, met, s.objects.Keys, id, o);
    assert s.objects.Keys + {id} == s.objects.Keys;
  }

  ghost predicate AppliedSoFar(s: Stored, v: Version, was: map<Id, Obj>, now: map<Id, Obj>, moving: map<Id, string>,
                               done: set<Id>)
  {
    && was.Keys == now.Keys == s.objects.Keys
    && forall id | id in now :: now[id] == if id in done then AppliedTo(s, v, was[id], id in moving) else was[id]
  }

  lemma AppliedFurther(s: Stored, v: Version, was: map<Id, Obj>, now: map<Id, Obj>, moving: map<Id, string>, done: set<Id>,
                       id: Id)
    requires AppliedSoFar(s, v, was, now, moving, done) && id in now && id !in done
    ensures AppliedSoFar(s, v, was, now[id := AppliedTo(s, v, now[id], id in moving)], moving, done + {id})
  {
  }

  lemma AppliedWhole(s: Stored, v: Version, was: map<Id, Obj>, now: map<Id, Obj>, moving: map<Id, string>, done: set<Id>)
    requires AppliedSoFar(s, v, was, now, moving, done) && done == s.objects.Keys
    ensures now == AppliedAll(s, v, was, moving)
  {
  }

  /** An object on its way through the mappings, from what it was carried to. */
  ghost predicate Passing(carried: Obj, o: Obj, met: set<Met>, id: Id) {
    o.tn == carried.tn && o.state == carried.state && Keeps(carried, o) && (o == carried || Mapped(met, id))
  }

  /** An object once some of the removed members' mappings have been over it. */
  function Without(k: Kind, entries: seq<(string, string, string)>, n: nat, carried: Obj): Obj
    requires n <= |entries|
  {
    carried.(attrs := WithoutMembers(k, entries[..n], carried.attrs))
  }

  lemma WithoutNext(k: Kind, entries: seq<(string, string, string)>, n: nat, carried: Obj)
    requires n < |entries|
    ensures var before := Without(k, entries, n, carried);
            Without(k, entries, n + 1, carried) ==
            if TakesMember(k, entries[n], before.attrs) then before.(attrs := MemberReplaced(k, entries[n], before.attrs))
            else before
  {
    assert entries[..n + 1][..n] == entries[..n];
  }

  lemma PassingWritten(carried: Obj, passing: Obj, o: Obj, before: set<Met>, met: set<Met>, id: Id, m: Met)
    requires Passing(carried, passing, before, id) && o == passing.(attrs := o.attrs)
    requires m in met && IsMapping(m.code) && m.id == Some(id)
    ensures Passing(carried, o, met, id)
  {
  }

  /** Where a removed state's mapping, or its want, leaves an object. */
  ghost predicate StateMoved(s: Stored, v: Version, carried: Obj, o: Obj, moved: bool, met: set<Met>, id: Id) {
    var was, now := KindOf(s.kinds, carried.tn), KindOf(v.kinds, carried.tn);
    && o.tn == carried.tn && Keeps(carried, o) && (o == carried || Mapped(met, id))
    && if moved || carried.state !in was.states || carried.state in now.states then o.state == carried.state
       else AnyFatal(met)
            || StateTarget(Kept(s.kinds, v.kinds), carried.tn, v.migration.removedStates, carried.state) == Some(o.state)
  }

  lemma StateReplaced(s: Stored, v: Version, carried: Obj, passing: Obj, o: Obj, before: set<Met>, met: set<Met>, id: Id, m: Met)
    requires Passing(carried, passing, before, id) && before <= met && m in met && m.id == Some(id) && carried.tn in v.kinds
    requires carried.state in KindOf(s.kinds, carried.tn).states && carried.state !in KindOf(v.kinds, carried.tn).states
    requires var to := StateTarget(Kept(s.kinds, v.kinds), carried.tn, v.migration.removedStates, carried.state);
             && o == passing.(state := if to.Some? then to.value else carried.state)
             && (if to.Some? then m.code.MappingState? else m.severity == Fatal)
    ensures StateMoved(s, v, carried, o, false, met, id)
  {
    MappedMore(before, met, id);
  }

  lemma CarriedSettles(s: Stored, v: Version, objects: map<Id, Obj>, moving: map<Id, string>, met: set<Met>, done: set<Id>,
                       id: Id)
    requires AllApplied(s, v, objects, moving, met, done) && id in s.objects && id !in done
    requires Reached(Kept(s.kinds, v.kinds), Retired(s.kinds, v.kinds), objects[id]) && objects[id].tn in v.observations
    ensures Settled(s, v, s.objects[id],
                    Carried(v.migration, Kept(s.kinds, v.kinds), KindOf(s.kinds, objects[id].tn), objects[id], id in moving),
                    From(moving, id), met, id)
  {
    if id in moving {
      assert MovedRight(s, v, s.objects[id], objects[id], moving[id], met, id);
      var m :| m in met && m.code == MappingMove(moving[id], objects[id].tn) && m.id == Some(id);
      assert Mapped(met, id);
    }
  }

  lemma PassedSettles(s: Stored, v: Version, before: Obj, carried: Obj, o: Obj, from: Option<string>, met: set<Met>, id: Id)
    requires var was := KindOf(s.kinds, before.tn);
             && carried == Carried(v.migration, Kept(s.kinds, v.kinds), was, before, from.Some?)
             && StateMoved(s, v, carried, o, from.Some?, met, id)
    requires Reached(Kept(s.kinds, v.kinds), Retired(s.kinds, v.kinds), before)
    requires if from.Some? then id in s.objects && MovedRight(s, v, s.objects[id], before, from.value, met, id)
             else id in s.objects && before == s.objects[id]
    ensures Settled(s, v, s.objects[id], o, from, met, id)
  {
    if from.Some? {
      var m :| m in met && m.code == MappingMove(from.value, before.tn) && m.id == Some(id);
      assert Mapped(met, id);
    } else {
      var kinds := Kept(s.kinds, v.kinds);
      if TargetsDeclared(v, kinds) && StateTarget(kinds, carried.tn, v.migration.removedStates, carried.state).Some? {
        assert v.migration.removedStates[0..] == v.migration.removedStates;
        StateTargetDeclared(v, kinds, carried.tn, carried.state, 0);
      }
    }
  }

  class Simulation {
    const r: Runner
    const s: Stored
    const v: Version
    const kinds: Kinds
    const retired: set<string>
    const found: Found
    var objects: map<Id, Obj>
    var moving: map<Id, string>

    ghost predicate Valid()
      reads this, found
    {
      && found.Valid() && kinds == Kept(s.kinds, v.kinds) && retired == Retired(s.kinds, v.kinds)
      && Ordered(s)
    }

    constructor (r: Runner, s: Stored, v: Version, found: Found)
      requires found.Valid() && Ordered(s)
      ensures Valid() && this.r == r && this.s == s && this.v == v && this.found == found
      ensures objects == s.objects && moving == map[]
    {
      this.r, this.s, this.v, this.found := r, s, v, found;
      kinds, retired := Kept(s.kinds, v.kinds), Retired(s.kinds, v.kinds);
      objects, moving := s.objects, map[];
    }

    function Now(): View
      reads this
    {
      ViewOver(s, v, objects)
    }

    ghost predicate Moving()
      reads this, found
    {
      Valid() && AllEarly(found.met) && AllMoved(s, v, objects, moving, found.met)
    }

    /** Each object of a moved type taken by its entry. */
    method Moves()
      requires Valid() && objects == s.objects && moving == map[] && AllEarly(found.met)
      modifies this, found
      ensures Moving() && old(found.met) <= found.met
      ensures objects == MovedObjects(r, s, v, |v.migration.movedTypes|) && moving == MovingOf(s, objects)
      ensures AnyFatal(found.met) || AllTaken(s, v, moving, |v.migration.movedTypes|)
    {
      for i := 0 to |v.migration.movedTypes|
        invariant MovedSoFar(i) && old(found.met) <= found.met
      {
        MovesNext(i);
      }
      MovingIsMoved(s, v, objects, moving, found.met);
      RetirementsOf();
    }

    /** The moves as far as some of the types. */
    ghost predicate MovedSoFar(i: nat)
      requires i <= |v.migration.movedTypes|
      reads this, found
    {
      Moving() && objects == MovedObjects(r, s, v, i) && (AnyFatal(found.met) || AllTaken(s, v, moving, i))
    }

    method MovesNext(i: nat)
      requires i < |v.migration.movedTypes| && MovedSoFar(i)
      modifies this, found
      ensures MovedSoFar(i + 1) && old(found.met) <= found.met
    {
      ghost var was, met := moving, found.met;
      MovesAt(i);
      FatalMore(met, found.met);
      TakenNext(s, v, was, moving, i);
    }

    /** A moved type's entry: refused where the version still declares the type or it is observed, idle where the store
        holds no such type. */
    method MovesAt(i: nat)
      requires Moving() && i < |v.migration.movedTypes|
      modifies this, found
      ensures Moving() && old(found.met) <= found.met && old(moving).Keys <= moving.Keys
      ensures objects == if MovesType(s, v, v.migration.movedTypes[i].0) then MovedOfType(r, s, v, i, old(objects), |s.order|)
                         else old(objects)
      ensures AnyFatal(found.met) || (MovesType(s, v, v.migration.movedTypes[i].0) ==>
                TakenSoFar(s, v.migration.movedTypes[i].0, moving, |s.order|))
    {
      var (tn, entries) := v.migration.movedTypes[i];
      if tn in s.kinds && !s.kinds[tn].retired {
        if tn !in retired || s.kinds[tn].observation {
          Refuse(MovedType(tn), None);
        } else {
          MovesOf(i);
        }
      }
    }

    method Refuse(code: Code, id: Option<Id>)
      requires Moving() && Early(code)
      modifies found
      ensures Moving() && old(found.met) <= found.met && AnyFatal(found.met)
    {
      found.Add(Fatal, code, id);
      assert Met(Fatal, code, id) in found.met;
      MovedMore(s, v, objects, moving, old(found.met), found.met);
    }

    method Note(all: set<Met>)
      requires Moving() && AllEarly(all)
      modifies found
      ensures Moving() && found.met == old(found.met) + all
    {
      found.AddAll(all);
      MovedMore(s, v, objects, moving, old(found.met), found.met);
    }

    /** A type retired on purpose that the version still declares. */
    method RetirementsOf()
      requires Moving()
      modifies found
      ensures Moving() && old(found.met) <= found.met
    {
      found.AddAll(set tn | tn in v.migration.retiredTypes && tn in s.kinds && !s.kinds[tn].retired && tn !in retired ::
                     Met(Fatal, MovedType(tn), None));
      MovedMore(s, v, objects, moving, old(found.met), found.met);
    }

    method MovesOf(i: nat)
      requires Moving() && i < |v.migration.movedTypes| && v.migration.movedTypes[i].0 in retired
      modifies this, found
      ensures Moving() && old(found.met) <= found.met && old(moving).Keys <= moving.Keys
      ensures objects == MovedOfType(r, s, v, i, old(objects), |s.order|)
      ensures AnyFatal(found.met) || TakenSoFar(s, v.migration.movedTypes[i].0, moving, |s.order|)
    {
      ghost var was := objects;
      for k := 0 to |s.order|
        invariant Swept(i, was, k) && old(found.met) <= found.met && old(moving).Keys <= moving.Keys
      {
        Sweep(i, was, k);
      }
    }

    /** A type's moves as far as some of the objects. */
    ghost predicate Swept(i: nat, was: map<Id, Obj>, k: nat)
      requires i < |v.migration.movedTypes| && k <= |s.order|
      reads this, found
    {
      && Moving() && objects == MovedOfType(r, s, v, i, was, k)
      && (AnyFatal(found.met) || TakenSoFar(s, v.migration.movedTypes[i].0, moving, k))
    }

    method Sweep(i: nat, ghost was: map<Id, Obj>, k: nat)
      requires i < |v.migration.movedTypes| && k < |s.order| && Swept(i, was, k) && v.migration.movedTypes[i].0 in retired
      modifies this, found
      ensures Swept(i, was, k + 1) && old(found.met) <= found.met && old(moving).Keys <= moving.Keys
    {
      ghost var before, met := moving, found.met;
      MoveOne(i, s.order[k]);
      TakenFurther(s, v.migration.movedTypes[i].0, before, met, moving, found.met, k);
    }

    method MoveOne(i: nat, id: Id)
      requires Moving() && i < |v.migration.movedTypes| && v.migration.movedTypes[i].0 in retired && id in s.order
      modifies this, found
      ensures Moving() && old(found.met) <= found.met && old(moving).Keys <= moving.Keys
      ensures objects == MoveStep(r, s, v, i, old(objects), id)
      ensures OneTaken(s, v.migration.movedTypes[i].0, moving, found.met, id)
    {
      var (tn, entries) := v.migration.movedTypes[i];
      assert id in objects;
      if objects[id].tn != tn {
        NotOfType(s, v, objects, moving, found.met, id);
        MoveStays(r, s, v, i, objects, id);
        return;
      }
      TakeOne(i, id);
    }

    method TakeOne(i: nat, id: Id)
      requires Moving() && i < |v.migration.movedTypes| && v.migration.movedTypes[i].0 in retired
      requires id in objects && objects[id].tn == v.migration.movedTypes[i].0
      modifies this, found
      ensures Moving() && old(found.met) <= found.met && old(moving).Keys <= moving.Keys
      ensures objects == MoveStep(r, s, v, i, old(objects), id)
      ensures AnyFatal(found.met) || id in moving
    {
      var (tn, entries) := v.migration.movedTypes[i];
      var takes := Takes(r, Now(), id, entries);
      TakesAmong(r, Now(), id, entries);
      if |takes| != 1 || takes[0].to !in kinds || takes[0].to in retired {
        MoveStays(r, s, v, i, objects, id);
        Refuse(if |takes| > 1 then MovedTypeTwice(tn) else MovedType(tn), Some(id));
        return;
      }
      var state := StateAfter(takes[0], kinds[takes[0].to], objects[id].state);
      if state.None? {
        MoveStays(r, s, v, i, objects, id);
        Refuse(MovedState(tn, objects[id].state), Some(id));
      } else {
        TargetState(s, v, i, takes[0], objects[id].state, state.value);
        MoveEnters(r, s, v, i, objects, id, takes[0], state.value);
        Enter(takes[0], id, state.value);
      }
    }

    /** An object put into the simulation as its entry leaves it. */
    method Enter(e: Move, id: Id, state: string)
      requires Moving() && id in objects && objects[id].tn in retired && e.to in v.kinds
      requires TargetsDeclared(v, kinds) ==> e.to !in BUILT_IN && state in v.kinds[e.to].states
      modifies this, found
      ensures Moving() && old(found.met) <= found.met && moving == old(moving)[id := old(objects)[id].tn]
      ensures objects == old(objects)[id := EnteredBy(r, s, v, old(objects), id, e, state)]
    {
      var tn := objects[id].tn;
      Note(EntryMets(r, v.migration, Now(), id, KindOf(kinds, tn), v.kinds[e.to], e, tn));
      Entered(r, s, v, objects, moving, found.met, id, e, state);
      MoveIn(id, tn, EnteredBy(r, s, v, objects, id, e, state));
    }

    method MoveIn(id: Id, tn: string, o: Obj)
      requires Valid() && AllEarly(found.met) && AllMoved(s, v, objects[id := o], moving[id := tn], found.met)
      modifies this`objects, this`moving
      ensures Moving() && objects == old(objects)[id := o] && moving == old(moving)[id := tn]
    {
      objects, moving := objects[id := o], moving[id := tn];
    }

    // mappings

    ghost predicate Applying(done: set<Id>)
      reads this, found
    {
      Valid() && AllEarly(found.met) && AllApplied(s, v, objects, moving, found.met, done)
    }

    method Tell(all: set<Met>, ghost done: set<Id>)
      requires Applying(done) && AllEarly(all)
      modifies found
      ensures Applying(done) && found.met == old(found.met) + all
    {
      found.AddAll(all);
      AppliedMore(s, v, objects, moving, old(found.met), done, found.met);
    }

    /** Renames, removed members and removed states, over every object. */
    method Apply()
      requires Moving()
      modifies this`objects, found
      ensures Applying(s.objects.Keys) && old(found.met) <= found.met
      ensures objects == AppliedAll(s, v, old(objects), moving)
    {
      ghost var done: set<Id>, was := {}, objects;
      for k := 0 to |s.order|
        invariant AppliedTill(was, k, done) && old(found.met) <= found.met
      {
        ApplyNext(was, k, done);
        done := done + {s.order[k]};
      }
      AppliedFully(was, done);
    }

    lemma AppliedFully(was: map<Id, Obj>, done: set<Id>)
      requires AppliedTill(was, |s.order|, done)
      ensures Applying(s.objects.Keys) && objects == AppliedAll(s, v, was, moving)
    {
      assert s.order[..|s.order|] == s.order;
      assert done == s.objects.Keys;
      AppliedWhole(s, v, was, objects, moving, done);
    }

    /** The mappings over some of the objects. */
    ghost predicate AppliedTill(was: map<Id, Obj>, k: nat, done: set<Id>)
      requires k <= |s.order|
      reads this, found
    {
      Applying(done) && (forall id :: id in done <==> id in s.order[..k]) && AppliedSoFar(s, v, was, objects, moving, done)
    }

    method ApplyNext(ghost was: map<Id, Obj>, k: nat, ghost done: set<Id>)
      requires k < |s.order| && AppliedTill(was, k, done)
      modifies this`objects, found
      ensures AppliedTill(was, k + 1, done + {s.order[k]}) && old(found.met) <= found.met
    {
      var id := s.order[k];
      assert id in s.objects;
      assert s.order[..k + 1] == s.order[..k] + [id];
      ghost var before := objects;
      ApplyOne(id, done);
      AppliedFurther(s, v, was, before, moving, done, id);
    }

    method ApplyOne(id: Id, ghost done: set<Id>)
      requires Applying(done) && id in s.objects && id !in done
      modifies this`objects, found
      ensures Applying(done + {id}) && old(found.met) <= found.met
      ensures objects == old(objects)[id := AppliedTo(s, v, old(objects)[id], id in moving)]
    {
      var before := objects[id];
      if !Reached(kinds, retired, before) {
        SkippedSettles(id, done);
        return;
      }
      var o := CarryOne(before, id, done);
      AppliedOne(s, v, objects, moving, found.met, done, id, o);
      objects := objects[id := o];
    }

    /** An object carried under its new names, and, where it is not an observation, replaced. */
    method CarryOne(before: Obj, id: Id, ghost done: set<Id>) returns (o: Obj)
      requires Applying(done) && id in s.objects && id !in done && objects[id] == before && Reached(kinds, retired, before)
      modifies found
      ensures Applying(done) && old(found.met) <= found.met
      ensures Settled(s, v, s.objects[id], o, From(moving, id), found.met, id) && o == AppliedTo(s, v, before, id in moving)
    {
      var carried := Carried(v.migration, kinds, KindOf(s.kinds, before.tn), before, id in moving);
      AppliedIs(s, v, before, id in moving);
      if carried.tn in v.observations {
        CarriedSettles(s, v, objects, moving, found.met, done, id);
        o := carried;
      } else {
        o := ReplaceRemoved(before, carried, id, done);
      }
    }

    /** Removed members and a removed state replaced. */
    method ReplaceRemoved(before: Obj, carried: Obj, id: Id, ghost done: set<Id>) returns (o: Obj)
      requires Applying(done) && id in s.objects && id !in done && objects[id] == before && Reached(kinds, retired, before)
      requires carried == Carried(v.migration, kinds, KindOf(s.kinds, before.tn), before, id in moving)
      modifies found
      ensures Applying(done) && old(found.met) <= found.met
      ensures Settled(s, v, s.objects[id], o, From(moving, id), found.met, id)
      ensures o == carried.(attrs := WithoutMembers(kinds[carried.tn], v.migration.removedMembers, carried.attrs),
                            state := StateGiven(s, v, carried.tn, carried.state, id in moving))
    {
      o := RemoveMembers(carried, id, done);
      o := RemoveState(carried, o, id, done);
      PassedSettles(s, v, before, carried, o, From(moving, id), found.met, id);
    }

    lemma SkippedSettles(id: Id, done: set<Id>)
      requires Applying(done) && id in s.objects && id !in done && !Reached(kinds, retired, objects[id])
      ensures Applying(done + {id})
    {
      var o := objects[id];
      if id in moving {
        var m :| m in found.met && m.code == MappingMove(moving[id], o.tn) && m.id == Some(id);
        assert Mapped(found.met, id);
      }
      AppliedOne(s, v, objects, moving, found.met, done, id, o);
      assert objects[id := o] == objects;
    }

    method RemoveMembers(carried: Obj, id: Id, ghost done: set<Id>) returns (o: Obj)
      requires Applying(done) && carried.tn in kinds
      modifies found
      ensures Applying(done) && old(found.met) <= found.met && Passing(carried, o, found.met, id)
      ensures o == carried.(attrs := WithoutMembers(kinds[carried.tn], v.migration.removedMembers, carried.attrs))
    {
      o := carried;
      var entries := v.migration.removedMembers;
      for i := 0 to |entries|
        invariant Applying(done) && old(found.met) <= found.met && Passing(carried, o, found.met, id)
        invariant o == Without(kinds[carried.tn], entries, i, carried)
      {
        WithoutNext(kinds[carried.tn], entries, i, carried);
        o := RemoveMember(carried, o, entries[i], id, done);
      }
      assert entries[..|entries|] == entries;
    }

    method RemoveMember(carried: Obj, passing: Obj, entry: (string, string, string), id: Id, ghost done: set<Id>)
      returns (o: Obj)
      requires Applying(done) && carried.tn in kinds && Passing(carried, passing, found.met, id)
      modifies found
      ensures Applying(done) && old(found.met) <= found.met && Passing(carried, o, found.met, id)
      ensures o == if TakesMember(kinds[carried.tn], entry, passing.attrs)
                   then passing.(attrs := MemberReplaced(kinds[carried.tn], entry, passing.attrs)) else passing
    {
      if !TakesMember(kinds[carried.tn], entry, passing.attrs) {
        return passing;
      }
      var m := Met(Notice, MappingMember(entry.0, entry.1), Some(id));
      Tell({m}, done);
      assert m in found.met;
      o := passing.(attrs := MemberReplaced(kinds[carried.tn], entry, passing.attrs));
      PassingWritten(carried, passing, o, old(found.met), found.met, id, m);
    }

    method RemoveState(carried: Obj, passing: Obj, id: Id, ghost done: set<Id>) returns (o: Obj)
      requires Applying(done) && carried.tn in v.kinds && Passing(carried, passing, found.met, id)
      modifies found
      ensures Applying(done) && old(found.met) <= found.met
      ensures StateMoved(s, v, carried, o, id in moving, found.met, id)
      ensures o == passing.(state := StateGiven(s, v, carried.tn, carried.state, id in moving))
    {
      o := passing.(state := StateGiven(s, v, carried.tn, carried.state, id in moving));
      var was := KindOf(s.kinds, carried.tn);
      if id !in moving && carried.state in was.states && carried.state !in kinds[carried.tn].states {
        var to := StateTarget(kinds, carried.tn, v.migration.removedStates, carried.state);
        var m := Met(if to.Some? then Notice else Fatal,
                     if to.Some? then MappingState(o.tn, carried.state) else RemovedState(o.tn, carried.state), Some(id));
        Tell({m}, done);
        assert m in found.met;
        StateReplaced(s, v, carried, passing, o, old(found.met), found.met, id, m);
      }
    }

    /** Backfills, in the order written, each run once on a store. */
    method Backfills()
      requires Applying(s.objects.Keys)
      modifies this`objects, found
      ensures Applying(s.objects.Keys) && old(found.met) <= found.met
      ensures objects == AllWritten(r, s, v, true, v.migration.backfill, s.ran.backfill, old(objects))
    {
      ghost var was := objects;
      for i := 0 to |v.migration.backfill|
        invariant Applying(s.objects.Keys) && old(found.met) <= found.met
        invariant objects == AllWritten(r, s, v, true, v.migration.backfill[..i], s.ran.backfill, was)
      {
        BackfillNext(was, i);
      }
      assert v.migration.backfill[..|v.migration.backfill|] == v.migration.backfill;
    }

    method BackfillNext(ghost was: map<Id, Obj>, i: nat)
      requires Applying(s.objects.Keys) && i < |v.migration.backfill|
      requires objects == AllWritten(r, s, v, true, v.migration.backfill[..i], s.ran.backfill, was)
      modifies this`objects, found
      ensures Applying(s.objects.Keys) && old(found.met) <= found.met
      ensures objects == AllWritten(r, s, v, true, v.migration.backfill[..i + 1], s.ran.backfill, was)
    {
      assert v.migration.backfill[..i + 1][..i] == v.migration.backfill[..i];
      if v.migration.backfill[i] !in s.ran.backfill {
        BackfillAll(v.migration.backfill[i]);
      }
    }

    method BackfillAll(w: Written)
      requires Applying(s.objects.Keys)
      modifies this`objects, found
      ensures Applying(s.objects.Keys) && old(found.met) <= found.met
      ensures objects == WrittenOver(r, s, v, true, w, old(objects), |s.order|)
    {
      for k := 0 to |s.order|
        invariant Applying(s.objects.Keys) && old(found.met) <= found.met
        invariant objects == WrittenOver(r, s, v, true, w, old(objects), k)
      {
        BackfillOne(w, s.order[k]);
      }
    }

    method BackfillOne(w: Written, id: Id)
      requires Applying(s.objects.Keys) && id in s.order
      modifies this`objects, found
      ensures Applying(s.objects.Keys) && old(found.met) <= found.met
      ensures objects == FillStep(r, s, v, w, old(objects), id)
    {
      assert id in s.objects;
      if !Writes(s, v, w, objects[id]) || Personal(s, v, w, objects[id]) {
        FillStays(r, s, v, w, objects, id);
        return;
      }
      var fitted := Fitted(r, s, v, w, objects, id);
      if fitted.Err? {
        FillStays(r, s, v, w, objects, id);
        Tell({Met(Fatal, MappingBackfill(w.tn, w.attr), Some(id))}, s.objects.Keys);
      } else if Get(objects[id].attrs, w.attr) == fitted.value {
        FillStays(r, s, v, w, objects, id);
      } else {
        FillWrites(r, s, v, w, objects, id, fitted.value);
        Fill(w, id, fitted.value);
      }
    }

    /** A backfill's value written, a rewrite named apart from a fill. */
    method Fill(w: Written, id: Id, value: Option<Val>)
      requires Applying(s.objects.Keys) && id in s.objects && Reached(kinds, retired, objects[id])
      modifies this`objects, found
      ensures Applying(s.objects.Keys) && old(found.met) <= found.met
      ensures objects == old(objects)[id := old(objects)[id].(attrs := Put(old(objects)[id].attrs, w.attr, value))]
    {
      var attrs := objects[id].attrs;
      Write(id, MappingBackfill(w.tn, w.attr), FillMets(w, id, w.attr in attrs), Put(attrs, w.attr, value));
    }

    /** An object's attributes as a mapping that names it writes them. */
    method Write(id: Id, ghost code: Code, all: set<Met>, attrs: map<string, Val>)
      requires Applying(s.objects.Keys) && id in s.objects && IsMapping(code) && Reached(kinds, retired, objects[id])
      requires AllEarly(all) && Met(Notice, code, Some(id)) in all
      modifies this`objects, found
      ensures Applying(s.objects.Keys) && old(found.met) <= found.met
      ensures objects == old(objects)[id := old(objects)[id].(attrs := attrs)]
    {
      Tell(all, s.objects.Keys);
      assert Met(Notice, code, Some(id)) in found.met;
      Replace(id, attrs);
    }

    method Replace(id: Id, attrs: map<string, Val>)
      requires Applying(s.objects.Keys) && id in s.objects && Reached(kinds, retired, objects[id]) && Mapped(found.met, id)
      modifies this`objects
      ensures Applying(s.objects.Keys) && objects == old(objects)[id := old(objects)[id].(attrs := attrs)]
    {
      var o := objects[id].(attrs := attrs);
      WrittenSettles(s, v, objects, moving, found.met, id, o);
      objects := objects[id := o];
    }

    /** Clears, in the order written, each run once on a store. */
    method Clears()
      requires Applying(s.objects.Keys)
      modifies this`objects, found
      ensures Applying(s.objects.Keys) && old(found.met) <= found.met
      ensures objects == AllWritten(r, s, v, false, v.migration.clear, s.ran.clear, old(objects))
    {
      ghost var was := objects;
      for i := 0 to |v.migration.clear|
        invariant Applying(s.objects.Keys) && old(found.met) <= found.met
        invariant objects == AllWritten(r, s, v, false, v.migration.clear[..i], s.ran.clear, was)
      {
        ClearNext(was, i);
      }
      assert v.migration.clear[..|v.migration.clear|] == v.migration.clear;
    }

    method ClearNext(ghost was: map<Id, Obj>, i: nat)
      requires Applying(s.objects.Keys) && i < |v.migration.clear|
      requires objects == AllWritten(r, s, v, false, v.migration.clear[..i], s.ran.clear, was)
      modifies this`objects, found
      ensures Applying(s.objects.Keys) && old(found.met) <= found.met
      ensures objects == AllWritten(r, s, v, false, v.migration.clear[..i + 1], s.ran.clear, was)
    {
      assert v.migration.clear[..i + 1][..i] == v.migration.clear[..i];
      if v.migration.clear[i] !in s.ran.clear {
        ClearAll(v.migration.clear[i]);
      }
    }

    method ClearAll(w: Written)
      requires Applying(s.objects.Keys)
      modifies this`objects, found
      ensures Applying(s.objects.Keys) && old(found.met) <= found.met
      ensures objects == WrittenOver(r, s, v, false, w, old(objects), |s.order|)
    {
      for k := 0 to |s.order|
        invariant Applying(s.objects.Keys) && old(found.met) <= found.met
        invariant objects == WrittenOver(r, s, v, false, w, old(objects), k)
      {
        ClearOne(w, s.order[k]);
      }
    }

    method ClearOne(w: Written, id: Id)
      requires Applying(s.objects.Keys) && id in s.order
      modifies this`objects, found
      ensures Applying(s.objects.Keys) && old(found.met) <= found.met
      ensures objects == ClearStep(r, s, v, w, old(objects), id)
    {
      assert id in s.objects;
      if Writes(s, v, w, objects[id]) && w.attr in objects[id].attrs && r.holds(Now(), id, w.formula) {
        var code := MappingClear(w.tn, w.attr);
        Write(id, code, {Met(Notice, code, Some(id))}, objects[id].attrs - {w.attr});
      }
    }
  }

  lemma MappedMore(met: set<Met>, more: set<Met>, id: Id)
    requires met <= more
    ensures Mapped(met, id) ==> Mapped(more, id)
  {
  }
}
