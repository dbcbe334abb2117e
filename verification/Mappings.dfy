/** What the mappings make of a store's objects, as functions of it: each object moved, carried under its new names, its
    removed members and states replaced, filled and cleared, in that order (scripts/flowpublish.py, `moves`, `impact`). */
module Mappings {
  import opened Wrappers
  import opened Reports
  import opened Versions
  import opened Impact

  type Objects = map<Id, Obj>

  function ViewOver(s: Stored, v: Version, objects: Objects): View {
    View(Kept(s.kinds, v.kinds), v.enums, s.version + 1, s.now, objects)
  }

  /** Whether an entry of the migration has a type's objects to move. */
  predicate MovesType(s: Stored, v: Version, tn: string) {
    tn in s.kinds && !s.kinds[tn].retired && tn in Retired(s.kinds, v.kinds) && !s.kinds[tn].observation
  }

  /** An object of a moved type, where one entry takes it and can. */
  function MoveStep(r: Runner, s: Stored, v: Version, i: nat, objects: Objects, id: Id): Objects
    requires i < |v.migration.movedTypes|
  {
    var (tn, entries) := v.migration.movedTypes[i];
    if id !in objects || objects[id].tn != tn then objects
    else
      var view := ViewOver(s, v, objects);
      var takes := Takes(r, view, id, entries);
      if |takes| != 1 || takes[0].to !in v.kinds then objects
      else
        var e, now := takes[0], v.kinds[takes[0].to];
        var state := StateAfter(e, now, objects[id].state);
        if state.None? then objects
        else objects[id := MovedBy(r, v.migration, view, id, KindOf(view.kinds, tn), now, e, state.value)]
  }

  function MovedOfType(r: Runner, s: Stored, v: Version, i: nat, objects: Objects, k: nat): Objects
    requires i < |v.migration.movedTypes| && k <= |s.order|
  {
    if k == 0 then objects else MoveStep(r, s, v, i, MovedOfType(r, s, v, i, objects, k - 1), s.order[k - 1])
  }

  /** The objects after the moves of some of the types. */
  function MovedObjects(r: Runner, s: Stored, v: Version, n: nat): Objects
    requires n <= |v.migration.movedTypes|
  {
    if n == 0 then s.objects
    else
      var before := MovedObjects(r, s, v, n - 1);
      if MovesType(s, v, v.migration.movedTypes[n - 1].0) then MovedOfType(r, s, v, n - 1, before, |s.order|) else before
  }

  /** Each object that moved, with the type it left. */
  function MovingOf(s: Stored, objects: Objects): map<Id, string> {
    map id | id in objects && id in s.objects && objects[id].tn != s.objects[id].tn :: s.objects[id].tn
  }

  /** A type's attributes once each removed member's mapping has been over them, in the order written. */
  function WithoutMembers(k: Kind, entries: seq<(string, string, string)>, attrs: map<string, Val>): map<string, Val> {
    if entries == [] then attrs
    else
      var some := WithoutMembers(k, entries[..|entries| - 1], attrs);
      var last := entries[|entries| - 1];
      if TakesMember(k, last, some) then MemberReplaced(k, last, some) else some
  }

  /** The state a removed one's mapping gives; its own where none does, or none is wanted. */
  function StateGiven(s: Stored, v: Version, tn: string, state: string, moved: bool): string {
    if moved || state !in KindOf(s.kinds, tn).states || state in KindOf(v.kinds, tn).states then state
    else
      var to := StateTarget(Kept(s.kinds, v.kinds), tn, v.migration.removedStates, state);
      if to.Some? then to.value else state
  }

  /** An object carried under its new names, its removed members and state replaced. */
  function AppliedTo(s: Stored, v: Version, o: Obj, moved: bool): Obj {
    var kinds := Kept(s.kinds, v.kinds);
    if !Reached(kinds, Retired(s.kinds, v.kinds), o) then o
    else
      var carried := Carried(v.migration, kinds, KindOf(s.kinds, o.tn), o, moved);
      if o.tn in v.observations then carried
      else
        carried.(attrs := WithoutMembers(kinds[o.tn], v.migration.removedMembers, carried.attrs),
                 state := StateGiven(s, v, o.tn, o.state, moved))
  }

  function AppliedAll(s: Stored, v: Version, objects: Objects, moving: map<Id, string>): Objects {
    map id | id in objects :: AppliedTo(s, v, objects[id], id in moving)
  }

  /** Whether a backfill or a clear is over an object. */
  predicate Writes(s: Stored, v: Version, w: Written, o: Obj) {
    Reached(Kept(s.kinds, v.kinds), Retired(s.kinds, v.kinds), o) && o.tn !in v.observations
    && IsA(Kept(s.kinds, v.kinds), o.tn, w.tn)
  }

  predicate Personal(s: Stored, v: Version, w: Written, o: Obj) {
    var declared := KindOf(Kept(s.kinds, v.kinds), o.tn).attributes;
    o.erased && w.attr in declared && declared[w.attr].personal
  }

  /** What a backfill writes, as its attribute holds it. */
  function Fitted(r: Runner, s: Stored, v: Version, w: Written, objects: Objects, id: Id): Result<Option<Val>, string>
    requires id in objects
  {
    var declared := KindOf(Kept(s.kinds, v.kinds), objects[id].tn).attributes;
    var value := r.value(ViewOver(s, v, objects), id, w.formula);
    if w.attr in declared then r.fit(declared[w.attr], value, w.formula) else Ok(value)
  }

  function Put(attrs: map<string, Val>, a: string, value: Option<Val>): map<string, Val> {
    if value.Some? then attrs[a := value.value] else attrs - {a}
  }

  function FillStep(r: Runner, s: Stored, v: Version, w: Written, objects: Objects, id: Id): Objects {
    if id !in objects || !Writes(s, v, w, objects[id]) || Personal(s, v, w, objects[id]) then objects
    else
      var fitted := Fitted(r, s, v, w, objects, id);
      if fitted.Err? || Get(objects[id].attrs, w.attr) == fitted.value then objects
      else objects[id := objects[id].(attrs := Put(objects[id].attrs, w.attr, fitted.value))]
  }

  function ClearStep(r: Runner, s: Stored, v: Version, w: Written, objects: Objects, id: Id): Objects {
    if id !in objects || !Writes(s, v, w, objects[id]) || w.attr !in objects[id].attrs
       || !r.holds(ViewOver(s, v, objects), id, w.formula)
    then objects
    else objects[id := objects[id].(attrs := objects[id].attrs - {w.attr})]
  }

  /** One backfill, or one clear, over the objects in the order they were created. */
  function WrittenOver(r: Runner, s: Stored, v: Version, fill: bool, w: Written, objects: Objects, k: nat): Objects
    requires k <= |s.order|
  {
    if k == 0 then objects
    else
      var before := WrittenOver(r, s, v, fill, w, objects, k - 1);
      if fill then FillStep(r, s, v, w, before, s.order[k - 1]) else ClearStep(r, s, v, w, before, s.order[k - 1])
  }

  /** Backfills, or clears, in the order written, but those the installed version ran. */
  function AllWritten(r: Runner, s: Stored, v: Version, fill: bool, writes: seq<Written>, ran: seq<Written>,
                      objects: Objects): Objects
  {
    if writes == [] then objects
    else
      var before := AllWritten(r, s, v, fill, writes[..|writes| - 1], ran, objects);
      var w := writes[|writes| - 1];
      if w in ran then before else WrittenOver(r, s, v, fill, w, before, |s.order|)
  }

  /** The store's objects as all the mappings leave them. */
  function Simulated(r: Runner, s: Stored, v: Version): Objects {
    var moved := MovedObjects(r, s, v, |v.migration.movedTypes|);
    var applied := AppliedAll(s, v, moved, MovingOf(s, moved));
    var filled := AllWritten(r, s, v, true, v.migration.backfill, s.ran.backfill, applied);
    AllWritten(r, s, v, false, v.migration.clear, s.ran.clear, filled)
  }

  // single steps

  lemma MoveStays(r: Runner, s: Stored, v: Version, i: nat, objects: Objects, id: Id)
    requires i < |v.migration.movedTypes| && id in objects
    requires var (tn, entries) := v.migration.movedTypes[i];
             var takes := Takes(r, ViewOver(s, v, objects), id, entries);
             objects[id].tn != tn || |takes| != 1 || takes[0].to !in v.kinds
             || StateAfter(takes[0], v.kinds[takes[0].to], objects[id].state).None?
    ensures MoveStep(r, s, v, i, objects, id) == objects
  {
  }

  /** An object as its entry leaves it. */
  function EnteredBy(r: Runner, s: Stored, v: Version, objects: Objects, id: Id, e: Move, state: string): Obj
    requires id in objects && e.to in v.kinds
  {
    MovedBy(r, v.migration, ViewOver(s, v, objects), id, KindOf(Kept(s.kinds, v.kinds), objects[id].tn), v.kinds[e.to], e, state)
  }

  lemma MoveEnters(r: Runner, s: Stored, v: Version, i: nat, objects: Objects, id: Id, e: Move, state: string)
    requires i < |v.migration.movedTypes| && id in objects && objects[id].tn == v.migration.movedTypes[i].0
    requires Takes(r, ViewOver(s, v, objects), id, v.migration.movedTypes[i].1) == [e] && e.to in v.kinds
    requires StateAfter(e, v.kinds[e.to], objects[id].state) == Some(state)
    ensures MoveStep(r, s, v, i, objects, id) == objects[id := EnteredBy(r, s, v, objects, id, e, state)]
  {
  }

  lemma AppliedIs(s: Stored, v: Version, o: Obj, moved: bool)
    requires Reached(Kept(s.kinds, v.kinds), Retired(s.kinds, v.kinds), o)
    ensures var carried := Carried(v.migration, Kept(s.kinds, v.kinds), KindOf(s.kinds, o.tn), o, moved);
            AppliedTo(s, v, o, moved) ==
            if o.tn in v.observations then carried
            else carried.(attrs := WithoutMembers(Kept(s.kinds, v.kinds)[o.tn], v.migration.removedMembers, carried.attrs),
                          state := StateGiven(s, v, o.tn, carried.state, moved))
  {
  }

  lemma FillStays(r: Runner, s: Stored, v: Version, w: Written, objects: Objects, id: Id)
    requires id in objects
    requires !Writes(s, v, w, objects[id]) || Personal(s, v, w, objects[id]) || Fitted(r, s, v, w, objects, id).Err?
             || Get(objects[id].attrs, w.attr) == Fitted(r, s, v, w, objects, id).value
    ensures FillStep(r, s, v, w, objects, id) == objects
  {
  }

  lemma FillWrites(r: Runner, s: Stored, v: Version, w: Written, objects: Objects, id: Id, value: Option<Val>)
    requires id in objects && Writes(s, v, w, objects[id]) && !Personal(s, v, w, objects[id])
    requires Fitted(r, s, v, w, objects, id) == Ok(value) && Get(objects[id].attrs, w.attr) != value
    ensures FillStep(r, s, v, w, objects, id) ==
            objects[id := objects[id].(attrs := Put(objects[id].attrs, w.attr, value))]
  {
  }
}
