/** The dry run's second and third steps: every object as the mappings leave it, judged under the new version
    (scripts/flowpublish.py, `impact`). */
module Impact {
  import opened Wrappers
  import opened Reports
  import opened Versions

  /** What an expression is read over. */
  datatype View = View(kinds: Kinds, enums: map<string, seq<string>>, version: nat, now: int, objects: map<Id, Obj>)

  /** The store as a dry run finds it; `order` is the order its objects were created in, `ran` the installed version's
      migration, and `open` the other changes still open. */
  datatype Stored = Stored(kinds: Kinds, enums: map<string, seq<string>>, version: nat, now: int,
                           objects: map<Id, Obj>, order: seq<Id>, proposals: map<Id, Proposal>, ran: Migration,
                           open: set<Id>)

  /** What the runner and the checker answer, whatever it is: an expression's truth and value over a view, the value an
      attribute holds of one and whether it can, the members an expression reads, the invariants an object fails, the live
      parts a composite has, whether a proposal's input is a file no longer taken, and the rest of the report. */
  datatype Runner = Runner(
    holds: (View, Id, Formula) -> bool,
    value: (View, Id, Formula) -> Option<Val>,
    fit: (Attribute, Option<Val>, Formula) -> Result<Option<Val>, string>,
    mentions: Formula -> set<string>,
    failing: (View, Id) -> set<string>,
    parts: (View, Id, string) -> set<Id>,
    media: (Kind, Proposal) -> bool,
    noted: (Stored, Version) -> set<(bool, string, Option<Id>)>)

  predicate Reached(kinds: Kinds, retired: set<string>, o: Obj) {
    o.tn !in BUILT_IN && o.tn !in retired && o.tn in kinds
  }

  function Get(attrs: map<string, Val>, a: string): Option<Val> {
    if a in attrs then Some(attrs[a]) else None
  }

  // moves

  /** What an entry's expression reads that the type it leaves lacks. */
  function Lacked(r: Runner, was: Kind, f: Formula): set<string> {
    r.mentions(f) - (was.attributes.Keys + was.derived + {"state", "this"})
  }

  function GivenAttribute(r: Runner, m: Migration, view: View, id: Id, was: Kind, now: Kind, e: Move, a: string):
    Result<Option<Val>, string>
    requires id in view.objects && a in now.attributes
  {
    var o, spec := view.objects[id], now.attributes[a];
    if DerivedEnd(spec) || (o.erased && spec.personal) then Ok(None)
    else if a in e.given && Lacked(r, was, e.given[a]) == {} then
      var v := r.value(view, id, e.given[a]);
      r.fit(spec, if v.Some? then Some(RenamedMember(m, v.value)) else None, e.given[a])
    else if a in was.attributes && (SameDeclared(was.attributes[a], spec) || Carries(m, was.attributes[a], spec)) then
      Ok(Get(o.attrs, a))
    else Ok(None)
  }

  function StateAfter(e: Move, now: Kind, state: string): Option<string> {
    if state in e.states then Some(e.states[state])
    else if state in now.states then Some(state)
    else None
  }

  /** An object as its entry leaves it, in the state mapped. */
  function MovedBy(r: Runner, m: Migration, view: View, id: Id, was: Kind, now: Kind, e: Move, state: string): Obj
    requires id in view.objects
  {
    var given := map a | a in now.attributes :: GivenAttribute(r, m, view, id, was, now, e, a);
    view.objects[id].(tn := e.to, state := state,
                      attrs := map a | a in given && given[a].Ok? && given[a].value.Some? :: given[a].value.value)
  }

  function Unfit(r: Runner, m: Migration, view: View, id: Id, was: Kind, now: Kind, e: Move, tn: string): set<Met>
    requires id in view.objects
  {
    set a | a in now.attributes.Keys && GivenAttribute(r, m, view, id, was, now, e, a).Err? ::
      Met(Fatal, MappingMoveAttribute(tn, e.to, a), Some(id))
  }

  function Takes(r: Runner, view: View, id: Id, entries: seq<Move>): seq<Move> {
    if entries == [] then []
    else
      (if entries[0].where.None? || r.holds(view, id, entries[0].where.value) then [entries[0]] else [])
      + Takes(r, view, id, entries[1..])
  }

  // judgements, each on the objects as the mappings left them

  /** The objects a reference's value names. */
  function Referents(v: Option<Val>): seq<Id> {
    match v
    case Some(Ref(id)) => [id]
    case Some(Many(items)) => AllReferents(items)
    case _ => []
  }

  function AllReferents(vs: seq<Val>): seq<Id> {
    if vs == [] then []
    else (if vs[0].Ref? then [vs[0].id] else []) + AllReferents(vs[1..])
  }

  /** The first object a reference cannot hold, of those to be judged. */
  function Misfit(kinds: Kinds, objects: map<Id, Obj>, moving: map<Id, string>, written: bool, target: string,
                  ids: seq<Id>): (r: Option<Id>)
    ensures r.None? <==> forall x | x in ids && (written || x in moving) && x in objects :: IsA(kinds, objects[x].tn, target)
  {
    if ids == [] then None
    else if (written || ids[0] in moving) && ids[0] in objects && !IsA(kinds, objects[ids[0]].tn, target) then Some(ids[0])
    else Misfit(kinds, objects, moving, written, target, ids[1..])
  }

  /** Whether a mapping wrote an attribute. */
  predicate WrittenBy(was: Obj, o: Obj, a: string) {
    was.tn != o.tn || Get(was.attrs, a) != Get(o.attrs, a)
  }

  function MisfitOf(kinds: Kinds, was: map<Id, Obj>, objects: map<Id, Obj>, moving: map<Id, string>, id: Id, a: string):
    Option<Id>
    requires id in was && id in objects && objects[id].tn in kinds && a in kinds[objects[id].tn].attributes
  {
    var o := objects[id];
    var spec := kinds[o.tn].attributes[a];
    if !spec.reference || DerivedEnd(spec) then None
    else Misfit(kinds, objects, moving, WrittenBy(was[id], o, a), spec.holds, Referents(Get(o.attrs, a)))
  }

  function MisfitMets(kinds: Kinds, was: map<Id, Obj>, objects: map<Id, Obj>, moving: map<Id, string>, id: Id): set<Met>
    requires id in was && id in objects && objects[id].tn in kinds
  {
    var o := objects[id];
    set a | a in kinds[o.tn].attributes.Keys && MisfitOf(kinds, was, objects, moving, id, a).Some? ::
      Met(Fatal, if MisfitOf(kinds, was, objects, moving, id, a).value in moving then MovedReference(o.tn, a)
                 else MappingReference(o.tn, a), Some(id))
  }

  /** The enumerations' members the version removes, each by its enumeration's new name. */
  function RemovedMembers(m: Migration, before: map<string, seq<string>>, after: map<string, seq<string>>):
    set<(string, string)>
  {
    set e, i | e in before.Keys && 0 <= i < |before[e]|
               && !(NewName(m, e) in after && before[e][i] in after[NewName(m, e)]) :: (NewName(m, e), before[e][i])
  }

  function RemovedMets(k: Kind, removed: set<(string, string)>, id: Id, o: Obj): set<Met> {
    set a, p | a in k.attributes.Keys && p in removed && a in o.attrs && Holds(o.attrs[a], Member(p.0, p.1)) ::
      Met(Fatal, RemovedMember(p.0, p.1), Some(id))
  }

  function AbsentMets(kinds: Kinds, k: Kind, id: Id, o: Obj): set<Met> {
    set a | a in k.attributes.Keys && Required(kinds, k.attributes[a]) && a !in o.attrs ::
      Met(Fatal, RequiredAbsent(o.tn, a), Some(id))
  }

  function StateMets(k: Kind, id: Id, o: Obj): set<Met> {
    if !k.mirror && o.state in k.states && !Reachable(k, o.state) then {Met(Fatal, UnreachableState(o.tn, o.state), Some(id))}
    else {}
  }

  predicate Final(kinds: Kinds, o: Obj) {
    o.tn in kinds && o.state in kinds[o.tn].states && kinds[o.tn].states[o.state].final
  }

  function StrandedMets(r: Runner, view: View, k: Kind, was: Obj, id: Id, o: Obj): set<Met> {
    set a | a in k.attributes.Keys && k.attributes[a].composite && was.state != o.state && Final(view.kinds, o)
            && (exists p :: p in r.parts(view, id, a) && p in view.objects && !Final(view.kinds, view.objects[p])) ::
      Met(Fatal, Stranded(o.tn, a), Some(id))
  }

  /** A standing admission that the version cures, or that a move leaves behind. */
  function DischargeMets(failing: set<string>, moving: map<Id, string>, id: Id, o: Obj): set<Met> {
    if id in moving then set n | n in o.admissions :: Met(Notice, Discharged(moving[id], n), Some(id))
    else set n | n in o.admissions && n !in failing :: Met(Notice, Discharged(o.tn, n), Some(id))
  }

  predicate Stands(moving: map<Id, string>, id: Id, o: Obj, n: string) {
    n in o.admissions && id !in moving
  }

  /** A violation no standing admission covers: a decision, or, of an observation, a notice. */
  function ViolationMets(v: Version, kinds: Kinds, failing: set<string>, moving: map<Id, string>, id: Id, o: Obj): set<Met> {
    if o.tn in v.observations then
      set n | n in failing && !Stands(moving, id, o, n) :: Met(Notice, ObservationInvariant(o.tn, n), Some(id))
    else
      (set n | n in failing && !Stands(moving, id, o, n) :: Met(Decision, Invariant(o.tn, n), Some(id)))
      + (set n | n in failing && !Stands(moving, id, o, n) && Admitted(v, o.tn, n) && Final(kinds, o) ::
           Met(Notice, AdmitFinal(o.tn, n), Some(id)))
  }

  // the rest of the report

  predicate Breaks(r: Runner, kinds: Kinds, p: Proposal) {
    var t := KindOf(kinds, p.tn);
    || p.transition !in t.transitions
    || !t.transitions[p.transition].proposable
    || (exists k :: k in p.inputs && k !in t.transitions[p.transition].takes)
    || r.media(t, p)
  }

  function ProposalMets(r: Runner, s: Stored, kinds: Kinds): set<Met> {
    set p | p in s.proposals.Keys && s.proposals[p].pending && Breaks(r, kinds, s.proposals[p]) ::
      Met(Notice, ProposalsInvalidated, Some(p))
  }

  function SupersededMets(s: Stored): set<Met> {
    set c | c in s.open :: Met(Notice, Superseded, Some(c))
  }

  /** An attribute whose type the version changes, with the objects holding a value it sets aside. */
  function TypeChangedMets(s: Stored, v: Version, kinds: Kinds, retired: set<string>): set<Met> {
    set id, a | id in s.objects.Keys && s.objects[id].tn in s.kinds && Reached(kinds, retired, s.objects[id])
                && a in TypeChangedOf(v.migration, s.kinds[s.objects[id].tn], kinds[s.objects[id].tn])
                && a in s.objects[id].attrs ::
      Met(Notice, TypeChanged(s.objects[id].tn, a), Some(id))
  }

  /** A type the version removes and neither moves nor retires, while it holds an object not in a final state. */
  function RemovedTypeMets(s: Stored, m: Migration, retired: set<string>): set<Met> {
    (set id | id in s.objects.Keys && Dropped(s, m, retired, s.objects[id].tn) && Live(s, s.objects[id])
              && s.objects[id].tn !in m.retiredTypes :: Met(Fatal, RemovedType(s.objects[id].tn), Some(id)))
    + (set id | id in s.objects.Keys && Dropped(s, m, retired, s.objects[id].tn)
                && (s.objects[id].tn in m.retiredTypes || !AnyLive(s, s.objects[id].tn)) ::
         Met(Notice, RetiredType(s.objects[id].tn), Some(id)))
  }

  predicate Dropped(s: Stored, m: Migration, retired: set<string>, tn: string) {
    tn in s.kinds && tn in retired && !s.kinds[tn].observation && !s.kinds[tn].retired && tn !in MovedTypes(m)
  }

  predicate Live(s: Stored, o: Obj) {
    o.tn in s.kinds && o.state in s.kinds[o.tn].states && !s.kinds[o.tn].states[o.state].final
  }

  predicate AnyLive(s: Stored, tn: string) {
    exists id :: id in s.objects && s.objects[id].tn == tn && Live(s, s.objects[id])
  }
}
