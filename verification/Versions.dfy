/** A version's declaration as a publish reads it, its migration, and the objects it meets (scripts/flowpublish.py). */
module Versions {
  import opened Wrappers
  import opened Reports

  /** An expression, parsed. */
  type Formula = string

  datatype Val = Member(enumeration: string, member: string) | Ref(id: Id) | Many(items: seq<Val>) | Other(text: string)

  /** What an attribute holds; `reference` where `holds` names a type of object. */
  datatype Attribute = Attribute(holds: string, many: bool, reference: bool, opposite: Option<string>, stored: bool,
                                 optional: bool, defaulted: bool, personal: bool, composite: bool)

  datatype StateSpec = StateSpec(final: bool)

  datatype TransitionSpec = TransitionSpec(to: set<string>, proposable: bool, takes: set<string>, erasure: bool)

  datatype Kind = Kind(parent: Option<string>, abstract_: bool, mirror: bool, retired: bool, observation: bool,
                       attributes: map<string, Attribute>, derived: set<string>, states: map<string, StateSpec>,
                       transitions: map<string, TransitionSpec>)

  type Kinds = map<string, Kind>

  /** An entry of a moved type: which objects it takes, what they become, and what their states and attributes do. */
  datatype Move = Move(where: Option<Formula>, to: string, states: map<string, string>, given: map<string, Formula>)

  datatype Written = Written(tn: string, attr: string, formula: Formula)

  datatype Migration = Migration(
    renamedEnums: map<string, string>,
    renamedAttributes: seq<(string, string, string)>,
    removedMembers: seq<(string, string, string)>,
    removedStates: seq<(string, map<string, string>)>,
    movedTypes: seq<(string, seq<Move>)>,
    retiredTypes: set<string>,
    backfill: seq<Written>,
    clear: seq<Written>,
    admit: seq<(string, string)>)

  datatype Version = Version(kinds: Kinds, observations: set<string>, enums: map<string, seq<string>>,
                             migration: Migration)

  datatype Obj = Obj(tn: string, state: string, attrs: map<string, Val>, admissions: set<string>, erased: bool,
                     version: nat)

  datatype Proposal = Proposal(pending: bool, tn: string, transition: string, inputs: map<string, Val>, version: nat)

  /** The store's own types, which no change declares and no mapping reaches. */
  const BUILT_IN := {"Operator", "Proposal", "DeclarationChange", "label"}

  function KindOf(kinds: Kinds, tn: string): Kind {
    if tn in kinds then kinds[tn]
    else Kind(None, false, false, false, false, map[], {}, map[], map[])
  }

  /** A type or one it extends, at any distance; a chain that comes back to itself ends. */
  function IsA(kinds: Kinds, tn: string, want: string, seen: set<string> := {}): bool
    decreases kinds.Keys - seen
  {
    if tn in seen then false
    else if tn == want then true
    else if tn !in kinds || kinds[tn].parent.None? then false
    else
      assert kinds.Keys - (seen + {tn}) < kinds.Keys - seen by {
        assert tn in kinds.Keys - seen && tn !in kinds.Keys - (seen + {tn});
      }
      IsA(kinds, kinds[tn].parent.value, want, seen + {tn})
  }

  function MovedTypes(m: Migration): set<string> {
    set i | 0 <= i < |m.movedTypes| :: m.movedTypes[i].0
  }

  /** A set of references computed from its opposite, which holds no value. */
  predicate DerivedEnd(a: Attribute) {
    a.reference && a.many && a.opposite.Some?
  }

  /** Whether a single reference is the end that holds the value. */
  predicate Stored(kinds: Kinds, a: Attribute) {
    a.opposite.None? || a.stored
    || (var back := KindOf(kinds, a.holds).attributes;
        a.opposite.value in back && back[a.opposite.value].reference && back[a.opposite.value].many)
  }

  predicate Required(kinds: Kinds, a: Attribute) {
    !a.optional && !a.defaulted && !a.many && a.holds != "counter" && (a.reference ==> Stored(kinds, a))
  }

  predicate SameDeclared(was: Attribute, now: Attribute) {
    was.holds == now.holds && was.many == now.many
  }

  /** Whether a publish carries an attribute's values across its change of type: a reference following a moved type, or an
      enumeration renamed. */
  predicate Carries(m: Migration, was: Attribute, now: Attribute) {
    || (was.reference && now.reference && was.many == now.many && was.holds in MovedTypes(m))
    || (was.many == now.many && was.holds != now.holds && was.holds in m.renamedEnums
        && m.renamedEnums[was.holds] == now.holds)
  }

  /** Whether some transition of the type enters a state. */
  predicate Reachable(k: Kind, state: string) {
    exists x :: x in k.transitions && state in k.transitions[x].to
  }

  function NewName(m: Migration, enumeration: string): string {
    if enumeration in m.renamedEnums then m.renamedEnums[enumeration] else enumeration
  }

  /** A value under the names the version gives its enumerations. */
  function RenamedMember(m: Migration, v: Val): Val
    decreases v
  {
    match v
    case Member(e, x) => Member(NewName(m, e), x)
    case Many(items) => Many(RenamedAll(m, items))
    case _ => v
  }

  function RenamedAll(m: Migration, vs: seq<Val>): seq<Val>
    decreases vs
  {
    if vs == [] then [] else [RenamedMember(m, vs[0])] + RenamedAll(m, vs[1..])
  }

  /** Whether the change's `admit` covers an invariant, by its name on the type or a type it extends. */
  predicate Admitted(v: Version, tn: string, n: string) {
    exists i :: 0 <= i < |v.migration.admit| && v.migration.admit[i].1 == n && IsA(v.kinds, tn, v.migration.admit[i].0)
  }

  /** The types the store holds and the version drops, kept retired. */
  function Retired(before: Kinds, after: Kinds): set<string> {
    set tn | tn in before && tn !in after && tn !in BUILT_IN
  }

  function Erasures(x: map<string, TransitionSpec>): map<string, TransitionSpec> {
    map n | n in x && x[n].erasure :: x[n]
  }

  /** The types the version installs, those it drops kept for their objects, their erasure all they take. */
  function Kept(before: Kinds, after: Kinds): (r: Kinds)
    ensures r.Keys == after.Keys + Retired(before, after)
    ensures forall tn | tn in after :: r[tn] == after[tn]
    ensures forall tn | tn in Retired(before, after) :: r[tn].retired
  {
    map tn | tn in after.Keys + Retired(before, after) ::
      if tn in after then after[tn] else before[tn].(retired := true, transitions := Erasures(before[tn].transitions))
  }

  // mappings of one object

  /** A map with a key's value under another. */
  function Moved(attrs: map<string, Val>, from: string, to: string): map<string, Val> {
    if from in attrs then (attrs - {from})[to := attrs[from]] else attrs
  }

  /** Renames, each carrying the value its old name holds. */
  function RenamedAttributes(kinds: Kinds, tn: string, renames: seq<(string, string, string)>, attrs: map<string, Val>):
    map<string, Val>
  {
    if renames == [] then attrs
    else
      var (base, from, to) := renames[0];
      RenamedAttributes(kinds, tn, renames[1..], if IsA(kinds, tn, base) then Moved(attrs, from, to) else attrs)
  }

  /** The attributes whose type the version changes, a drop and an add of the same name. */
  function TypeChangedOf(m: Migration, was: Kind, now: Kind): set<string> {
    set a | a in was.attributes && a in now.attributes
            && !SameDeclared(was.attributes[a], now.attributes[a]) && !Carries(m, was.attributes[a], now.attributes[a])
  }

  /** An object before any mapping that writes: its enumerations by their new names, its attributes by theirs, and one
      whose type changes set aside. */
  function Carried(m: Migration, kinds: Kinds, was: Kind, o: Obj, moved: bool): Obj {
    var named := map a | a in o.attrs :: RenamedMember(m, o.attrs[a]);
    if moved then o.(attrs := named)
    else
      o.(attrs := RenamedAttributes(kinds, o.tn, m.renamedAttributes, named)
                  - TypeChangedOf(m, was, KindOf(kinds, o.tn)))
  }

  /** A set's members, one replaced and kept once. */
  function Replaced(vs: seq<Val>, was: Val, target: Val): seq<Val> {
    if vs == [] then []
    else
      var some := Replaced(vs[..|vs| - 1], was, target);
      var last := if vs[|vs| - 1] == was then target else vs[|vs| - 1];
      if last in some then some else some + [last]
  }

  function WithoutMember(v: Val, was: Val, target: Val): Val {
    if v.Many? && was in v.items then Many(Replaced(v.items, was, target))
    else if v == was then target
    else v
  }

  predicate Holds(v: Val, member: Val) {
    if v.Many? then member in v.items else v == member
  }

  /** An object a removed member's mapping reaches: each attribute of the enumeration holding it. */
  function MemberReplaced(k: Kind, entry: (string, string, string), attrs: map<string, Val>): map<string, Val> {
    var (enumeration, from, to) := entry;
    map a | a in attrs ::
      if a in k.attributes && k.attributes[a].holds == enumeration
      then WithoutMember(attrs[a], Member(enumeration, from), Member(enumeration, to))
      else attrs[a]
  }

  predicate TakesMember(k: Kind, entry: (string, string, string), attrs: map<string, Val>) {
    exists a :: a in attrs && a in k.attributes && k.attributes[a].holds == entry.0
                && Holds(attrs[a], Member(entry.0, entry.1))
  }

  /** Where the first entry naming a state, of the type or one it extends, sends it. */
  function StateTarget(kinds: Kinds, tn: string, maps: seq<(string, map<string, string>)>, state: string): Option<string> {
    if maps == [] then None
    else if IsA(kinds, tn, maps[0].0) && state in maps[0].1 then Some(maps[0].1[state])
    else StateTarget(kinds, tn, maps[1..], state)
  }
}
