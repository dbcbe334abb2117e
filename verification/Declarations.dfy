/** One type's declaration, as the contradiction checker reads it (scripts/flowlogic.py, `analyse_type`). */
module Declarations {
  import opened Wrappers
  import opened Syntax
  import opened TypeModel

  datatype Mode = Deny | Audit | Warn

  /** A step of a transition's effect. An assignment and a clear are followed. Another, a cascade or what the caller does
      afterwards, is known by the names of the object's own it may give another value and by those that what else it
      changes is read through. */
  datatype Step =
    | Assign(location: string, value: Expr)
    | Clear(names: seq<string>)
    | OtherStep(changes: set<string>, reaches: set<string>)

  datatype TransitionKind = Initial | External | Internal | Assertion | Erasure

  /** `from` names declared states, `any` resolved to them. */
  datatype Transition = Transition(
    kind: TransitionKind,
    from: set<string>,
    to: Option<string>,
    required: seq<string>,
    optionals: seq<string>,
    inputs: map<string, Spec>,
    guards: seq<(string, Mode)>,
    effect: seq<Step>)

  datatype TypeDecl = TypeDecl(
    name: string,
    attrs: map<string, Spec>,
    derived: map<string, Expr>,
    states: map<string, State>,
    observations: set<string>,
    enums: map<string, set<string>>,
    conditions: map<string, Expr>,
    invariants: map<string, Expr>,
    transitions: map<string, Transition>)

  /** The type apart from any transition. */
  function ModelOf(t: TypeDecl): Model {
    Model(t.name, t.attrs, t.derived, t.states, t.observations, t.enums, map[], {}, false)
  }

  function AttrSpec(t: TypeDecl, n: string): Option<Spec> {
    if n in t.attrs then Some(t.attrs[n]) else None
  }

  function InputNames(x: Transition): set<string> {
    (set i | i in x.required + x.optionals) + x.inputs.Keys
  }

  /** An input's declaration: its own, or that of the attribute it names. */
  function InputSpec(t: TypeDecl, x: Transition, i: string): Option<Spec> {
    if i in x.inputs then Some(x.inputs[i]) else AttrSpec(t, i)
  }

  /** The type under a transition: its inputs, those a request must supply, and whether it creates the object. */
  function ModelFor(t: TypeDecl, x: Transition): Model {
    ModelOf(t).(
      inputs := map i | i in InputNames(x) :: InputSpec(t, x, i),
      present := (set i | i in x.required) + (set i | i in x.inputs && (!x.inputs[i].optional || x.inputs[i].default_)),
      created := x.kind == Initial)
  }

  // ── the invariants ───────────────────────────────────────────────────────

  function Lower(s: string): string {
    seq(|s|, i requires 0 <= i < |s| => if 'A' <= s[i] <= 'Z' then (s[i] as int + 32) as char else s[i])
  }

  /** Each of some attributes is not null. */
  function AllPresent(names: seq<string>): Expr
    requires names != []
  {
    var last := IsNull(Name(names[|names| - 1]), true);
    if |names| == 1 then last else Bin(And, AllPresent(names[..|names| - 1]), last)
  }

  /** The invariant a state's required attributes generate. */
  function RequiredInvariant(state: string, names: seq<string>): Expr
    requires names != []
  {
    Bin(Or, Bin(Ne, Name("state"), Name(state)), AllPresent(names))
  }

  function DropSuffix(n: string, suffix: string): Option<string> {
    if |n| >= |suffix| && n[|n| - |suffix|..] == suffix then Some(n[..|n| - |suffix|]) else None
  }

  /** The transition a `taken_by` invariant is generated for. */
  function GeneratedFor(t: TypeDecl, n: string): Option<string> {
    var x := DropSuffix(n, "_taken_by");
    if x.Some? && x.value in t.transitions && x.value + "_by_kind" in t.attrs then x else None
  }

  /** The invariants an object is held to: the declared ones, and those its states' required attributes generate. */
  function InvariantTrees(t: TypeDecl): set<Expr> {
    (set n | n in t.invariants :: t.invariants[n])
    + (set s | s in t.states && t.states[s].required != [] :: RequiredInvariant(s, t.states[s].required))
  }

  predicate IsInvariant(t: TypeDecl, tree: Expr) {
    tree in InvariantTrees(t)
  }

  /** The names that some of the invariants, generated ones apart, read. */
  function ReadByOthers(t: TypeDecl, all: map<string, Expr>): set<string> {
    set n, x | n in all && GeneratedFor(t, n).None? && x in NamesIn(all[n]) :: x
  }

  function InvariantName(s: string): string {
    Lower(s) + "_invariant"
  }

  /** Some states' required attributes generate an invariant of a name. */
  predicate IsGenerated(t: TypeDecl, states: set<string>, n: string) {
    exists s :: s in states && s in t.states && t.states[s].required != [] && n == InvariantName(s)
  }

  ghost predicate GeneratedAs(t: TypeDecl, states: set<string>, n: string, tree: Expr) {
    exists s :: s in states && s in t.states && t.states[s].required != [] && n == InvariantName(s)
                && tree == RequiredInvariant(s, t.states[s].required)
  }

  /** A type's invariants by name with those of some of its states: a generated one replaces another of its name. */
  ghost predicate WithGenerated(t: TypeDecl, states: set<string>, all: map<string, Expr>) {
    && (forall n :: n in all <==> n in t.invariants || IsGenerated(t, states, n))
    && (forall n | n in all :: if IsGenerated(t, states, n) then GeneratedAs(t, states, n, all[n]) else all[n] == t.invariants[n])
  }

  /** A `taken_by` invariant is left out where no other invariant reads its attribute. */
  predicate IsLeftOut(t: TypeDecl, all: map<string, Expr>, n: string) {
    GeneratedFor(t, n).Some? && GeneratedFor(t, n).value + "_by_kind" !in ReadByOthers(t, all)
  }

  /** A type's invariants by name, those its states' required attributes generate among them, and those left out. */
  method StateInvariants(t: TypeDecl) returns (r: map<string, Expr>, ghost all: map<string, Expr>)
    ensures WithGenerated(t, t.states.Keys, all)
    ensures r == map n | n in all && !IsLeftOut(t, all, n) :: all[n]
    ensures forall n | n in r :: IsInvariant(t, r[n])
  {
    var out := t.invariants;
    var rest := t.states.Keys;
    while rest != {}
      invariant rest <= t.states.Keys
      invariant WithGenerated(t, t.states.Keys - rest, out)
      decreases rest
    {
      var s :| s in rest;
      ghost var done, before := t.states.Keys - rest, out;
      rest := rest - {s};
      if t.states[s].required != [] {
        out := out[InvariantName(s) := RequiredInvariant(s, t.states[s].required)];
      }
      GeneratedMore(t, done, before, s, out);
      assert t.states.Keys - rest == done + {s};
    }
    assert t.states.Keys - rest == t.states.Keys;
    all := out;
    InvariantsAre(t, all);
    r := map n | n in out && !IsLeftOut(t, out, n) :: out[n];
  }

  predicate Generates(t: TypeDecl, s: string, n: string) {
    s in t.states && t.states[s].required != [] && n == InvariantName(s)
  }

  lemma GeneratedByOneMore(t: TypeDecl, done: set<string>, s: string, n: string, tree: Expr)
    ensures IsGenerated(t, done + {s}, n) <==> IsGenerated(t, done, n) || Generates(t, s, n)
    ensures GeneratedAs(t, done, n, tree) ==> GeneratedAs(t, done + {s}, n, tree)
  {
    if GeneratedAs(t, done, n, tree) {
      var z :| z in done && z in t.states && t.states[z].required != [] && n == InvariantName(z)
               && tree == RequiredInvariant(z, t.states[z].required);
      assert z in done + {s};
    }
    if IsGenerated(t, done, n) {
      var z :| z in done && z in t.states && t.states[z].required != [] && n == InvariantName(z);
      assert z in done + {s};
    }
    if Generates(t, s, n) {
      assert s in done + {s};
    }
  }

  lemma GeneratedMore(t: TypeDecl, done: set<string>, before: map<string, Expr>, s: string, out: map<string, Expr>)
    requires s in t.states && WithGenerated(t, done, before)
    requires out == if t.states[s].required == [] then before
                    else before[InvariantName(s) := RequiredInvariant(s, t.states[s].required)]
    ensures WithGenerated(t, done + {s}, out)
  {
    forall n
      ensures n in out <==> n in t.invariants || IsGenerated(t, done + {s}, n)
      ensures n in out ==> if IsGenerated(t, done + {s}, n) then GeneratedAs(t, done + {s}, n, out[n]) else out[n] == t.invariants[n]
    {
      GeneratedByOneMore(t, done, s, n, if n in before then before[n] else Null);
      if Generates(t, s, n) {
        assert s in done + {s} && GeneratedAs(t, done + {s}, n, out[n]);
      }
    }
  }

  lemma InvariantsAre(t: TypeDecl, all: map<string, Expr>)
    requires WithGenerated(t, t.states.Keys, all)
    ensures forall n | n in all :: IsInvariant(t, all[n])
  {
    forall n | n in all ensures IsInvariant(t, all[n]) {
      if IsGenerated(t, t.states.Keys, n) {
        assert GeneratedAs(t, t.states.Keys, n, all[n]);
      }
    }
  }

  // ── what a transition writes ─────────────────────────────────────────────

  /** The trees an effect assigns, a later assignment of an attribute replacing an earlier one. */
  function AssignedBy(effect: seq<Step>): map<string, Expr> {
    if effect == [] then map[]
    else
      var before, last := AssignedBy(effect[..|effect| - 1]), effect[|effect| - 1];
      if last.Assign? then before[last.location := last.value] else before
  }

  /** The trees of what a transition writes, in its effect's order: its required inputs, then its steps. */
  function StepsWrite(required: seq<string>, effect: seq<Step>): map<string, Expr> {
    if effect == [] then map i | i in required :: Path(Name("inputs"), i)
    else
      var before, last := StepsWrite(required, effect[..|effect| - 1]), effect[|effect| - 1];
      match last
      case Assign(location, value) => before[location := value]
      case Clear(names) => before + (map n | n in names :: Null)
      case OtherStep(_, _) => before
  }

  /** The tree of each attribute's value after a transition, unknown where its assignment reads what is written. */
  function WrittenBy(x: Transition): map<string, Expr> {
    var written, trees := StepsWrite(x.required, x.effect), AssignedBy(x.effect);
    map n | n in written ::
      if n in trees && NamesIn(trees[n]) * written.Keys != {} then Unknown else written[n]
  }

  /** The state the object is known to be in after a transition. */
  function StateAfter(x: Transition): Option<string> {
    if x.kind == Initial || x.kind == External then x.to else None
  }

  /** Whether an invariant reads nothing but what a transition writes and the state it enters. */
  predicate ReadsOnlyWrites(t: TypeDecl, x: Transition, tree: Expr) {
    var read := NamesIn(tree) - {"inputs", "now", "this"};
    read != {} && read <= WrittenBy(x).Keys + (if StateAfter(x).Some? then {"state"} else {}) + t.states.Keys
  }

  /** The loop over the effect's steps, and the one over what they assign. */
  method Writes(x: Transition) returns (written: map<string, Expr>)
    ensures written == WrittenBy(x)
  {
    written := map i | i in x.required :: Path(Name("inputs"), i);
    var trees: map<string, Expr> := map[];
    assert x.effect[..0] == [];
    for k := 0 to |x.effect|
      invariant written == StepsWrite(x.required, x.effect[..k]) && trees == AssignedBy(x.effect[..k])
    {
      assert x.effect[..k + 1][..k] == x.effect[..k];
      match x.effect[k] {
        case Assign(location, value) =>
          trees := trees[location := value];
          written := written[location := value];
        case Clear(names) => written := written + (map n | n in names :: Null);
        case OtherStep(_, _) =>
      }
    }
    assert x.effect[..|x.effect|] == x.effect;
    ghost var settled := StepsWrite(x.required, x.effect);
    var rest := trees.Keys;
    AssignedAreWritten(x.required, x.effect);
    while rest != {}
      invariant rest <= trees.Keys
      invariant written.Keys == settled.Keys
      invariant forall n | n in settled ::
                  written[n] == if n in trees && n !in rest && NamesIn(trees[n]) * settled.Keys != {} then Unknown
                                else settled[n]
      decreases rest
    {
      var n :| n in rest;
      rest := rest - {n};
      if NamesIn(trees[n]) * written.Keys != {} {
        written := written[n := Unknown];
      }
    }
  }

  lemma {:induction false} AssignedAreWritten(required: seq<string>, effect: seq<Step>)
    ensures AssignedBy(effect).Keys <= StepsWrite(required, effect).Keys
  {
    if effect != [] {
      AssignedAreWritten(required, effect[..|effect| - 1]);
    }
  }
}
