/** A change to the declaration: its lifecycle, its dry run and its approval, over the store (scripts/flowpublish.py). */
module Publishing {
  import opened Wrappers
  import opened Reports
  import opened Versions
  import opened Impact
  import opened Mappings
  import opened Simulating
  import opened Judging

  type Source = map<string, string>

  datatype ChangeState = DRAFTED | SUBMITTED | PUBLISHED | REJECTED | WITHDRAWN | SUPERSEDED

  /** The report a dry run attaches: what was found, read at a time, of the source of a digest. */
  datatype Report = Report(version: nat, accepted: bool, now: int, contents: Contents, digest: string)

  datatype Change = Change(state: ChangeState, source: Source, reference: string, digest: string, base: nat,
                           report: Option<Report>, drafter: string, version: nat)

  datatype Transition =
    | Draft | Revise | Submit | Refresh | Reopen | Reject | Withdraw | Supersede | Publish
    | Migrate(mappings: set<Code>, admits: set<string>, discharges: set<string>)
    | Redact(attrs: set<string>)
    | Invalidate
    | Elsewhere

  datatype Event = Event(position: nat, subject: Id, transition: Transition, cause: Option<nat>)

  datatype State = State(changes: map<Id, Change>, kinds: Kinds, enums: map<string, seq<string>>, source: Source,
                         objects: map<Id, Obj>, order: seq<Id>, proposals: map<Id, Proposal>, now: int, version: nat,
                         position: nat, events: seq<Event>, next: Id, attempts: nat)

  datatype Actor = Actor(known: bool, identity: string, kind: string, operator: bool)

  datatype Inputs = Inputs(source: Source, reference: string)

  datatype Refusal =
    | ActorUnknown | NotFound | NotRequestable | UnknownTransition | Unavailable | TakenBy | InvalidInput
    | DryRunNotClean | NotRunnable
    | Stale | NotCurrent | FatalFound | ImpactChanged | Undecided

  /** What the runner, the flow checker and the hash answer, whatever it is. */
  datatype Lab = Lab(
    runner: Runner,
    check: (Source, Source) -> set<(bool, string)>,
    load: Source -> Option<Version>,
    digest: Source -> string,
    approvers: Source -> Option<set<string>>,
    formed: Inputs -> bool,
    runs: (Stored, Version) -> bool)

  const NO_MIGRATION := Migration(map[], [], [], [], [], {}, [], [], [])

  predicate Open(c: Change) {
    c.state == DRAFTED || c.state == SUBMITTED
  }

  /** The kinds a version says approve the next; any but an agent where it does not say. */
  predicate MayApprove(approvers: Option<set<string>>, kind: string) {
    if approvers.Some? then kind in approvers.value else kind != "agent"
  }

  /** The store a dry run reads, at a time. */
  function StoredOf(lab: Lab, s: State, id: Id, now: int): Stored {
    var installed := lab.load(s.source);
    Stored(s.kinds, s.enums, s.version, now, s.objects, s.order, s.proposals,
           if s.source != map[] && installed.Some? then installed.value.migration else NO_MIGRATION,
           set c | c in s.changes && c != id && Open(s.changes[c]))
  }

  predicate HoldsFatal(c: Contents) {
    exists code :: code in c && c[code].severity == Fatal
  }

  predicate Named(c: Contents, code: Code, id: Id) {
    code in c && id in c[code].ids
  }

  /** No decision stands that the version does not admit. */
  predicate Decided(c: Contents, v: Version) {
    forall code | code in c && c[code].severity == Decision :: code.Invariant? && Admitted(v, code.tn, code.n)
  }

  // the dry run

  /** A report of a source over a store, and what an approval would install of it. */
  datatype DryRun = DryRun(report: Report, outcome: Option<Outcome>)

  /** What the checks of a source find, beside the version installed. */
  function CheckMets(lab: Lab, source: Source, installed: Source): set<Met> {
    set c | c in lab.check(source, installed) :: Met(if c.0 then Fatal else Notice, Check(c.1), None)
  }

  /** A report tells what the checks find and, of a source that loads and whose rules run, all its impact, nothing of it its
      own; it is accepted exactly where nothing is fatal and every decision is admitted. */
  ghost predicate Reported(lab: Lab, s: Stored, source: Source, installed: Source, digest: string, d: DryRun,
                           met: set<Met>)
  {
    && Gathers(d.report.contents, met) && CheckMets(lab, source, installed) <= met && Concluded(lab, s, source, digest, d)
    && MetOf(lab, s, source, CheckMets(lab, source, installed), d.outcome, met)
  }

  /** What a report says of itself. */
  ghost predicate Concluded(lab: Lab, s: Stored, source: Source, digest: string, d: DryRun) {
    var loaded := lab.load(source);
    && d.report.version == s.version + 1 && d.report.now == s.now && d.report.digest == digest
    && (d.report.accepted <==> !HoldsFatal(d.report.contents) && loaded.Some? && Decided(d.report.contents, loaded.value))
  }

  /** What has been met, beyond what the checks find. */
  ghost predicate MetOf(lab: Lab, s: Stored, source: Source, checks: set<Met>, outcome: Option<Outcome>, met: set<Met>) {
    var loaded := lab.load(source);
    && (loaded.None? ==> outcome.None? && met == checks + {Met(Fatal, Load, None)})
    && (loaded.Some? && !lab.runs(s, loaded.value) ==>
          outcome.None? && AnyFatal(checks) && met == checks + {Met(Notice, NotComputed, None)})
    && (loaded.Some? && lab.runs(s, loaded.value) ==> outcome.Some?)
    && forall x | outcome == Some(x) :: loaded.Some? && IsImpact(lab.runner, s, loaded.value, x, met)
  }

  lemma ImpactReported(lab: Lab, s: Stored, source: Source, installed: Source, digest: string, d: DryRun, met: set<Met>)
    requires Reported(lab, s, source, installed, digest, d, met) && d.outcome.Some?
    ensures lab.load(source).Some? && IsImpact(lab.runner, s, lab.load(source).value, d.outcome.value, met)
  {
    assert d.outcome == Some(d.outcome.value);
  }

  ghost predicate IsReport(lab: Lab, s: Stored, source: Source, installed: Source, digest: string, d: DryRun) {
    exists met :: Reported(lab, s, source, installed, digest, d, met)
  }

  lemma FatalHeld(c: Contents, met: set<Met>)
    requires Gathers(c, met)
    ensures HoldsFatal(c) <==> AnyFatal(met)
  {
    if HoldsFatal(c) {
      var code :| code in c && c[code].severity == Fatal;
      assert MetAs(met, code, Fatal);
    }
    if AnyFatal(met) {
      var m: Met :| m in met && m.severity == Fatal;
      assert m.code in c;
    }
  }

  lemma NamedIsMet(c: Contents, met: set<Met>, code: Code, id: Id)
    requires Gathers(c, met)
    ensures Named(c, code, id) <==> Names(met, code, id)
  {
    if Names(met, code, id) {
      var m :| m in met && m.code == code && m.id == Some(id);
    }
  }

  /** The report of what has been found, and what it would install. */
  function DryRunOf(lab: Lab, s: Stored, source: Source, digest: string, c: Contents, outcome: Option<Outcome>): DryRun {
    var loaded := lab.load(source);
    DryRun(Report(s.version + 1, !HoldsFatal(c) && loaded.Some? && Decided(c, loaded.value), s.now, c, digest), outcome)
  }

  lemma Concludes(lab: Lab, s: Stored, source: Source, digest: string, c: Contents, outcome: Option<Outcome>)
    ensures var d := DryRunOf(lab, s, source, digest, c, outcome);
            Concluded(lab, s, source, digest, d) && d.report.contents == c && d.outcome == outcome
  {
  }

  lemma UnloadedReported(lab: Lab, s: Stored, source: Source, installed: Source, digest: string, c: Contents)
    requires lab.load(source).None? && Gathers(c, CheckMets(lab, source, installed) + {Met(Fatal, Load, None)})
    ensures IsReport(lab, s, source, installed, digest, DryRunOf(lab, s, source, digest, c, None))
  {
    var met := CheckMets(lab, source, installed) + {Met(Fatal, Load, None)};
    var d := DryRunOf(lab, s, source, digest, c, None);
    Concludes(lab, s, source, digest, c, None);
    assert Reported(lab, s, source, installed, digest, d, met);
  }

  lemma UnrunReported(lab: Lab, s: Stored, source: Source, installed: Source, digest: string, c: Contents)
    requires lab.load(source).Some? && !lab.runs(s, lab.load(source).value) && AnyFatal(CheckMets(lab, source, installed))
    requires Gathers(c, CheckMets(lab, source, installed) + {Met(Notice, NotComputed, None)})
    ensures IsReport(lab, s, source, installed, digest, DryRunOf(lab, s, source, digest, c, None))
  {
    var met := CheckMets(lab, source, installed) + {Met(Notice, NotComputed, None)};
    var d := DryRunOf(lab, s, source, digest, c, None);
    Concludes(lab, s, source, digest, c, None);
    UnrunMet(lab, s, source, CheckMets(lab, source, installed));
    assert Reported(lab, s, source, installed, digest, d, met);
  }

  lemma UnrunMet(lab: Lab, s: Stored, source: Source, checks: set<Met>)
    requires lab.load(source).Some? && !lab.runs(s, lab.load(source).value) && AnyFatal(checks)
    ensures MetOf(lab, s, source, checks, None, checks + {Met(Notice, NotComputed, None)})
  {
  }

  lemma RunReported(lab: Lab, s: Stored, source: Source, installed: Source, digest: string, c: Contents, x: Outcome,
                    met: set<Met>)
    requires lab.load(source).Some? && lab.runs(s, lab.load(source).value)
    requires Gathers(c, met) && CheckMets(lab, source, installed) <= met
    requires IsImpact(lab.runner, s, lab.load(source).value, x, met)
    ensures IsReport(lab, s, source, installed, digest, DryRunOf(lab, s, source, digest, c, Some(x)))
  {
    Concludes(lab, s, source, digest, c, Some(x));
    assert Reported(lab, s, source, installed, digest, DryRunOf(lab, s, source, digest, c, Some(x)), met);
  }

  /** A change's dry run over the store at a time, changing nothing of it; none where its rules cannot be run. */
  method Simulate(lab: Lab, s: Stored, source: Source, installed: Source, digest: string) returns (d: Option<DryRun>)
    requires Ordered(s)
    ensures d.Some? ==> IsReport(lab, s, source, installed, digest, d.value)
    ensures d.None? <==> lab.load(source).Some? && !lab.runs(s, lab.load(source).value)
                         && !AnyFatal(CheckMets(lab, source, installed))
  {
    var found := new Found();
    found.AddAll(CheckMets(lab, source, installed));
    assert found.met == CheckMets(lab, source, installed);
    var refused := found.HoldsFatal();
    var loaded := lab.load(source);
    if loaded.None? {
      found.Add(Fatal, Load, None);
      UnloadedReported(lab, s, source, installed, digest, ContentsOf(found.findings));
      d := Some(DryRunOf(lab, s, source, digest, ContentsOf(found.findings), None));
    } else if lab.runs(s, loaded.value) {
      var x := Run(lab.runner, s, loaded.value, found);
      RunReported(lab, s, source, installed, digest, ContentsOf(found.findings), x, found.met);
      d := Some(DryRunOf(lab, s, source, digest, ContentsOf(found.findings), Some(x)));
    } else if refused {
      found.Add(Notice, NotComputed, None);
      UnrunReported(lab, s, source, installed, digest, ContentsOf(found.findings));
      d := Some(DryRunOf(lab, s, source, digest, ContentsOf(found.findings), None));
    } else {
      d := None;
    }
  }

  // what an approval installs of an object

  function MappingsOf(c: Contents, id: Id): set<Code> {
    set code | code in c.Keys && (IsMapping(code) || code.TypeChanged?) && id in c[code].ids
  }

  function AdmitsOf(c: Contents, v: Version, id: Id): set<string> {
    set code | code in c.Keys && code.Invariant? && id in c[code].ids && Admitted(v, code.tn, code.n) :: code.n
  }

  function DischargesOf(c: Contents, id: Id): set<string> {
    set code | code in c.Keys && code.Discharged? && id in c[code].ids :: code.n
  }

  /** Whether a mapping, an admit or a discharge reaches an object. */
  predicate Migrates(c: Contents, v: Version, id: Id) {
    MappingsOf(c, id) != {} || AdmitsOf(c, v, id) != {} || DischargesOf(c, id) != {}
  }

  /** Discharged before admitted, so an admission of the target's invariant of the same name stands. */
  function Installed(c: Contents, v: Version, id: Id, o: Obj): Obj {
    if Migrates(c, v, id)
    then o.(admissions := (o.admissions - DischargesOf(c, id)) + AdmitsOf(c, v, id), version := o.version + 1)
    else o
  }

  lemma DecisionHeld(r: Runner, x: Outcome, c: Contents, met: set<Met>, id: Id, tn: string, n: string)
    requires Sized(x) && Complete(r, x, met) && Gathers(c, met) && !HoldsFatal(c) && Violates(r, x, id, tn, n)
    ensures Named(c, Invariant(tn, n), id) && c[Invariant(tn, n)].severity == Decision
  {
    ViolationMet(r, x, id, tn, n);
    assert Told(r, x, met, id);
    var m := Met(Decision, Invariant(tn, n), Some(id));
    assert m in met;
    assert m.code in c;
  }

  lemma AdmitsAreViolations(r: Runner, x: Outcome, c: Contents, met: set<Met>, id: Id, n: string)
    requires Sized(x) && Complete(r, x, met) && Gathers(c, met) && n in AdmitsOf(c, x.v, id)
    ensures Judged(x, id) && n in r.failing(ViewOf(x), id)
  {
    var code :| code in c.Keys && code.Invariant? && id in c[code].ids && Admitted(x.v, code.tn, code.n) && code.n == n;
    NamedIsMet(c, met, code, id);
    ViolationsNamed(r, x, met, code.tn, n, id);
  }

  lemma DischargesAreCured(r: Runner, x: Outcome, c: Contents, met: set<Met>, id: Id, n: string)
    requires Sized(x) && Complete(r, x, met) && Gathers(c, met) && Judged(x, id)
    ensures n in DischargesOf(c, id) <==>
              n in x.objects[id].admissions && (id in x.moving || n !in r.failing(ViewOf(x), id))
  {
    if n in DischargesOf(c, id) {
      var code :| code in c.Keys && code.Discharged? && id in c[code].ids && code.n == n;
      NamedIsMet(c, met, code, id);
      DischargesNamed(r, x, met, code.tn, n, id);
    }
    if n in x.objects[id].admissions && (id in x.moving || n !in r.failing(ViewOf(x), id)) {
      var tn := if id in x.moving then x.moving[id] else x.objects[id].tn;
      assert Cured(r, x, id, tn, n);
      DischargesNamed(r, x, met, tn, n, id);
      NamedIsMet(c, met, Discharged(tn, n), id);
      assert Discharged(tn, n) in c.Keys;
    }
  }

  /** After an accepted report, what an object not an observation is left admitting is exactly what it violates. */
  lemma AdmissionsAreViolations(lab: Lab, s: Stored, source: Source, installed: Source, digest: string, d: DryRun, id: Id)
    requires IsReport(lab, s, source, installed, digest, d) && d.report.accepted && d.outcome.Some?
    requires var x := d.outcome.value; Judged(x, id) && x.objects[id].tn !in x.v.observations
    ensures var x := d.outcome.value;
            Installed(d.report.contents, x.v, id, x.objects[id]).admissions == lab.runner.failing(ViewOf(x), id)
  {
    var met :| Reported(lab, s, source, installed, digest, d, met);
    ImpactReported(lab, s, source, installed, digest, d, met);
    InstalledIsViolated(lab.runner, d.outcome.value, d.report.contents, met, id);
  }

  lemma InstalledIsViolated(r: Runner, x: Outcome, c: Contents, met: set<Met>, id: Id)
    requires Sized(x) && Complete(r, x, met) && Gathers(c, met) && !HoldsFatal(c) && Decided(c, x.v)
    requires Judged(x, id) && x.objects[id].tn !in x.v.observations
    ensures Installed(c, x.v, id, x.objects[id]).admissions == r.failing(ViewOf(x), id)
  {
    var admits, discharges := AdmitsOf(c, x.v, id), DischargesOf(c, id);
    InstalledAdmissions(c, x.v, id, x.objects[id], admits, discharges);
    forall n
      ensures n in (x.objects[id].admissions - discharges) + admits <==> n in r.failing(ViewOf(x), id)
    {
      AdmittedIsViolated(r, x, c, met, id, n);
    }
    SameSet((x.objects[id].admissions - discharges) + admits, r.failing(ViewOf(x), id));
  }

  lemma SameSet(a: set<string>, b: set<string>)
    requires forall n :: n in a <==> n in b
    ensures a == b
  {
  }

  lemma InstalledAdmissions(c: Contents, v: Version, id: Id, o: Obj, admits: set<string>, discharges: set<string>)
    requires admits == AdmitsOf(c, v, id) && discharges == DischargesOf(c, id)
    ensures Installed(c, v, id, o).admissions == (o.admissions - discharges) + admits
  {
  }

  lemma AdmittedIsViolated(r: Runner, x: Outcome, c: Contents, met: set<Met>, id: Id, n: string)
    requires Sized(x) && Complete(r, x, met) && Gathers(c, met) && !HoldsFatal(c) && Decided(c, x.v)
    requires Judged(x, id) && x.objects[id].tn !in x.v.observations
    ensures (n in x.objects[id].admissions && n !in DischargesOf(c, id)) || n in AdmitsOf(c, x.v, id) <==>
            n in r.failing(ViewOf(x), id)
  {
    var o := x.objects[id];
    DischargesAreCured(r, x, c, met, id, n);
    if n in AdmitsOf(c, x.v, id) {
      AdmitsAreViolations(r, x, c, met, id, n);
    }
    if n in r.failing(ViewOf(x), id) && !Stands(x.moving, id, o, n) {
      assert Violates(r, x, id, o.tn, n);
      DecisionHeld(r, x, c, met, id, o.tn, n);
      assert Invariant(o.tn, n) in c.Keys && Admitted(x.v, o.tn, n);
    }
  }

  // redaction

  /** The name an attribute had before the version, a rename's. */
  function NameBefore(x: Outcome, id: Id, a: string, renames: seq<(string, string, string)>): string
    requires id in x.objects
  {
    if renames == [] then a
    else if renames[0].2 == a && IsA(KindsOf(x), x.objects[id].tn, renames[0].0) then renames[0].1
    else NameBefore(x, id, a, renames[1..])
  }

  /** What the version newly marks personal on an object already erased. */
  function NewlyPersonal(x: Outcome, id: Id): set<string>
    requires id in x.objects
  {
    if !Judged(x, id) || !x.objects[id].erased then {}
    else
      var declared := KindsOf(x)[x.objects[id].tn].attributes;
      var before := KindOf(x.s.kinds, if id in x.moving then x.moving[id] else x.objects[id].tn).attributes;
      set a | a in declared.Keys && declared[a].personal
              && (var named := if id in x.moving then a else NameBefore(x, id, a, x.v.migration.renamedAttributes);
                  named in before && !before[named].personal)
  }

  /** A personal value absent, a personal set emptied. */
  function Redacted(k: Kind, attrs: map<string, Val>, gone: set<string>): map<string, Val> {
    map a | a in attrs.Keys + gone && (a in gone ==> a in k.attributes && k.attributes[a].many) ::
      if a in gone then Many([]) else attrs[a]
  }
}
