/** The store a change moves through: requests on it, and its approval installed, event by event (scripts/flowpublish.py,
    `requested`, `approve`, `install`). */
module Stores {
  import opened Wrappers
  import opened Reports
  import opened Versions
  import opened Impact
  import opened Simulating
  import opened Judging
  import opened Publishing
  import opened Lifecycle
  import Runs

  class Store {
    const lab: Lab
    var changes: map<Id, Change>
    var kinds: Kinds
    var enums: map<string, seq<string>>
    var source: Source
    var objects: map<Id, Obj>
    var order: seq<Id>
    var proposals: map<Id, Proposal>
    var now: int
    var version: nat
    var position: nat
    var events: seq<Event>
    var next: Id
    var attempts: nat

    function Snapshot(): State
      reads this
    {
      State(changes, kinds, enums, source, objects, order, proposals, now, version, position, events, next, attempts)
    }

    ghost predicate Valid()
      reads this
    {
      StoreKept(lab, Snapshot())
    }

    /** A request on a change: taken; refused, with a row of the attempt log and nothing else; or not run, with nothing. */
    method Request(m: Transition, id: Option<Id>, actor: Actor, inputs: Option<Inputs>) returns (r: Result<Id, Refusal>)
      requires Valid()
      modifies this
      ensures Valid()
      ensures r.Err? ==> Snapshot() == old(Snapshot()).(attempts := if r.error.NotRunnable? then old(attempts) else old(attempts) + 1)
      ensures r.Ok? ==> RequestTaken(lab, old(Snapshot()), Snapshot(), m, actor, inputs, r.value)
                        && (id.Some? ==> r.value == id.value)
      ensures Barred(lab, old(Snapshot()), m, id, actor, inputs).Some? ==>
                r == Err(Barred(lab, old(Snapshot()), m, id, actor, inputs).value)
      ensures r.Err? && Barred(lab, old(Snapshot()), m, id, actor, inputs).None? ==>
                (m.Submit? || m.Refresh?) && id.Some? && DryRunRefused(lab, old(Snapshot()), id.value, old(now), r.error)
    {
      ghost var s := Snapshot();
      var barred := Barred(lab, Snapshot(), m, id, actor, inputs);
      if barred.Some? {
        Log();
        return Err(barred.value);
      }
      r := Take(m, id, actor, inputs);
      if r.Ok? {
        Runs.RequestIsGood(lab, s, Snapshot(), m, actor, inputs, r.value);
      } else if !r.error.NotRunnable? {
        Log();
      }
    }

    /** A row of the attempt log. */
    method Log()
      requires Valid()
      modifies this`attempts
      ensures Valid() && Snapshot() == old(Snapshot()).(attempts := old(attempts) + 1)
    {
      ghost var s := Snapshot();
      attempts := attempts + 1;
      Runs.StepIsGood(lab, s, Snapshot());
    }

    /** A request nothing bars, taken; or refused for its dry run, or not run. */
    method Take(m: Transition, id: Option<Id>, actor: Actor, inputs: Option<Inputs>) returns (r: Result<Id, Refusal>)
      requires Lists(order, objects.Keys) && Barred(lab, Snapshot(), m, id, actor, inputs).None?
      modifies this`changes, this`position, this`events, this`next
      ensures r.Ok? || (Snapshot() == old(Snapshot()) && (m.Submit? || m.Refresh?) && id.Some?
                        && DryRunRefused(lab, old(Snapshot()), id.value, old(now), r.error))
      ensures r.Err? || (RequestTaken(lab, old(Snapshot()), Snapshot(), m, actor, inputs, r.value)
                         && (id.Some? ==> r.value == id.value))
    {
      if m.Submit? || m.Refresh? {
        r := Resubmit(m, id.value, actor);
      } else if m.Draft? {
        r := DraftOf(actor, inputs.value);
      } else {
        r := MoveOn(m, id.value, actor, inputs);
      }
    }

    method DraftOf(actor: Actor, i: Inputs) returns (r: Result<Id, Refusal>)
      requires Barred(lab, Snapshot(), Draft, None, actor, Some(i)).None?
      modifies this`changes, this`position, this`events, this`next
      ensures r.Ok? && RequestTaken(lab, old(Snapshot()), Snapshot(), Draft, actor, Some(i), r.value)
    {
      var id := next;
      DraftTaken(lab, Snapshot(), actor, i);
      changes := changes[id := Change(DRAFTED, i.source, i.reference, lab.digest(i.source), version, None,
                                      actor.identity, 0)];
      next := next + 1;
      ChangeEvent(id, Draft, DRAFTED);
      r := Ok(id);
    }

    /** A change revised, or moved on as it is. */
    method MoveOn(m: Transition, id: Id, actor: Actor, inputs: Option<Inputs>) returns (r: Result<Id, Refusal>)
      requires Barred(lab, Snapshot(), m, Some(id), actor, inputs).None? && !m.Submit? && !m.Refresh?
      modifies this`changes, this`position, this`events
      ensures r == Ok(id) && RequestTaken(lab, old(Snapshot()), Snapshot(), m, actor, inputs, id)
    {
      if m.Revise? {
        var i := inputs.value;
        changes := changes[id := changes[id].(source := i.source, reference := i.reference,
                                              digest := lab.digest(i.source), base := version)];
      }
      ChangeEvent(id, m, To(m));
      assert changes == old(changes)[id := changes[id]];
      r := Ok(id);
    }

    /** A change's own event, at the next position, the change moving to its new state and version. */
    method ChangeEvent(id: Id, m: Transition, after: ChangeState)
      requires id in changes
      modifies this`changes, this`position, this`events
      ensures Snapshot() == Stepped(old(Snapshot()), m, id, after)
    {
      position := position + 1;
      changes := changes[id := changes[id].(state := after, version := changes[id].version + 1)];
      events := events + [Event(position, id, m, None)];
    }

    /** The dry run, its report attached, refused while it finds anything fatal. */
    method Resubmit(m: Transition, id: Id, actor: Actor) returns (r: Result<Id, Refusal>)
      requires Lists(order, objects.Keys) && (m.Submit? || m.Refresh?) && Barred(lab, Snapshot(), m, Some(id), actor, None).None?
      modifies this`changes, this`position, this`events
      ensures r.Ok? || (Snapshot() == old(Snapshot()) && DryRunRefused(lab, old(Snapshot()), id, old(now), r.error))
      ensures r.Err? || (r.value == id && RequestTaken(lab, old(Snapshot()), Snapshot(), m, actor, None, id))
    {
      var d := Rehearse(id);
      if d.Err? {
        return Err(d.error);
      }
      ghost var s := Snapshot();
      Attach(m, id, d.value);
      ResubmitTaken(lab, s, Snapshot(), m, actor, id, d.value);
      r := Ok(id);
    }

    /** A change's dry run: its report, or why it cannot be submitted. */
    method Rehearse(id: Id) returns (r: Result<Report, Refusal>)
      requires Lists(order, objects.Keys) && id in changes
      ensures r.Err? ==> DryRunRefused(lab, Snapshot(), id, now, r.error)
      ensures r.Ok? ==> Attached(lab, Snapshot(), id, changes[id], Some(r.value))
    {
      var d := Simulate(lab, StoredOf(lab, Snapshot(), id, now), changes[id].source, source, changes[id].digest);
      if d.None? {
        return Err(NotRunnable);
      }
      if HoldsFatal(d.value.report.contents) {
        assert RefusedBy(lab, Snapshot(), id, now, d.value, DryRunNotClean);
        return Err(DryRunNotClean);
      }
      AttachedBy(lab, Snapshot(), id, changes[id], d.value);
      r := Ok(d.value.report);
    }

    /** A report attached to its change, which moves with it. */
    method Attach(m: Transition, id: Id, report: Report)
      requires id in changes
      modifies this`changes, this`position, this`events
      ensures Snapshot() == WithReport(old(Snapshot()), m, id, report)
    {
      ReportStepped(Snapshot(), m, id, report);
      changes := changes[id := changes[id].(report := Some(report))];
      ChangeEvent(id, m, SUBMITTED);
    }

    // the approval

    /** Why an approval is refused before its dry run. */
    function Unapproved(id: Id, actor: Actor, expected: nat): Option<Refusal>
      requires id in changes
      reads this
    {
      var c := changes[id];
      if !actor.known then Some(ActorUnknown)
      else if c.state != SUBMITTED then Some(Unavailable)
      else if expected != c.version then Some(Stale)
      else if c.base != version then Some(NotCurrent)
      else if !Approves(lab, Snapshot(), actor) then Some(TakenBy)
      else None
    }

    /** The approval of a submitted change: its impact run again at the attached report's time, and its version installed
        where that finds nothing fatal, nothing its approver was not shown and no decision standing; else nothing. */
    method Approve(id: Id, actor: Actor, expected: nat) returns (r: Result<nat, Refusal>, ghost d: Option<DryRun>)
      requires Valid() && id in changes
      modifies this
      ensures Valid()
      ensures r.Err? ==> Snapshot() == old(Snapshot()) && !r.error.NotCurrent?
      ensures r.Ok? ==> d.Some? && ApprovalTaken(lab, old(Snapshot()), Snapshot(), id, actor, d.value)
                        && expected == old(changes)[id].version && r.value == old(position) + 1
      ensures old(Unapproved(id, actor, expected)).Some? ==> r == Err(old(Unapproved(id, actor, expected)).value)
      ensures old(Unapproved(id, actor, expected)).None? && r.Err? ==>
                ApprovalRefused(lab, old(Snapshot()), id, r.error)
    {
      d := None;
      var unapproved := Unapproved(id, actor, expected);
      assert ChangeKept(lab, Snapshot(), changes[id]);
      if unapproved.Some? {
        return Err(unapproved.value), d;
      }
      var c := changes[id];
      var attached := c.report.value;
      var stored := StoredOf(lab, Snapshot(), id, attached.now);
      var run := Simulate(lab, stored, c.source, source, c.digest);
      if run.None? {
        return Err(NotRunnable), d;
      }
      var refusal := RefusalOf(run.value, attached);
      if refusal.Some? {
        assert ApprovalRefusedBy(lab, Snapshot(), id, run.value, refusal.value);
        return Err(refusal.value), d;
      }
      d := run;
      r := Ok(position + 1);
      ghost var s := Snapshot();
      NamesHeld(stored, c.source, source, c.digest, run.value);
      Install(id, run.value.outcome.value, run.value.report.contents);
      Runs.ApprovalIsGood(lab, s, Snapshot(), id, actor, run.value);
    }

    /** A report supersedes other open changes alone, and invalidates proposals the store holds. */
    lemma NamesHeld(s: Stored, source: Source, installed: Source, digest: string, d: DryRun)
      requires IsReport(lab, s, source, installed, digest, d) && d.outcome.Some?
      ensures Sized(d.outcome.value) && d.outcome.value.s == s
      ensures forall k :: Named(d.report.contents, Superseded, k) ==> k in s.open
      ensures forall k :: Named(d.report.contents, ProposalsInvalidated, k) ==> k in s.proposals
    {
      var met :| Reported(lab, s, source, installed, digest, d, met);
      ImpactReported(lab, s, source, installed, digest, d, met);
      forall k
        ensures Named(d.report.contents, Superseded, k) ==> k in s.open
        ensures Named(d.report.contents, ProposalsInvalidated, k) ==> k in s.proposals
      {
        NamedIsMet(d.report.contents, met, Superseded, k);
        NamedIsMet(d.report.contents, met, ProposalsInvalidated, k);
        SupersededNamed(lab.runner, d.outcome.value, met, k);
        ProposalsNamed(lab.runner, d.outcome.value, met, k);
      }
    }

    /** The version installed, event by event: the publish, a migration of each object it reaches, the redactions it
        completes, the changes it supersedes and the proposals it breaks. */
    method Install(id: Id, x: Outcome, c: Contents)
      requires Installable(Snapshot(), id, x, c)
      modifies this
      ensures VersionInstalled(lab, old(Snapshot()), Snapshot(), id, x, c)
    {
      ghost var s := Snapshot();
      PublishChange(id, x, c);
      ghost var mid := Snapshot();
      Declare(x, changes[id].source);
      VersionBy(lab, s, mid, Snapshot(), id, x, c);
    }

    method Declare(x: Outcome, installed: Source)
      modifies this`kinds, this`enums, this`source, this`version
      ensures Snapshot() == WithVersion(old(Snapshot()), x, installed)
    {
      kinds, enums, source := KindsOf(x), x.v.enums, installed;
      version := version + 1;
    }

    /** The publish's own event and what it causes. */
    method PublishChange(id: Id, x: Outcome, c: Contents)
      requires Installable(Snapshot(), id, x, c)
      modifies this`changes, this`objects, this`proposals, this`position, this`events
      ensures Caused(lab, old(Snapshot()), Snapshot(), id, x, c)
    {
      ghost var s, due := Snapshot(), DueAll(x, c, objects.Keys, changes.Keys, proposals.Keys);
      ChangeEvent(id, Publish, PUBLISHED);
      ghost var mid := Snapshot();
      assert changes.Keys == s.changes.Keys;
      Follow(x, c, position, due);
      CausedBy(lab, s, mid, Snapshot(), id, x, c, due);
    }

    /** What a publish causes, after its own event. */
    method Follow(x: Outcome, c: Contents, publish: nat, ghost due: Marks)
      requires Held(x, c, order, objects.Keys, changes.Keys, proposals.Keys)
      requires due == DueAll(x, c, objects.Keys, changes.Keys, proposals.Keys)
      modifies this`changes, this`objects, this`proposals, this`position, this`events
      ensures AllSuperseded(c, old(changes), changes)
      ensures AllInstalled(lab.runner, x, c, order, old(objects), objects)
      ensures ProposalsInstalled(c, old(proposals), proposals)
      ensures LogFollowed(x, c, due, publish, old(events), old(position), events, position)
    {
      ghost var n, base := |events|, position - |events|;
      ghost var ids, cs := objects.Keys, changes.Keys;
      ghost var m := {} + DueOf(x, c, OfMigration, ids) + DueOf(x, c, OfRedaction, ids);
      ghost var m1 := m + DueOf(x, c, OfSupersession, cs);
      FreeRest(x, c, ids, cs);
      InstallObjects(x, c, publish, n, base, m);
      InstallRest(x, c, publish, n, base, m, m1, due);
    }

    ghost predicate Logged(x: Outcome, c: Contents, publish: nat, n: nat, base: int, marks: Marks)
      reads this
    {
      Logs(x, c, publish, n, base, marks, events, position)
    }

    /** The objects migrated, and then redacted. */
    method InstallObjects(x: Outcome, c: Contents, publish: nat, ghost n: nat, ghost base: int, ghost after: Marks)
      requires x.objects.Keys == objects.Keys && Lists(order, objects.Keys) && Logged(x, c, publish, n, base, {})
      requires after == {} + DueOf(x, c, OfMigration, objects.Keys) + DueOf(x, c, OfRedaction, objects.Keys)
      modifies this`objects, this`position, this`events
      ensures AllInstalled(lab.runner, x, c, order, old(objects), objects)
      ensures old(events) <= events && Logged(x, c, publish, n, base, after)
    {
      ghost var was, ids := objects, order;
      MigrateAll(x, c, publish, n, base, {});
      ghost var migrated := objects;
      DueFree({}, x, c, OfMigration, OfRedaction, objects.Keys);
      RedactAll(x, c, publish, n, base, {} + DueOf(x, c, OfMigration, objects.Keys));
      ObjectsInstalled(lab.runner, x, c, was, migrated, objects, ids);
    }

    /** The other open changes superseded, and the proposals the version breaks invalidated. */
    method InstallRest(x: Outcome, c: Contents, publish: nat, ghost n: nat, ghost base: int, ghost m: Marks,
                       ghost m1: Marks, ghost m2: Marks)
      requires forall k :: Named(c, Superseded, k) ==> k in changes
      requires forall k :: Named(c, ProposalsInvalidated, k) ==> k in proposals
      requires Logged(x, c, publish, n, base, m) && Free(m, OfSupersession) && Free(m1, OfInvalidation)
      requires m1 == m + DueOf(x, c, OfSupersession, changes.Keys) && m2 == m1 + DueOf(x, c, OfInvalidation, proposals.Keys)
      modifies this`changes, this`proposals, this`position, this`events
      ensures AllSuperseded(c, old(changes), changes)
      ensures ProposalsInstalled(c, old(proposals), proposals)
      ensures old(events) <= events && Logged(x, c, publish, n, base, m2)
    {
      SupersedeAll(x, c, publish, n, base, m);
      InvalidateAll(x, c, publish, n, base, m1);
    }

    method Record(subject: Id, transition: Transition, x: Outcome, c: Contents, publish: nat, ghost n: nat, ghost base: int,
                  ghost marks: Marks)
      requires Logged(x, c, publish, n, base, marks) && (subject, MarkOf(transition)) !in marks
      requires Reasoned(x, c, Event(position + 1, subject, transition, Some(publish)))
      modifies this`position, this`events
      ensures Logged(x, c, publish, n, base, marks + {(subject, MarkOf(transition))}) && old(events) <= events
    {
      var e := Event(position + 1, subject, transition, Some(publish));
      LogsMore(x, c, publish, n, base, marks, events, position, e);
      position, events := e.position, events + [e];
    }

    /** A migration of each object a mapping, an admit or a discharge reaches, in the order they were created. */
    method MigrateAll(x: Outcome, c: Contents, publish: nat, ghost n: nat, ghost base: int, ghost marks: Marks)
      requires x.objects.Keys == objects.Keys && Lists(order, objects.Keys)
      requires Logged(x, c, publish, n, base, marks) && Free(marks, OfMigration)
      modifies this`objects, this`position, this`events
      ensures AllMigrated(x, c, old(objects), objects, order)
      ensures Logged(x, c, publish, n, base, marks + DueOf(x, c, OfMigration, objects.Keys)) && old(events) <= events
    {
      ghost var was := objects;
      ghost var done: set<Id> := {};
      MigratedNone(x, c, publish, n, base, marks);
      for k := 0 to |order|
        invariant Migrating(x, c, publish, n, base, marks, was, k, done) && old(events) <= events
      {
        MigrateNext(x, c, publish, k, n, base, marks, was, done);
        done := done + {order[k]};
      }
      MigratedAll(x, c, publish, n, base, marks, was, done);
    }

    lemma MigratedNone(x: Outcome, c: Contents, publish: nat, n: nat, base: int, marks: Marks)
      requires x.objects.Keys == objects.Keys && Lists(order, objects.Keys) && Logged(x, c, publish, n, base, marks)
      ensures Migrating(x, c, publish, n, base, marks, objects, 0, {})
    {
      DueNone(marks, x, c, OfMigration);
    }

    lemma MigratedAll(x: Outcome, c: Contents, publish: nat, n: nat, base: int, marks: Marks, was: map<Id, Obj>, done: set<Id>)
      requires Migrating(x, c, publish, n, base, marks, was, |order|, done)
      ensures AllMigrated(x, c, was, objects, order)
      ensures Logged(x, c, publish, n, base, marks + DueOf(x, c, OfMigration, was.Keys))
    {
      assert order[..|order|] == order;
      assert done == was.Keys;
    }

    ghost predicate Migrating(x: Outcome, c: Contents, publish: nat, n: nat, base: int, marks: Marks, was: map<Id, Obj>,
                              k: nat, done: set<Id>)
      reads this
    {
      && k <= |order| && Lists(order, x.objects.Keys) && AllMigrated(x, c, was, objects, order[..k])
      && DoneTo(order, k, done)
      && Logged(x, c, publish, n, base, marks + DueOf(x, c, OfMigration, done))
    }

    method MigrateNext(x: Outcome, c: Contents, publish: nat, k: nat, ghost n: nat, ghost base: int, ghost marks: Marks,
                       ghost was: map<Id, Obj>, ghost done: set<Id>)
      requires k < |order| && Migrating(x, c, publish, n, base, marks, was, k, done) && Free(marks, OfMigration)
      modifies this`objects, this`position, this`events
      ensures Migrating(x, c, publish, n, base, marks, was, k + 1, done + {order[k]}) && old(events) <= events
    {
      MigratedNext(x, c, was, objects, order, k);
      DoneNext(order, x.objects.Keys, k, done);
      DueMore(marks, x, c, OfMigration, done, order[k]);
      MigrateOne(x, c, publish, order[k], n, base, marks + DueOf(x, c, OfMigration, done));
    }

    method MigrateOne(x: Outcome, c: Contents, publish: nat, id: Id, ghost n: nat, ghost base: int, ghost marks: Marks)
      requires x.objects.Keys == objects.Keys && id in objects
      requires Logged(x, c, publish, n, base, marks) && (id, Some(OfMigration)) !in marks
      modifies this`objects, this`position, this`events
      ensures objects == old(objects)[id := Migrated(x, c, old(objects)[id], id)]
      ensures Logged(x, c, publish, n, base, Plus(marks, x, c, OfMigration, id)) && old(events) <= events
    {
      if Judged(x, id) {
        if Migrates(c, x.v, id) {
          Record(id, Migrate(MappingsOf(c, id), AdmitsOf(c, x.v, id), DischargesOf(c, id)), x, c, publish, n, base, marks);
        }
        objects := objects[id := Installed(c, x.v, id, x.objects[id])];
      }
    }

    /** On each object already erased, what the version newly marks personal redacted. */
    method RedactAll(x: Outcome, c: Contents, publish: nat, ghost n: nat, ghost base: int, ghost marks: Marks)
      requires x.objects.Keys == objects.Keys && Lists(order, objects.Keys)
      requires Logged(x, c, publish, n, base, marks) && Free(marks, OfRedaction)
      modifies this`objects, this`position, this`events
      ensures AllRedacted(lab.runner, x, old(objects), objects, order)
      ensures Logged(x, c, publish, n, base, marks + DueOf(x, c, OfRedaction, objects.Keys)) && old(events) <= events
    {
      ghost var was, done: set<Id> := objects, {};
      RedactNone(lab.runner, x, c, publish, n, base, marks, objects, order, events, position);
      for k := 0 to |order|
        invariant Redacting(lab.runner, x, c, publish, n, base, marks, was, objects, order, k, done, events, position)
        invariant old(events) <= events
      {
        RedactAt(x, c, publish, k, n, base, marks, was, done);
        done := done + {order[k]};
      }
      RedactWhole(lab.runner, x, c, publish, n, base, marks, was, objects, order, done, events, position);
    }

    method RedactAt(x: Outcome, c: Contents, publish: nat, k: nat, ghost n: nat, ghost base: int, ghost marks: Marks,
                    ghost was: map<Id, Obj>, ghost done: set<Id>)
      requires k < |order| && Free(marks, OfRedaction)
      requires Redacting(lab.runner, x, c, publish, n, base, marks, was, objects, order, k, done, events, position)
      modifies this`objects, this`position, this`events
      ensures old(events) <= events
      ensures Redacting(lab.runner, x, c, publish, n, base, marks, was, objects, order, k + 1, done + {order[k]}, events, position)
    {
      ghost var now, log, at := objects, events, position;
      RedactNext(lab.runner, x, c, publish, n, base, marks, was, now, order, k, done, log, at);
      RedactOne(x, c, publish, order[k], n, base, marks + DueOf(x, c, OfRedaction, done));
      RedactFurther(lab.runner, x, c, publish, n, base, marks, was, now, order, k, done, log, at, objects, events, position);
    }

    method RedactOne(x: Outcome, c: Contents, publish: nat, id: Id, ghost n: nat, ghost base: int, ghost marks: Marks)
      requires x.objects.Keys == objects.Keys && id in objects
      requires Logged(x, c, publish, n, base, marks) && (id, Some(OfRedaction)) !in marks
      modifies this`objects, this`position, this`events
      ensures objects == RedactStep(lab.runner, x, old(objects), id)
      ensures Logged(x, c, publish, n, base, Plus(marks, x, c, OfRedaction, id)) && old(events) <= events
    {
      if NewlyPersonal(x, id) != {} {
        Record(id, Redact(NewlyPersonal(x, id)), x, c, publish, n, base, marks);
      }
      objects := RedactStep(lab.runner, x, objects, id);
    }

    /** Every other open change superseded. */
    method SupersedeAll(x: Outcome, c: Contents, publish: nat, ghost n: nat, ghost base: int, ghost marks: Marks)
      requires forall k :: Named(c, Superseded, k) ==> k in changes
      requires Logged(x, c, publish, n, base, marks) && Free(marks, OfSupersession)
      modifies this`changes, this`position, this`events
      ensures AllSuperseded(c, old(changes), changes) && old(events) <= events
      ensures Logged(x, c, publish, n, base, marks + DueOf(x, c, OfSupersession, changes.Keys))
    {
      var rest := if Superseded in c then c[Superseded].ids else {};
      ghost var done: set<Id>, was := {}, changes;
      SupersededNone(x, c, publish, n, base, marks, rest);
      while rest != {}
        invariant Superseding(x, c, publish, n, base, marks, was, rest, done) && old(events) <= events
        decreases rest
      {
        var id :| id in rest;
        SupersedeNext(x, c, publish, id, n, base, marks, was, rest, done);
        rest, done := rest - {id}, done + {id};
      }
      SupersededWhole(x, c, publish, n, base, marks, was, done);
    }

    lemma SupersededNone(x: Outcome, c: Contents, publish: nat, n: nat, base: int, marks: Marks, rest: set<Id>)
      requires (forall k :: Named(c, Superseded, k) <==> k in rest) && rest <= changes.Keys
      requires Logged(x, c, publish, n, base, marks)
      ensures Superseding(x, c, publish, n, base, marks, changes, rest, {})
    {
      DueNone(marks, x, c, OfSupersession);
    }

    lemma SupersededWhole(x: Outcome, c: Contents, publish: nat, n: nat, base: int, marks: Marks, was: map<Id, Change>, done: set<Id>)
      requires Superseding(x, c, publish, n, base, marks, was, {}, done)
      ensures AllSuperseded(c, was, changes)
      ensures Logged(x, c, publish, n, base, marks + DueOf(x, c, OfSupersession, was.Keys))
    {
      DueOnly(x, c, OfSupersession, done, was.Keys);
    }

    ghost predicate Superseding(x: Outcome, c: Contents, publish: nat, n: nat, base: int, marks: Marks,
                                was: map<Id, Change>, rest: set<Id>, done: set<Id>)
      reads this
    {
      && SupersededSoFar(c, was, changes, rest, done)
      && Logged(x, c, publish, n, base, marks + DueOf(x, c, OfSupersession, done))
    }

    method SupersedeNext(x: Outcome, c: Contents, publish: nat, id: Id, ghost n: nat, ghost base: int, ghost marks: Marks,
                         ghost was: map<Id, Change>, ghost rest: set<Id>, ghost done: set<Id>)
      requires Superseding(x, c, publish, n, base, marks, was, rest, done) && id in rest && Free(marks, OfSupersession)
      modifies this`changes, this`position, this`events
      ensures Superseding(x, c, publish, n, base, marks, was, rest - {id}, done + {id}) && old(events) <= events
    {
      SupersededFurther(c, was, changes, rest, done, id);
      DueMore(marks, x, c, OfSupersession, done, id);
      SupersedeOne(x, c, publish, id, n, base, marks + DueOf(x, c, OfSupersession, done));
    }

    method SupersedeOne(x: Outcome, c: Contents, publish: nat, id: Id, ghost n: nat, ghost base: int, ghost marks: Marks)
      requires id in changes && Named(c, Superseded, id)
      requires Logged(x, c, publish, n, base, marks) && (id, Some(OfSupersession)) !in marks
      modifies this`changes, this`position, this`events
      ensures changes == old(changes)[id := SupersededChange(c, id, old(changes)[id])] && old(events) <= events
      ensures Logged(x, c, publish, n, base, Plus(marks, x, c, OfSupersession, id))
    {
      Record(id, Supersede, x, c, publish, n, base, marks);
      changes := changes[id := changes[id].(state := SUPERSEDED, version := changes[id].version + 1)];
    }

    /** Each pending proposal the version breaks invalidated. */
    method InvalidateAll(x: Outcome, c: Contents, publish: nat, ghost n: nat, ghost base: int, ghost marks: Marks)
      requires forall k :: Named(c, ProposalsInvalidated, k) ==> k in proposals
      requires Logged(x, c, publish, n, base, marks) && Free(marks, OfInvalidation)
      modifies this`proposals, this`position, this`events
      ensures ProposalsInstalled(c, old(proposals), proposals) && old(events) <= events
      ensures Logged(x, c, publish, n, base, marks + DueOf(x, c, OfInvalidation, proposals.Keys))
    {
      var rest := if ProposalsInvalidated in c then c[ProposalsInvalidated].ids else {};
      ghost var done: set<Id>, was := {}, proposals;
      InvalidatedNone(x, c, publish, n, base, marks, rest);
      while rest != {}
        invariant Invalidating(x, c, publish, n, base, marks, was, rest, done) && old(events) <= events
        decreases rest
      {
        var id :| id in rest;
        InvalidateNext(x, c, publish, id, n, base, marks, was, rest, done);
        rest, done := rest - {id}, done + {id};
      }
      InvalidatedWhole(x, c, publish, n, base, marks, was, done);
    }

    lemma InvalidatedNone(x: Outcome, c: Contents, publish: nat, n: nat, base: int, marks: Marks, rest: set<Id>)
      requires (forall k :: Named(c, ProposalsInvalidated, k) <==> k in rest) && rest <= proposals.Keys
      requires Logged(x, c, publish, n, base, marks)
      ensures Invalidating(x, c, publish, n, base, marks, proposals, rest, {})
    {
      DueNone(marks, x, c, OfInvalidation);
    }

    lemma InvalidatedWhole(x: Outcome, c: Contents, publish: nat, n: nat, base: int, marks: Marks, was: map<Id, Proposal>, done: set<Id>)
      requires Invalidating(x, c, publish, n, base, marks, was, {}, done)
      ensures ProposalsInstalled(c, was, proposals)
      ensures Logged(x, c, publish, n, base, marks + DueOf(x, c, OfInvalidation, was.Keys))
    {
      DueOnly(x, c, OfInvalidation, done, was.Keys);
    }

    ghost predicate Invalidating(x: Outcome, c: Contents, publish: nat, n: nat, base: int, marks: Marks,
                                 was: map<Id, Proposal>, rest: set<Id>, done: set<Id>)
      reads this
    {
      && InvalidatedSoFar(c, was, proposals, rest, done)
      && Logged(x, c, publish, n, base, marks + DueOf(x, c, OfInvalidation, done))
    }

    method InvalidateNext(x: Outcome, c: Contents, publish: nat, id: Id, ghost n: nat, ghost base: int, ghost marks: Marks,
                          ghost was: map<Id, Proposal>, ghost rest: set<Id>, ghost done: set<Id>)
      requires Invalidating(x, c, publish, n, base, marks, was, rest, done) && id in rest && Free(marks, OfInvalidation)
      modifies this`proposals, this`position, this`events
      ensures Invalidating(x, c, publish, n, base, marks, was, rest - {id}, done + {id}) && old(events) <= events
    {
      InvalidatedFurther(c, was, proposals, rest, done, id);
      DueMore(marks, x, c, OfInvalidation, done, id);
      InvalidateOne(x, c, publish, id, n, base, marks + DueOf(x, c, OfInvalidation, done));
    }

    method InvalidateOne(x: Outcome, c: Contents, publish: nat, id: Id, ghost n: nat, ghost base: int, ghost marks: Marks)
      requires id in proposals && Named(c, ProposalsInvalidated, id)
      requires Logged(x, c, publish, n, base, marks) && (id, Some(OfInvalidation)) !in marks
      modifies this`proposals, this`position, this`events
      ensures proposals == old(proposals)[id := InvalidatedProposal(c, id, old(proposals)[id])] && old(events) <= events
      ensures Logged(x, c, publish, n, base, Plus(marks, x, c, OfInvalidation, id))
    {
      Record(id, Invalidate, x, c, publish, n, base, marks);
      proposals := proposals[id := proposals[id].(pending := false, version := proposals[id].version + 1)];
    }
  }
}
