/** What a request and an approval do to a store, and what every store keeps (scripts/flowpublish.py, `MOVES`, `requested`,
    `approve`, `install`). */
module Lifecycle {
  import opened Wrappers
  import opened Reports
  import opened Versions
  import opened Impact
  import opened Simulating
  import opened Judging
  import opened Publishing

  /** Each transition a request may take: the states it leaves, none for the creation, and the one it enters. */
  function Froms(m: Transition): set<ChangeState> {
    match m
    case Revise => {DRAFTED}
    case Reopen => {SUBMITTED}
    case Submit => {DRAFTED}
    case Refresh => {SUBMITTED}
    case Reject => {SUBMITTED}
    case Withdraw => {DRAFTED, SUBMITTED}
    case _ => {}
  }

  predicate Requestable(m: Transition) {
    m.Draft? || m.Revise? || m.Reopen? || m.Submit? || m.Refresh? || m.Reject? || m.Withdraw?
  }

  function To(m: Transition): ChangeState {
    match m
    case Submit => SUBMITTED
    case Refresh => SUBMITTED
    case Reject => REJECTED
    case Withdraw => WITHDRAWN
    case _ => DRAFTED
  }

  /** Why a request is refused before any dry run. */
  function Barred(lab: Lab, s: State, m: Transition, id: Option<Id>, actor: Actor, inputs: Option<Inputs>): Option<Refusal> {
    if !actor.known then Some(ActorUnknown)
    else if id.Some? && id.value !in s.changes then Some(NotFound)
    else if (m.Supersede? || m.Publish?) && id.Some? then Some(NotRequestable)
    else if !Requestable(m) || m.Draft? != id.None? then Some(UnknownTransition)
    else if id.Some? && s.changes[id.value].state !in Froms(m) then Some(Unavailable)
    else if id.Some? && s.changes[id.value].drafter != actor.identity && !Approves(lab, s, actor) then Some(TakenBy)
    else if (m.Draft? || m.Revise?) && (inputs.None? || !lab.formed(inputs.value)) then Some(InvalidInput)
    else if !m.Draft? && !m.Revise? && inputs.Some? then Some(InvalidInput)
    else None
  }

  predicate Approves(lab: Lab, s: State, actor: Actor) {
    MayApprove(lab.approvers(s.source), actor.kind) || actor.operator
  }

  /** A change as a request leaves it. */
  ghost predicate Requested(lab: Lab, s: State, m: Transition, actor: Actor, inputs: Option<Inputs>, id: Id, was: Option<Change>,
                            c: Change)
  {
    if m.Draft? then
      && inputs.Some? && was.None?
      && c == Change(DRAFTED, inputs.value.source, inputs.value.reference, lab.digest(inputs.value.source), s.version,
                     None, actor.identity, 1)
    else if was.None? then false
    else if m.Revise? then
      && inputs.Some?
      && c == was.value.(source := inputs.value.source, reference := inputs.value.reference,
                         digest := lab.digest(inputs.value.source), base := s.version, version := was.value.version + 1)
    else
      && c == was.value.(state := To(m), report := c.report, version := was.value.version + 1)
      && if m.Submit? || m.Refresh? then Attached(lab, s, id, was.value, c.report) else c.report == was.value.report
  }

  /** A report attached is a dry run's of the source the change holds, and finds nothing fatal. */
  ghost predicate Attached(lab: Lab, s: State, id: Id, c: Change, report: Option<Report>) {
    && report.Some? && !HoldsFatal(report.value.contents) && report.value.digest == c.digest
    && forall r | report == Some(r) :: IsDryRun(lab, s, id, c, r)
  }

  ghost predicate IsDryRun(lab: Lab, s: State, id: Id, c: Change, r: Report) {
    exists d: DryRun :: d.report == r && IsReport(lab, StoredOf(lab, s, id, s.now), c.source, s.source, c.digest, d)
  }

  lemma AttachedBy(lab: Lab, s: State, id: Id, c: Change, d: DryRun)
    requires IsReport(lab, StoredOf(lab, s, id, s.now), c.source, s.source, c.digest, d) && !HoldsFatal(d.report.contents)
    ensures Attached(lab, s, id, c, Some(d.report))
  {
    assert IsDryRun(lab, s, id, c, d.report);
  }

  /** The store with a change moved on, its own event at the next position. */
  function Stepped(s: State, m: Transition, id: Id, after: ChangeState): State
    requires id in s.changes
  {
    s.(changes := s.changes[id := s.changes[id].(state := after, version := s.changes[id].version + 1)],
       position := s.position + 1, events := s.events + [Event(s.position + 1, id, m, None)])
  }

  /** The store with a report attached to a change, which moves on with it. */
  function WithReport(s: State, m: Transition, id: Id, report: Report): State
    requires id in s.changes
  {
    var c := s.changes[id];
    s.(changes := s.changes[id := c.(report := Some(report), state := SUBMITTED, version := c.version + 1)],
       position := s.position + 1, events := s.events + [Event(s.position + 1, id, m, None)])
  }

  lemma ReportStepped(s: State, m: Transition, id: Id, report: Report)
    requires id in s.changes
    ensures Stepped(s.(changes := s.changes[id := s.changes[id].(report := Some(report))]), m, id, SUBMITTED)
         == WithReport(s, m, id, report)
  {
    var first := s.changes[id := s.changes[id].(report := Some(report))];
    assert first[id := WithReport(s, m, id, report).changes[id]] == WithReport(s, m, id, report).changes;
  }

  /** The store with a change drafted. */
  function WithDraft(lab: Lab, s: State, actor: Actor, i: Inputs): State {
    var c := Change(DRAFTED, i.source, i.reference, lab.digest(i.source), s.version, None, actor.identity, 0);
    Stepped(s.(changes := s.changes[s.next := c], next := s.next + 1), Draft, s.next, DRAFTED)
  }

  lemma DraftTaken(lab: Lab, s: State, actor: Actor, i: Inputs)
    requires Barred(lab, s, Draft, None, actor, Some(i)).None?
    ensures RequestTaken(lab, s, WithDraft(lab, s, actor, i), Draft, actor, Some(i), s.next)
  {
    var t := WithDraft(lab, s, actor, i);
    assert t.changes == s.changes[s.next := t.changes[s.next]];
  }

  lemma ResubmitTaken(lab: Lab, s: State, t: State, m: Transition, actor: Actor, id: Id, report: Report)
    requires (m.Submit? || m.Refresh?) && Barred(lab, s, m, Some(id), actor, None).None?
    requires Attached(lab, s, id, s.changes[id], Some(report))
    requires id in s.changes && t == WithReport(s, m, id, report)
    ensures RequestTaken(lab, s, t, m, actor, None, id)
  {
    ResubmitRequested(lab, s, m, actor, id, report);
    assert t.changes == s.changes[id := t.changes[id]];
  }

  lemma ResubmitRequested(lab: Lab, s: State, m: Transition, actor: Actor, id: Id, report: Report)
    requires (m.Submit? || m.Refresh?) && id in s.changes && Attached(lab, s, id, s.changes[id], Some(report))
    ensures Requested(lab, s, m, actor, None, id, Some(s.changes[id]), WithReport(s, m, id, report).changes[id])
  {
  }

  /** The store after a request is taken: the change moved, one event more, and nothing else. */
  ghost predicate RequestTaken(lab: Lab, s: State, t: State, m: Transition, actor: Actor, inputs: Option<Inputs>, id: Id) {
    && Barred(lab, s, m, if m.Draft? then None else Some(id), actor, inputs).None?
    && (m.Draft? ==> id == s.next)
    && id in t.changes
    && t == s.(changes := s.changes[id := t.changes[id]], next := if m.Draft? then s.next + 1 else s.next,
               position := s.position + 1, events := s.events + [Event(s.position + 1, id, m, None)])
    && Requested(lab, s, m, actor, inputs, id, if m.Draft? then None else Some(s.changes[id]), t.changes[id])
  }

  // the approval

  /** A report shows nothing its approver was not shown, the changes it supersedes apart. */
  predicate AllShown(c: Contents, shown: Contents) {
    forall code | code in c && !code.Superseded? && c[code].ids != {} :: code in shown && c[code].ids <= shown[code].ids
  }

  /** The event an approval records of what its report names, each caused by the publish. */
  predicate Reasoned(x: Outcome, c: Contents, e: Event) {
    match e.transition
    case Migrate(mappings, admits, discharges) =>
      && e.subject in x.objects && Judged(x, e.subject) && Migrates(c, x.v, e.subject)
      && mappings == MappingsOf(c, e.subject) && admits == AdmitsOf(c, x.v, e.subject)
      && discharges == DischargesOf(c, e.subject)
    case Redact(attrs) => e.subject in x.objects && attrs == NewlyPersonal(x, e.subject) && attrs != {}
    case Supersede => Named(c, Superseded, e.subject)
    case Invalidate => Named(c, ProposalsInvalidated, e.subject)
    case _ => false
  }

  /** The events from an index on, at positions one after another, each caused by the publish. */
  ghost predicate Recorded(x: Outcome, c: Contents, publish: nat, n: nat, events: seq<Event>, base: int) {
    && n <= |events|
    && forall i | n <= i < |events| ::
         events[i].position == base + i + 1 && events[i].cause == Some(publish) && Reasoned(x, c, events[i])
  }

  /** The kinds of event a publish causes. */
  datatype Mark = OfMigration | OfRedaction | OfSupersession | OfInvalidation

  function MarkOf(t: Transition): Option<Mark> {
    match t
    case Migrate(_, _, _) => Some(OfMigration)
    case Redact(_) => Some(OfRedaction)
    case Supersede => Some(OfSupersession)
    case Invalidate => Some(OfInvalidation)
    case _ => None
  }

  /** What a publish is due to record of an object, a change or a proposal. */
  predicate IsDue(x: Outcome, c: Contents, mark: Mark, id: Id) {
    match mark
    case OfMigration => id in x.objects && Judged(x, id) && Migrates(c, x.v, id)
    case OfRedaction => id in x.objects && NewlyPersonal(x, id) != {}
    case OfSupersession => Named(c, Superseded, id)
    case OfInvalidation => Named(c, ProposalsInvalidated, id)
  }

  type Marks = set<(Id, Option<Mark>)>

  function DueOf(x: Outcome, c: Contents, mark: Mark, ids: set<Id>): Marks {
    set id | id in ids && IsDue(x, c, mark, id) :: (id, Some(mark))
  }

  /** The events from an index on, by what they are of. */
  function MarksOf(n: nat, events: seq<Event>): Marks {
    set i | n <= i < |events| :: (events[i].subject, MarkOf(events[i].transition))
  }

  /** Each recorded once. */
  ghost predicate Once(n: nat, events: seq<Event>) {
    n <= |events| && |MarksOf(n, events)| == |events| - n
  }

  lemma MarkedMore(n: nat, events: seq<Event>, e: Event)
    requires n <= |events|
    ensures MarksOf(n, events + [e]) == MarksOf(n, events) + {(e.subject, MarkOf(e.transition))}
    ensures Once(n, events) && (e.subject, MarkOf(e.transition)) !in MarksOf(n, events) ==> Once(n, events + [e])
  {
    var all := events + [e];
    forall i | n <= i < |events|
      ensures all[i] == events[i]
    {
    }
    forall m
      ensures m in MarksOf(n, all) <==> m in MarksOf(n, events) + {(e.subject, MarkOf(e.transition))}
    {
      if m in MarksOf(n, events) {
        var i :| n <= i < |events| && m == (events[i].subject, MarkOf(events[i].transition));
        assert all[i] == events[i];
      }
      if m == (e.subject, MarkOf(e.transition)) {
        assert all[|events|] == e;
      }
    }
  }

  /** None recorded of a kind yet. */
  ghost predicate Free(marks: Marks, mark: Mark) {
    forall m | m in marks :: m.1 != Some(mark)
  }

  /** What is recorded once one more is. */
  function Plus(marks: Marks, x: Outcome, c: Contents, mark: Mark, id: Id): Marks {
    if IsDue(x, c, mark, id) then marks + {(id, Some(mark))} else marks
  }

  lemma DueMore(marks: Marks, x: Outcome, c: Contents, mark: Mark, done: set<Id>, id: Id)
    requires Free(marks, mark) && id !in done
    ensures Plus(marks + DueOf(x, c, mark, done), x, c, mark, id) == marks + DueOf(x, c, mark, done + {id})
    ensures (id, Some(mark)) !in marks + DueOf(x, c, mark, done)
  {
  }

  lemma DueNone(marks: Marks, x: Outcome, c: Contents, mark: Mark)
    ensures marks + DueOf(x, c, mark, {}) == marks
  {
  }

  lemma DueFree(marks: Marks, x: Outcome, c: Contents, mark: Mark, other: Mark, ids: set<Id>)
    requires Free(marks, other) && mark != other
    ensures Free(marks + DueOf(x, c, mark, ids), other)
  {
  }

  lemma DueOnly(x: Outcome, c: Contents, mark: Mark, done: set<Id>, ids: set<Id>)
    requires done <= ids && forall id | id in ids && IsDue(x, c, mark, id) :: id in done
    ensures DueOf(x, c, mark, ids) == DueOf(x, c, mark, done)
  {
  }

  /** All a publish is due to record. */
  function DueAll(x: Outcome, c: Contents, objects: set<Id>, changes: set<Id>, proposals: set<Id>): Marks {
    {} + DueOf(x, c, OfMigration, objects) + DueOf(x, c, OfRedaction, objects) + DueOf(x, c, OfSupersession, changes)
    + DueOf(x, c, OfInvalidation, proposals)
  }

  lemma FreeRest(x: Outcome, c: Contents, objects: set<Id>, changes: set<Id>)
    ensures var m := {} + DueOf(x, c, OfMigration, objects) + DueOf(x, c, OfRedaction, objects);
            Free(m, OfSupersession) && Free(m + DueOf(x, c, OfSupersession, changes), OfInvalidation)
  {
  }

  /** The log from an index on, at positions the base gives, each event caused by the publish, and these marks once each. */
  ghost predicate Logs(x: Outcome, c: Contents, publish: nat, n: nat, base: int, marks: Marks, events: seq<Event>,
                       position: nat)
  {
    && position - |events| == base && Recorded(x, c, publish, n, events, base) && Once(n, events)
    && MarksOf(n, events) == marks
  }

  lemma LogsMore(x: Outcome, c: Contents, publish: nat, n: nat, base: int, marks: Marks, events: seq<Event>, position: nat,
                 e: Event)
    requires Logs(x, c, publish, n, base, marks, events, position) && (e.subject, MarkOf(e.transition)) !in marks
    requires Reasoned(x, c, e) && e.position == position + 1 && e.cause == Some(publish)
    ensures Logs(x, c, publish, n, base, marks + {(e.subject, MarkOf(e.transition))}, events + [e], e.position)
  {
    MarkedMore(n, events, e);
    assert forall i | n <= i < |events| :: (events + [e])[i] == events[i];
  }

  /** An object before any redaction. */
  function Migrated(x: Outcome, c: Contents, was: Obj, id: Id): Obj
    requires id in x.objects
  {
    if Judged(x, id) then Installed(c, x.v, id, x.objects[id]) else was
  }

  /** An object after its redaction, which admits what it leaves violated. */
  ghost predicate RedactedFrom(x: Outcome, settled: Obj, o: Obj, id: Id)
    requires id in x.objects
  {
    var gone := NewlyPersonal(x, id);
    if gone == {} then o == settled
    else
      && o == settled.(attrs := Redacted(KindOf(KindsOf(x), settled.tn), settled.attrs, gone), admissions := o.admissions,
                       version := settled.version + 1)
      && settled.admissions <= o.admissions
  }

  /** An object's redaction, among the objects as they then stand, admitting every invariant the absence leaves violated. */
  function RedactStep(r: Runner, x: Outcome, objects: map<Id, Obj>, id: Id): map<Id, Obj>
    requires objects.Keys == x.objects.Keys
  {
    if id !in objects || NewlyPersonal(x, id) == {} then objects
    else
      var was := objects[id];
      var o := was.(attrs := Redacted(KindOf(KindsOf(x), was.tn), was.attrs, NewlyPersonal(x, id)));
      var failing := r.failing(ViewOf(x).(objects := objects[id := o]), id);
      objects[id := o.(admissions := o.admissions + failing, version := o.version + 1)]
  }

  /** The redactions of some of the objects, in the order they were created. */
  function RedactedOver(r: Runner, x: Outcome, objects: map<Id, Obj>, order: seq<Id>): (now: map<Id, Obj>)
    requires objects.Keys == x.objects.Keys
    ensures now.Keys == objects.Keys
  {
    if order == [] then objects
    else RedactStep(r, x, RedactedOver(r, x, objects, order[..|order| - 1]), order[|order| - 1])
  }

  function MigratedAll(x: Outcome, c: Contents, objects: map<Id, Obj>): map<Id, Obj>
    requires objects.Keys == x.objects.Keys
  {
    map id | id in objects :: Migrated(x, c, objects[id], id)
  }

  ghost predicate ObjectInstalled(x: Outcome, c: Contents, was: Obj, o: Obj, id: Id)
    requires id in x.objects
  {
    RedactedFrom(x, Migrated(x, c, was, id), o, id)
  }

  /** A sequence that names each of a set once. */
  ghost predicate Lists(order: seq<Id>, ids: set<Id>) {
    (forall k :: k in ids <==> k in order) && (forall i, j | 0 <= i < j < |order| :: order[i] != order[j])
  }

  /** The objects named first. */
  ghost predicate DoneTo(order: seq<Id>, k: nat, done: set<Id>) {
    k <= |order| && forall id :: id in done <==> id in order[..k]
  }

  lemma DoneNext(order: seq<Id>, ids: set<Id>, k: nat, done: set<Id>)
    requires Lists(order, ids) && k < |order| && DoneTo(order, k, done)
    ensures DoneTo(order, k + 1, done + {order[k]}) && order[k] !in done
  {
    NextListed(order, ids, k);
  }

  lemma NextListed(order: seq<Id>, ids: set<Id>, n: nat)
    requires Lists(order, ids) && n < |order|
    ensures order[n] in ids && order[n] !in order[..n] && order[..n + 1] == order[..n] + [order[n]]
  {
  }

  ghost predicate AllMigrated(x: Outcome, c: Contents, was: map<Id, Obj>, now: map<Id, Obj>, done: seq<Id>) {
    && now.Keys == was.Keys == x.objects.Keys
    && forall k | k in was :: now[k] == if k in done then Migrated(x, c, was[k], k) else was[k]
  }

  lemma MigratedMore(x: Outcome, c: Contents, was: map<Id, Obj>, now: map<Id, Obj>, done: seq<Id>, id: Id)
    requires AllMigrated(x, c, was, now, done) && id in was && id !in done
    ensures AllMigrated(x, c, was, now[id := Migrated(x, c, now[id], id)], done + [id])
  {
  }

  ghost predicate AllRedacted(r: Runner, x: Outcome, was: map<Id, Obj>, now: map<Id, Obj>, done: seq<Id>) {
    && now.Keys == was.Keys == x.objects.Keys && now == RedactedOver(r, x, was, done)
    && forall k | k in was :: if k in done then RedactedFrom(x, was[k], now[k], k) else now[k] == was[k]
  }

  lemma RedactedMore(r: Runner, x: Outcome, was: map<Id, Obj>, now: map<Id, Obj>, done: seq<Id>, id: Id)
    requires AllRedacted(r, x, was, now, done) && id in was && id !in done
    ensures AllRedacted(r, x, was, RedactStep(r, x, now, id), done + [id])
  {
    assert (done + [id])[..|done|] == done;
    StepRedacts(r, x, now, id);
  }

  /** As far as some of the objects, in the order they were created. */
  ghost predicate RedactedTo(r: Runner, x: Outcome, was: map<Id, Obj>, now: map<Id, Obj>, order: seq<Id>, k: nat) {
    k <= |order| && AllRedacted(r, x, was, now, order[..k])
  }

  /** The next of a sequence that names each object once, redacted. */
  lemma RedactedNext(r: Runner, x: Outcome, was: map<Id, Obj>, now: map<Id, Obj>, order: seq<Id>, k: nat)
    requires Lists(order, x.objects.Keys) && k < |order| && RedactedTo(r, x, was, now, order, k)
    ensures order[k] in now && now.Keys == x.objects.Keys
    ensures RedactedTo(r, x, was, RedactStep(r, x, now, order[k]), order, k + 1)
  {
    NextListed(order, x.objects.Keys, k);
    RedactedMore(r, x, was, now, order[..k], order[k]);
  }

  lemma MigratedNext(x: Outcome, c: Contents, was: map<Id, Obj>, now: map<Id, Obj>, order: seq<Id>, k: nat)
    requires Lists(order, x.objects.Keys) && k < |order| && AllMigrated(x, c, was, now, order[..k])
    ensures order[k] in now && order[k] in x.objects
    ensures AllMigrated(x, c, was, now[order[k] := Migrated(x, c, now[order[k]], order[k])], order[..k + 1])
  {
    NextListed(order, x.objects.Keys, k);
    MigratedMore(x, c, was, now, order[..k], order[k]);
  }

  /** Redactions as far as some of the objects, each recorded. */
  ghost predicate Redacting(r: Runner, x: Outcome, c: Contents, publish: nat, n: nat, base: int, marks: Marks,
                            was: map<Id, Obj>, now: map<Id, Obj>, order: seq<Id>, k: nat, done: set<Id>,
                            events: seq<Event>, position: nat)
  {
    && Lists(order, x.objects.Keys) && RedactedTo(r, x, was, now, order, k) && DoneTo(order, k, done)
    && Logs(x, c, publish, n, base, marks + DueOf(x, c, OfRedaction, done), events, position)
  }

  lemma RedactNone(r: Runner, x: Outcome, c: Contents, publish: nat, n: nat, base: int, marks: Marks, now: map<Id, Obj>,
                   order: seq<Id>, events: seq<Event>, position: nat)
    requires x.objects.Keys == now.Keys && Lists(order, now.Keys)
    requires Logs(x, c, publish, n, base, marks, events, position)
    ensures Redacting(r, x, c, publish, n, base, marks, now, now, order, 0, {}, events, position)
  {
    DueNone(marks, x, c, OfRedaction);
  }

  /** The next object, before its redaction is recorded. */
  lemma RedactNext(r: Runner, x: Outcome, c: Contents, publish: nat, n: nat, base: int, marks: Marks, was: map<Id, Obj>,
                   now: map<Id, Obj>, order: seq<Id>, k: nat, done: set<Id>, events: seq<Event>, position: nat)
    requires k < |order| && Redacting(r, x, c, publish, n, base, marks, was, now, order, k, done, events, position)
    requires Free(marks, OfRedaction)
    ensures order[k] in now && now.Keys == x.objects.Keys
    ensures Logs(x, c, publish, n, base, marks + DueOf(x, c, OfRedaction, done), events, position)
    ensures (order[k], Some(OfRedaction)) !in marks + DueOf(x, c, OfRedaction, done)
  {
    RedactedNext(r, x, was, now, order, k);
    DoneNext(order, x.objects.Keys, k, done);
    DueMore(marks, x, c, OfRedaction, done, order[k]);
  }

  /** And after it is. */
  lemma RedactFurther(r: Runner, x: Outcome, c: Contents, publish: nat, n: nat, base: int, marks: Marks, was: map<Id, Obj>,
                      now: map<Id, Obj>, order: seq<Id>, k: nat, done: set<Id>, events: seq<Event>, position: nat,
                      next: map<Id, Obj>, events': seq<Event>, position': nat)
    requires k < |order| && Redacting(r, x, c, publish, n, base, marks, was, now, order, k, done, events, position)
    requires Free(marks, OfRedaction) && now.Keys == x.objects.Keys && next == RedactStep(r, x, now, order[k])
    requires Logs(x, c, publish, n, base, Plus(marks + DueOf(x, c, OfRedaction, done), x, c, OfRedaction, order[k]),
                  events', position')
    ensures Redacting(r, x, c, publish, n, base, marks, was, next, order, k + 1, done + {order[k]}, events', position')
  {
    RedactedNext(r, x, was, now, order, k);
    DoneNext(order, x.objects.Keys, k, done);
    DueMore(marks, x, c, OfRedaction, done, order[k]);
  }

  lemma RedactWhole(r: Runner, x: Outcome, c: Contents, publish: nat, n: nat, base: int, marks: Marks, was: map<Id, Obj>,
                    now: map<Id, Obj>, order: seq<Id>, done: set<Id>, events: seq<Event>, position: nat)
    requires Redacting(r, x, c, publish, n, base, marks, was, now, order, |order|, done, events, position)
    ensures AllRedacted(r, x, was, now, order)
    ensures Logs(x, c, publish, n, base, marks + DueOf(x, c, OfRedaction, was.Keys), events, position)
  {
    assert order[..|order|] == order;
    assert done == was.Keys;
  }

  lemma StepRedacts(r: Runner, x: Outcome, now: map<Id, Obj>, id: Id)
    requires now.Keys == x.objects.Keys && id in now
    ensures var next := RedactStep(r, x, now, id);
            next.Keys == now.Keys && next == now[id := next[id]] && RedactedFrom(x, now[id], next[id], id)
  {
  }

  ghost predicate AllInstalled(r: Runner, x: Outcome, c: Contents, order: seq<Id>, was: map<Id, Obj>, now: map<Id, Obj>) {
    && now.Keys == was.Keys == x.objects.Keys
    && now == RedactedOver(r, x, MigratedAll(x, c, was), order)
    && forall k | k in was :: ObjectInstalled(x, c, was[k], now[k], k)
  }

  lemma ObjectsInstalled(r: Runner, x: Outcome, c: Contents, was: map<Id, Obj>, migrated: map<Id, Obj>, now: map<Id, Obj>,
                         order: seq<Id>)
    requires AllMigrated(x, c, was, migrated, order) && AllRedacted(r, x, migrated, now, order)
    requires Lists(order, was.Keys)
    ensures AllInstalled(r, x, c, order, was, now)
  {
    assert migrated == MigratedAll(x, c, was);
    forall k | k in was
      ensures ObjectInstalled(x, c, was[k], now[k], k)
    {
      assert migrated[k] == Migrated(x, c, was[k], k);
    }
  }

  function SupersededChange(c: Contents, id: Id, was: Change): Change {
    if Named(c, Superseded, id) then was.(state := SUPERSEDED, version := was.version + 1) else was
  }

  function InvalidatedProposal(c: Contents, id: Id, was: Proposal): Proposal {
    if Named(c, ProposalsInvalidated, id) then was.(pending := false, version := was.version + 1) else was
  }

  /** Some of the changes a report names superseded, and the rest of those it names. */
  ghost predicate SupersededSoFar(c: Contents, was: map<Id, Change>, now: map<Id, Change>, rest: set<Id>, done: set<Id>) {
    && rest !! done && (forall k :: Named(c, Superseded, k) <==> k in rest || k in done)
    && now.Keys == was.Keys && rest + done <= now.Keys
    && forall k | k in now :: now[k] == if k in done then SupersededChange(c, k, was[k]) else was[k]
  }

  lemma SupersededFurther(c: Contents, was: map<Id, Change>, now: map<Id, Change>, rest: set<Id>, done: set<Id>, id: Id)
    requires SupersededSoFar(c, was, now, rest, done) && id in rest
    ensures Named(c, Superseded, id) && id in now && id !in done
    ensures SupersededSoFar(c, was, now[id := SupersededChange(c, id, now[id])], rest - {id}, done + {id})
  {
  }

  ghost predicate InvalidatedSoFar(c: Contents, was: map<Id, Proposal>, now: map<Id, Proposal>, rest: set<Id>, done: set<Id>) {
    && rest !! done && (forall k :: Named(c, ProposalsInvalidated, k) <==> k in rest || k in done)
    && now.Keys == was.Keys && rest + done <= now.Keys
    && forall k | k in now :: now[k] == if k in done then InvalidatedProposal(c, k, was[k]) else was[k]
  }

  lemma InvalidatedFurther(c: Contents, was: map<Id, Proposal>, now: map<Id, Proposal>, rest: set<Id>, done: set<Id>, id: Id)
    requires InvalidatedSoFar(c, was, now, rest, done) && id in rest
    ensures Named(c, ProposalsInvalidated, id) && id in now && id !in done
    ensures InvalidatedSoFar(c, was, now[id := InvalidatedProposal(c, id, now[id])], rest - {id}, done + {id})
  {
  }

  ghost predicate ChangesInstalled(c: Contents, was: map<Id, Change>, now: map<Id, Change>, id: Id)
    requires id in was
  {
    && now.Keys == was.Keys
    && now[id] == was[id].(state := PUBLISHED, version := was[id].version + 1)
    && forall k | k in was && k != id :: now[k] == SupersededChange(c, k, was[k])
  }

  ghost predicate ProposalsInstalled(c: Contents, was: map<Id, Proposal>, now: map<Id, Proposal>) {
    now.Keys == was.Keys && forall k | k in was :: now[k] == InvalidatedProposal(c, k, was[k])
  }

  /** The log as a publish leaves it: its own event, and then each it causes, all it is due to record and each once. */
  ghost predicate LogInstalled(x: Outcome, c: Contents, due: Marks, id: Id, was: seq<Event>, position: nat,
                               now: seq<Event>, after: nat)
  {
    && was + [Event(position + 1, id, Publish, None)] <= now && after - |now| == position - |was|
    && Recorded(x, c, position + 1, |was| + 1, now, position - |was|)
    && Once(|was| + 1, now) && MarksOf(|was| + 1, now) == due
  }

  ghost predicate LogFollowed(x: Outcome, c: Contents, due: Marks, publish: nat, was: seq<Event>, position: nat,
                              now: seq<Event>, after: nat)
  {
    && was <= now && after - |now| == position - |was|
    && Recorded(x, c, publish, |was|, now, position - |was|) && Once(|was|, now) && MarksOf(|was|, now) == due
  }

  lemma LogAfter(x: Outcome, c: Contents, due: Marks, id: Id, was: seq<Event>, position: nat, now: seq<Event>, after: nat)
    requires LogFollowed(x, c, due, position + 1, was + [Event(position + 1, id, Publish, None)], position + 1, now, after)
    ensures LogInstalled(x, c, due, id, was, position, now, after)
  {
  }

  /** An outcome that can be installed over a store: it holds the store's objects, and what its report names is there. */
  ghost predicate Installable(s: State, id: Id, x: Outcome, c: Contents) {
    id in s.changes && !Named(c, Superseded, id) && Held(x, c, s.order, s.objects.Keys, s.changes.Keys, s.proposals.Keys)
  }

  ghost predicate Held(x: Outcome, c: Contents, order: seq<Id>, objects: set<Id>, changes: set<Id>, proposals: set<Id>) {
    && x.objects.Keys == objects && Lists(order, objects)
    && (forall k :: Named(c, Superseded, k) ==> k in changes)
    && (forall k :: Named(c, ProposalsInvalidated, k) ==> k in proposals)
  }

  /** The publish of a change, and all it causes. */
  ghost predicate Caused(lab: Lab, s: State, t: State, id: Id, x: Outcome, c: Contents)
    requires id in s.changes
  {
    && ChangesInstalled(c, s.changes, t.changes, id)
    && AllInstalled(lab.runner, x, c, s.order, s.objects, t.objects)
    && ProposalsInstalled(c, s.proposals, t.proposals)
    && LogInstalled(x, c, DueAll(x, c, s.objects.Keys, s.changes.Keys, s.proposals.Keys), id, s.events, s.position, t.events, t.position)
    && t == s.(changes := t.changes, objects := t.objects, proposals := t.proposals, events := t.events,
               position := t.position)
  }

  ghost predicate AllSuperseded(c: Contents, was: map<Id, Change>, now: map<Id, Change>) {
    now.Keys == was.Keys && forall k | k in was :: now[k] == SupersededChange(c, k, was[k])
  }

  /** All a publish causes, after its own event. */
  ghost predicate Followed(lab: Lab, s: State, t: State, x: Outcome, c: Contents, due: Marks) {
    && AllSuperseded(c, s.changes, t.changes)
    && AllInstalled(lab.runner, x, c, s.order, s.objects, t.objects)
    && ProposalsInstalled(c, s.proposals, t.proposals)
    && LogFollowed(x, c, due, s.position, s.events, s.position, t.events, t.position)
  }

  lemma CausedBy(lab: Lab, s: State, mid: State, t: State, id: Id, x: Outcome, c: Contents, due: Marks)
    requires Installable(s, id, x, c) && mid == Stepped(s, Publish, id, PUBLISHED) && Followed(lab, mid, t, x, c, due)
    requires due == DueAll(x, c, s.objects.Keys, s.changes.Keys, s.proposals.Keys)
    requires t == mid.(changes := t.changes, objects := t.objects, proposals := t.proposals, events := t.events,
                       position := t.position)
    ensures Caused(lab, s, t, id, x, c)
  {
    assert mid.changes.Keys == s.changes.Keys;
    LogAfter(x, c, due, id, s.events, s.position, t.events, t.position);
  }

  /** The store with a version's declaration installed. */
  function WithVersion(s: State, x: Outcome, source: Source): State {
    s.(kinds := KindsOf(x), enums := x.v.enums, version := s.version + 1, source := source)
  }

  /** The store as an approval installs a change's version: its objects, changes and proposals as the publish leaves them,
      and then its declaration. */
  ghost predicate VersionInstalled(lab: Lab, s: State, t: State, id: Id, x: Outcome, c: Contents)
    requires id in s.changes
  {
    exists mid :: Caused(lab, s, mid, id, x, c) && t == WithVersion(mid, x, s.changes[id].source)
  }

  lemma VersionBy(lab: Lab, s: State, mid: State, t: State, id: Id, x: Outcome, c: Contents)
    requires id in s.changes && Caused(lab, s, mid, id, x, c) && t == WithVersion(mid, x, s.changes[id].source)
    ensures VersionInstalled(lab, s, t, id, x, c)
  {
  }

  /** An approval taken: of the version read, its impact run again at the attached report's time and all of it shown. */
  ghost predicate ApprovalTaken(lab: Lab, s: State, t: State, id: Id, actor: Actor, d: DryRun) {
    && actor.known && id in s.changes && s.changes[id].state == SUBMITTED && s.changes[id].base == s.version
    && Approves(lab, s, actor)
    && s.changes[id].report.Some?
    && var attached := s.changes[id].report.value;
       && IsReport(lab, StoredOf(lab, s, id, attached.now), s.changes[id].source, s.source, s.changes[id].digest, d)
       && d.report.accepted && d.outcome.Some? && AllShown(d.report.contents, attached.contents)
       && d.outcome.value.objects.Keys == s.objects.Keys
       && VersionInstalled(lab, s, t, id, d.outcome.value, d.report.contents)
  }

  /** Why an approval's dry run refuses it, the gravest reason first. */
  function RefusalOf(d: DryRun, attached: Report): Option<Refusal> {
    if HoldsFatal(d.report.contents) || d.outcome.None? then Some(FatalFound)
    else if !AllShown(d.report.contents, attached.contents) then Some(ImpactChanged)
    else if !d.report.accepted then Some(Undecided)
    else None
  }

  /** A change's dry run cannot be run: its source loads, its rules do not run over the objects, and its checks do not
      refuse it. */
  ghost predicate CannotRun(lab: Lab, s: State, id: Id, now: int)
    requires id in s.changes
  {
    var loaded := lab.load(s.changes[id].source);
    loaded.Some? && !lab.runs(StoredOf(lab, s, id, now), loaded.value)
    && !AnyFatal(CheckMets(lab, s.changes[id].source, s.source))
  }

  ghost predicate RefusedBy(lab: Lab, s: State, id: Id, now: int, d: DryRun, why: Refusal)
    requires id in s.changes
  {
    IsReport(lab, StoredOf(lab, s, id, now), s.changes[id].source, s.source, s.changes[id].digest, d)
    && why == DryRunNotClean && HoldsFatal(d.report.contents)
  }

  /** A request refused for its dry run: it cannot be run, or finds something fatal. */
  ghost predicate DryRunRefused(lab: Lab, s: State, id: Id, now: int, why: Refusal) {
    id in s.changes && ((why == NotRunnable && CannotRun(lab, s, id, now)) || exists d :: RefusedBy(lab, s, id, now, d, why))
  }

  ghost predicate ApprovalRefusedBy(lab: Lab, s: State, id: Id, d: DryRun, why: Refusal)
    requires id in s.changes && s.changes[id].report.Some?
  {
    var attached := s.changes[id].report.value;
    && IsReport(lab, StoredOf(lab, s, id, attached.now), s.changes[id].source, s.source, s.changes[id].digest, d)
    && RefusalOf(d, attached) == Some(why)
  }

  /** An approval refused for its dry run, run again at the attached report's time. */
  ghost predicate ApprovalRefused(lab: Lab, s: State, id: Id, why: Refusal) {
    id in s.changes && s.changes[id].report.Some?
    && ((why == NotRunnable && CannotRun(lab, s, id, s.changes[id].report.value.now))
        || exists d :: ApprovalRefusedBy(lab, s, id, d, why))
  }

  // what every store keeps

  /** Positions rise by exactly one, to the store's own. */
  ghost predicate Numbered(events: seq<Event>, position: nat) {
    && (forall i | 0 <= i < |events| - 1 :: events[i + 1].position == events[i].position + 1)
    && (events != [] ==> events[|events| - 1].position == position)
  }

  ghost predicate ChangeKept(lab: Lab, s: State, c: Change) {
    && c.digest == lab.digest(c.source)
    && (Open(c) ==> c.base == s.version)
    && (c.state == SUBMITTED ==>
          c.report.Some? && !HoldsFatal(c.report.value.contents) && c.report.value.digest == c.digest)
  }

  function PublishedOf(changes: map<Id, Change>): set<Id> {
    set id | id in changes && changes[id].state == PUBLISHED
  }

  ghost predicate StoreKept(lab: Lab, s: State) {
    && (forall id | id in s.changes :: id < s.next && ChangeKept(lab, s, s.changes[id]))
    && Numbered(s.events, s.position)
    && Lists(s.order, s.objects.Keys)
  }
}
