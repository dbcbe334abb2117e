/** Every run of a store's changes: what each step keeps, and what an approval's approver was shown
    (scripts/flowpublish.py, `MOVES`, `requested`, `approve`, `install`). */
module Runs {
  import opened Wrappers
  import opened Reports
  import opened Versions
  import opened Impact
  import opened Simulating
  import opened Judging
  import opened Publishing
  import opened Lifecycle

  /** Whatever else the store does meanwhile: its objects, its proposals, its time and its log move on, its changes and its
      version stay. */
  ghost predicate MovedElsewhere(s: State, t: State) {
    && t.changes == s.changes && t.version == s.version && t.kinds == s.kinds && t.enums == s.enums && t.source == s.source
    && s.next <= t.next && s.events <= t.events && t.position - |t.events| == s.position - |s.events|
    && (forall i | |s.events| <= i < |t.events| :: t.events[i].position == s.position - |s.events| + i + 1)
    && Lists(t.order, t.objects.Keys)
  }

  ghost predicate Step(lab: Lab, s: State, t: State) {
    || t == s.(attempts := s.attempts + 1)
    || MovedElsewhere(s, t)
    || (exists m, actor, inputs, id :: RequestTaken(lab, s, t, m, actor, inputs, id))
    || (exists id, actor, d :: ApprovalTaken(lab, s, t, id, actor, d))
  }

  ghost predicate Closed(c: Change) {
    c.state == PUBLISHED || c.state == REJECTED || c.state == WITHDRAWN || c.state == SUPERSEDED
  }

  /** A change published, rejected, withdrawn or superseded stays as it is. */
  ghost predicate ClosedKept(s: State, t: State) {
    forall id | id in s.changes && Closed(s.changes[id]) :: id in t.changes && t.changes[id] == s.changes[id]
  }

  function Count(s: State): nat {
    |PublishedOf(s.changes)|
  }

  /** What a step does for the whole store: keeps it, leaves what is closed, and installs a version for each change it
      publishes. */
  ghost predicate Good(lab: Lab, s: State, t: State) {
    StoreKept(lab, t) && ClosedKept(s, t) && t.version - Count(t) == s.version - Count(s)
  }

  lemma RequestIsGood(lab: Lab, s: State, t: State, m: Transition, actor: Actor, inputs: Option<Inputs>, id: Id)
    requires StoreKept(lab, s) && RequestTaken(lab, s, t, m, actor, inputs, id)
    ensures Good(lab, s, t)
  {
    MovedIsKept(lab, s, t, m, actor, inputs, id);
    assert t.events == s.events + [Event(s.position + 1, id, m, None)] && t.position == s.position + 1;
    OneNumbered(s, t);
    OneMoved(lab, s, t, id);
  }

  lemma OneNumbered(s: State, t: State)
    requires Numbered(s.events, s.position) && |t.events| == |s.events| + 1 && s.events <= t.events
    requires t.position == s.position + 1 == t.events[|s.events|].position
    ensures Numbered(t.events, t.position)
  {
    LogNumbered(s, t);
  }

  /** One change moved that was open, or is new. */
  lemma OneMoved(lab: Lab, s: State, t: State, id: Id)
    requires StoreKept(lab, s) && id in t.changes && t.changes == s.changes[id := t.changes[id]]
    requires s.next <= t.next && id < t.next && t.version == s.version && t.order == s.order && t.objects == s.objects
    requires Numbered(t.events, t.position)
    requires ChangeKept(lab, t, t.changes[id]) && t.changes[id].state != PUBLISHED
    requires id in s.changes ==> Open(s.changes[id])
    ensures Good(lab, s, t)
  {
    assert PublishedOf(t.changes) == PublishedOf(s.changes);
    forall k | k in t.changes
      ensures k < t.next && ChangeKept(lab, t, t.changes[k])
    {
      if k != id {
        assert t.changes[k] == s.changes[k] && ChangeKept(lab, s, s.changes[k]);
      }
    }
  }

  /** The change a request moves was open, or is new, and is kept. */
  lemma MovedIsKept(lab: Lab, s: State, t: State, m: Transition, actor: Actor, inputs: Option<Inputs>, id: Id)
    requires StoreKept(lab, s) && RequestTaken(lab, s, t, m, actor, inputs, id)
    ensures ChangeKept(lab, t, t.changes[id]) && t.changes[id].state != PUBLISHED && id < t.next
    ensures if m.Draft? then id !in s.changes else id in s.changes && Open(s.changes[id])
  {
    if !m.Draft? {
      assert ChangeKept(lab, s, s.changes[id]);
    }
  }

  /** An approval's report names another change superseded exactly where it is open. */
  lemma SupersededExactly(lab: Lab, s: State, t: State, id: Id, actor: Actor, d: DryRun, k: Id)
    requires ApprovalTaken(lab, s, t, id, actor, d) && k in s.changes && k != id
    ensures Named(d.report.contents, Superseded, k) <==> Open(s.changes[k])
  {
    var stored := StoredOf(lab, s, id, s.changes[id].report.value.now);
    var met :| Reported(lab, stored, s.changes[id].source, s.source, s.changes[id].digest, d, met);
    ImpactReported(lab, stored, s.changes[id].source, s.source, s.changes[id].digest, d, met);
    assert k in stored.open <==> Open(s.changes[k]);
    SupersededNamed(lab.runner, d.outcome.value, met, k);
    NamedIsMet(d.report.contents, met, Superseded, k);
  }

  /** What becomes of another change: one open is superseded, another stays as it was. */
  ghost predicate Succeeds(was: Change, now: Change) {
    now == if Open(was) then was.(state := SUPERSEDED, version := was.version + 1) else was
  }

  lemma ChangesLeft(lab: Lab, s: State, t: State, id: Id, actor: Actor, d: DryRun)
    requires ApprovalTaken(lab, s, t, id, actor, d)
    ensures ChangesInstalled(d.report.contents, s.changes, t.changes, id)
    ensures t.version == s.version + 1 && t.next == s.next
  {
  }

  /** After an approval, no other change is open: each that was is superseded, and none already closed is. */
  lemma OthersSuperseded(lab: Lab, s: State, t: State, id: Id, actor: Actor, d: DryRun, k: Id)
    requires ApprovalTaken(lab, s, t, id, actor, d) && k in s.changes && k != id
    ensures k in t.changes && Succeeds(s.changes[k], t.changes[k])
  {
    SupersededExactly(lab, s, t, id, actor, d, k);
    ChangesLeft(lab, s, t, id, actor, d);
    assert t.changes[k] == SupersededChange(d.report.contents, k, s.changes[k]);
  }

  lemma LogNumbered(s: State, t: State)
    requires Numbered(s.events, s.position) && s.events <= t.events && t.position - |t.events| == s.position - |s.events|
    requires forall i | |s.events| <= i < |t.events| :: t.events[i].position == s.position - |s.events| + i + 1
    ensures Numbered(t.events, t.position)
  {
    forall i | 0 <= i < |t.events| - 1
      ensures t.events[i + 1].position == t.events[i].position + 1
    {
      if i < |s.events| {
        assert t.events[i] == s.events[i];
      }
      if i + 1 < |s.events| {
        assert t.events[i + 1] == s.events[i + 1];
      }
    }
  }

  lemma ApprovalNumbers(s: State, t: State, id: Id, x: Outcome, c: Contents)
    requires Numbered(s.events, s.position)
    requires exists due :: LogInstalled(x, c, due, id, s.events, s.position, t.events, t.position)
    ensures Numbered(t.events, t.position)
  {
    var due :| LogInstalled(x, c, due, id, s.events, s.position, t.events, t.position);
    var first := s.events + [Event(s.position + 1, id, Publish, None)];
    assert first <= t.events;
    assert t.events[|s.events|] == first[|s.events|];
    assert s.events <= t.events;
    forall i | |s.events| <= i < |t.events|
      ensures t.events[i].position == s.position - |s.events| + i + 1
    {
    }
    LogNumbered(s, t);
  }

  /** What becomes of the changes: the one published, those open superseded, the others as they were. */
  lemma ChangesAfterApproval(lab: Lab, s: State, t: State, id: Id, actor: Actor, d: DryRun)
    requires ApprovalTaken(lab, s, t, id, actor, d)
    ensures t.changes.Keys == s.changes.Keys && t.version == s.version + 1 && t.next == s.next
    ensures t.changes[id] == s.changes[id].(state := PUBLISHED, version := s.changes[id].version + 1)
    ensures forall k | k in s.changes && k != id :: Succeeds(s.changes[k], t.changes[k])
  {
    ChangesLeft(lab, s, t, id, actor, d);
    forall k | k in s.changes && k != id ensures Succeeds(s.changes[k], t.changes[k]) {
      OthersSuperseded(lab, s, t, id, actor, d, k);
    }
  }

  lemma ApprovalIsGood(lab: Lab, s: State, t: State, id: Id, actor: Actor, d: DryRun)
    requires StoreKept(lab, s) && ApprovalTaken(lab, s, t, id, actor, d)
    ensures Good(lab, s, t) && t.version == s.version + 1
    ensures PublishedOf(t.changes) == PublishedOf(s.changes) + {id} && id !in PublishedOf(s.changes)
  {
    ChangesAfterApproval(lab, s, t, id, actor, d);
    ApprovalRest(lab, s, t, id, actor, d);
    KeptAfter(lab, s, t, id);
  }

  lemma ApprovalRest(lab: Lab, s: State, t: State, id: Id, actor: Actor, d: DryRun)
    requires ApprovalTaken(lab, s, t, id, actor, d) && StoreKept(lab, s)
    ensures t.objects.Keys == s.objects.Keys && t.order == s.order && Numbered(t.events, t.position)
  {
    var x, c := d.outcome.value, d.report.contents;
    assert LogInstalled(x, c, DueAll(x, c, s.objects.Keys, s.changes.Keys, s.proposals.Keys), id, s.events, s.position,
                        t.events, t.position);
    ApprovalNumbers(s, t, id, x, c);
  }

  lemma KeptAfter(lab: Lab, s: State, t: State, id: Id)
    requires StoreKept(lab, s) && id in s.changes && s.changes[id].state == SUBMITTED
    requires t.objects.Keys == s.objects.Keys && t.order == s.order && Numbered(t.events, t.position)
    requires t.changes.Keys == s.changes.Keys && t.next == s.next && t.version == s.version + 1
    requires t.changes[id] == s.changes[id].(state := PUBLISHED, version := s.changes[id].version + 1)
    requires forall k | k in s.changes && k != id :: Succeeds(s.changes[k], t.changes[k])
    ensures Good(lab, s, t)
    ensures PublishedOf(t.changes) == PublishedOf(s.changes) + {id} && id !in PublishedOf(s.changes)
  {
    ChangesGood(lab, s, t, id);
    assert |PublishedOf(s.changes) + {id}| == |PublishedOf(s.changes)| + 1;
  }

  lemma ChangesGood(lab: Lab, s: State, t: State, id: Id)
    requires StoreKept(lab, s) && id in s.changes && s.changes[id].state == SUBMITTED
    requires t.changes.Keys == s.changes.Keys && t.next == s.next
    requires t.changes[id] == s.changes[id].(state := PUBLISHED, version := s.changes[id].version + 1)
    requires forall k | k in s.changes && k != id :: Succeeds(s.changes[k], t.changes[k])
    ensures forall k | k in t.changes :: k < t.next && ChangeKept(lab, t, t.changes[k])
    ensures ClosedKept(s, t)
    ensures PublishedOf(t.changes) == PublishedOf(s.changes) + {id} && id !in PublishedOf(s.changes)
  {
    forall k | k in t.changes
      ensures k < t.next && ChangeKept(lab, t, t.changes[k])
    {
      assert ChangeKept(lab, s, s.changes[k]);
    }
  }

  /** Every step keeps the store, leaves what is closed, and counts its versions. */
  lemma StepIsGood(lab: Lab, s: State, t: State)
    requires StoreKept(lab, s) && Step(lab, s, t)
    ensures Good(lab, s, t)
  {
    if t == s.(attempts := s.attempts + 1) {
      forall k | k in t.changes
        ensures ChangeKept(lab, t, t.changes[k])
      {
        assert ChangeKept(lab, s, s.changes[k]);
      }
    } else if MovedElsewhere(s, t) {
      LogNumbered(s, t);
      forall k | k in t.changes
        ensures ChangeKept(lab, t, t.changes[k])
      {
        assert ChangeKept(lab, s, s.changes[k]);
      }
    } else if exists m, actor, inputs, id :: RequestTaken(lab, s, t, m, actor, inputs, id) {
      var m, actor, inputs, id :| RequestTaken(lab, s, t, m, actor, inputs, id);
      RequestIsGood(lab, s, t, m, actor, inputs, id);
    } else {
      var id, actor, d :| ApprovalTaken(lab, s, t, id, actor, d);
      ApprovalIsGood(lab, s, t, id, actor, d);
    }
  }

  ghost predicate IsRun(lab: Lab, run: seq<State>) {
    run != [] && StoreKept(lab, run[0]) && forall i | 0 <= i < |run| - 1 :: Step(lab, run[i], run[i + 1])
  }

  /** A run each of whose steps is good of a store that is kept. */
  ghost predicate IsGoodRun(lab: Lab, run: seq<State>) {
    run != [] && StoreKept(lab, run[0]) && forall i | 0 <= i < |run| - 1 :: GoodOfKept(lab, run[i], run[i + 1])
  }

  ghost predicate GoodOfKept(lab: Lab, s: State, t: State) {
    StoreKept(lab, s) ==> Good(lab, s, t)
  }

  lemma RunIsGood(lab: Lab, run: seq<State>)
    requires IsRun(lab, run)
    ensures IsGoodRun(lab, run)
  {
    forall i | 0 <= i < |run| - 1 ensures GoodOfKept(lab, run[i], run[i + 1]) {
      if StoreKept(lab, run[i]) {
        StepIsGood(lab, run[i], run[i + 1]);
      }
    }
  }

  lemma {:induction false} GoodAlong(lab: Lab, run: seq<State>, j: nat)
    requires IsGoodRun(lab, run) && j < |run|
    ensures StoreKept(lab, run[j]) && run[j].version - Count(run[j]) == run[0].version - Count(run[0])
  {
    if j > 0 {
      GoodAlong(lab, run, j - 1);
      assert GoodOfKept(lab, run[j - 1], run[j]);
    }
  }

  lemma {:induction false} ClosedAlong(lab: Lab, run: seq<State>, i: nat, j: nat)
    requires IsGoodRun(lab, run) && i <= j < |run|
    ensures ClosedKept(run[i], run[j])
  {
    if i < j {
      ClosedAlong(lab, run, i, j - 1);
      GoodAlong(lab, run, j - 1);
      assert GoodOfKept(lab, run[j - 1], run[j]);
    }
  }

  /** Over every run: open changes are drafted against the version installed, what is submitted holds a clean report of the
      source it holds, positions rise by one, what is closed stays as it was, and the version counts the changes
      published. */
  lemma EveryRunKeeps(lab: Lab, run: seq<State>, i: nat, j: nat)
    requires IsRun(lab, run) && i <= j < |run|
    ensures StoreKept(lab, run[j]) && run[j].version - Count(run[j]) == run[0].version - Count(run[0])
    ensures ClosedKept(run[i], run[j])
  {
    RunIsGood(lab, run);
    GoodAlong(lab, run, j);
    ClosedAlong(lab, run, i, j);
  }

  /** From a store without changes, the version is the one it began at and one for each change published. */
  lemma VersionsCounted(lab: Lab, run: seq<State>, j: nat)
    requires IsRun(lab, run) && j < |run| && run[0].changes == map[]
    ensures run[j].version == run[0].version + Count(run[j])
  {
    EveryRunKeeps(lab, run, 0, j);
    assert PublishedOf(run[0].changes) == {};
  }

  // what its approver was shown

  /** A migration's mappings, admissions and discharges are each in a category of the report that names its object. */
  ghost predicate MigrationShown(e: Event, shown: Contents)
    requires e.transition.Migrate?
  {
    && (forall code | code in e.transition.mappings :: Named(shown, code, e.subject))
    && (forall n | n in e.transition.admits :: exists tn :: Named(shown, Invariant(tn, n), e.subject))
    && (forall n | n in e.transition.discharges :: exists tn :: Named(shown, Discharged(tn, n), e.subject))
    && (e.transition.mappings != {} || e.transition.admits != {} || e.transition.discharges != {})
  }

  lemma ShownNames(c: Contents, shown: Contents, code: Code, id: Id)
    requires AllShown(c, shown) && !code.Superseded? && Named(c, code, id)
    ensures Named(shown, code, id)
  {
  }

  lemma ReasonsShown(x: Outcome, c: Contents, shown: Contents, e: Event)
    requires Reasoned(x, c, e) && AllShown(c, shown)
    ensures e.transition.Migrate? ==> MigrationShown(e, shown)
    ensures e.transition.Invalidate? ==> Named(shown, ProposalsInvalidated, e.subject)
  {
    if e.transition.Invalidate? {
      ShownNames(c, shown, ProposalsInvalidated, e.subject);
    } else if e.transition.Migrate? {
      forall code | code in e.transition.mappings
        ensures Named(shown, code, e.subject)
      {
        ShownNames(c, shown, code, e.subject);
      }
      forall n | n in e.transition.admits
        ensures exists tn :: Named(shown, Invariant(tn, n), e.subject)
      {
        var code :| code in c.Keys && code.Invariant? && e.subject in c[code].ids && code.n == n;
        ShownNames(c, shown, code, e.subject);
        assert Named(shown, Invariant(code.tn, n), e.subject);
      }
      forall n | n in e.transition.discharges
        ensures exists tn :: Named(shown, Discharged(tn, n), e.subject)
      {
        var code :| code in c.Keys && code.Discharged? && e.subject in c[code].ids && code.n == n;
        ShownNames(c, shown, code, e.subject);
        assert Named(shown, Discharged(code.tn, n), e.subject);
      }
    }
  }

  /** Every object an approval migrates, and every proposal it invalidates, is named in the report its approver was shown,
      under each category it falls in. */
  lemma NothingUnshown(lab: Lab, s: State, t: State, id: Id, actor: Actor, d: DryRun, i: nat)
    requires ApprovalTaken(lab, s, t, id, actor, d) && |s.events| + 1 <= i < |t.events|
    ensures var e, shown := t.events[i], s.changes[id].report.value.contents;
            && (e.transition.Migrate? ==> MigrationShown(e, shown))
            && (e.transition.Invalidate? ==> Named(shown, ProposalsInvalidated, e.subject))
  {
    var x, c := d.outcome.value, d.report.contents;
    assert LogInstalled(x, c, DueAll(x, c, s.objects.Keys, s.changes.Keys, s.proposals.Keys), id, s.events, s.position,
                        t.events, t.position);
    assert Reasoned(x, c, t.events[i]);
    ReasonsShown(x, c, s.changes[id].report.value.contents, t.events[i]);
  }

  /** No finding of a report that an approval acts on names an object. */
  ghost predicate Unnamed(shown: Contents, id: Id) {
    forall code :: IsMapping(code) || code.TypeChanged? || code.Invariant? || code.Discharged? ==> !Named(shown, code, id)
  }

  /** An object its approver was not shown is left as it was but for the version's new names and what it redacts. */
  lemma UnshownUnchanged(lab: Lab, s: State, t: State, id: Id, actor: Actor, d: DryRun, k: Id)
    requires ApprovalTaken(lab, s, t, id, actor, d) && k in s.objects
    requires Unnamed(s.changes[id].report.value.contents, k)
    ensures var x := d.outcome.value;
            k in t.objects && RedactedFrom(x, Unmapped(x.s, x.v, s.objects[k]), t.objects[k], k)
  {
    var attached := s.changes[id].report.value;
    var stored := StoredOf(lab, s, id, attached.now);
    var met :| Reported(lab, stored, s.changes[id].source, s.source, s.changes[id].digest, d, met);
    ImpactReported(lab, stored, s.changes[id].source, s.source, s.changes[id].digest, d, met);
    var x, c := d.outcome.value, d.report.contents;
    UnnamedToo(c, attached.contents, k);
    NotReached(x, c, met, k);
    assert ObjectInstalled(x, c, s.objects[k], t.objects[k], k);
  }

  lemma UnnamedToo(c: Contents, shown: Contents, k: Id)
    requires AllShown(c, shown) && Unnamed(shown, k)
    ensures Unnamed(c, k)
  {
    forall code | IsMapping(code) || code.TypeChanged? || code.Invariant? || code.Discharged?
      ensures Named(c, code, k) ==> Named(shown, code, k)
    {
      if Named(c, code, k) {
        ShownNames(c, shown, code, k);
      }
    }
  }

  lemma MappedIsNamed(c: Contents, met: set<Met>, k: Id)
    requires Gathers(c, met)
    ensures Mapped(met, k) ==> exists code :: IsMapping(code) && Named(c, code, k)
  {
    if Mapped(met, k) {
      var m :| m in met && IsMapping(m.code) && m.id == Some(k);
      assert Named(c, m.code, k);
    }
  }

  lemma UnnamedNotMigrated(c: Contents, v: Version, k: Id)
    requires Unnamed(c, k)
    ensures !Migrates(c, v, k)
  {
    assert forall code | code in c.Keys && k in c[code].ids :: Named(c, code, k);
  }

  lemma NotReached(x: Outcome, c: Contents, met: set<Met>, k: Id)
    requires Sized(x) && k in x.objects && Gathers(c, met)
    requires AllApplied(x.s, x.v, x.objects, x.moving, met, x.s.objects.Keys) && Unnamed(c, k)
    ensures Migrated(x, c, x.s.objects[k], k) == Unmapped(x.s, x.v, x.s.objects[k])
  {
    assert Settled(x.s, x.v, x.s.objects[k], x.objects[k], From(x.moving, k), met, k);
    MappedIsNamed(c, met, k);
    UnnamedNotMigrated(c, x.v, k);
  }

  /** What an object not an observation is left admitting is exactly what it violates, where no redaction reaches it; and no
      less where one does. */
  lemma AdmissionsExact(lab: Lab, s: State, t: State, id: Id, actor: Actor, d: DryRun, k: Id)
    requires ApprovalTaken(lab, s, t, id, actor, d)
    requires var x := d.outcome.value; Judged(x, k) && x.objects[k].tn !in x.v.observations
    ensures var x := d.outcome.value;
            && k in t.objects
            && lab.runner.failing(ViewOf(x), k) <= t.objects[k].admissions
            && (NewlyPersonal(x, k) == {} ==> t.objects[k].admissions == lab.runner.failing(ViewOf(x), k))
  {
    var attached := s.changes[id].report.value;
    var stored := StoredOf(lab, s, id, attached.now);
    AdmissionsAreViolations(lab, stored, s.changes[id].source, s.source, s.changes[id].digest, d, k);
    assert ObjectInstalled(d.outcome.value, d.report.contents, s.objects[k], t.objects[k], k);
  }

  // what an approval leaves

  /** An object the store is left with, beside what the mappings made of it: its type and its state, and its values but those
      redacted, which are absent, or empty sets. */
  ghost predicate LeftAs(x: Outcome, o: Obj, k: Id)
    requires k in x.objects
  {
    var settled, gone := x.objects[k], NewlyPersonal(x, k);
    && o.tn == settled.tn && o.state == settled.state
    && (forall a | a !in gone :: Get(o.attrs, a) == Get(settled.attrs, a))
    && (forall a | a in gone && a in o.attrs :: o.attrs[a] == Many([]))
  }

  lemma JudgedLeft(x: Outcome, c: Contents, was: Obj, o: Obj, k: Id)
    requires Judged(x, k) && ObjectInstalled(x, c, was, o, k)
    ensures LeftAs(x, o, k)
  {
  }

  lemma UnjudgedLeft(x: Outcome, c: Contents, met: set<Met>, o: Obj, k: Id)
    requires Sized(x) && k in x.objects && !Judged(x, k) && ObjectInstalled(x, c, x.s.objects[k], o, k)
    requires AllApplied(x.s, x.v, x.objects, x.moving, met, x.s.objects.Keys) && TargetsDeclared(x.v, KindsOf(x))
    ensures o == x.s.objects[k] && o == x.objects[k] && k !in x.moving
  {
    assert Settled(x.s, x.v, x.s.objects[k], x.objects[k], From(x.moving, k), met, k);
  }

  /** A reference a mapping wrote, or to an object the version moved, is to an object of the type it references. */
  ghost predicate ReferencesLeft(s: State, t: State, k: Id)
    requires k in s.objects && k in t.objects
  {
    var o := t.objects[k];
    o.tn !in BUILT_IN && o.tn in t.kinds ==>
      forall a, p | a in t.kinds[o.tn].attributes && t.kinds[o.tn].attributes[a].reference
                    && !DerivedEnd(t.kinds[o.tn].attributes[a]) && p in Referents(Get(o.attrs, a))
                    && p in t.objects && p in s.objects
                    && (WrittenBy(s.objects[k], o, a) || t.objects[p].tn != s.objects[p].tn) ::
        IsA(t.kinds, t.objects[p].tn, t.kinds[o.tn].attributes[a].holds)
  }

  /** None of its values is a removed member, and none required is absent but one redacted. */
  ghost predicate ValuesLeft(s: State, t: State, v: Version, gone: set<string>, k: Id)
    requires k in t.objects && t.objects[k].tn in t.kinds
  {
    var o, declared := t.objects[k], t.kinds[t.objects[k].tn].attributes;
    && (forall a, e, n | a in declared && a in o.attrs && (e, n) in RemovedMembers(v.migration, s.enums, t.enums) ::
          !Holds(o.attrs[a], Member(e, n)))
    && (forall a | a in declared && Required(t.kinds, declared[a]) && a !in gone :: a in o.attrs)
  }

  /** Its state is one its type declares and, of a mirror's apart, some transition enters. */
  ghost predicate StateLeft(t: State, v: Version, k: Id)
    requires k in t.objects && t.objects[k].tn in t.kinds
  {
    var o, kind := t.objects[k], t.kinds[t.objects[k].tn];
    && (o.tn !in v.observations ==> o.state in kind.states)
    && (!kind.mirror && o.state in kind.states ==> Reachable(kind, o.state))
  }

  /** None of its live parts, as the mappings left the store, is left behind by a mapping into a final state. */
  ghost predicate PartsLeft(r: Runner, s: State, t: State, x: Outcome, k: Id)
    requires k in s.objects && k in t.objects && t.objects[k].tn in t.kinds
  {
    var o, declared := t.objects[k], t.kinds[t.objects[k].tn].attributes;
    s.objects[k].state != o.state && Final(t.kinds, o) ==>
      forall a, p | a in declared && declared[a].composite && p in r.parts(ViewOf(x), k, a) && p in t.objects ::
        Final(t.kinds, t.objects[p])
  }

  /** The store an approval leaves conforms to the version it installs. */
  ghost predicate LeftConforming(r: Runner, s: State, t: State, x: Outcome, k: Id)
    requires k in s.objects && k in t.objects && k in x.objects
  {
    && ReferencesLeft(s, t, k)
    && (Reached(t.kinds, Retired(s.kinds, x.v.kinds), t.objects[k]) ==>
          ValuesLeft(s, t, x.v, NewlyPersonal(x, k), k) && StateLeft(t, x.v, k) && PartsLeft(r, s, t, x, k))
  }

  /** What a run of an approval makes of each object is left but for its redaction. */
  ghost predicate AllLeft(s: State, t: State, x: Outcome) {
    && Sized(x) && x.s.kinds == s.kinds && x.s.enums == s.enums && x.s.objects == s.objects
    && t.kinds == KindsOf(x) && t.enums == x.v.enums && t.objects.Keys == s.objects.Keys
    && forall k | k in s.objects ::
         if Judged(x, k) then LeftAs(x, t.objects[k], k)
         else t.objects[k] == s.objects[k] == x.objects[k] && k !in x.moving
  }

  lemma ApprovalLeaves(lab: Lab, s: State, t: State, id: Id, actor: Actor, d: DryRun) returns (met: set<Met>)
    requires ApprovalTaken(lab, s, t, id, actor, d) && TargetsDeclared(d.outcome.value.v, KindsOf(d.outcome.value))
    ensures AllLeft(s, t, d.outcome.value) && !AnyFatal(met) && Complete(lab.runner, d.outcome.value, met)
    ensures AllApplied(d.outcome.value.s, d.outcome.value.v, d.outcome.value.objects, d.outcome.value.moving, met,
                       s.objects.Keys)
  {
    var stored, x, c := StoredOf(lab, s, id, s.changes[id].report.value.now), d.outcome.value, d.report.contents;
    met :| Reported(lab, stored, s.changes[id].source, s.source, s.changes[id].digest, d, met);
    ImpactReported(lab, stored, s.changes[id].source, s.source, s.changes[id].digest, d, met);
    FatalHeld(c, met);
    forall k | k in s.objects
      ensures if Judged(x, k) then LeftAs(x, t.objects[k], k)
              else t.objects[k] == s.objects[k] == x.objects[k] && k !in x.moving
    {
      assert ObjectInstalled(x, c, s.objects[k], t.objects[k], k);
      if Judged(x, k) {
        JudgedLeft(x, c, s.objects[k], t.objects[k], k);
      } else {
        UnjudgedLeft(x, c, met, t.objects[k], k);
      }
    }
  }

  lemma TypeLeft(s: State, t: State, x: Outcome, p: Id)
    requires AllLeft(s, t, x) && p in s.objects
    ensures t.objects[p].tn == x.objects[p].tn && t.objects[p].state == x.objects[p].state
  {
  }

  lemma ReferencesAreLeft(s: State, t: State, x: Outcome, met: set<Met>, k: Id)
    requires AllLeft(s, t, x) && k in s.objects && ReferencesFit(x, k)
    requires AllApplied(x.s, x.v, x.objects, x.moving, met, s.objects.Keys)
    ensures ReferencesLeft(s, t, k)
  {
    var o := t.objects[k];
    if o.tn !in BUILT_IN && o.tn in t.kinds {
      forall a, p | a in t.kinds[o.tn].attributes && t.kinds[o.tn].attributes[a].reference
                    && !DerivedEnd(t.kinds[o.tn].attributes[a]) && p in Referents(Get(o.attrs, a))
                    && p in t.objects && p in s.objects
                    && (WrittenBy(s.objects[k], o, a) || t.objects[p].tn != s.objects[p].tn)
        ensures IsA(t.kinds, t.objects[p].tn, t.kinds[o.tn].attributes[a].holds)
      {
        TypeMoved(s, t, x, met, p);
        ReferenceIsLeft(s, t, x, k, a, p);
      }
    }
  }

  lemma TypeMoved(s: State, t: State, x: Outcome, met: set<Met>, p: Id)
    requires AllLeft(s, t, x) && p in s.objects && AllApplied(x.s, x.v, x.objects, x.moving, met, s.objects.Keys)
    ensures t.objects[p].tn != s.objects[p].tn ==> p in x.moving
  {
    TypeLeft(s, t, x, p);
    assert Settled(x.s, x.v, x.s.objects[p], x.objects[p], From(x.moving, p), met, p);
  }

  lemma ReferenceIsLeft(s: State, t: State, x: Outcome, k: Id, a: string, p: Id)
    requires AllLeft(s, t, x) && k in s.objects && p in s.objects && ReferencesFit(x, k)
    requires t.objects[k].tn !in BUILT_IN && t.objects[k].tn in t.kinds
    requires var attrs := t.kinds[t.objects[k].tn].attributes;
             a in attrs && attrs[a].reference && !DerivedEnd(attrs[a])
    requires p in Referents(Get(t.objects[k].attrs, a))
    requires WrittenBy(s.objects[k], t.objects[k], a) || p in x.moving
    ensures IsA(t.kinds, t.objects[p].tn, t.kinds[t.objects[k].tn].attributes[a].holds)
  {
    TypeLeft(s, t, x, k);
    TypeLeft(s, t, x, p);
    ReferentLeft(s, t, x, k, a, p);
    assert WrittenBy(x.s.objects[k], x.objects[k], a) <==> WrittenBy(s.objects[k], t.objects[k], a);
    assert p in Referents(Get(x.objects[k].attrs, a));
  }

  lemma ReferentLeft(s: State, t: State, x: Outcome, k: Id, a: string, p: Id)
    requires AllLeft(s, t, x) && k in s.objects && p in Referents(Get(t.objects[k].attrs, a))
    ensures Get(t.objects[k].attrs, a) == Get(x.objects[k].attrs, a)
  {
  }

  lemma ValuesAreLeft(s: State, t: State, x: Outcome, k: Id)
    requires AllLeft(s, t, x) && Judged(x, k) && ValuesRight(x, k)
    ensures ValuesLeft(s, t, x.v, NewlyPersonal(x, k), k)
  {
    var o := t.objects[k];
    forall a, e, n | a in t.kinds[o.tn].attributes && a in o.attrs && (e, n) in RemovedMembers(x.v.migration, s.enums, t.enums)
      ensures !Holds(o.attrs[a], Member(e, n))
    {
      if a !in NewlyPersonal(x, k) {
        assert Get(o.attrs, a) == Get(x.objects[k].attrs, a);
      }
    }
    forall a | a in t.kinds[o.tn].attributes && Required(t.kinds, t.kinds[o.tn].attributes[a]) && a !in NewlyPersonal(x, k)
      ensures a in o.attrs
    {
      assert Get(o.attrs, a) == Get(x.objects[k].attrs, a);
    }
  }

  lemma PartsAreLeft(r: Runner, s: State, t: State, x: Outcome, k: Id)
    requires AllLeft(s, t, x) && Judged(x, k) && StateReached(r, x, k)
    ensures StateLeft(t, x.v, k) && PartsLeft(r, s, t, x, k)
  {
    forall p | p in t.objects ensures t.objects[p].tn == x.objects[p].tn && t.objects[p].state == x.objects[p].state {
      TypeLeft(s, t, x, p);
    }
  }

  /** The store an approval leaves conforms to the version it installs, where the store conformed to the old and the
      mappings' targets are types and states the new version declares: what a redaction empties apart. */
  lemma ApprovalConforms(lab: Lab, s: State, t: State, id: Id, actor: Actor, d: DryRun, k: Id)
    requires ApprovalTaken(lab, s, t, id, actor, d) && k in s.objects
    requires StatesDeclared(d.outcome.value.s) && TargetsDeclared(d.outcome.value.v, KindsOf(d.outcome.value))
    ensures k in t.objects && k in d.outcome.value.objects && LeftConforming(lab.runner, s, t, d.outcome.value, k)
  {
    var x := d.outcome.value;
    var met := ApprovalLeaves(lab, s, t, id, actor, d);
    CleanRunConforms(lab.runner, x, met);
    ReferencesAreLeft(s, t, x, met, k);
    TypeLeft(s, t, x, k);
    if Judged(x, k) {
      ValuesAreLeft(s, t, x, k);
      PartsAreLeft(lab.runner, s, t, x, k);
    }
  }

  // ── states declared, over every run ──────────────────────────────────────

  /** Every object's type is the store's, and its state one the type declares. */
  ghost predicate HoldsDeclared(s: State) {
    forall k | k in s.objects && s.objects[k].tn !in BUILT_IN ::
      s.objects[k].tn in s.kinds && s.objects[k].state in s.kinds[s.objects[k].tn].states
  }

  /** A version a step installs declares its mappings' targets, and its observation kinds keep their states. */
  ghost predicate InstallsDeclared(lab: Lab, s: State, t: State) {
    forall id, actor, d | ApprovalTaken(lab, s, t, id, actor, d) ::
      TargetsDeclared(d.outcome.value.v, KindsOf(d.outcome.value)) && ObservationsStay(d.outcome.value.s, d.outcome.value.v)
  }

  /** An approval leaves every object in a state its type declares. */
  lemma ApprovalKeepsDeclared(lab: Lab, s: State, t: State, id: Id, actor: Actor, d: DryRun)
    requires ApprovalTaken(lab, s, t, id, actor, d) && HoldsDeclared(s)
    requires TargetsDeclared(d.outcome.value.v, KindsOf(d.outcome.value)) && ObservationsStay(d.outcome.value.s, d.outcome.value.v)
    ensures HoldsDeclared(t)
  {
    var x := d.outcome.value;
    var met := ApprovalLeaves(lab, s, t, id, actor, d);
    assert StatesDeclared(x.s);
    forall k | k in t.objects && t.objects[k].tn !in BUILT_IN
      ensures t.objects[k].tn in t.kinds && t.objects[k].state in t.kinds[t.objects[k].tn].states
    {
      ObjectDeclared(s, t, x, met, k);
    }
  }

  lemma ObjectDeclared(s: State, t: State, x: Outcome, met: set<Met>, k: Id)
    requires AllLeft(s, t, x) && k in s.objects && t.objects[k].tn !in BUILT_IN && !AnyFatal(met)
    requires StatesDeclared(x.s) && TargetsDeclared(x.v, KindsOf(x)) && ObservationsStay(x.s, x.v)
    requires AllApplied(x.s, x.v, x.objects, x.moving, met, s.objects.Keys)
    ensures t.objects[k].tn in t.kinds && t.objects[k].state in t.kinds[t.objects[k].tn].states
  {
    TypeLeft(s, t, x, k);
    assert Settled(x.s, x.v, x.s.objects[k], x.objects[k], From(x.moving, k), met, k);
  }

  ghost predicate StepDeclared(lab: Lab, s: State, t: State) {
    InstallsDeclared(lab, s, t) && (MovedElsewhere(s, t) && HoldsDeclared(s) ==> HoldsDeclared(t))
  }

  /** Over every run whose versions declare what they map to, every object stays in a state its type declares: what an
      approval's conformance asks of the store it meets. */
  lemma {:induction false} EveryRunDeclared(lab: Lab, run: seq<State>, j: nat)
    requires IsRun(lab, run) && j < |run| && HoldsDeclared(run[0])
    requires forall i | 0 <= i < |run| - 1 :: StepDeclared(lab, run[i], run[i + 1])
    ensures HoldsDeclared(run[j])
  {
    if j > 0 {
      EveryRunDeclared(lab, run, j - 1);
      assert Step(lab, run[j - 1], run[j]) && StepDeclared(lab, run[j - 1], run[j]);
      StepKeepsDeclared(lab, run[j - 1], run[j]);
    }
  }

  lemma StepKeepsDeclared(lab: Lab, s: State, t: State)
    requires Step(lab, s, t) && StepDeclared(lab, s, t) && HoldsDeclared(s)
    ensures HoldsDeclared(t)
  {
    if exists id, actor, d :: ApprovalTaken(lab, s, t, id, actor, d) {
      var id, actor, d :| ApprovalTaken(lab, s, t, id, actor, d);
      ApprovalKeepsDeclared(lab, s, t, id, actor, d);
    }
  }
}
