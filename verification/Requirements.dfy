/** Whether requirements can hold together, and the smallest set that cannot (scripts/flowlogic.py,
    `any_satisfiable`, `implied`, `fixed`, `core`). */
module Requirements {
  import opened Wrappers
  import opened Syntax
  import opened TypeModel
  import opened Bounds
  import opened Atoms
  import opened CaseProducts
  import opened Deciding

  /** A requirement's name and the cases that satisfy it. */
  datatype Requirement = Requirement(name: string, cases: seq<Case>)

  function CaseLists(reqs: seq<Requirement>): seq<seq<Case>> {
    seq(|reqs|, i requires 0 <= i < |reqs| => reqs[i].cases)
  }

  /** A valuation satisfies every requirement. */
  ghost predicate Met(v: Valuation, reqs: seq<Requirement>) {
    forall i | 0 <= i < |reqs| :: SomeHolds(v, reqs[i].cases)
  }

  /** Some well-typed valuation satisfies every requirement. */
  ghost predicate CanHold(m: Model, reqs: seq<Requirement>) {
    exists v: Valuation :: WellTyped(m, v.vars) && Met(v, reqs)
  }

  predicate Formed(m: Model, reqs: seq<Requirement>) {
    forall i | 0 <= i < |reqs| :: AllWellFormed(m, reqs[i].cases)
  }

  /** What decides an answer where the ordered values are of one sort: each is an integer, or none is. */
  ghost predicate AllOfSort(m: Model, integral: bool, cases: seq<Case>) {
    forall i, n | 0 <= i < |cases| && HasNode(cases[i], n) && n.At? :: IntegralNode(m, n) == integral
  }

  ghost predicate Sorted(m: Model, integral: bool, reqs: seq<Requirement>) {
    forall i | 0 <= i < |reqs| :: AllOfSort(m, integral, reqs[i].cases)
  }

  lemma UnionNodes(c: Case, d: Case, n: Node)
    ensures HasNode(c + d, n) <==> HasNode(c, n) || HasNode(d, n)
  {
    if HasNode(c + d, n) {
      var b :| Diff(b) in c + d && (b.u == n || b.v == n);
      assert Diff(b) in c || Diff(b) in d;
    }
    if HasNode(c, n) {
      var b :| Diff(b) in c && (b.u == n || b.v == n);
      assert Diff(b) in c + d;
    }
    if HasNode(d, n) {
      var b :| Diff(b) in d && (b.u == n || b.v == n);
      assert Diff(b) in c + d;
    }
  }

  lemma {:induction false} CrossSort(m: Model, integral: bool, xs: seq<Case>, ys: seq<Case>)
    requires AllOfSort(m, integral, xs) && AllOfSort(m, integral, ys)
    ensures AllOfSort(m, integral, Cross(xs, ys))
  {
    if xs != [] {
      CrossSort(m, integral, xs[1..], ys);
      forall i, n | 0 <= i < |ys| && HasNode(Each(xs[0], ys)[i], n) && n.At?
        ensures IntegralNode(m, n) == integral
      {
        UnionNodes(xs[0], ys[i], n);
      }
    }
  }

  lemma {:induction false} FoldSort(m: Model, integral: bool, out: seq<Case>, lists: seq<seq<Case>>)
    requires Fold(out, lists).Ok? && AllOfSort(m, integral, out)
    requires forall i | 0 <= i < |lists| :: AllOfSort(m, integral, lists[i])
    ensures AllOfSort(m, integral, Fold(out, lists).value)
    decreases |lists|
  {
    if lists != [] {
      CrossSort(m, integral, out, lists[0]);
      if Cross(out, lists[0]) != [] {
        FoldSort(m, integral, Cross(out, lists[0]), lists[1..]);
      }
    }
  }

  lemma MetAllHold(v: Valuation, reqs: seq<Requirement>)
    ensures Met(v, reqs) <==> AllHold(v, CaseLists(reqs))
  {
    if AllHold(v, CaseLists(reqs)) {
      forall i | 0 <= i < |reqs| ensures SomeHolds(v, reqs[i].cases) {
        assert CaseLists(reqs)[i] == reqs[i].cases;
      }
    }
  }

  /** Whether requirements can all hold at once: never answered no where some valuation satisfies them all; and
      answered exactly, where the ordered values they compare are of one sort. */
  method AnySatisfiable(reqs: seq<Requirement>, m: Model) returns (r: Result<bool, TooLarge>)
    ensures r.Ok? <==> Products(CaseLists(reqs)).Ok?
    ensures r.Ok? && CanHold(m, reqs) ==> r.value
    ensures r.Ok? && r.value && Formed(m, reqs) && Inhabited(m) && (Sorted(m, true, reqs) || Sorted(m, false, reqs)) ==>
              CanHold(m, reqs)
  {
    var product := Product(CaseLists(reqs));
    if product.Err? {
      return Err(TooLarge);
    }
    var cases := product.value;
    ghost var lists := CaseLists(reqs);
    if Formed(m, reqs) {
      FoldFits(m, [{}], lists);
    }
    if Sorted(m, true, reqs) {
      FoldSort(m, true, [{}], lists);
    }
    if Sorted(m, false, reqs) {
      FoldSort(m, false, [{}], lists);
    }
    for i := 0 to |cases|
      invariant forall j | 0 <= j < i :: !LooselySatisfiable(m, cases[j])
    {
      var ok := Satisfiable(cases[i], m);
      if ok {
        if Formed(m, reqs) && Inhabited(m) && (Sorted(m, true, reqs) || Sorted(m, false, reqs)) {
          SatisfiedMeets(m, reqs, cases, i);
        }
        return Ok(true);
      }
    }
    forall v: Valuation | WellTyped(m, v.vars) ensures !Met(v, reqs) {
      ProductHolds(v, lists);
      MetAllHold(v, reqs);
      forall j | 0 <= j < |cases| ensures !CaseHolds(v, cases[j]) {
        OneSortIsExact(m, cases[j], v.vars);
      }
    }
    return Ok(false);
  }

  lemma SatisfiedMeets(m: Model, reqs: seq<Requirement>, cases: seq<Case>, i: nat)
    requires Products(CaseLists(reqs)) == Ok(cases) && i < |cases| && LooselySatisfiable(m, cases[i])
    requires AllOfSort(m, true, cases) || AllOfSort(m, false, cases)
    ensures CanHold(m, reqs)
  {
    var v: Valuation :| LooselyTyped(m, cases[i], v.vars) && CaseHolds(v, cases[i]);
    OneSortIsExact(m, cases[i], v.vars);
    ProductHolds(v, CaseLists(reqs));
    MetAllHold(v, reqs);
  }

  // ── what a given case settles ────────────────────────────────────────────

  /** Every atom of a case is one of the given atoms, or a domain the given one of its variable lies within. The given
      case holds one domain of a variable. */
  predicate Implied(c: Case, given: Case) {
    forall a | a in c :: a in given || (a.Dom? && exists g | g in given :: g.Dom? && g.x == a.x && g.values <= a.values)
  }

  lemma ImpliedHolds(v: Valuation, c: Case, given: Case)
    requires Implied(c, given) && CaseHolds(v, given)
    ensures CaseHolds(v, c)
  {
    forall a | a in c ensures AtomHolds(v, a) {
      if a !in given {
        var g :| g in given && g.Dom? && g.x == a.x && g.values <= a.values;
        assert AtomHolds(v, g);
      }
    }
  }

  /** A case that holds beside the given one is kept by the test. */
  lemma KeptWithGiven(m: Model, v: Valuation, c: Case, given: Case)
    requires WellTyped(m, v.vars) && CaseHolds(v, c) && CaseHolds(v, given)
    ensures LooselySatisfiable(m, c + given)
  {
    UnionHolds(v, c, given);
    OneSortIsExact(m, c + given, v.vars);
  }

  /** The cases of a requirement the given case does not contradict. */
  method Uncontradicted(cases: seq<Case>, given: Case, m: Model) returns (kept: seq<Case>)
    ensures forall c | c in kept :: c in cases
    ensures forall v: Valuation | WellTyped(m, v.vars) && CaseHolds(v, given) :: SomeHolds(v, kept) <==> SomeHolds(v, cases)
  {
    kept := [];
    for i := 0 to |cases|
      invariant forall c | c in kept :: c in cases
      invariant forall v: Valuation | WellTyped(m, v.vars) && CaseHolds(v, given) ::
                  SomeHolds(v, kept) <==> SomeHolds(v, cases[..i])
    {
      var ok := Satisfiable(cases[i] + given, m);
      forall v: Valuation | WellTyped(m, v.vars) && CaseHolds(v, given)
        ensures SomeHolds(v, if ok then kept + [cases[i]] else kept) <==> SomeHolds(v, cases[..i + 1])
      {
        assert cases[..i + 1] == cases[..i] + [cases[i]];
        ConcatHolds(v, cases[..i], [cases[i]]);
        ConcatHolds(v, kept, [cases[i]]);
        assert [cases[i]][0] == cases[i];
        if CaseHolds(v, cases[i]) {
          KeptWithGiven(m, v, cases[i], given);
        }
      }
      if ok {
        kept := kept + [cases[i]];
      }
    }
    assert cases[..|cases|] == cases;
  }

  /** The answer is kept: under the given case, a valuation meets the reduced requirements exactly where it meets the
      whole, though whole requirements and single cases are dropped. */
  method Fixed(reqs: seq<Requirement>, given: Case, m: Model) returns (out: seq<Requirement>)
    ensures forall v: Valuation | WellTyped(m, v.vars) && CaseHolds(v, given) :: Met(v, out) <==> Met(v, reqs)
    ensures Formed(m, reqs) ==> Formed(m, out)
    ensures forall integral | Sorted(m, integral, reqs) :: Sorted(m, integral, out)
  {
    out := [];
    for i := 0 to |reqs|
      invariant forall v: Valuation | WellTyped(m, v.vars) && CaseHolds(v, given) :: Met(v, out) <==> Met(v, reqs[..i])
      invariant Formed(m, reqs) ==> Formed(m, out)
      invariant forall integral | Sorted(m, integral, reqs) :: Sorted(m, integral, out)
    {
      var cases := reqs[i].cases;
      assert reqs[..i + 1] == reqs[..i] + [reqs[i]];
      if j :| 0 <= j < |cases| && Implied(cases[j], given) {
        forall v: Valuation | WellTyped(m, v.vars) && CaseHolds(v, given)
          ensures Met(v, out) <==> Met(v, reqs[..i + 1])
        {
          ImpliedHolds(v, cases[j], given);
          assert SomeHolds(v, reqs[i].cases);
          MetAppended(v, reqs[..i], reqs[i]);
        }
      } else {
        var kept := Uncontradicted(cases, given, m);
        forall v: Valuation | WellTyped(m, v.vars) && CaseHolds(v, given)
          ensures Met(v, out + [Requirement(reqs[i].name, kept)]) <==> Met(v, reqs[..i + 1])
        {
          MetAppended(v, reqs[..i], reqs[i]);
          MetAppended(v, out, Requirement(reqs[i].name, kept));
        }
        if Formed(m, reqs) {
          assert AllWellFormed(m, cases);
          forall k | 0 <= k < |kept| ensures WellFormed(m, kept[k]) {
            assert kept[k] in cases;
          }
        }
        forall integral | Sorted(m, integral, reqs) ensures AllOfSort(m, integral, kept) {
          assert AllOfSort(m, integral, cases);
          assert forall k | 0 <= k < |kept| :: kept[k] in cases;
        }
        out := out + [Requirement(reqs[i].name, kept)];
      }
    }
    assert reqs[..|reqs|] == reqs;
  }

  lemma MetAppended(v: Valuation, reqs: seq<Requirement>, r: Requirement)
    ensures Met(v, reqs + [r]) <==> Met(v, reqs) && SomeHolds(v, r.cases)
  {
    if Met(v, reqs + [r]) {
      forall i | 0 <= i < |reqs| ensures SomeHolds(v, reqs[i].cases) {
        assert (reqs + [r])[i] == reqs[i];
      }
      assert (reqs + [r])[|reqs|] == r;
    }
  }

  /** `fixed` keeps the answer: with the given case, the reduced requirements have a satisfying valuation exactly where
      the whole do. */
  lemma FixedKeepsAnswer(m: Model, reqs: seq<Requirement>, out: seq<Requirement>, name: string, given: Case)
    requires forall v: Valuation | WellTyped(m, v.vars) && CaseHolds(v, given) :: Met(v, out) <==> Met(v, reqs)
    ensures CanHold(m, [Requirement(name, [given])] + out) <==> CanHold(m, [Requirement(name, [given])] + reqs)
  {
    forall v: Valuation | WellTyped(m, v.vars)
      ensures Met(v, [Requirement(name, [given])] + out) <==> Met(v, [Requirement(name, [given])] + reqs)
    {
      GivenFirst(v, out, name, given);
      GivenFirst(v, reqs, name, given);
    }
  }

  lemma GivenFirst(v: Valuation, reqs: seq<Requirement>, name: string, given: Case)
    ensures Met(v, [Requirement(name, [given])] + reqs) <==> CaseHolds(v, given) && Met(v, reqs)
  {
    var all := [Requirement(name, [given])] + reqs;
    assert all[0].cases == [given] && [given][0] == given;
    if Met(v, all) {
      assert SomeHolds(v, all[0].cases);
      forall i | 0 <= i < |reqs| ensures SomeHolds(v, reqs[i].cases) {
        assert all[i + 1] == reqs[i];
      }
    }
  }

  // ── the smallest set that cannot hold ────────────────────────────────────

  /** Some requirements, by their positions in a list. */
  function Picked(reqs: seq<Requirement>, ks: seq<nat>): seq<Requirement>
    requires forall k | k in ks :: k < |reqs|
  {
    seq(|ks|, i requires 0 <= i < |ks| => assert ks[i] in ks; reqs[ks[i]])
  }

  function Without(ks: seq<nat>, k: nat): (r: seq<nat>)
    ensures forall x :: x in r <==> x in ks && x != k
  {
    if ks == [] then []
    else if ks[0] == k then Without(ks[1..], k)
    else [ks[0]] + Without(ks[1..], k)
  }

  lemma FewerCanHold(m: Model, reqs: seq<Requirement>, ks: seq<nat>, more: seq<nat>)
    requires forall k | k in more :: k < |reqs|
    requires forall k | k in ks :: k in more
    ensures CanHold(m, Picked(reqs, more)) ==> CanHold(m, Picked(reqs, ks))
  {
    if CanHold(m, Picked(reqs, more)) {
      var v: Valuation :| WellTyped(m, v.vars) && Met(v, Picked(reqs, more));
      forall i | 0 <= i < |ks| ensures SomeHolds(v, Picked(reqs, ks)[i].cases) {
        assert ks[i] in ks;
        var j :| 0 <= j < |more| && more[j] == ks[i];
        assert Picked(reqs, more)[j] == Picked(reqs, ks)[i];
      }
    }
  }

  lemma NoneCanHold(m: Model, reqs: seq<Requirement>)
    requires Inhabited(m)
    ensures CanHold(m, Picked(reqs, []))
  {
    var c: Case := {};
    forall y | VarInfo(m, y).Some? && VarInfo(m, y).value.Finite? ensures exists v :: InDomains(m, c, y, v) {
      InhabitedDomain(m, y);
      var v :| v in VarInfo(m, y).value.domain;
      assert InDomains(m, c, y, v);
    }
    SolutionHolds(m, c, map[], imap[Zero := 0.0]);
    var v: Valuation :| LooselyTyped(m, c, v.vars) && CaseHolds(v, c);
    OneSortIsExact(m, c, v.vars);
    assert Met(v, Picked(reqs, []));
  }

  lemma SomeOfExact(m: Model, reqs: seq<Requirement>, ks: seq<nat>, integral: bool)
    requires forall k | k in ks :: k < |reqs|
    requires Formed(m, reqs) && Sorted(m, integral, reqs)
    ensures Formed(m, Picked(reqs, ks)) && Sorted(m, integral, Picked(reqs, ks))
  {
    forall i | 0 <= i < |ks| ensures ks[i] < |reqs| && Picked(reqs, ks)[i] == reqs[ks[i]] {
      assert ks[i] in ks;
    }
  }

  /** What the answers of `AnySatisfiable` are exact for: the ordered values the requirements compare of one sort. */
  ghost predicate Exactly(m: Model, reqs: seq<Requirement>) {
    Formed(m, reqs) && Inhabited(m) && (Sorted(m, true, reqs) || Sorted(m, false, reqs))
  }

  /** A smallest set of the requirements, by deletion, that still cannot hold together: the positions kept. Where the
      ordered values are of one sort, dropping any one of them leaves a set that can hold. */
  method Core(reqs: seq<Requirement>, m: Model) returns (r: Result<seq<nat>, TooLarge>)
    requires !CanHold(m, reqs)
    ensures r.Ok? ==> forall k | k in r.value :: k < |reqs|
    ensures r.Ok? && |reqs| > 0 ==> |r.value| > 0
    ensures r.Ok? ==> !CanHold(m, Picked(reqs, r.value))
    ensures r.Ok? && Exactly(m, reqs) ==>
              forall k | k in r.value :: CanHold(m, Picked(reqs, Without(r.value, k)))
  {
    var kept: seq<nat> := seq(|reqs|, i => i);
    assert Picked(reqs, kept) == reqs;
    forall k: nat | k < |reqs| ensures k in kept {
      assert kept[k] == k;
    }
    for i := 0 to |reqs|
      invariant forall k | k in kept :: k < |reqs|
      invariant forall k: nat | i <= k < |reqs| :: k in kept
      invariant |reqs| > 0 ==> |kept| > 0
      invariant !CanHold(m, Picked(reqs, kept))
      invariant Exactly(m, reqs) ==>
                  forall k | k in kept && k < i :: CanHold(m, Picked(reqs, Without(kept, k)))
    {
      var trial := Without(kept, i);
      var drop := false;
      if trial != [] {
        var holds := AnySatisfiable(Picked(reqs, trial), m);
        if holds.Err? {
          return Err(TooLarge);
        }
        drop := !holds.value;
      }
      if Exactly(m, reqs) {
        if trial == [] {
          NoneCanHold(m, reqs);
        } else if !drop {
          SomeOfExact(m, reqs, trial, Sorted(m, true, reqs));
        }
      }
      if drop {
        forall k | k in trial && k < i && Exactly(m, reqs) ensures CanHold(m, Picked(reqs, Without(trial, k))) {
          FewerCanHold(m, reqs, Without(trial, k), Without(kept, k));
        }
        kept := trial;
      }
    }
    return Ok(kept);
  }
}
