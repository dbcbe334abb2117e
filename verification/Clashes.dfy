/** What the blocking guards of a transition share with the invariants it is held to: a guard and an invariant that the
    analysis finds contradictory, and exactly when an object before and one after meet both all the same
    (scripts/flowlogic.py, `analyse_type`). */
module Clashes {
  import opened Wrappers
  import opened Syntax
  import opened TypeModel
  import opened Bounds
  import opened Atoms
  import opened CaseProducts
  import opened Conditions
  import opened Expansion
  import opened Exactness
  import opened Requirements
  import opened Declarations
  import opened Objects
  import opened Observed
  import opened Writing
  import opened Findings
  import opened Framing

  /** No valuation meets a guard's cases and an invariant's: a contradiction is found. */
  ghost predicate Clash(m: Model, before: Cases, after: Cases) {
    before.Ok? && after.Ok? && !CanHold(m, [Requirement("guard", before.value), Requirement("invariant", after.value)])
  }

  lemma JoinedCases(t: seq<Case>, u: seq<Case>)
    ensures Flat([t, u]) == t + u
  {
    assert [t, u][1..] == [u] && [u][1..] == [];
    assert Flat([u]) == u + [];
  }

  // ── aggregates read through one count ────────────────────────────────────

  /** At least one element is known to meet an aggregate's filter, as the aggregate says it. */
  function SomeOf(g: Expr): Expr
    requires g.Agg?
  {
    if g.kind == "count" then Bin(Ge, g, Num(Whole(1))) else if g.kind == "none" then Not(g) else g
  }

  /** And none may. */
  function NoneOf(g: Expr): Expr
    requires g.Agg?
  {
    if g.kind == "count" then Bin(Lt, g, Num(Whole(1))) else if g.kind == "none" then g else Not(g)
  }

  function SomeCase(x: Var): Case {
    {Present(x)} + {Diff(Bound(Zero, At(x), -1.0, false))}
  }

  function NoneCase(x: Var, compared: bool): Case {
    {Present(x)} + {Diff(if compared then Bound(At(x), Zero, 1.0, true) else Bound(At(x), Zero, 0.0, false))}
  }

  lemma CountCases(a: Analysis, g: Expr)
    requires IsCount(a.m, g)
    ensures Expand(a, SomeOf(g), T, {}) == Ok([SomeCase(KeyOf(g))])
    ensures Expand(a, NoneOf(g), T, {}) == Ok([NoneCase(KeyOf(g), true)]) && Expand(a, NoneOf(g), U, {}) == Ok([{Absent(KeyOf(g))}])
  {
    var l, r := Line(Some(KeyOf(g)), 0.0, KInt), Line(None, 1.0, KNumber);
    assert Linear(a, g) == Some(l) && Linear(a, Num(Whole(1))) == Some(r);
    assert ShapeCases(a, SomeOf(g), T).None? && ShapeCases(a, NoneOf(g), T).None? && ShapeCases(a, NoneOf(g), U).None?;
    CountOrdered(KeyOf(g));
  }

  lemma CountOrdered(x: Var)
    ensures var l, r := Line(Some(x), 0.0, KInt), Line(None, 1.0, KNumber);
            && OrderedCases(Ge, l, r, T) == [SomeCase(x)] && OrderedCases(Lt, l, r, T) == [NoneCase(x, true)]
            && OrderedCases(Lt, l, r, U) == [{Absent(x)}]
  {
    var l, r := Line(Some(x), 0.0, KInt), Line(None, 1.0, KNumber);
    assert PresentAtoms(l.x, r.x) == {Present(x)};
    assert [{Absent(x)}] + [] == [{Absent(x)}];
  }

  lemma TestCases(a: Analysis, g: Expr)
    requires IsAnyOrNone(a.m, g)
    ensures Expand(a, SomeOf(g), T, {}) == Ok([SomeCase(KeyOf(g))])
    ensures Expand(a, NoneOf(g), T, {}) == Ok([NoneCase(KeyOf(g), false)]) && Expand(a, NoneOf(g), U, {}) == Ok([{Absent(KeyOf(g))}])
  {
    var x := KeyOf(g);
    assert {Present(x), Diff(Bound(Zero, At(x), -1.0, false))} == SomeCase(x);
    assert {Present(x), Diff(Bound(At(x), Zero, 0.0, false))} == NoneCase(x, false);
    assert NotTri(T) == F && NotTri(U) == U;
    assert forall want: Tri :: Expand(a, g, want, {}) == Ok(AnyCases(g, want));
  }

  lemma TalliedCases(a: Analysis, g: Expr)
    requires IsTallied(a.m, g)
    ensures Expand(a, SomeOf(g), T, {}) == Ok([SomeCase(KeyOf(g))])
    ensures Expand(a, NoneOf(g), T, {}) == Ok([NoneCase(KeyOf(g), g.kind == "count")])
    ensures HoldsCases(a, NoneOf(g)) == Ok([NoneCase(KeyOf(g), g.kind == "count"), {Absent(KeyOf(g))}])
  {
    if IsCount(a.m, g) {
      CountCases(a, g);
    } else {
      TestCases(a, g);
    }
    var none, absent := NoneCase(KeyOf(g), g.kind == "count"), {Absent(KeyOf(g))};
    JoinedCases([none], [absent]);
    assert [none] + [absent] == [none, absent];
  }

  lemma BoundsClash(v: Valuation, x: Var, compared: bool)
    ensures !(CaseHolds(v, SomeCase(x)) && (CaseHolds(v, NoneCase(x, compared)) || CaseHolds(v, {Absent(x)})))
  {
    var low := Diff(Bound(Zero, At(x), -1.0, false));
    var high := Diff(if compared then Bound(At(x), Zero, 1.0, true) else Bound(At(x), Zero, 0.0, false));
    assert low in SomeCase(x) && Present(x) in SomeCase(x) && high in NoneCase(x, compared) && Absent(x) in {Absent(x)};
    assert !(AtomHolds(v, low) && AtomHolds(v, high)) && !(AtomHolds(v, Present(x)) && AtomHolds(v, Absent(x)));
  }

  /** Some of a count and none of it: no valuation meets both. */
  lemma SomeAndNone(m: Model, x: Var, compared: bool)
    ensures !CanHold(m, [Requirement("guard", [SomeCase(x)]), Requirement("invariant", [NoneCase(x, compared), {Absent(x)}])])
    ensures !CanHold(m, [Requirement("guard", [SomeCase(x)]), Requirement("invariant", [NoneCase(x, compared)])])
  {
    var some, none := Requirement("guard", [SomeCase(x)]), Requirement("invariant", [NoneCase(x, compared), {Absent(x)}]);
    var only := Requirement("invariant", [NoneCase(x, compared)]);
    forall v: Valuation ensures !Met(v, [some, none]) && !Met(v, [some, only]) {
      OneCase(v, SomeCase(x));
      OneCase(v, NoneCase(x, compared));
      TwoCases(v, NoneCase(x, compared), {Absent(x)});
      BoundsClash(v, x, compared);
      assert [some, none][0] == some && [some, none][1] == none && [some, only][0] == some && [some, only][1] == only;
    }
  }

  lemma CountTruth(m: Model, w: World, g: Expr, op: Op)
    requires IsCount(m, g) && IsComparison(op)
    ensures Truth(m, w, Bin(op, g, Num(Whole(1)))) == Compared(op, CountOf(w, g), Some(VNum(1.0)))
  {
  }

  lemma TestTruth(m: Model, w: World, g: Expr)
    requires IsAnyOrNone(m, g)
    ensures Truth(m, w, SomeOf(g)) == AnyOf(w, g) && Truth(m, w, NoneOf(g)) == NotTri(AnyOf(w, g))
  {
    assert Truth(m, w, g) == if g.kind == "any" then AnyOf(w, g) else NotTri(AnyOf(w, g));
  }

  /** What each says of an object, of its tally. */
  lemma SomeNoneTruth(m: Model, w: World, g: Expr)
    requires IsTallied(m, g)
    ensures Truth(m, w, SomeOf(g)) == if g.kind == "count" then Compared(Ge, CountOf(w, g), Some(VNum(1.0))) else AnyOf(w, g)
    ensures Truth(m, w, NoneOf(g)) == if g.kind == "count" then Compared(Lt, CountOf(w, g), Some(VNum(1.0))) else NotTri(AnyOf(w, g))
  {
    if IsCount(m, g) {
      CountTruth(m, w, g, Ge);
      CountTruth(m, w, g, Lt);
    } else {
      TestTruth(m, w, g);
    }
  }

  /** An object of no values, with one tally, and another. */
  ghost function Tallied(g: Expr, y: Tally, h: Expr, z: Tally): World
    requires g.Agg? && h.Agg?
  {
    World(imap[], imap[TallyKey(h) := z][TallyKey(g) := y], imap[])
  }

  /** What each says of an object with its tally. */
  lemma TallySays(m: Model, w: World, g: Expr, t: Tally)
    requires IsTallied(m, g) && Lookup(w.tallies, TallyKey(g)) == Some(t)
    ensures Truth(m, w, SomeOf(g)) == T <==> t.yes > 0 && (g.kind == "count" ==> t.unknown == 0)
    ensures Truth(m, w, NoneOf(g)) == F <==> t.yes > 0 && (g.kind == "count" ==> t.unknown == 0)
  {
    SomeNoneTruth(m, w, g);
  }

  /** An object before and one after that meet both where the two are not kept apart. */
  lemma CountsMisread(m: Model, changed: set<string>, g: Expr, h: Expr) returns (w: World, w': World)
    requires IsTallied(m, g) && IsTallied(m, h) && !CountsApart(m, changed, g, h)
    ensures Framed(m, changed, w, w') && Truth(m, w, SomeOf(g)) == T && Truth(m, w', NoneOf(h)) != F
  {
    if TallyKey(g) != TallyKey(h) {
      w := Tallied(g, Tally(1, 0), h, Tally(0, 0));
      w' := w;
      TallySays(m, w, g, Tally(1, 0));
      TallySays(m, w', h, Tally(0, 0));
    } else if !Untouched(m, changed, g) {
      w, w' := TallyMoved(m, changed, g);
      TallySays(m, w, g, Tally(1, 0));
      TallySays(m, w', h, Tally(0, 0));
    } else {
      w := Tallied(g, Tally(1, 1), g, Tally(1, 1));
      w' := w;
      TallySays(m, w, g, Tally(1, 1));
      TallySays(m, w', h, Tally(1, 1));
    }
  }

  lemma TallyMoved(m: Model, changed: set<string>, g: Expr) returns (w: World, w': World)
    requires g.Agg? && !Untouched(m, changed, g)
    ensures Framed(m, changed, w, w')
    ensures Lookup(w.tallies, TallyKey(g)) == Some(Tally(1, 0)) && Lookup(w'.tallies, TallyKey(g)) == Some(Tally(0, 0))
  {
    w, w' := Tallied(g, Tally(1, 0), g, Tally(1, 0)), Tallied(g, Tally(0, 0), g, Tally(0, 0));
    TallyReadsAlike(m, g);
  }

  /** A guard that some element meets an aggregate's filter and an invariant that none meets that of one read through the
      same count are found contradictory; and an object before and one after meet both, so that it is a false alarm, if and
      only if the two aggregates are not kept apart. */
  lemma SharedCountsExactly(a: Analysis, changed: set<string>, g: Expr, h: Expr)
    requires IsTallied(a.m, g) && IsTallied(a.m, h) && KeyOf(g) == KeyOf(h)
    ensures Clash(a.m, Expand(Unwritten(a.m), SomeOf(g), T, {}), HoldsCases(a, NoneOf(h)))
    ensures (exists w: World, w': World ::
               Framed(a.m, changed, w, w') && Truth(a.m, w, SomeOf(g)) == T && Truth(a.m, w', NoneOf(h)) != F) <==>
              !CountsApart(a.m, changed, g, h)
  {
    TalliedCases(Unwritten(a.m), g);
    TalliedCases(a, h);
    SomeAndNone(a.m, KeyOf(g), h.kind == "count");
    if CountsApart(a.m, changed, g, h) {
      forall w: World, w': World | Framed(a.m, changed, w, w') && Truth(a.m, w, SomeOf(g)) == T
        ensures Truth(a.m, w', NoneOf(h)) == F
      {
        ApartAgree(a.m, changed, w, w', g, h);
      }
    } else {
      var w, w' := CountsMisread(a.m, changed, g, h);
    }
  }

  lemma ApartAgree(m: Model, changed: set<string>, w: World, w': World, g: Expr, h: Expr)
    requires IsTallied(m, g) && IsTallied(m, h) && CountsApart(m, changed, g, h) && Framed(m, changed, w, w')
    requires Truth(m, w, SomeOf(g)) == T
    ensures Truth(m, w', NoneOf(h)) == F
  {
    TallyFramed(m, changed, w, w', g);
    SomeNoneTruth(m, w, g);
    var t := Lookup(w.tallies, TallyKey(g)).value;
    TallySays(m, w, g, t);
    TallySays(m, w', h, t);
  }

  /** A tally is the same of every two objects that differ by some names if and only if its aggregate turns on none of
      them. */
  lemma CountKeptExactly(m: Model, changed: set<string>, g: Expr)
    requires g.Agg?
    ensures (forall w: World, w': World | Framed(m, changed, w, w') :: CountOf(w', g) == CountOf(w, g)) <==>
              Untouched(m, changed, g)
  {
    if Untouched(m, changed, g) {
      forall w: World, w': World | Framed(m, changed, w, w') ensures CountOf(w', g) == CountOf(w, g) {
        TallyFramed(m, changed, w, w', g);
      }
    } else {
      var w, w' := Tallied(g, Tally(0, 0), g, Tally(0, 0)), Tallied(g, Tally(1, 0), g, Tally(1, 0));
      TallyReadsAlike(m, g);
      assert Framed(m, changed, w, w');
      assert CountOf(w, g) == Some(VNum(0.0)) && CountOf(w', g) == Some(VNum(1.0));
    }
  }

  // ── two aggregates read as one, of one object ────────────────────────────

  /** Some derived attributes in an order in which each reads none that is not before it: no declaration derives one from
      itself. */
  predicate DerivesInOrder(m: Model, order: seq<string>) {
    order == [] ||
    var before, d := order[..|order| - 1], order[|order| - 1];
    && DerivesInOrder(m, before)
    && d in m.derived && d !in before && Untouched(m, {d}, m.derived[d])
    && forall c | c in before && c in m.derived :: Untouched(m, {d}, m.derived[c])
  }

  ghost function Deriving(m: Model, w: World, d: string): World
    requires d in m.derived
  {
    match ValueOfTri(Truth(m, w, m.derived[d]))
    case Some(v) => w.(other := w.other[Name(d) := v])
    case None => w.(other := imap e | e in w.other && e != Name(d) :: w.other[e])
  }

  lemma DerivingFramed(m: Model, w: World, d: string)
    requires d in m.derived
    ensures Framed(m, {d}, w, Deriving(m, w, d))
  {
    assert d in NamesRead(m, Name(d), {}, {});
    assert !Untouched(m, {d}, Name(d));
  }

  /** A derived attribute of an object is as it derives. */
  ghost predicate IsDerived(m: Model, w: World, d: string) {
    d in m.derived && Truth(m, w, Name(d)) == Truth(m, w, m.derived[d])
  }

  lemma NameTruth(m: Model, w: World, d: string)
    requires d in m.derived && NamesApart(m)
    ensures Truth(m, w, Name(d)) == TriOfValue(Lookup(w.other, Name(d)))
  {
  }

  lemma DerivingDerives(m: Model, w: World, d: string)
    requires d in m.derived && NamesApart(m) && Untouched(m, {d}, m.derived[d])
    ensures IsDerived(m, Deriving(m, w, d), d)
  {
    var w' := Deriving(m, w, d);
    DerivingFramed(m, w, d);
    FramedAlike(m, {d}, w, w', m.derived[d]);
    NameTruth(m, w', d);
    assert Lookup(w'.other, Name(d)) == ValueOfTri(Truth(m, w, m.derived[d]));
  }

  lemma DerivingKeeps(m: Model, w: World, d: string, c: string)
    requires d in m.derived && c != d && IsDerived(m, w, c) && NamesApart(m) && Untouched(m, {d}, m.derived[c])
    ensures IsDerived(m, Deriving(m, w, d), c)
  {
    var w' := Deriving(m, w, d);
    DerivingFramed(m, w, d);
    FramedAlike(m, {d}, w, w', m.derived[c]);
    NameTruth(m, w, c);
    NameTruth(m, w', c);
    assert Lookup(w'.other, Name(c)) == Lookup(w.other, Name(c));
  }

  /** An object of the same values and tallies whose derived attributes are as they derive, made one after another. */
  ghost function Derived(m: Model, order: seq<string>, w: World): (w': World)
    requires DerivesInOrder(m, order)
    ensures w'.vars == w.vars && w'.tallies == w.tallies
  {
    if order == [] then w else Deriving(m, Derived(m, order[..|order| - 1], w), order[|order| - 1])
  }

  lemma {:induction false} DerivedDerives(m: Model, order: seq<string>, w: World, c: string)
    requires DerivesInOrder(m, order) && NamesApart(m) && c in order
    ensures IsDerived(m, Derived(m, order, w), c)
  {
    var before, d := order[..|order| - 1], order[|order| - 1];
    assert order == before + [d];
    if c == d {
      DerivingDerives(m, Derived(m, before, w), d);
    } else {
      DerivedDerives(m, before, w, c);
      DerivingKeeps(m, Derived(m, before, w), d, c);
    }
  }

  lemma DerivedCoherent(m: Model, order: seq<string>, w: World)
    requires DerivesInOrder(m, order) && NamesApart(m) && forall d | d in m.derived :: d in order
    ensures Coherent(m, Derived(m, order, w))
  {
    forall d | d in m.derived ensures IsDerived(m, Derived(m, order, w), d) {
      DerivedDerives(m, order, w, d);
    }
  }

  /** Wherever two aggregates that are not one are read through one count, of any object there is a false alarm: some
      element meets the first's filter and none the second's, both true, and no valuation meets both. */
  lemma MixedCountsClash(m: Model, order: seq<string>, g: Expr, h: Expr, w: World) returns (other: World)
    requires IsTallied(m, g) && IsTallied(m, h) && !Unmixed({g, h})
    requires Ordinary(m, w) && NamesApart(m) && DerivesInOrder(m, order) && forall d | d in m.derived :: d in order
    ensures Ordinary(m, other) && other.vars == w.vars
    ensures Truth(m, other, SomeOf(g)) == T && Truth(m, other, NoneOf(h)) == T
    ensures Clash(m, Expand(Unwritten(m), SomeOf(g), T, {}), Expand(Unwritten(m), NoneOf(h), T, {}))
  {
    assert TallyKey(g) != TallyKey(h) && KeyOf(g) == KeyOf(h);
    var tallied := w.(tallies := Tallied(g, Tally(1, 0), h, Tally(0, 0)).tallies);
    other := Derived(m, order, tallied);
    DerivedCoherent(m, order, tallied);
    TallySays(m, other, g, Tally(1, 0));
    NoneSays(m, other, h);
    ClashOfOne(m, g, h);
  }

  lemma NoneSays(m: Model, w: World, h: Expr)
    requires IsTallied(m, h) && Lookup(w.tallies, TallyKey(h)) == Some(Tally(0, 0))
    ensures Truth(m, w, NoneOf(h)) == T
  {
    SomeNoneTruth(m, w, h);
  }

  lemma ClashOfOne(m: Model, g: Expr, h: Expr)
    requires IsTallied(m, g) && IsTallied(m, h) && KeyOf(g) == KeyOf(h)
    ensures Clash(m, Expand(Unwritten(m), SomeOf(g), T, {}), Expand(Unwritten(m), NoneOf(h), T, {}))
  {
    TalliedCases(Unwritten(m), g);
    TalliedCases(Unwritten(m), h);
    SomeAndNone(m, KeyOf(g), h.kind == "count");
  }

  // ── an expression left open ──────────────────────────────────────────────

  /** An expression the declaration leaves open: its value is no part's. */
  ghost predicate IsOpen(m: Model, e: Expr) {
    !IsLogical(m, e) && forall w: World :: ValueOf(m, w, e) == Lookup(w.other, e)
  }

  ghost function Opened(w: World, o: Expr, v: Value): World {
    w.(other := w.other[o := v])
  }

  function OtherSide(e: Expr, o: Expr): Expr
    requires e.Bin?
  {
    if e.left == o then e.right else e.left
  }

  /** A comparison of an open expression with what has a number of some object, whatever the open one is. */
  ghost predicate ComparesOpen(m: Model, e: Expr, o: Expr, w: World, c: real) {
    && e.Bin? && IsComparison(e.op) && (e.left == o || e.right == o)
    && forall v :: ValueOf(m, Opened(w, o, v), OtherSide(e, o)) == Some(VNum(c))
  }

  /** A condition that is an open expression, or compares one. */
  ghost predicate TurnsOnOpen(m: Model, e: Expr, o: Expr) {
    IsOpen(m, o) && (e == o || exists w: World, c: real :: ComparesOpen(m, e, o, w, c))
  }

  /** A number that makes a comparison with another true, or false. */
  function Making(op: Op, first: bool, truth: bool, c: real): (r: real)
    requires IsComparison(op)
    ensures Ordered(op, if first then r else c, if first then c else r) == truth
  {
    var up := if first then c + 1.0 else c - 1.0;
    var down := if first then c - 1.0 else c + 1.0;
    match op
    case Eq => if truth then c else up
    case Ne => if truth then up else c
    case Lt => if truth then down else c
    case Le => if truth then c else up
    case Gt => if truth then up else c
    case _ => if truth then c else down
  }

  lemma ComparedOpen(m: Model, e: Expr, o: Expr, w: World, c: real, truth: bool)
    requires IsOpen(m, o) && ComparesOpen(m, e, o, w, c)
    ensures Truth(m, Opened(w, o, VNum(Making(e.op, e.left == o, truth, c))), e) == OfBool(truth)
  {
    var v := VNum(Making(e.op, e.left == o, truth, c));
    assert ValueOf(m, Opened(w, o, v), o) == Some(v);
    ComparedTruth(m, Opened(w, o, v), e);
  }

  /** What turns on an open expression that turns on some names is true of one object and false of another that differs by
      them. */
  lemma TouchedDiffers(m: Model, changed: set<string>, e: Expr, o: Expr) returns (w: World, w': World)
    requires TurnsOnOpen(m, e, o) && !Untouched(m, changed, o)
    ensures Framed(m, changed, w, w') && Truth(m, w, e) == T && Truth(m, w', e) == F
  {
    if e == o {
      var none := World(imap[], imap[], imap[]);
      w, w' := Opened(none, o, VBool(true)), Opened(none, o, VBool(false));
      assert ValueOf(m, w, o) == Some(VBool(true)) && ValueOf(m, w', o) == Some(VBool(false));
    } else {
      var base: World, c: real :| ComparesOpen(m, e, o, base, c);
      w := Opened(base, o, VNum(Making(e.op, e.left == o, true, c)));
      w' := Opened(base, o, VNum(Making(e.op, e.left == o, false, c)));
      ComparedOpen(m, e, o, base, c, true);
      ComparedOpen(m, e, o, base, c, false);
    }
  }

  /** The truth of such a condition, that turns on some names by no more than its open expression, is the same of every two
      objects that differ by them if and only if it turns on none. */
  lemma OpenKeptExactly(m: Model, changed: set<string>, e: Expr, o: Expr)
    requires TurnsOnOpen(m, e, o) && (Untouched(m, changed, o) ==> Untouched(m, changed, e))
    ensures (forall w: World, w': World | Framed(m, changed, w, w') :: Truth(m, w', e) == Truth(m, w, e)) <==>
              Untouched(m, changed, e)
  {
    if Untouched(m, changed, e) {
      forall w: World, w': World | Framed(m, changed, w, w') ensures Truth(m, w', e) == Truth(m, w, e) {
        FramedAlike(m, changed, w, w', e);
      }
    } else {
      var w, w' := TouchedDiffers(m, changed, e, o);
    }
  }

  /** A guard that an opaque condition is true and an invariant that it is not are found contradictory; and where the
      condition turns on an open expression, an object before and one after meet both if and only if it turns on a name the
      transition changes. */
  lemma SharedOpenExactly(a: Analysis, changed: set<string>, e: Expr, o: Expr)
    requires TurnsOnOpen(a.m, e, o) && (Untouched(a.m, changed, o) ==> Untouched(a.m, changed, e))
    requires !IsConnective(e) && !e.Not? && !Inlines(a, e, {}) && IsOpaque(Unwritten(a.m), e) && IsOpaque(a, e)
    ensures Clash(a.m, Expand(Unwritten(a.m), e, T, {}), HoldsCases(a, Not(e)))
    ensures HasAlarm(a.m, changed, e) <==> !Untouched(a.m, changed, e)
  {
    OpaqueClash(a, e);
    OpenAlarm(a.m, changed, e, o);
  }

  /** An object before and one after meet both. */
  ghost predicate HasAlarm(m: Model, changed: set<string>, e: Expr) {
    exists w: World, w': World :: Framed(m, changed, w, w') && Truth(m, w, e) == T && Truth(m, w', Not(e)) != F
  }

  lemma OpenAlarm(m: Model, changed: set<string>, e: Expr, o: Expr)
    requires TurnsOnOpen(m, e, o) && (Untouched(m, changed, o) ==> Untouched(m, changed, e))
    ensures HasAlarm(m, changed, e) <==> !Untouched(m, changed, e)
  {
    if Untouched(m, changed, e) {
      NoAlarm(m, changed, e);
    } else {
      var w, w' := TouchedDiffers(m, changed, e, o);
      assert Truth(m, w', Not(e)) == T;
    }
  }

  lemma NoAlarm(m: Model, changed: set<string>, e: Expr)
    requires Untouched(m, changed, e)
    ensures !HasAlarm(m, changed, e)
  {
    forall w: World, w': World | Framed(m, changed, w, w') && Truth(m, w, e) == T ensures Truth(m, w', Not(e)) == F {
      FramedAlike(m, changed, w, w', e);
    }
  }

  lemma OpaqueClash(a: Analysis, e: Expr)
    requires !IsConnective(e) && !e.Not? && !Inlines(a, e, {}) && IsOpaque(Unwritten(a.m), e) && IsOpaque(a, e)
    ensures Clash(a.m, Expand(Unwritten(a.m), e, T, {}), HoldsCases(a, Not(e)))
  {
    OpaqueExpands(Unwritten(a.m), e, T);
    OpaqueExpands(a, e, F);
    OpaqueExpands(a, e, U);
    NotExpands(a, e, T);
    NotExpands(a, e, U);
    JoinedCases(OpaqueCases(e, F), OpaqueCases(e, U));
    TruthsClash(a.m, e);
  }

  lemma OpaqueExpands(a: Analysis, e: Expr, want: Tri)
    requires !IsConnective(e) && !e.Not? && !Inlines(a, e, {}) && IsOpaque(a, e)
    ensures Expand(a, e, want, {}) == Ok(OpaqueCases(e, want))
  {
    OpaqueThroughout(a, e, want);
  }

  lemma NotExpands(a: Analysis, e: Expr, want: Tri)
    ensures Expand(a, Not(e), want, {}) == Expand(a, e, NotTri(want), {})
  {
  }

  lemma TruthsClash(m: Model, e: Expr)
    ensures !CanHold(m, [Requirement("guard", OpaqueCases(e, T)), Requirement("invariant", OpaqueCases(e, F) + OpaqueCases(e, U))])
  {
    var before, after := Requirement("guard", OpaqueCases(e, T)), Requirement("invariant", OpaqueCases(e, F) + OpaqueCases(e, U));
    forall v: Valuation ensures !Met(v, [before, after]) {
      ConcatHolds(v, OpaqueCases(e, F), OpaqueCases(e, U));
      OneCase(v, {Opaque(e, T)});
      OneCase(v, {Opaque(e, F)});
      OneCase(v, {Opaque(e, U)});
      assert !(AtomHolds(v, Opaque(e, T)) && AtomHolds(v, Opaque(e, F)));
      assert !(AtomHolds(v, Opaque(e, T)) && AtomHolds(v, Opaque(e, U)));
      assert [before, after][0] == before && [before, after][1] == after;
    }
  }
}
