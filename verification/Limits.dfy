/** Where the contradiction checker's answers are not what they would be of the conditions themselves: an input for each,
    and the condition that shuts it out. */
module Limits {
  import opened Wrappers
  import opened Syntax
  import opened TypeModel
  import opened Weights
  import opened Bounds
  import opened Atoms
  import opened CaseProducts
  import opened Conditions
  import opened Expansion
  import opened Exactness
  import opened Deciding
  import opened Requirements
  import opened Declarations
  import opened Objects
  import opened Observed
  import opened Writing
  import opened Findings
  import opened Framing
  import opened Clashes

  function OfType(typ: string): Spec {
    Spec(None, typ, false, false, false)
  }

  /** A type with an int, a decimal and a collection, in one state. */
  const SAMPLE := Model("Order", map["n" := OfType("int"), "amount" := OfType("decimal"),
                                     "items" := Spec(Some("Item"), "", true, false, false)],
                        map[], map["OPEN" := State("live", false, [])], {}, map[], map[], {}, false)

  // ── integers compared beside rationals ───────────────────────────────────

  const N := AttrVar("n")
  const AMOUNT := AttrVar("amount")

  /** 0 < n and n < 1, which no integer meets. */
  const BETWEEN: Case := {Present(N), Diff(Bound(Zero, At(N), 0.0, true)), Diff(Bound(At(N), Zero, 1.0, true))}

  /** The same, with a decimal compared beside it. */
  const BESIDE: Case := BETWEEN + {Present(AMOUNT), Diff(Bound(At(AMOUNT), Zero, 9.0, false))}

  const HALF: imap<Var, Value> := imap[N := VNum(0.5), AMOUNT := VNum(1.0), StateVar := VName("OPEN"), NowVar := VNum(0.0)]

  lemma BesideIsMixed()
    ensures Loose(SAMPLE, BESIDE, N)
  {
    assert Diff(Bound(At(AMOUNT), Zero, 9.0, false)) in BESIDE && Diff(Bound(Zero, At(N), 0.0, true)) in BESIDE;
    assert HasNode(BESIDE, At(AMOUNT)) && HasNode(BESIDE, At(N));
    assert VarInfo(SAMPLE, AMOUNT) == Some(Rational(KDecimal, false));
    assert VarInfo(SAMPLE, N) == Some(Integral(false));
    assert !IntegralNode(SAMPLE, At(AMOUNT));
  }

  lemma HalfFits(x: Var)
    requires VarInfo(SAMPLE, x).Some?
    ensures FitsLoosely(VarInfo(SAMPLE, x).value, Loose(SAMPLE, BESIDE, x), Lookup(HALF, x))
  {
    BesideIsMixed();
    match x {
      case StateVar => assert VName("OPEN") in StateValues(SAMPLE);
      case AttrVar(a) =>
      case _ =>
    }
  }

  lemma HalfHolds()
    ensures CaseHolds(Valuation(HALF, imap[]), BESIDE)
  {
  }

  /** With integers and rationals in one case the test is a relaxation: it accepts a case no object satisfies. */
  lemma MixedIsRelaxed()
    ensures LooselySatisfiable(SAMPLE, BESIDE) && !HasValuation(SAMPLE, BESIDE)
  {
    HalfHolds();
    forall x | VarInfo(SAMPLE, x).Some?
      ensures FitsLoosely(VarInfo(SAMPLE, x).value, Loose(SAMPLE, BESIDE, x), Lookup(HALF, x))
    {
      HalfFits(x);
    }
    assert LooselyTyped(SAMPLE, BESIDE, Valuation(HALF, imap[]).vars);
    forall u: Valuation | WellTyped(SAMPLE, u.vars) ensures !CaseHolds(u, BESIDE) {
      NothingBetween(u, BESIDE);
    }
  }

  lemma NothingBetween(u: Valuation, c: Case)
    requires WellTyped(SAMPLE, u.vars) && BETWEEN <= c
    ensures !CaseHolds(u, c)
  {
    assert Fits(VarInfo(SAMPLE, N).value, Lookup(u.vars, N));
    assert Diff(Bound(Zero, At(N), 0.0, true)) in c && Diff(Bound(At(N), Zero, 1.0, true)) in c;
  }

  /** And it is not monotone: dropping the decimal's atoms from the case it accepts leaves one it rejects. */
  lemma FewerAtomsRejected()
    ensures BETWEEN <= BESIDE && LooselySatisfiable(SAMPLE, BESIDE) && !LooselySatisfiable(SAMPLE, BETWEEN)
  {
    MixedIsRelaxed();
    BetweenIsIntegral();
    forall u: Valuation | LooselyTyped(SAMPLE, BETWEEN, u.vars) ensures !CaseHolds(u, BETWEEN) {
      OneSortIsExact(SAMPLE, BETWEEN, u.vars);
      NothingBetween(u, BETWEEN);
    }
  }

  lemma BetweenIsIntegral()
    ensures forall n | HasNode(BETWEEN, n) :: IntegralNode(SAMPLE, n)
  {
    assert VarInfo(SAMPLE, N) == Some(Integral(false));
  }

  // ── counts with a body ───────────────────────────────────────────────────

  const ITEMS := Name("items")

  /** count(i in items) and count(i in items: i.bad), which section 8.3 of the declaration syntax has count the elements
      meeting the body. */
  const ALL := Agg("count", false, Some("i"), Some(ITEMS), None, None)
  const BAD := Agg("count", false, Some("i"), Some(ITEMS), None, Some(Path(Name("i"), "bad")))

  const SOME_ITEMS := Bin(Ge, ALL, Num(Whole(1)))
  const NONE_BAD := Bin(Lt, BAD, Num(Whole(1)))

  /** An order of three items, none of them bad. */
  const THREE := World(imap[N := VNum(0.0), AMOUNT := VNum(0.0), StateVar := VName("OPEN"), NowVar := VNum(0.0)],
                       imap[TallyKey(ALL) := Tally(3, 0), TallyKey(BAD) := Tally(0, 0)], imap[])

  lemma ThreeFits(x: Var)
    requires VarInfo(SAMPLE, x).Some?
    ensures Fits(VarInfo(SAMPLE, x).value, Lookup(THREE.vars, x))
  {
    match x {
      case StateVar => assert VName("OPEN") in StateValues(SAMPLE);
      case AttrVar(a) =>
      case _ =>
    }
  }

  lemma ThreeIsOrdinary()
    ensures Ordinary(SAMPLE, THREE)
    ensures CountOf(THREE, ALL) == Some(VNum(3.0)) && CountOf(THREE, BAD) == Some(VNum(0.0))
  {
    forall x | VarInfo(SAMPLE, x).Some? ensures Fits(VarInfo(SAMPLE, x).value, Lookup(THREE.vars, x)) {
      ThreeFits(x);
    }
    assert TallyKey(ALL).body != TallyKey(BAD).body;
  }

  lemma SampleCounts()
    ensures IsCount(SAMPLE, ALL) && IsCount(SAMPLE, BAD) && KeyOf(ALL) == KeyOf(BAD)
  {
  }

  /** A false alarm: `linear` keys a count by its collection and its filter alone, so a count of all the items and a count
      of the bad ones are one number to it. Both guards are true of an object, and no valuation meets both. */
  lemma CountBodyIgnored()
    ensures Ordinary(SAMPLE, THREE)
    ensures Truth(SAMPLE, THREE, SOME_ITEMS) == T && Truth(SAMPLE, THREE, NONE_BAD) == T
    ensures Clash(SAMPLE, Expand(Unwritten(SAMPLE), SOME_ITEMS, T, {}), Expand(Unwritten(SAMPLE), NONE_BAD, T, {}))
  {
    ThreeIsOrdinary();
    ThreeTruths();
    BodiesClash();
  }

  lemma ThreeTruths()
    ensures Truth(SAMPLE, THREE, SOME_ITEMS) == T && Truth(SAMPLE, THREE, NONE_BAD) == T
  {
    ThreeIsOrdinary();
    SampleCounts();
    SomeNoneTruth(SAMPLE, THREE, ALL);
    SomeNoneTruth(SAMPLE, THREE, BAD);
  }

  lemma BodiesClash()
    ensures Clash(SAMPLE, Expand(Unwritten(SAMPLE), SOME_ITEMS, T, {}), Expand(Unwritten(SAMPLE), NONE_BAD, T, {}))
  {
    SampleCounts();
    ClashOfOne(SAMPLE, ALL, BAD);
  }

  /** Two counts are one number, over every object, if and only if they are one aggregate: of one collection, filter, body
      and distinctness, and of one binder where the filter or the body turns on it. */
  lemma CountIsItsNumber(g: Expr, h: Expr)
    requires g.Agg? && h.Agg?
    ensures (forall w: World :: CountOf(w, g) == CountOf(w, h)) <==> TallyKey(g) == TallyKey(h)
  {
    if TallyKey(g) != TallyKey(h) {
      var w := World(imap[], imap[TallyKey(g) := Tally(1, 0), TallyKey(h) := Tally(0, 0)], imap[]);
      assert CountOf(w, g) == Some(VNum(1.0)) && CountOf(w, h) == Some(VNum(0.0));
    }
  }

  // ── a count tested before a write and compared after it ──────────────────

  /** any(i in items where i.bad), and count(i in items where i.bad) < 1. */
  const ANY_BAD := Agg("any", false, Some("i"), Some(ITEMS), Some(Path(Name("i"), "bad")), None)
  const COUNT_BAD := Agg("count", false, Some("i"), Some(ITEMS), Some(Path(Name("i"), "bad")), None)
  const FEW_BAD := Bin(Lt, COUNT_BAD, Num(Whole(1)))

  /** A request that may be taken while some item is bad, supplying the items; and none is held to be. */
  const RESTOCK := Transition(Internal, {"OPEN"}, None, ["items"], [], map[], [("flawed", Deny)], [])
  const STOCKED := TypeDecl("Order", map["items" := Spec(Some("Item"), "", true, false, false)], map[],
                            map["OPEN" := State("live", false, [])], {}, map[],
                            map["flawed" := ANY_BAD], map["flawless" := FEW_BAD], map["restock" := RESTOCK])

  /** Of two items one is bad, and it is unknown whether the other is. */
  const DOUBTFUL := World(imap[StateVar := VName("OPEN"), NowVar := VNum(0.0)], imap[COUNT_BAD := Tally(1, 1)], imap[])

  lemma DoubtfulTruths(m: Model)
    requires IsAnyOrNone(m, ANY_BAD) && IsCount(m, COUNT_BAD)
    ensures Truth(m, DOUBTFUL, ANY_BAD) == T && Truth(m, DOUBTFUL, FEW_BAD) == U
  {
    assert InnerFree(ANY_BAD.where, None) == {"i"} && BinderOf(Some("i")) == {"i"};
    assert TallyKey(ANY_BAD) == COUNT_BAD && TallyKey(COUNT_BAD) == COUNT_BAD;
    SomeNoneTruth(m, DOUBTFUL, ANY_BAD);
    SomeNoneTruth(m, DOUBTFUL, COUNT_BAD);
  }

  lemma DoubtfulIsTakeable()
    ensures Takeable(STOCKED, RESTOCK, DOUBTFUL)
  {
    var m := ModelFor(STOCKED, RESTOCK);
    RestockModel();
    DoubtfulTruths(m);
    forall x | VarInfo(m, x).Some? ensures Fits(VarInfo(m, x).value, Lookup(DOUBTFUL.vars, x)) {
      match x {
        case StateVar => assert VName("OPEN") in StateValues(m);
        case _ =>
      }
    }
    assert InState(DOUBTFUL, RESTOCK.from) by {
      assert "OPEN" in RESTOCK.from;
    }
    forall g | IsGuard(STOCKED, RESTOCK, g, Deny) ensures Truth(m, DOUBTFUL, STOCKED.conditions[g]) == T {
      assert STOCKED.conditions[g] == ANY_BAD;
    }
  }

  lemma RestockSteps()
    ensures WrittenBy(RESTOCK) == map["items" := Path(Name("inputs"), "items")]
  {
    assert StepsWrite(["items"], []) == map["items" := Path(Name("inputs"), "items")];
    assert AssignedBy([]) == map[];
  }

  lemma FewNames()
    ensures NamesIn(FEW_BAD) == {"items"}
  {
    assert NamesIn(Path(Name("i"), "bad")) == {"i"};
    assert NamesIn(COUNT_BAD) == {"items"};
  }

  lemma RestockWrites()
    ensures After(STOCKED, RESTOCK) == Analysis(ModelFor(STOCKED, RESTOCK), map["items" := Path(Name("inputs"), "items")], None)
    ensures IsInvariant(STOCKED, FEW_BAD) && ReadsOnlyWrites(STOCKED, RESTOCK, FEW_BAD)
  {
    RestockSteps();
    FewNames();
    assert STOCKED.invariants["flawless"] == FEW_BAD;
  }

  lemma RestockModel()
    ensures var m := ModelFor(STOCKED, RESTOCK);
            "items" in m.inputs && m.attrs.Keys == {"items"} && IsAnyOrNone(m, ANY_BAD) && IsCount(m, COUNT_BAD)
  {
    assert "items" in InputNames(RESTOCK);
  }

  lemma DoubtfulRuns()
    ensures IsRun(STOCKED, RESTOCK, {"items"}, DOUBTFUL, [DOUBTFUL])
  {
    RestockModel();
    var m := ModelFor(STOCKED, RESTOCK);
    assert m.present == {"items"} && m.inputs.Keys == {"items"};
    assert "items" in Taken(RESTOCK);
  }

  lemma DoubtfulKept()
    ensures Takes(STOCKED, RESTOCK, DOUBTFUL, DOUBTFUL)
  {
    DoubtfulIsTakeable();
    DoubtfulRuns();
    assert [DOUBTFUL][|RESTOCK.effect|] == DOUBTFUL;
  }

  /** A false alarm: `any` is true where one element meets its filter and another may, and the count is then unknown, so
      that an invariant comparing it is unknown and held. The write query reads one number for both, and there is none: the
      request is taken and leaves the object as it was, and no valuation meets both requirements. */
  lemma TestedAndComparedMisread()
    ensures Takes(STOCKED, RESTOCK, DOUBTFUL, DOUBTFUL)
    ensures IsInvariant(STOCKED, FEW_BAD) && ReadsOnlyWrites(STOCKED, RESTOCK, FEW_BAD)
    ensures Truth(ModelFor(STOCKED, RESTOCK), DOUBTFUL, FEW_BAD) == U
    ensures Clash(ModelFor(STOCKED, RESTOCK), Expand(Unwritten(ModelFor(STOCKED, RESTOCK)), ANY_BAD, T, {}),
                  HoldsCases(After(STOCKED, RESTOCK), FEW_BAD))
  {
    DoubtfulKept();
    RestockWrites();
    RestockModel();
    DoubtfulTruths(ModelFor(STOCKED, RESTOCK));
    SharedCountsExactly(After(STOCKED, RESTOCK), {}, ANY_BAD, COUNT_BAD);
  }

  /** The condition is exact: one number serves an aggregate tested for being nought and the same one compared, if and only
      if the object does not leave the number unknown with an element known to meet the filter. */
  lemma OneNumberServes(w: World, g: Expr, h: Expr)
    requires g.Agg? && h.Agg? && TallyKey(g) == TallyKey(h) && g.kind != "count" && h.kind == "count"
    ensures (exists c: Option<Value> :: IsNumber(c) && CountReads(Covering, w, g, c) && CountReads(Under, w, h, c)) <==>
              !(AnyOf(w, g) == T && CountOf(w, h) == None)
  {
    var c := CountOf(w, h);
    assert IsNumber(c) && CountReads(Under, w, h, c);
  }

  // ── a write read through another ─────────────────────────────────────────

  /** previous := this.level; level := inputs.new: each request keeps the level there was before it, and a higher one. */
  const PREVIOUS := Path(Name("this"), "level")
  const NEW := Path(Name("inputs"), "new")
  const CLIMBS := Bin(Gt, Name("level"), Name("previous"))
  const CLIMB := Transition(Internal, {"OPEN"}, None, [], [], map["new" := OfType("int")], [],
                            [Assign("previous", PREVIOUS), Assign("level", NEW)])
  const CLIMBER := TypeDecl("Order", map["previous" := OfType("int"), "level" := OfType("int")], map[],
                            map["OPEN" := State("live", false, [])], {}, map[], map[], map["climbs" := CLIMBS],
                            map["climb" := CLIMB])

  const LOW: imap<Var, Value> := imap[AttrVar("previous") := VNum(0.0), AttrVar("level") := VNum(1.0), InputVar("new") := VNum(2.0),
                                      StateVar := VName("OPEN"), NowVar := VNum(0.0)]
  const HIGH: imap<Var, Value> := LOW[AttrVar("previous") := VNum(1.0)][AttrVar("level") := VNum(2.0)]

  lemma ClimbSteps()
    ensures StepsWrite([], CLIMB.effect) == map["previous" := PREVIOUS, "level" := NEW] == AssignedBy(CLIMB.effect)
  {
    var e := CLIMB.effect;
    assert e[..1] == [Assign("previous", PREVIOUS)] && e[..1][..0] == [];
    assert StepsWrite([], []) == map[];
    assert StepsWrite([], e[..1]) == map["previous" := PREVIOUS] && AssignedBy(e[..1]) == map["previous" := PREVIOUS];
  }

  lemma ClimbNames()
    ensures NamesIn(PREVIOUS) == {"this"} && NamesIn(NEW) == {"inputs"} && NamesIn(CLIMBS) == {"level", "previous"}
  {
  }

  lemma ClimbWrites()
    ensures After(CLIMBER, CLIMB) == Analysis(ModelFor(CLIMBER, CLIMB), map["previous" := PREVIOUS, "level" := NEW], None)
    ensures IsInvariant(CLIMBER, CLIMBS) && ReadsOnlyWrites(CLIMBER, CLIMB, CLIMBS)
  {
    ClimbSteps();
    ClimbNames();
    assert WrittenBy(CLIMB) == map["previous" := PREVIOUS, "level" := NEW];
    assert CLIMBER.invariants["climbs"] == CLIMBS;
  }

  lemma ClimbModel()
    ensures var m := ModelFor(CLIMBER, CLIMB);
            && "new" in m.inputs && m.attrs.Keys == {"previous", "level"} && m.derived == map[] && !m.created
            && VarInfo(m, InputVar("new")) == Some(Integral(false))
  {
    assert "new" in InputNames(CLIMB);
  }

  lemma ClimbIsTakeable()
    ensures Takeable(CLIMBER, CLIMB, World(LOW, imap[], imap[]))
  {
    var m := ModelFor(CLIMBER, CLIMB);
    forall x | VarInfo(m, x).Some? ensures Fits(VarInfo(m, x).value, Lookup(LOW, x)) {
      match x {
        case StateVar => assert VName("OPEN") in StateValues(m);
        case AttrVar(a) => assert a in m.attrs ==> a == "previous" || a == "level";
        case InputVar(i) => assert i in m.inputs ==> i == "new";
        case _ =>
      }
    }
    assert "OPEN" in CLIMB.from;
  }

  /** After its first step. */
  const MIDDLE: imap<Var, Value> := LOW[AttrVar("previous") := VNum(1.0)]
  const CLIMBED := [World(LOW, imap[], imap[]), World(MIDDLE, imap[], imap[]), World(HIGH, imap[], imap[])]

  lemma ClimbGives()
    ensures Gives(ModelFor(CLIMBER, CLIMB), {"new"}, World(LOW, imap[], imap[]))
  {
    var m := ModelFor(CLIMBER, CLIMB);
    ClimbModel();
    assert m.inputs.Keys == {"new"} && m.present <= {"new"};
  }

  lemma ClimbStarts()
    ensures Starts(CLIMBER, CLIMB, {"new"}, World(LOW, imap[], imap[]), World(LOW, imap[], imap[]))
  {
  }

  lemma ClimbStepsFirst(a: Analysis)
    requires a.m.attrs.Keys == {"previous", "level"}
    ensures Stepped(a, {"new"}, Assign("previous", PREVIOUS), World(LOW, imap[], imap[]), World(MIDDLE, imap[], imap[]))
  {
    assert ValueOf(Here(a).m, World(LOW, imap[], imap[]), PREVIOUS) == Some(VNum(1.0));
  }

  lemma ClimbStepsLast(a: Analysis)
    requires "new" in a.m.inputs
    ensures Stepped(a, {"new"}, Assign("level", NEW), World(MIDDLE, imap[], imap[]), World(HIGH, imap[], imap[]))
  {
    assert ValueOf(Here(a).m, World(MIDDLE, imap[], imap[]), NEW) == Some(VNum(2.0));
  }

  lemma ClimbRuns()
    ensures IsRun(CLIMBER, CLIMB, {"new"}, World(LOW, imap[], imap[]), CLIMBED)
  {
    ClimbModel();
    ClimbGives();
    ClimbStarts();
    ClimbStepsFirst(After(CLIMBER, CLIMB));
    ClimbStepsLast(After(CLIMBER, CLIMB));
    RunOfTwo(CLIMBER, CLIMB, {"new"}, CLIMBED[0], CLIMBED[0], CLIMBED[1], CLIMBED[2]);
  }

  lemma ClimbTakes()
    ensures Takes(CLIMBER, CLIMB, World(LOW, imap[], imap[]), World(HIGH, imap[], imap[]))
  {
    ClimbIsTakeable();
    ClimbRuns();
    assert CLIMBED[|CLIMB.effect|] == World(HIGH, imap[], imap[]);
  }

  lemma RunOfOne(t: TypeDecl, x: Transition, given: set<string>, w: World, a: World, b: World)
    requires |x.effect| == 1 && Gives(ModelFor(t, x), given, w) && Starts(t, x, given, w, a)
    requires Stepped(After(t, x), given, x.effect[0], a, b)
    ensures IsRun(t, x, given, w, [a, b]) && [a, b][|x.effect|] == b
  {
  }

  lemma RunOfTwo(t: TypeDecl, x: Transition, given: set<string>, w: World, a: World, b: World, c: World)
    requires |x.effect| == 2 && Gives(ModelFor(t, x), given, w) && Starts(t, x, given, w, a)
    requires Stepped(After(t, x), given, x.effect[0], a, b) && Stepped(After(t, x), given, x.effect[1], b, c)
    ensures IsRun(t, x, given, w, [a, b, c]) && [a, b, c][|x.effect|] == c
  {
  }

  lemma ClimbHolds(m: Model)
    requires m.attrs.Keys == {"previous", "level"}
    ensures Truth(m, World(HIGH, imap[], imap[]), CLIMBS) == T
  {
    var w' := World(HIGH, imap[], imap[]);
    assert ValueOf(m, w', Name("level")) == Some(VNum(2.0)) && ValueOf(m, w', Name("previous")) == Some(VNum(1.0));
  }

  lemma ClimbResolves(a: Analysis)
    requires a.written == map["previous" := PREVIOUS, "level" := NEW] && "new" in a.m.inputs
    requires a.m.attrs.Keys == {"previous", "level"}
    ensures Resolve(a, Name("level")) == Resolve(a, Name("previous")) == Variable(InputVar("new"))
  {
    var less := a.(written := a.written - {"previous"});
    assert less.written == map["level" := NEW];
    assert Resolve(less, PREVIOUS) == ResolvePath(less, Name("this"), "level") == ResolveName(less, "level");
    assert Resolve(less.(written := less.written - {"level"}), NEW) == Variable(InputVar("new"));
    assert Resolve(a.(written := a.written - {"level"}), NEW) == Variable(InputVar("new"));
  }

  /** A number above itself. */
  lemma AboveItself(x: Var)
    ensures var l := Line(Some(x), 0.0, KInt);
            && OrderedCases(Gt, l, l, T) == [{Present(x)} + {Diff(Bound(At(x), At(x), 0.0, true))}]
            && OrderedCases(Gt, l, l, U) == [{Absent(x)}] + [{Absent(x)}]
  {
    assert PresentAtoms(Some(x), Some(x)) == {Present(x)};
  }

  lemma ClimbMisread(a: Analysis)
    requires a.written == map["previous" := PREVIOUS, "level" := NEW] && a.m.attrs.Keys == {"previous", "level"}
    requires VarInfo(a.m, InputVar("new")) == Some(Integral(false)) && a.m.derived == map[]
    ensures HoldsCases(a, CLIMBS).Ok? && !CanHold(a.m, [Requirement("invariant", HoldsCases(a, CLIMBS).value)])
  {
    ClimbResolves(a);
    var x := InputVar("new");
    var l := Line(Some(x), 0.0, KInt);
    assert Linear(a, Name("level")) == Some(l) && Linear(a, Name("previous")) == Some(l);
    assert ShapeCases(a, CLIMBS, T).None? && ShapeCases(a, CLIMBS, U).None?;
    var t, u: seq<Case> := OrderedCases(Gt, l, l, T), OrderedCases(Gt, l, l, U);
    assert Expand(a, CLIMBS, T, {}) == Ok(t) && Expand(a, CLIMBS, U, {}) == Ok(u);
    JoinedCases(t, u);
    AboveItself(x);
    NothingAbove(a.m, x, t, u);
    assert HoldsCases(a, CLIMBS) == Ok(t + u);
  }

  lemma NothingAbove(m: Model, x: Var, t: seq<Case>, u: seq<Case>)
    requires VarInfo(m, x).Some? && !VarInfo(m, x).value.Finite? && !VarInfo(m, x).value.nullable
    requires t == [{Present(x)} + {Diff(Bound(At(x), At(x), 0.0, true))}] && u == [{Absent(x)}] + [{Absent(x)}]
    ensures !CanHold(m, [Requirement("invariant", t + u)])
  {
    var reqs := [Requirement("invariant", t + u)];
    forall v: Valuation | WellTyped(m, v.vars) ensures !Met(v, reqs) {
      ConcatHolds(v, t, u);
      OneCase(v, t[0]);
      TwoCases(v, u[0], u[1]);
      assert Fits(VarInfo(m, x).value, Lookup(v.vars, x));
      assert !AtomHolds(v, Absent(x)) && !AtomHolds(v, Diff(Bound(At(x), At(x), 0.0, true)));
      assert reqs[0].cases == t + u;
    }
  }

  /** A false alarm: an effect that reads through `this` what it also writes is read as though it read the value written.
      Every request that supplies a higher level keeps the invariant, and no valuation meets it. */
  lemma WriteReadThroughAnother()
    ensures Takes(CLIMBER, CLIMB, World(LOW, imap[], imap[]), World(HIGH, imap[], imap[]))
    ensures IsInvariant(CLIMBER, CLIMBS) && ReadsOnlyWrites(CLIMBER, CLIMB, CLIMBS)
    ensures Truth(ModelFor(CLIMBER, CLIMB), World(HIGH, imap[], imap[]), CLIMBS) == T
    ensures !ReadsRight(CLIMBER, CLIMB, "previous")
    ensures var after := HoldsCases(After(CLIMBER, CLIMB), CLIMBS);
            after.Ok? && !CanHold(ModelFor(CLIMBER, CLIMB), [Requirement("invariant", after.value)])
  {
    ClimbWrites();
    ClimbTakes();
    ClimbModel();
    ClimbHolds(ModelFor(CLIMBER, CLIMB));
    ClimbMisread(After(CLIMBER, CLIMB));
    ClimbShown();
  }

  lemma ClimbShown()
    ensures !ReadsRight(CLIMBER, CLIMB, "previous")
  {
    ClimbDeclared();
    ClimbRuns();
    ClimbLeaves();
    ShownMisread(CLIMBER, CLIMB, {"new"}, World(LOW, imap[], imap[]), CLIMBED, "previous");
  }

  lemma ClimbDeclared()
    ensures IsMisreadable(CLIMBER, CLIMB, "previous") && Blank(CLIMBER, CLIMB, World(LOW, imap[], imap[]))
  {
    assert "OPEN" in CLIMBER.states;
  }

  lemma ClimbLeaves()
    ensures ReadFor(CLIMBER, CLIMB, World(LOW, imap[], imap[])) == World(LOW, imap[], imap[])
    ensures |CLIMB.effect| == 2 && CLIMBED[2] == World(HIGH, imap[], imap[])
    ensures !Denotes(LOW, ResolveName(After(CLIMBER, CLIMB), "previous"), Lookup(HIGH, AttrVar("previous")))
  {
    ClimbWrites();
    ClimbModel();
    ClimbResolves(After(CLIMBER, CLIMB));
    assert Resolve(After(CLIMBER, CLIMB), Name("previous")) == ResolveName(After(CLIMBER, CLIMB), "previous");
  }

  /** A type is read as one, and a name of it as an attribute. */
  predicate IsMisreadable(t: TypeDecl, x: Transition, n: string) {
    NamesApart(ModelOf(t)) && EntersDeclared(t, x) && t.states != map[] && IsAttr(ModelOf(t), n)
  }

  /** A run that leaves in an attribute what it is not read as shows that it is misread. */
  lemma ShownMisread(t: TypeDecl, x: Transition, given: set<string>, w: World, run: seq<World>, n: string)
    requires IsMisreadable(t, x, n)
    requires Blank(t, x, w) && IsRun(t, x, given, w, run)
    requires !Denotes(ReadFor(t, x, w).vars, ResolveName(After(t, x), n), Lookup(run[|x.effect|].vars, AttrVar(n)))
    ensures !ReadsRight(t, x, n)
  {
    WritesReadExactly(t, x, n);
  }

  /** n := this.n, of which the source's reading does not end. */
  lemma OwnValueNeverRead(m: Model, calls: nat)
    requires "n" in m.attrs
    ensures ResolvedIn(Analysis(m, map["n" := Path(Name("this"), "n")], None), Name("n"), calls) == None
  {
    var a := Analysis(m, map["n" := Path(Name("this"), "n")], None);
    assert !Ends(a, Path(Name("this"), "n"), {"n"}) && {} + {"n"} == {"n"};
    ResolvesExactly(a, Name("n"));
  }

  // ── an opaque expression before and after a write ────────────────────────

  /** n * 2 > 3, which the analysis leaves opaque. */
  const DOUBLE := Bin(Mul, Name("n"), Num(Whole(2)))
  const LARGE := Bin(Gt, DOUBLE, Num(Whole(3)))

  /** A request that may be taken while n is small, supplying another n; and n is held to be large. */
  const RAISE := Transition(Internal, {"OPEN"}, None, ["n"], [], map[], [("small", Deny)], [])
  const RAISED := TypeDecl("Order", map["n" := OfType("int")], map[], map["OPEN" := State("live", false, [])], {}, map[],
                           map["small" := Not(LARGE)], map["large" := LARGE], map["raise" := RAISE])

  const FIELDS: imap<Var, Value> := imap[N := VNum(0.0), InputVar("n") := VNum(5.0), StateVar := VName("OPEN"), NowVar := VNum(0.0)]
  const SMALL := World(FIELDS, imap[], imap[DOUBLE := VNum(0.0)])
  const BIG := World(FIELDS[N := VNum(5.0)], imap[], imap[DOUBLE := VNum(10.0)])

  lemma LargeIsOpaque(a: Analysis, want: Tri)
    ensures Expand(a, LARGE, want, {}) == Ok([{Opaque(LARGE, want)}])
  {
    assert Linear(a, DOUBLE).None?;
    assert Resolve(a, DOUBLE) == NotModelled;
    assert ShapeCases(a, LARGE, want).None?;
  }

  lemma LargeTruth(m: Model, w: World, r: real)
    requires w.other == imap[DOUBLE := VNum(r)]
    ensures Truth(m, w, LARGE) == OfBool(r > 3.0)
  {
    assert ValueOf(m, w, DOUBLE) == Some(VNum(r));
  }

  lemma SmallFits(x: Var)
    requires VarInfo(ModelFor(RAISED, RAISE), x).Some?
    ensures Fits(VarInfo(ModelFor(RAISED, RAISE), x).value, Lookup(FIELDS, x))
  {
    var m := ModelFor(RAISED, RAISE);
    match x {
      case StateVar => assert VName("OPEN") in StateValues(m);
      case AttrVar(a) =>
      case InputVar(i) => assert i in m.inputs ==> i == "n";
      case _ =>
    }
  }

  lemma SmallIsTakeable()
    ensures Takeable(RAISED, RAISE, SMALL)
  {
    var m := ModelFor(RAISED, RAISE);
    forall x | VarInfo(m, x).Some? ensures Fits(VarInfo(m, x).value, Lookup(FIELDS, x)) {
      SmallFits(x);
    }
    LargeTruth(m, SMALL, 0.0);
    assert InState(SMALL, RAISE.from) by {
      assert "OPEN" in RAISE.from;
    }
    forall g | IsGuard(RAISED, RAISE, g, Deny) ensures Truth(m, SMALL, RAISED.conditions[g]) == T {
      assert RAISED.conditions[g] == Not(LARGE);
    }
  }

  lemma RaiseSteps()
    ensures StepsWrite(["n"], []) == map["n" := Path(Name("inputs"), "n")] && AssignedBy([]) == map[]
    ensures WrittenBy(RAISE) == map["n" := Path(Name("inputs"), "n")]
  {
    assert StepsWrite(["n"], []) == map["n" := Path(Name("inputs"), "n")];
    assert AssignedBy([]) == map[];
  }

  lemma LargeNames()
    ensures NamesIn(LARGE) == {"n"}
  {
    assert NamesIn(DOUBLE) == {"n"};
  }

  lemma RaiseWrites()
    ensures After(RAISED, RAISE) == Analysis(ModelFor(RAISED, RAISE), map["n" := Path(Name("inputs"), "n")], None)
    ensures NamesIn(LARGE) == {"n"}
  {
    RaiseSteps();
    LargeNames();
  }

  lemma RaiseModel()
    ensures var m := ModelFor(RAISED, RAISE);
            m.present == {"n"} && m.inputs.Keys == {"n"} && m.attrs.Keys == {"n"} && Taken(RAISE) == {"n"} && !m.created
  {
    assert "n" in InputNames(RAISE) && "n" in Taken(RAISE);
  }

  lemma RaiseStarts()
    ensures Gives(ModelFor(RAISED, RAISE), {"n"}, SMALL) && Starts(RAISED, RAISE, {"n"}, SMALL, BIG)
  {
    RaiseModel();
  }

  lemma RaiseReaches(m: Model)
    requires "n" in Changes(RAISED, RAISE) && m.derived == map[]
    ensures Unreached(m, Changes(RAISED, RAISE), SMALL, BIG) && Coherent(m, BIG)
  {
    assert NamesRead(m, DOUBLE, {}, {}) == NamesRead(m, Name("n"), {}, {}) + NamesRead(m, Num(Whole(2)), {}, {});
    assert "n" in NamesRead(m, Name("n"), {}, {}) && !Untouched(m, Changes(RAISED, RAISE), DOUBLE);
  }

  lemma RaiseTakes()
    ensures Takes(RAISED, RAISE, SMALL, BIG)
  {
    SmallIsTakeable();
    RaiseModel();
    RaiseStarts();
    assert "n" in StartNames(RAISED, RAISE);
    RaiseReaches(ModelFor(RAISED, RAISE));
    assert IsRun(RAISED, RAISE, {"n"}, SMALL, [BIG]) && [BIG][|RAISE.effect|] == BIG;
  }

  lemma RaiseReadsRight()
    ensures ReadsRight(RAISED, RAISE, "n")
  {
    var m, a := ModelFor(RAISED, RAISE), After(RAISED, RAISE);
    RaiseWrites();
    assert "n" in InputNames(RAISE) && "n" in Taken(RAISE);
    assert m.present == {"n"} && m.inputs.Keys == {"n"};
    assert a.written - {"n"} == map[];
    assert ResolveName(a, "n") == Resolve(a.(written := map[]), Path(Name("inputs"), "n")) == Variable(InputVar("n"));
  }

  lemma LargeIsHeld()
    ensures IsInvariant(RAISED, LARGE) && ReadsOnlyWrites(RAISED, RAISE, LARGE)
  {
    RaiseWrites();
    assert RAISED.invariants["large"] == LARGE;
  }

  lemma LargeMisread(a: Analysis)
    ensures Clash(a.m, Expand(Unwritten(a.m), Not(LARGE), T, {}), HoldsCases(a, LARGE))
  {
    LargeIsOpaque(Unwritten(a.m), F);
    LargeIsOpaque(a, T);
    LargeIsOpaque(a, U);
    JoinedCases([{Opaque(LARGE, T)}], [{Opaque(LARGE, U)}]);
    NotExpands(Unwritten(a.m), LARGE, T);
    LargeTruthsClash(a.m);
  }

  lemma LargeTruthsClash(m: Model)
    ensures !CanHold(m, [Requirement("guard", [{Opaque(LARGE, F)}]),
                         Requirement("invariant", [{Opaque(LARGE, T)}] + [{Opaque(LARGE, U)}])])
  {
    var before, after := Requirement("guard", [{Opaque(LARGE, F)}]),
                         Requirement("invariant", [{Opaque(LARGE, T)}] + [{Opaque(LARGE, U)}]);
    forall v: Valuation ensures !Met(v, [before, after]) {
      ConcatHolds(v, [{Opaque(LARGE, T)}], [{Opaque(LARGE, U)}]);
      OneCase(v, {Opaque(LARGE, T)});
      OneCase(v, {Opaque(LARGE, U)});
      OneCase(v, {Opaque(LARGE, F)});
      assert !(AtomHolds(v, Opaque(LARGE, F)) && AtomHolds(v, Opaque(LARGE, T)));
      assert !(AtomHolds(v, Opaque(LARGE, F)) && AtomHolds(v, Opaque(LARGE, U)));
      assert [before, after][0] == before && [before, after][1] == after;
    }
  }

  /** A false alarm: an opaque expression is keyed by its text alone, so a guard's before a write and an invariant's after
      it are one truth to it, though the write may change it. The request takes the object from one where the guard is
      true to one where the invariant is, and no valuation meets both requirements. */
  lemma SharedOpaqueMisread()
    ensures Takes(RAISED, RAISE, SMALL, BIG) && ReadsRight(RAISED, RAISE, "n")
    ensures IsInvariant(RAISED, LARGE) && ReadsOnlyWrites(RAISED, RAISE, LARGE)
    ensures Truth(ModelFor(RAISED, RAISE), BIG, LARGE) == T
    ensures Clash(ModelFor(RAISED, RAISE), Expand(Unwritten(ModelFor(RAISED, RAISE)), Not(LARGE), T, {}),
                  HoldsCases(After(RAISED, RAISE), LARGE))
  {
    RaiseTakes();
    RaiseReadsRight();
    LargeIsHeld();
    LargeTruth(ModelFor(RAISED, RAISE), BIG, 10.0);
    LargeMisread(After(RAISED, RAISE));
  }
}
