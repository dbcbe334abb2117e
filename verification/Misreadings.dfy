/** Where the contradiction checker reads an object a transition is taken on, or what it leaves, otherwise than it is: an
    input for each, and for the reading of what is not there every case of it. */
module Misreadings {
  import opened Wrappers
  import opened Syntax
  import opened TypeModel
  import opened Bounds
  import opened Atoms
  import opened CaseProducts
  import opened Conditions
  import opened Expansion
  import opened Exactness
  import opened Requirements
  import opened Declarations
  import opened Objects
  import opened Observed
  import opened Writing
  import opened Findings
  import opened Framing
  import opened Clashes
  import opened Limits

  // ── an attribute an optional input writes, or a step not followed ────────

  const FIVE := Num(Whole(5))
  const HIGH_N := Bin(Ge, Name("n"), Num(Whole(10)))
  const ABOVE := Bin(Gt, Name("level"), Path(Name("this"), "n"))

  /** Taken while n is high; both set the level to five. The first takes another n as an optional input, the second changes
      n by a step that is not followed. The level is held to be above n. */
  const RESET := Transition(Internal, {"OPEN"}, None, [], ["n"], map[], [("high", Deny)], [Assign("level", FIVE)])
  const SETTLE := Transition(Internal, {"OPEN"}, None, [], [], map[], [("high", Deny)],
                             [Assign("level", FIVE), OtherStep({"n"}, {})])
  const LEVELS := TypeDecl("Order", map["n" := Spec(None, "int", false, false, true), "level" := OfType("int")], map[],
                           map["OPEN" := State("live", false, [])], {}, map[], map["high" := HIGH_N], map["above" := ABOVE],
                           map["reset" := RESET, "settle" := SETTLE])

  const TEN: imap<Var, Value> := imap[N := VNum(10.0), AttrVar("level") := VNum(20.0), StateVar := VName("OPEN"), NowVar := VNum(0.0)]
  const GIVEN_ONE: imap<Var, Value> := TEN[InputVar("n") := VNum(1.0)]

  /** The same with the level five; and with n one. */
  function Fived(vars: imap<Var, Value>): imap<Var, Value> {
    vars[AttrVar("level") := VNum(5.0)]
  }

  function Oned(vars: imap<Var, Value>): imap<Var, Value> {
    vars[N := VNum(1.0)]
  }

  ghost function Plain(vars: imap<Var, Value>): World {
    World(vars, imap[], imap[])
  }

  lemma LevelWrites(x: Transition)
    requires x == RESET || x == SETTLE
    ensures WrittenBy(x) == map["level" := FIVE]
  {
    var e := [Assign("level", FIVE)];
    assert e[..0] == [] && StepsWrite([], []) == map[] && AssignedBy([]) == map[];
    assert StepsWrite([], e) == map["level" := FIVE] && AssignedBy(e) == map["level" := FIVE];
    if x == SETTLE {
      assert x.effect[..1] == e;
      assert StepsWrite([], x.effect) == map["level" := FIVE] && AssignedBy(x.effect) == map["level" := FIVE];
    }
  }

  lemma LevelsHeld(x: Transition)
    requires x == RESET || x == SETTLE
    ensures IsInvariant(LEVELS, ABOVE) && ReadsOnlyWrites(LEVELS, x, ABOVE)
    ensures After(LEVELS, x) == Analysis(ModelFor(LEVELS, x), map["level" := FIVE], None)
  {
    LevelWrites(x);
    assert NamesIn(Path(Name("this"), "n")) == {"this"} && NamesIn(ABOVE) == {"level", "this"};
    assert LEVELS.invariants["above"] == ABOVE;
  }

  lemma LevelsModel(x: Transition)
    requires x == RESET || x == SETTLE
    ensures var m := ModelFor(LEVELS, x);
            && m.attrs == LEVELS.attrs && m.derived == map[] && !m.created && m.states == LEVELS.states && m.present == {}
            && m.enums == map[]
            && m.inputs.Keys == Taken(x) && Taken(x) == (if x == RESET then {"n"} else {})
            && (x == RESET ==> m.inputs["n"] == Some(LEVELS.attrs["n"]))
  {
    if x == RESET {
      assert "n" in InputNames(x) && "n" in Taken(x);
      assert InputNames(x) == {"n"};
    } else {
      assert InputNames(x) == {};
    }
  }

  lemma TenFits(x: Transition, vars: imap<Var, Value>, z: Var)
    requires (x == RESET && vars == GIVEN_ONE) || (x == SETTLE && vars == TEN)
    requires VarInfo(ModelFor(LEVELS, x), z).Some? && !z.CountVar?
    ensures Fits(VarInfo(ModelFor(LEVELS, x), z).value, Lookup(vars, z))
  {
    var m := ModelFor(LEVELS, x);
    LevelsModel(x);
    match z {
      case StateVar => assert VName("OPEN") in StateValues(m);
      case AttrVar(a) => assert a == "n" || a == "level";
      case InputVar(i) => assert i == "n";
      case _ =>
    }
  }

  lemma HighTruth(m: Model, vars: imap<Var, Value>)
    requires m.attrs == LEVELS.attrs && Lookup(vars, N) == Some(VNum(10.0))
    ensures Truth(m, Plain(vars), HIGH_N) == T
  {
    assert ValueOf(m, Plain(vars), Name("n")) == Some(VNum(10.0));
  }

  lemma AboveTruth(m: Model, vars: imap<Var, Value>)
    requires m.attrs == LEVELS.attrs && Lookup(vars, N) == Some(VNum(1.0)) && Lookup(vars, AttrVar("level")) == Some(VNum(5.0))
    ensures Truth(m, Plain(vars), ABOVE) == T
  {
    assert ValueOf(m, Plain(vars), Name("level")) == Some(VNum(5.0));
    assert ValueOf(m, Plain(vars), Path(Name("this"), "n")) == Some(VNum(1.0));
  }

  lemma TenIsTakeable(x: Transition, vars: imap<Var, Value>)
    requires (x == RESET && vars == GIVEN_ONE) || (x == SETTLE && vars == TEN)
    ensures Takeable(LEVELS, x, Plain(vars))
  {
    var m := ModelFor(LEVELS, x);
    LevelsModel(x);
    forall z | VarInfo(m, z).Some? && !z.CountVar? && !Shadowed(m, z) ensures Fits(VarInfo(m, z).value, Lookup(vars, z)) {
      TenFits(x, vars, z);
    }
    assert "OPEN" in x.from && x.kind == Internal;
    HighTruth(m, vars);
    HighIsGuard(x);
  }

  lemma HighIsGuard(x: Transition)
    requires x == RESET || x == SETTLE
    ensures forall g | IsGuard(LEVELS, x, g, Deny) :: LEVELS.conditions[g] == HIGH_N
  {
  }

  lemma HighCases(m: Model)
    requires m.attrs == LEVELS.attrs && m.enums == map[] && !m.created && m.derived == map[]
    ensures Expand(Unwritten(m), HIGH_N, T, {}) == Ok(OrderedCases(Ge, Line(Some(N), 0.0, KInt), Line(None, 10.0, KNumber), T))
  {
    var plain := Unwritten(m);
    assert VarInfo(m, N) == Some(Integral(false));
    assert Resolve(plain, Name("n")) == Variable(N) && Linear(plain, Name("n")) == Some(Line(Some(N), 0.0, KInt));
    assert Linear(plain, Num(Whole(10))) == Some(Line(None, 10.0, KNumber));
    assert ShapeCases(plain, HIGH_N, T).None?;
  }

  lemma AboveResolves(a: Analysis)
    requires a.m.attrs == LEVELS.attrs && a.written == map["level" := FIVE] && !a.m.created
    ensures Resolve(a, Path(Name("this"), "n")) == Variable(N) && Resolve(a, Name("level")) == Literal(LNumber, VNum(5.0))
  {
    assert Resolve(a, Path(Name("this"), "n")) == ResolvePath(a, Name("this"), "n") == ResolveName(a, "n");
    assert Resolve(a, Name("level")) == ResolveName(a, "level") == Resolve(a.(written := a.written - {"level"}), FIVE);
  }

  lemma AboveCases(a: Analysis)
    requires a.m.attrs == LEVELS.attrs && a.written == map["level" := FIVE] && !a.m.created && a.m.enums == map[]
    requires a.m.derived == map[]
    ensures var n, five := Line(Some(N), 0.0, KInt), Line(None, 5.0, KNumber);
            HoldsCases(a, ABOVE) == Ok(OrderedCases(Gt, five, n, T) + OrderedCases(Gt, five, n, U))
  {
    var n, five := Line(Some(N), 0.0, KInt), Line(None, 5.0, KNumber);
    AboveResolves(a);
    assert VarInfo(a.m, N) == Some(Integral(false));
    assert Linear(a, Name("level")) == Some(five) && Linear(a, Path(Name("this"), "n")) == Some(n);
    assert ShapeCases(a, ABOVE, T).None? && ShapeCases(a, ABOVE, U).None?;
    assert Expand(a, ABOVE, T, {}) == Ok(OrderedCases(Gt, five, n, T)) && Expand(a, ABOVE, U, {}) == Ok(OrderedCases(Gt, five, n, U));
    JoinedCases(OrderedCases(Gt, five, n, T), OrderedCases(Gt, five, n, U));
  }

  /** A level of five above an n of ten at least: no valuation meets both. */
  lemma FiveAboveTen(x: Transition)
    requires x == RESET || x == SETTLE
    ensures Clash(ModelFor(LEVELS, x), Expand(Unwritten(ModelFor(LEVELS, x)), HIGH_N, T, {}), HoldsCases(After(LEVELS, x), ABOVE))
  {
    LevelsModel(x);
    LevelsHeld(x);
    HighCases(ModelFor(LEVELS, x));
    AboveCases(After(LEVELS, x));
    TenAndBelowFive(ModelFor(LEVELS, x));
  }

  lemma TenAndBelowFive(m: Model)
    ensures var n, five, ten := Line(Some(N), 0.0, KInt), Line(None, 5.0, KNumber), Line(None, 10.0, KNumber);
            !CanHold(m, [Requirement("guard", OrderedCases(Ge, n, ten, T)),
                         Requirement("invariant", OrderedCases(Gt, five, n, T) + OrderedCases(Gt, five, n, U))])
  {
    var n, five, ten := Line(Some(N), 0.0, KInt), Line(None, 5.0, KNumber), Line(None, 10.0, KNumber);
    var low, high := Diff(Bound(Zero, At(N), -10.0, false)), Diff(Bound(At(N), Zero, 5.0, true));
    assert OrderedCases(Ge, n, ten, T) == [PresentAtoms(Some(N), None) + {low}];
    assert OrderedCases(Gt, five, n, T) == [PresentAtoms(None, Some(N)) + {high}];
    assert OrderedCases(Gt, five, n, U) == [] + [{Absent(N)}] == [{Absent(N)}];
    var before := Requirement("guard", OrderedCases(Ge, n, ten, T));
    var after := Requirement("invariant", OrderedCases(Gt, five, n, T) + OrderedCases(Gt, five, n, U));
    forall v: Valuation ensures !Met(v, [before, after]) {
      ConcatHolds(v, OrderedCases(Gt, five, n, T), OrderedCases(Gt, five, n, U));
      OneCase(v, PresentAtoms(Some(N), None) + {low});
      OneCase(v, PresentAtoms(None, Some(N)) + {high});
      OneCase(v, {Absent(N)});
      assert low in PresentAtoms(Some(N), None) + {low} && Present(N) in PresentAtoms(Some(N), None) + {low};
      assert high in PresentAtoms(None, Some(N)) + {high} && Absent(N) in {Absent(N)};
      assert !(AtomHolds(v, low) && AtomHolds(v, high)) && !(AtomHolds(v, Present(N)) && AtomHolds(v, Absent(N)));
      assert [before, after][0] == before && [before, after][1] == after;
    }
  }

  lemma ResetRuns()
    ensures IsRun(LEVELS, RESET, {"n"}, Plain(GIVEN_ONE), [Plain(Oned(GIVEN_ONE)), Plain(Fived(Oned(GIVEN_ONE)))])
  {
    var w, a, b := Plain(GIVEN_ONE), Plain(Oned(GIVEN_ONE)), Plain(Fived(Oned(GIVEN_ONE)));
    LevelsModel(RESET);
    ResetStarts();
    FiveSteps(After(LEVELS, RESET), {"n"}, Oned(GIVEN_ONE));
    RunOfOne(LEVELS, RESET, {"n"}, w, a, b);
  }

  lemma ResetStarts()
    ensures Gives(ModelFor(LEVELS, RESET), {"n"}, Plain(GIVEN_ONE))
    ensures Starts(LEVELS, RESET, {"n"}, Plain(GIVEN_ONE), Plain(Oned(GIVEN_ONE)))
  {
    LevelsModel(RESET);
  }

  lemma FiveSteps(a: Analysis, given: set<string>, vars: imap<Var, Value>)
    ensures Stepped(a, given, Assign("level", FIVE), Plain(vars), Plain(Fived(vars)))
  {
  }

  lemma SettleRuns()
    ensures IsRun(LEVELS, SETTLE, {}, Plain(TEN), [Plain(TEN), Plain(Fived(TEN)), Plain(Oned(Fived(TEN)))])
  {
    LevelsModel(SETTLE);
    FiveSteps(After(LEVELS, SETTLE), {}, TEN);
    NSteps(After(LEVELS, SETTLE), {}, Fived(TEN));
    assert Starts(LEVELS, SETTLE, {}, Plain(TEN), Plain(TEN));
    RunOfTwo(LEVELS, SETTLE, {}, Plain(TEN), Plain(TEN), Plain(Fived(TEN)), Plain(Oned(Fived(TEN))));
  }

  lemma NSteps(a: Analysis, given: set<string>, vars: imap<Var, Value>)
    ensures Stepped(a, given, OtherStep({"n"}, {}), Plain(vars), Plain(Oned(vars)))
  {
  }

  lemma LevelsMisreadable(x: Transition, vars: imap<Var, Value>)
    requires x == RESET || x == SETTLE
    ensures IsMisreadable(LEVELS, x, "n") && Blank(LEVELS, x, Plain(vars)) && ReadFor(LEVELS, x, Plain(vars)) == Plain(vars)
    ensures ResolveName(After(LEVELS, x), "n") == Variable(N)
  {
    NResolved(x);
    assert "OPEN" in LEVELS.states;
  }

  lemma NResolved(x: Transition)
    requires x == RESET || x == SETTLE
    ensures ResolveName(After(LEVELS, x), "n") == Variable(N)
  {
    LevelsModel(x);
    LevelsHeld(x);
  }

  lemma TenIsN()
    ensures Lookup(TEN, N) == Some(VNum(10.0)) == Lookup(GIVEN_ONE, N)
  {
  }

  lemma NIsMisread(x: Transition, given: set<string>, vars: imap<Var, Value>, run: seq<World>)
    requires (x == RESET && vars == GIVEN_ONE) || (x == SETTLE && vars == TEN)
    requires IsRun(LEVELS, x, given, Plain(vars), run) && Lookup(run[|x.effect|].vars, N) == Some(VNum(1.0))
    ensures !ReadsRight(LEVELS, x, "n")
  {
    LevelsMisreadable(x, vars);
    TenIsN();
    ShownMisread(LEVELS, x, given, Plain(vars), run, "n");
  }

  lemma ResetTakes()
    ensures Takes(LEVELS, RESET, Plain(GIVEN_ONE), Plain(Fived(Oned(GIVEN_ONE)))) && !ReadsRight(LEVELS, RESET, "n")
  {
    var run := [Plain(Oned(GIVEN_ONE)), Plain(Fived(Oned(GIVEN_ONE)))];
    TenIsTakeable(RESET, GIVEN_ONE);
    ResetRuns();
    assert run[|RESET.effect|] == Plain(Fived(Oned(GIVEN_ONE)));
    NIsMisread(RESET, {"n"}, GIVEN_ONE, run);
    NothingDerived(RESET, Plain(Fived(Oned(GIVEN_ONE))));
  }

  lemma NothingDerived(x: Transition, w: World)
    ensures Coherent(ModelFor(LEVELS, x), w)
  {
  }

  lemma SettleTakes()
    ensures Takes(LEVELS, SETTLE, Plain(TEN), Plain(Oned(Fived(TEN)))) && !ReadsRight(LEVELS, SETTLE, "n")
  {
    var run := [Plain(TEN), Plain(Fived(TEN)), Plain(Oned(Fived(TEN)))];
    TenIsTakeable(SETTLE, TEN);
    SettleRuns();
    assert run[|SETTLE.effect|] == Plain(Oned(Fived(TEN)));
    NIsMisread(SETTLE, {}, TEN, run);
    NothingDerived(SETTLE, Plain(Oned(Fived(TEN))));
  }

  /** A false alarm: the runtime writes an optional input that is given to its attribute, as it does a required one, and the
      analysis reads the attribute, through `this`, as it was before. The request takes n from ten to one and keeps the level
      above it; no valuation meets the guard and the invariant. */
  lemma OptionalInputMisread()
    ensures Takes(LEVELS, RESET, Plain(GIVEN_ONE), Plain(Fived(Oned(GIVEN_ONE)))) && !ReadsRight(LEVELS, RESET, "n")
    ensures IsInvariant(LEVELS, ABOVE) && ReadsOnlyWrites(LEVELS, RESET, ABOVE)
    ensures Truth(ModelFor(LEVELS, RESET), Plain(Fived(Oned(GIVEN_ONE))), ABOVE) == T
    ensures Clash(ModelFor(LEVELS, RESET), Expand(Unwritten(ModelFor(LEVELS, RESET)), HIGH_N, T, {}),
                  HoldsCases(After(LEVELS, RESET), ABOVE))
  {
    LevelsModel(RESET);
    LevelsHeld(RESET);
    ResetTakes();
    AboveTruth(ModelFor(LEVELS, RESET), Fived(Oned(GIVEN_ONE)));
    FiveAboveTen(RESET);
  }

  lemma SettleKeeps()
    ensures Truth(ModelFor(LEVELS, SETTLE), Plain(Oned(Fived(TEN))), ABOVE) == T
  {
    AboveTruth(ModelFor(LEVELS, SETTLE), Oned(Fived(TEN)));
  }

  /** And so is an attribute that a step not followed changes. */
  lemma OtherStepMisread()
    ensures Takes(LEVELS, SETTLE, Plain(TEN), Plain(Oned(Fived(TEN)))) && !ReadsRight(LEVELS, SETTLE, "n")
    ensures IsInvariant(LEVELS, ABOVE) && ReadsOnlyWrites(LEVELS, SETTLE, ABOVE)
    ensures Truth(ModelFor(LEVELS, SETTLE), Plain(Oned(Fived(TEN))), ABOVE) == T
    ensures Clash(ModelFor(LEVELS, SETTLE), Expand(Unwritten(ModelFor(LEVELS, SETTLE)), HIGH_N, T, {}),
                  HoldsCases(After(LEVELS, SETTLE), ABOVE))
  {
    LevelsModel(SETTLE);
    LevelsHeld(SETTLE);
    SettleTakes();
    SettleKeeps();
    FiveAboveTen(SETTLE);
  }

  // ── a write that is exactly an input not given ───────────────────────────

  const NEW_LEVEL := Path(Name("inputs"), "new")
  const NONE_GIVEN := IsNull(NEW_LEVEL, false)
  const LEVELLED := IsNull(Name("level"), true)

  /** Taken where no new level is given, and writes it: the level, which may be absent, is held not to be. */
  const REVISE := Transition(Internal, {"OPEN"}, None, [], [], map["new" := Spec(None, "int", false, true, false)],
                             [("unnamed", Deny)], [Assign("level", NEW_LEVEL)])
  const REVISED := TypeDecl("Order", map["level" := Spec(None, "int", false, true, false)], map[],
                            map["OPEN" := State("live", false, [])], {}, map[], map["unnamed" := NONE_GIVEN],
                            map["levelled" := LEVELLED], map["revise" := REVISE])

  const THREE_HIGH: imap<Var, Value> := imap[AttrVar("level") := VNum(3.0), StateVar := VName("OPEN"), NowVar := VNum(0.0)]

  lemma ReviseHeld()
    ensures IsInvariant(REVISED, LEVELLED) && ReadsOnlyWrites(REVISED, REVISE, LEVELLED)
    ensures After(REVISED, REVISE) == Analysis(ModelFor(REVISED, REVISE), map["level" := NEW_LEVEL], None)
  {
    var e := REVISE.effect;
    assert e[..0] == [] && StepsWrite([], []) == map[] && AssignedBy([]) == map[];
    assert StepsWrite([], e) == map["level" := NEW_LEVEL] && AssignedBy(e) == map["level" := NEW_LEVEL];
    assert NamesIn(NEW_LEVEL) == {"inputs"} && NamesIn(LEVELLED) == {"level"};
    assert WrittenBy(REVISE) == map["level" := NEW_LEVEL];
    assert "level" in NamesIn(LEVELLED) - {"inputs", "now", "this"};
    assert REVISED.invariants["levelled"] == LEVELLED;
  }

  lemma ReviseModel()
    ensures var m := ModelFor(REVISED, REVISE);
            && m.attrs.Keys == {"level"} && m.derived == map[] && !m.created && m.inputs.Keys == {"new"} && m.present == {}
            && VarInfo(m, InputVar("new")) == Some(Integral(true)) && Taken(REVISE) == {}
  {
    assert "new" in InputNames(REVISE);
  }

  lemma ReviseIsTakeable()
    ensures Takeable(REVISED, REVISE, Plain(THREE_HIGH))
  {
    var m := ModelFor(REVISED, REVISE);
    ReviseModel();
    forall z | VarInfo(m, z).Some? && !z.CountVar? ensures Fits(VarInfo(m, z).value, Lookup(THREE_HIGH, z)) {
      match z {
        case StateVar => assert VName("OPEN") in StateValues(m);
        case InputVar(i) => assert i == "new";
        case _ =>
      }
    }
    assert "OPEN" in REVISE.from;
    assert ValueOf(m, Plain(THREE_HIGH), NEW_LEVEL) == None;
    forall g | IsGuard(REVISED, REVISE, g, Deny) ensures Truth(m, Plain(THREE_HIGH), REVISED.conditions[g]) == T {
      assert REVISED.conditions[g] == NONE_GIVEN;
    }
  }

  lemma ReviseRuns()
    ensures IsRun(REVISED, REVISE, {}, Plain(THREE_HIGH), [Plain(THREE_HIGH), Plain(THREE_HIGH)])
  {
    ReviseModel();
    assert Starts(REVISED, REVISE, {}, Plain(THREE_HIGH), Plain(THREE_HIGH));
    RunOfOne(REVISED, REVISE, {}, Plain(THREE_HIGH), Plain(THREE_HIGH), Plain(THREE_HIGH));
  }

  lemma ReviseResolves(a: Analysis)
    requires a.written == map["level" := NEW_LEVEL] && a.m.attrs.Keys == {"level"} && "new" in a.m.inputs
    ensures ResolveName(a, "level") == Resolve(a, Name("level")) == Variable(InputVar("new")) == Resolve(Unwritten(a.m), NEW_LEVEL)
  {
    var less := a.(written := a.written - {"level"});
    assert ResolveName(a, "level") == Resolve(less, NEW_LEVEL) == ResolvePath(less, Name("inputs"), "new");
    assert Resolve(Unwritten(a.m), NEW_LEVEL) == ResolvePath(Unwritten(a.m), Name("inputs"), "new");
    assert Resolve(a, Name("level")) == ResolveName(a, "level");
  }

  lemma ReviseClash(a: Analysis)
    requires a.written == map["level" := NEW_LEVEL] && a.m.attrs.Keys == {"level"} && "new" in a.m.inputs
    requires VarInfo(a.m, InputVar("new")).Some?
    ensures Clash(a.m, Expand(Unwritten(a.m), NONE_GIVEN, T, {}), HoldsCases(a, LEVELLED))
  {
    var x := InputVar("new");
    ReviseResolves(a);
    assert Expand(Unwritten(a.m), NONE_GIVEN, T, {}) == Ok([{Absent(x)}]);
    assert Expand(a, LEVELLED, T, {}) == Ok([{Present(x)}]) && Expand(a, LEVELLED, U, {}) == Ok([]);
    JoinedCases([{Present(x)}], []);
    assert [{Present(x)}] + [] == [{Present(x)}];
    AbsentAndPresent(a.m, x);
  }

  lemma AbsentAndPresent(m: Model, x: Var)
    ensures !CanHold(m, [Requirement("guard", [{Absent(x)}]), Requirement("invariant", [{Present(x)}])])
  {
    var before, after := Requirement("guard", [{Absent(x)}]), Requirement("invariant", [{Present(x)}]);
    forall v: Valuation ensures !Met(v, [before, after]) {
      OneCase(v, {Absent(x)});
      OneCase(v, {Present(x)});
      assert Absent(x) in {Absent(x)} && Present(x) in {Present(x)};
      assert !(AtomHolds(v, Absent(x)) && AtomHolds(v, Present(x)));
      assert [before, after][0] == before && [before, after][1] == after;
    }
  }

  lemma ReviseMisreadable()
    ensures IsMisreadable(REVISED, REVISE, "level") && Blank(REVISED, REVISE, Plain(THREE_HIGH))
    ensures ReadFor(REVISED, REVISE, Plain(THREE_HIGH)) == Plain(THREE_HIGH)
    ensures ResolveName(After(REVISED, REVISE), "level") == Variable(InputVar("new"))
  {
    ReviseHeld();
    ReviseModel();
    ReviseResolves(After(REVISED, REVISE));
    assert "OPEN" in REVISED.states;
  }

  lemma ReviseTakes()
    ensures Takes(REVISED, REVISE, Plain(THREE_HIGH), Plain(THREE_HIGH))
  {
    var run := [Plain(THREE_HIGH), Plain(THREE_HIGH)];
    ReviseIsTakeable();
    ReviseRuns();
    assert run[|REVISE.effect|] == Plain(THREE_HIGH);
  }

  lemma LevelIsMisread()
    ensures !ReadsRight(REVISED, REVISE, "level")
  {
    var run := [Plain(THREE_HIGH), Plain(THREE_HIGH)];
    ReviseRuns();
    assert run[|REVISE.effect|] == Plain(THREE_HIGH);
    ReviseMisreadable();
    ShownMisread(REVISED, REVISE, {}, Plain(THREE_HIGH), run, "level");
  }

  /** A false alarm: a write that is exactly an input the request does not give is skipped, and the attribute keeps its
      value; the analysis reads it as absent. The request leaves the object as it was; no valuation meets the guard and the
      invariant. */
  lemma SkippedWriteMisread()
    ensures Takes(REVISED, REVISE, Plain(THREE_HIGH), Plain(THREE_HIGH)) && !ReadsRight(REVISED, REVISE, "level")
    ensures IsInvariant(REVISED, LEVELLED) && ReadsOnlyWrites(REVISED, REVISE, LEVELLED)
    ensures Truth(ModelFor(REVISED, REVISE), Plain(THREE_HIGH), LEVELLED) == T
    ensures Clash(ModelFor(REVISED, REVISE), Expand(Unwritten(ModelFor(REVISED, REVISE)), NONE_GIVEN, T, {}),
                  HoldsCases(After(REVISED, REVISE), LEVELLED))
  {
    ReviseHeld();
    ReviseModel();
    ReviseTakes();
    LevelIsMisread();
    LevelThere(ModelFor(REVISED, REVISE));
    ReviseClash(After(REVISED, REVISE));
  }

  lemma LevelThere(m: Model)
    requires m.attrs.Keys == {"level"}
    ensures Truth(m, Plain(THREE_HIGH), LEVELLED) == T
  {
    assert ValueOf(m, Plain(THREE_HIGH), Name("level")) == Some(VNum(3.0));
  }

  // ── what is not there when an object is created ──────────────────────────

  function IsAbsent(n: string): Expr {
    IsNull(Name(n), false)
  }

  function IsGiven(n: string): Expr {
    IsNull(Path(Name("inputs"), n), true)
  }

  /** A creation's guards that a name of its object is absent and, where an input that writes none has the name, that it is
      given. */
  function AbsenceTests(m: Model, n: string): seq<Expr> {
    if n != "state" && n in m.inputs then [IsAbsent(n), IsGiven(n)] else [IsAbsent(n)]
  }

  /** Their requirements. */
  function Requires(m: Model, tests: seq<Expr>): seq<Requirement> {
    seq(|tests|, i requires 0 <= i < |tests| => Requirement("guard", LeafCases(Unwritten(m), tests[i], T)))
  }

  /** Every name the analysis reads though there is no object yet makes a false alarm: a test that it is absent, true of no
      object, beside one that the input of the name is given where there is one, meets no valuation. */
  lemma AbsenceMisread(m: Model, taken: set<string>, w: World, n: string)
    requires Unborn(m, taken, w) && NamesApart(m) && n in Assumed(m, taken)
    requires n != "state" && n in m.inputs ==> Lookup(w.vars, InputVar(n)).Some? && VarInfo(m, InputVar(n)).Some?
    ensures forall e | e in AbsenceTests(m, n) :: Truth(m, w, e) == T && Expand(Unwritten(m), e, T, {}) == Ok(LeafCases(Unwritten(m), e, T))
    ensures !CanHold(m, Requires(m, AbsenceTests(m, n)))
  {
    AbsenceTrue(m, taken, w, n);
    AbsenceCases(m, taken, n);
    var reqs := Requires(m, AbsenceTests(m, n));
    var x := ReadThere(m, n);
    forall v: Valuation | WellTyped(m, v.vars) ensures !Met(v, reqs) {
      OneCase(v, {Absent(x)});
      OneCase(v, {Present(x)});
      assert Absent(x) in {Absent(x)} && Present(x) in {Present(x)};
      assert !(AtomHolds(v, Absent(x)) && AtomHolds(v, Present(x)));
      assert !x.InputVar? ==> Fits(VarInfo(m, x).value, Lookup(v.vars, x));
      assert reqs[0].cases == [{Absent(x)}];
    }
  }

  /** What is read of a name there where there is nothing. */
  function ReadThere(m: Model, n: string): Var {
    if n == "state" then StateVar else if n in m.inputs then InputVar(n) else AttrVar(n)
  }

  lemma AbsenceTrue(m: Model, taken: set<string>, w: World, n: string)
    requires Unborn(m, taken, w) && n in Assumed(m, taken)
    requires n != "state" && n in m.inputs ==> Lookup(w.vars, InputVar(n)).Some?
    ensures forall e | e in AbsenceTests(m, n) :: Truth(m, w, e) == T
  {
    AbsentThere(m, taken, w, n);
    if n != "state" && n in m.inputs {
      GivenThere(m, w, n);
    }
  }

  lemma AbsentThere(m: Model, taken: set<string>, w: World, n: string)
    requires Unborn(m, taken, w) && n in Assumed(m, taken)
    ensures Truth(m, w, IsAbsent(n)) == T
  {
    assert NameValue(m, w, n) == None;
  }

  lemma GivenThere(m: Model, w: World, n: string)
    requires n in m.inputs && Lookup(w.vars, InputVar(n)).Some?
    ensures Truth(m, w, IsGiven(n)) == T
  {
    assert PathValue(m, w, Name("inputs"), n) == Lookup(w.vars, InputVar(n));
  }

  lemma AbsenceCases(m: Model, taken: set<string>, n: string)
    requires m.created && n in Assumed(m, taken)
    requires n != "state" && n in m.inputs ==> VarInfo(m, InputVar(n)).Some?
    ensures var x, tests := ReadThere(m, n), AbsenceTests(m, n); var reqs := Requires(m, tests);
            && VarInfo(m, x).Some? && (!x.InputVar? ==> !VarInfo(m, x).value.nullable)
            && |reqs| >= 1 && reqs[0].cases == [{Absent(x)}] && (x.InputVar? ==> |reqs| == 2 && reqs[1].cases == [{Present(x)}])
    ensures forall e | e in AbsenceTests(m, n) :: Expand(Unwritten(m), e, T, {}) == Ok(LeafCases(Unwritten(m), e, T))
  {
    var a, x := Unwritten(m), ReadThere(m, n);
    assert ResolveName(a, n) == Resolve(a, Name(n)) == Variable(x);
    assert AbsenceTests(m, n)[0] == IsAbsent(n);
    if x.InputVar? {
      assert Resolve(a, Path(Name("inputs"), n)) == Variable(x) && AbsenceTests(m, n)[1] == IsGiven(n);
    }
  }

  /** A creation taken where there is no state yet, which is of every request. */
  const STATELESS := IsAbsent("state")
  const OPENING := Transition(Initial, {}, Some("OPEN"), [], [], map[], [("stateless", Deny)], [])
  const OPENED := TypeDecl("Order", map[], map[], map["OPEN" := State("live", false, [])], {}, map[],
                           map["stateless" := STATELESS], map[], map["opening" := OPENING])
  const NOTHING := World(imap[NowVar := VNum(0.0)], imap[], imap[])

  /** A false alarm: the analysis reads a state where a creation's guards are evaluated on no object. The creation may be
      taken, and no valuation meets its guard. */
  lemma NewStateMisread()
    ensures Takeable(OPENED, OPENING, NOTHING) && !Askable(OPENED, OPENING)
    ensures Expand(Unwritten(ModelFor(OPENED, OPENING)), STATELESS, T, {}).Ok?
    ensures !CanHold(ModelFor(OPENED, OPENING),
                     [Requirement("guard", Expand(Unwritten(ModelFor(OPENED, OPENING)), STATELESS, T, {}).value)])
  {
    var m := ModelFor(OPENED, OPENING);
    NothingUnborn();
    AbsenceMisread(m, {}, NOTHING, "state");
    assert AbsenceTests(m, "state") == [STATELESS] && STATELESS in AbsenceTests(m, "state");
    assert Requires(m, [STATELESS]) == [Requirement("guard", LeafCases(Unwritten(m), STATELESS, T))];
    StatelessTested(m);
  }

  lemma NothingUnborn()
    ensures var m := ModelFor(OPENED, OPENING);
            Unborn(m, {}, NOTHING) && Taken(OPENING) == {} && "state" in Assumed(m, {}) && NamesApart(m) && m.inputs == map[]
  {
    var m := ModelFor(OPENED, OPENING);
    assert InputNames(OPENING) == {} && m.inputs == map[] && Taken(OPENING) == {};
  }

  lemma TestNotOpaque(a: Analysis, e: Expr, x: Var)
    requires e.IsNull? && Resolve(a, e.e) == Variable(x) && VarInfo(a.m, x).Some?
    ensures !IsOpaque(a, e)
  {
    forall t: Tri ensures LeafCases(a, e, t) != OpaqueCases(e, t) {
      assert Opaque(e, t) in OpaqueCases(e, t)[0] && Opaque(e, t) !in {Absent(x)} && Opaque(e, t) !in {Present(x)};
    }
  }

  lemma StatelessTested(m: Model)
    requires m == ModelFor(OPENED, OPENING)
    ensures !Askable(OPENED, OPENING)
    ensures forall g | IsGuard(OPENED, OPENING, g, Deny) :: OPENED.conditions[g] == STATELESS
  {
    assert Resolve(Unwritten(m), Name("state")) == Variable(StateVar);
    TestNotOpaque(Unwritten(m), STATELESS, StateVar);
    assert NamesTested(Unwritten(m), STATELESS, {}) == {"state"} && "state" in Assumed(m, Taken(OPENING));
    assert !TestsApart(m, Taken(OPENING), STATELESS);
    assert OPENING.guards[0] == ("stateless", Deny) && !IsAskable(OPENED, OPENING, "stateless");
  }
}
