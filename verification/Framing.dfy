/** What a condition turns on by name, and objects that differ only there: when what a transition's guards and the
    invariants held to after it share is the same before and after (scripts/flowlogic.py, `analyse_type`). */
module Framing {
  import opened Wrappers
  import opened Syntax
  import opened TypeModel
  import opened Bounds
  import opened Atoms
  import opened CaseProducts
  import opened Conditions
  import opened Expansion
  import opened Exactness
  import opened Requirements
  import opened Declarations
  import opened Objects
  import opened Observed
  import opened Writing
  import opened Findings

  // ── the names a condition turns on ───────────────────────────────────────

  /** The names of its own object a condition's value turns on: read bare, through `this` or as the state, and those a
      derived attribute it reads turns on. */
  function NamesRead(m: Model, e: Expr, bound: set<string>, inlining: set<string>): set<string>
    decreases m.derived.Keys - inlining, 1, e
  {
    match e
    case Name(n) => if n in bound then {} else OwnRead(m, n, inlining)
    case Path(base, member) =>
      if base == Name("this") then OwnRead(m, member, inlining) else NamesRead(m, base, bound, inlining)
    case Agg(_, _, binder, coll, where, body) =>
      (if coll.Some? then NamesRead(m, coll.value, bound, inlining) else {})
      + (if where.Some? then NamesRead(m, where.value, bound + BinderOf(binder), inlining) else {})
      + (if body.Some? then NamesRead(m, body.value, bound + BinderOf(binder), inlining) else {})
    case Metric(metric, binds, over, fresh_) =>
      NamesRead(m, metric, bound, inlining)
      + (if over.Some? then NamesRead(m, over.value, bound, inlining) else {})
      + (if fresh_.Some? then NamesRead(m, fresh_.value, bound, inlining) else {})
      + set i, n | 0 <= i < |binds| && n in NamesRead(m, binds[i].1, bound, inlining) :: n
    case Changed(names, event) => (set n | n in names) + NamesRead(m, event, bound, inlining)
    case Call(fn, args) =>
      (if fn.Name? then (if fn.name == "entered_at" then {"state"} else {}) else NamesRead(m, fn, bound, inlining))
      + set i, n | 0 <= i < |args| && n in NamesRead(m, args[i], bound, inlining) :: n
    case SetLit(items) => set i, n | 0 <= i < |items| && n in NamesRead(m, items[i], bound, inlining) :: n
    case Not(x) => NamesRead(m, x, bound, inlining)
    case Neg(x) => NamesRead(m, x, bound, inlining)
    case IsNull(x, _) => NamesRead(m, x, bound, inlining)
    case In(l, r) => NamesRead(m, l, bound, inlining) + NamesRead(m, r, bound, inlining)
    case Bin(_, l, r) => NamesRead(m, l, bound, inlining) + NamesRead(m, r, bound, inlining)
    case If(c, a, b) =>
      NamesRead(m, c, bound, inlining) + NamesRead(m, a, bound, inlining) + NamesRead(m, b, bound, inlining)
    case _ => {}
  }

  function OwnRead(m: Model, n: string, inlining: set<string>): set<string>
    decreases m.derived.Keys - inlining, 0
  {
    {n} + (if n == "open" then {"state"} else {})
    + (if n in m.derived && n !in inlining then NamesRead(m, m.derived[n], {}, inlining + {n}) else {})
  }

  /** A condition turns on none of some names. */
  predicate Untouched(m: Model, changed: set<string>, e: Expr) {
    NamesRead(m, e, {}, {}) !! changed
  }

  /** One object and another that differs from it by no more than some of its names: whatever turns on none of them is the
      same of both. */
  ghost predicate Framed(m: Model, changed: set<string>, w: World, w': World) {
    KeptBut(changed, "state" in changed, w, w') && Unreached(m, changed, w, w')
  }

  /** The tally of each aggregate and the value of each expression that turns on none of some names are the same. */
  ghost predicate Unreached(m: Model, changed: set<string>, w: World, w': World) {
    && (forall g: Expr | g.Agg? && Untouched(m, changed, g) :: Lookup(w'.tallies, g) == Lookup(w.tallies, g))
    && (forall e | Untouched(m, changed, e) :: Lookup(w'.other, e) == Lookup(w.other, e))
  }

  // ── a binder nothing turns on ────────────────────────────────────────────

  /** A name a condition is free of may be bound or not. */
  lemma {:induction false} BoundUnread(m: Model, e: Expr, bound: set<string>, b: string, inlining: set<string>)
    requires b !in FreeNames(e)
    ensures NamesRead(m, e, bound + {b}, inlining) == NamesRead(m, e, bound, inlining)
    decreases e
  {
    match e {
      case Path(base, _) => BoundUnread(m, base, bound, b, inlining);
      case Agg(_, _, _, _, _, _) => AggBoundUnread(m, e, bound, b, inlining);
      case Metric(_, _, _, _) => MetricBoundUnread(m, e, bound, b, inlining);
      case Changed(_, event) => BoundUnread(m, event, bound, b, inlining);
      case Call(fn, args) =>
        if !fn.Name? { BoundUnread(m, fn, bound, b, inlining); }
        ItemsBoundUnread(m, args, bound, b, inlining);
      case SetLit(items) => ItemsBoundUnread(m, items, bound, b, inlining);
      case Not(x) => BoundUnread(m, x, bound, b, inlining);
      case Neg(x) => BoundUnread(m, x, bound, b, inlining);
      case IsNull(x, _) => BoundUnread(m, x, bound, b, inlining);
      case In(l, r) =>
        BoundUnread(m, l, bound, b, inlining);
        BoundUnread(m, r, bound, b, inlining);
      case Bin(_, l, r) =>
        BoundUnread(m, l, bound, b, inlining);
        BoundUnread(m, r, bound, b, inlining);
      case If(c, x, y) =>
        BoundUnread(m, c, bound, b, inlining);
        BoundUnread(m, x, bound, b, inlining);
        BoundUnread(m, y, bound, b, inlining);
      case _ =>
    }
  }

  lemma {:induction false} MetricBoundUnread(m: Model, e: Expr, bound: set<string>, b: string, inlining: set<string>)
    requires e.Metric? && b !in FreeNames(e)
    ensures NamesRead(m, e, bound + {b}, inlining) == NamesRead(m, e, bound, inlining)
    decreases e, 0
  {
    BoundUnread(m, e.metric, bound, b, inlining);
    if e.over.Some? { BoundUnread(m, e.over.value, bound, b, inlining); }
    if e.fresh_.Some? { BoundUnread(m, e.fresh_.value, bound, b, inlining); }
    forall i | 0 <= i < |e.binds|
      ensures NamesRead(m, e.binds[i].1, bound + {b}, inlining) == NamesRead(m, e.binds[i].1, bound, inlining)
    {
      BoundUnread(m, e.binds[i].1, bound, b, inlining);
    }
  }

  lemma {:induction false} ItemsBoundUnread(m: Model, items: seq<Expr>, bound: set<string>, b: string, inlining: set<string>)
    requires forall i | 0 <= i < |items| :: b !in FreeNames(items[i])
    ensures forall i | 0 <= i < |items| :: NamesRead(m, items[i], bound + {b}, inlining) == NamesRead(m, items[i], bound, inlining)
    decreases items
  {
    forall i | 0 <= i < |items|
      ensures NamesRead(m, items[i], bound + {b}, inlining) == NamesRead(m, items[i], bound, inlining)
    {
      BoundUnread(m, items[i], bound, b, inlining);
    }
  }

  lemma InnerFreeHolds(where: Option<Expr>, body: Option<Expr>)
    ensures where.Some? ==> FreeNames(where.value) <= InnerFree(where, body)
    ensures body.Some? ==> FreeNames(body.value) <= InnerFree(where, body)
  {
  }

  lemma {:induction false} AggBoundUnread(m: Model, e: Expr, bound: set<string>, b: string, inlining: set<string>)
    requires e.Agg? && b !in FreeNames(e)
    ensures NamesRead(m, e, bound + {b}, inlining) == NamesRead(m, e, bound, inlining)
    decreases e, 0
  {
    var own := BinderOf(e.binder);
    assert bound + {b} + own == bound + own + {b};
    if e.coll.Some? { BoundUnread(m, e.coll.value, bound, b, inlining); }
    if b in own {
      assert bound + {b} + own == bound + own;
    } else {
      InnerFreeHolds(e.where, e.body);
      if e.where.Some? { BoundUnread(m, e.where.value, bound + own, b, inlining); }
      if e.body.Some? { BoundUnread(m, e.body.value, bound + own, b, inlining); }
    }
  }

  /** An aggregate and the tally it reads turn on the same names. */
  lemma TallyReadsAlike(m: Model, g: Expr)
    requires g.Agg?
    ensures NamesRead(m, TallyKey(g), {}, {}) == NamesRead(m, g, {}, {})
  {
    if TallyKey(g).binder != g.binder {
      InnerFreeHolds(g.where, g.body);
      var b := g.binder.value;
      assert {} + BinderOf(g.binder) == {} + {b} && {} + BinderOf(None) == {};
      if g.where.Some? { BoundUnread(m, g.where.value, {}, b, {}); }
      if g.body.Some? { BoundUnread(m, g.body.value, {}, b, {}); }
    }
  }

  // ── what the frame keeps ─────────────────────────────────────────────────

  lemma NameFramed(m: Model, changed: set<string>, w: World, w': World, n: string)
    requires Framed(m, changed, w, w') && OwnRead(m, n, {}) !! changed
    ensures NameValue(m, w', n) == NameValue(m, w, n)
  {
    assert n in OwnRead(m, n, {});
    assert Untouched(m, changed, Name(n));
  }

  lemma PathFramed(m: Model, changed: set<string>, w: World, w': World, base: Expr, member: string)
    requires Framed(m, changed, w, w') && Untouched(m, changed, Path(base, member))
    ensures PathValue(m, w', base, member) == PathValue(m, w, base, member)
  {
    if base == Name("this") {
      NameFramed(m, changed, w, w', member);
    } else if base == Name("state") {
      assert "state" in NamesRead(m, Name("state"), {}, {});
    }
  }

  lemma TallyFramed(m: Model, changed: set<string>, w: World, w': World, g: Expr)
    requires Framed(m, changed, w, w') && g.Agg? && Untouched(m, changed, g)
    ensures Lookup(w'.tallies, TallyKey(g)) == Lookup(w.tallies, TallyKey(g))
  {
    TallyReadsAlike(m, g);
    assert Untouched(m, changed, TallyKey(g));
  }

  lemma CallFramed(m: Model, changed: set<string>, w: World, w': World, e: Expr)
    requires Framed(m, changed, w, w') && Untouched(m, changed, e) && e.Call?
    ensures ValueOf(m, w', e) == ValueOf(m, w, e)
  {
    if e.fn == Name("entered_at") {
      assert "state" in NamesRead(m, e, {}, {});
    }
  }

  lemma AggFramed(m: Model, changed: set<string>, w: World, w': World, e: Expr)
    requires Framed(m, changed, w, w') && Untouched(m, changed, e) && e.Agg?
    ensures ValueOf(m, w', e) == ValueOf(m, w, e) && Truth(m, w', e) == Truth(m, w, e)
  {
    TallyFramed(m, changed, w, w', e);
    assert Lookup(w'.other, e) == Lookup(w.other, e);
  }

  /** A value that is no part's, nor a truth its shape gives. */
  lemma ValueFramed(m: Model, changed: set<string>, w: World, w': World, e: Expr)
    requires Framed(m, changed, w, w') && Untouched(m, changed, e) && !IsLogical(m, e) && !e.Bin?
    ensures ValueOf(m, w', e) == ValueOf(m, w, e)
  {
    match e {
      case Name(n) => NameFramed(m, changed, w, w', n);
      case Path(base, member) => PathFramed(m, changed, w, w', base, member);
      case Agg(_, _, _, _, _, _) => AggFramed(m, changed, w, w', e);
      case Call(_, _) => CallFramed(m, changed, w, w', e);
      case _ =>
    }
  }

  lemma BinFramed(m: Model, w: World, w': World, e: Expr)
    requires e.Bin? && Lookup(w'.other, e) == Lookup(w.other, e)
    requires ValueOf(m, w', e.left) == ValueOf(m, w, e.left) && ValueOf(m, w', e.right) == ValueOf(m, w, e.right)
    requires Truth(m, w', e.left) == Truth(m, w, e.left) && Truth(m, w', e.right) == Truth(m, w, e.right)
    ensures ValueOf(m, w', e) == ValueOf(m, w, e) && Truth(m, w', e) == Truth(m, w, e)
  {
    if IsArithmetic(e.op) {
      ArithmeticFramed(m, w, w', e);
    }
  }

  lemma ArithmeticFramed(m: Model, w: World, w': World, e: Expr)
    requires e.Bin? && IsArithmetic(e.op) && Lookup(w'.other, e) == Lookup(w.other, e)
    requires ValueOf(m, w', e.left) == ValueOf(m, w, e.left) && ValueOf(m, w', e.right) == ValueOf(m, w, e.right)
    ensures ValueOf(m, w', e) == ValueOf(m, w, e) && Truth(m, w', e) == Truth(m, w, e)
  {
  }

  lemma UnaryFramed(m: Model, w: World, w': World, e: Expr)
    requires e.Not? || e.IsNull?
    requires ValueOf(m, w', e.e) == ValueOf(m, w, e.e) && Truth(m, w', e.e) == Truth(m, w, e.e)
    ensures ValueOf(m, w', e) == ValueOf(m, w, e) && Truth(m, w', e) == Truth(m, w, e)
  {
  }

  lemma PartsUntouched(m: Model, changed: set<string>, e: Expr)
    requires Untouched(m, changed, e)
    ensures e.Not? || e.IsNull? ==> Untouched(m, changed, e.e)
    ensures e.Bin? ==> Untouched(m, changed, e.left) && Untouched(m, changed, e.right)
  {
  }

  /** What turns on none of the names that changed is of both objects alike: true, false or unknown, and of one value. */
  lemma {:induction false} FramedAlike(m: Model, changed: set<string>, w: World, w': World, e: Expr)
    requires Framed(m, changed, w, w') && Untouched(m, changed, e)
    ensures ValueOf(m, w', e) == ValueOf(m, w, e) && Truth(m, w', e) == Truth(m, w, e)
    decreases e, 1
  {
    PartsUntouched(m, changed, e);
    match e {
      case Not(x) =>
        FramedAlike(m, changed, w, w', x);
        UnaryFramed(m, w, w', e);
      case IsNull(x, _) =>
        FramedAlike(m, changed, w, w', x);
        UnaryFramed(m, w, w', e);
      case Bin(_, l, r) =>
        FramedAlike(m, changed, w, w', l);
        FramedAlike(m, changed, w, w', r);
        BinFramed(m, w, w', e);
      case In(_, _) => InFramed(m, changed, w, w', e);
      case Agg(_, _, _, _, _, _) => AggFramed(m, changed, w, w', e);
      case _ => ValueFramed(m, changed, w, w', e);
    }
  }

  lemma {:induction false} InFramed(m: Model, changed: set<string>, w: World, w': World, e: Expr)
    requires Framed(m, changed, w, w') && Untouched(m, changed, e) && e.In?
    ensures Truth(m, w', e) == Truth(m, w, e)
    decreases e, 0
  {
    FramedAlike(m, changed, w, w', e.left);
    if e.right.SetLit? {
      var items := e.right.items;
      forall i | 0 <= i < |items| ensures ValueOf(m, w', items[i]) == ValueOf(m, w, items[i]) {
        assert NamesRead(m, items[i], {}, {}) <= NamesRead(m, e.right, {}, {});
        FramedAlike(m, changed, w, w', items[i]);
      }
    }
  }

  // ── the condition on a declaration ───────────────────────────────────────

  /** The names a step may change, or that what it changes is read through. */
  function StepNames(s: Step): set<string> {
    match s
    case Assign(n, _) => {n}
    case Clear(names) => NameSet(names)
    case OtherStep(changes, reaches) => changes + reaches
  }

  /** The attributes a transition writes before its effect: those it takes; or on a creation, where they are read as supplied
      already, those it gives a value that are not always supplied. */
  function StartNames(t: TypeDecl, x: Transition): set<string> {
    if x.kind == Initial then set n | n in t.attrs && n !in x.required && FilledWith(ModelFor(t, x), n) != Is(None) :: n
    else Taken(x)
  }

  /** The names a transition may change: on a creation, those too that are of no object before. */
  function Changes(t: TypeDecl, x: Transition): set<string> {
    StartNames(t, x) + (set k, n | 0 <= k < |x.effect| && n in StepNames(x.effect[k]) :: n)
    + (if StateAfter(x).Some? then {"state"} else {})
    + (if x.kind == Initial then t.derived.Keys + t.observations else {})
  }

  lemma StepKeeps(a: Analysis, given: set<string>, s: Step, names: set<string>, w: World, now: World, next: World)
    requires Stepped(a, given, s, now, next) && StepNames(s) <= names && KeptBut(names, "state" in names, w, now)
    ensures KeptBut(names, "state" in names, w, next)
  {
  }

  lemma StartKeeps(t: TypeDecl, x: Transition, given: set<string>, w: World, w': World)
    requires Starts(t, x, given, w, w') && Gives(ModelFor(t, x), given, w) && Blank(t, x, w)
    ensures KeptBut(Changes(t, x), "state" in Changes(t, x), w, w')
  {
    var m, names := ModelFor(t, x), Changes(t, x);
    forall n | n !in names ensures Lookup(w'.vars, AttrVar(n)) == Lookup(w.vars, AttrVar(n)) {
      if n in t.attrs {
        assert StartsAs(m, x, given, w, n, Lookup(w'.vars, AttrVar(n)));
        AttrStartsKept(t, x, given, w, n, Lookup(w'.vars, AttrVar(n)));
      }
    }
  }

  lemma AttrStartsKept(t: TypeDecl, x: Transition, given: set<string>, w: World, n: string, value: Option<Value>)
    requires n in t.attrs && n !in StartNames(t, x) && Gives(ModelFor(t, x), given, w) && Blank(t, x, w)
    requires StartsAs(ModelFor(t, x), x, given, w, n, value)
    ensures value == Lookup(w.vars, AttrVar(n))
  {
    if n in Taken(x) {
      assert n in InputNames(x) && n in ModelFor(t, x).inputs;
    }
  }

  /** And it changes no other. */
  lemma {:induction false} RunKeeps(t: TypeDecl, x: Transition, given: set<string>, w: World, run: seq<World>, k: nat)
    requires IsRun(t, x, given, w, run) && Blank(t, x, w) && k <= |x.effect|
    ensures KeptBut(Changes(t, x), "state" in Changes(t, x), w, run[k])
  {
    if k == 0 {
      StartKeeps(t, x, given, w, run[0]);
    } else {
      RunKeeps(t, x, given, w, run, k - 1);
      assert forall n | n in StepNames(x.effect[k - 1]) :: n in Changes(t, x);
      StepKeeps(After(t, x), given, x.effect[k - 1], Changes(t, x), w, run[k - 1], run[k]);
    }
  }

  /** One aggregate before and one after that are read through one count turn on no name changed, are one aggregate, and
      are not tested for being nought before and compared as a number after. */
  predicate CountsApart(m: Model, changed: set<string>, g: Expr, h: Expr)
    requires g.Agg? && h.Agg?
  {
    Untouched(m, changed, g) && TallyKey(g) == TallyKey(h) && (g.kind != "count" ==> h.kind != "count")
  }

  /** Nothing a transition's blocking guards share with the invariants it is held to turns on a name it changes: no
      expression left opaque in both, and no aggregate read through one count. */
  predicate Apart(t: TypeDecl, x: Transition) {
    var m, before, after := ModelFor(t, x), GuardReads(t, x), CheckedReads(t, x);
    && (forall e | e in before.opaques && e in after.opaques :: Untouched(m, Changes(t, x), e))
    && EachCountApart(m, Changes(t, x), before.counts, after.counts)
  }

  predicate EachCountApart(m: Model, changed: set<string>, before: set<Expr>, after: set<Expr>) {
    forall g, h | g in before && h in after && g.Agg? && h.Agg? && g.coll == h.coll && g.where == h.where ::
      CountsApart(m, changed, g, h)
  }

  /** A tally, read as the conditions after turn on it, is what an aggregate before needs of it. */
  lemma TallyCovers(w: World, g: Expr, compared: bool, t: Option<Tally>)
    requires g.Agg? && t == Lookup(w.tallies, TallyKey(g)) && (g.kind != "count" ==> !compared)
    ensures CountReads(Covering, w, g, TallyRead(if compared then Under else Exact, compared, t))
  {
  }

  lemma SharedCountAgrees(m: Model, changed: set<string>, after: set<Expr>, w: World, w': World, g: Expr, h: Expr)
    requires Unmixed(after) && Framed(m, changed, w, w') && g.Agg? && g.coll.Some? && h in after && IsKeyed(h, KeyOf(g))
    requires CountsApart(m, changed, g, h) && (g.kind != "count" ==> !IsCompared(after, KeyOf(g)))
    ensures CountReads(Covering, w, g, CountAfter(after, w', KeyOf(g)))
  {
    TallyFramed(m, changed, w, w', g);
    var compared := IsCompared(after, KeyOf(g));
    CountSeenIs(if compared then Under else Exact, after, w', h);
    TallyCovers(w, g, compared, Lookup(w'.tallies, TallyKey(h)));
  }

  lemma NotCompared(m: Model, changed: set<string>, before: set<Expr>, after: set<Expr>, g: Expr)
    requires EachCountApart(m, changed, before, after) && g in before && g.Agg? && g.coll.Some?
    ensures g.kind != "count" ==> !IsCompared(after, KeyOf(g))
  {
    forall h | h in after && IsKeyed(h, KeyOf(g)) ensures g.kind != "count" ==> h.kind != "count" {
      assert CountsApart(m, changed, g, h);
    }
  }

  lemma SharedCountsHold(m: Model, changed: set<string>, before: set<Expr>, after: set<Expr>, w: World, w': World)
    requires Unmixed(after) && Framed(m, changed, w, w') && EachCountApart(m, changed, before, after)
    ensures SharedCountsAgree(before, after, w, w')
  {
    forall g | g in before && g.Agg? && g.coll.Some? && HasKey(after, KeyOf(g))
      ensures CountReads(Covering, w, g, CountAfter(after, w', KeyOf(g)))
    {
      var h :| h in after && IsKeyed(h, KeyOf(g));
      NotCompared(m, changed, before, after, g);
      SharedCountAgrees(m, changed, after, w, w', g, h);
    }
  }

  /** Then what they share is after a transition as before it. */
  lemma SharedAgree(t: TypeDecl, x: Transition, w: World, w': World)
    requires Apart(t, x) && Unmixed(CheckedReads(t, x).counts) && Framed(ModelFor(t, x), Changes(t, x), w, w')
    ensures SharedCountsAgree(GuardReads(t, x).counts, CheckedReads(t, x).counts, w, w')
    ensures SharedOpaqueAgree(ModelFor(t, x), GuardReads(t, x).opaques, CheckedReads(t, x).opaques, w, w')
  {
    SharedCountsHold(ModelFor(t, x), Changes(t, x), GuardReads(t, x).counts, CheckedReads(t, x).counts, w, w');
    forall e | e in GuardReads(t, x).opaques && e in CheckedReads(t, x).opaques
      ensures Truth(ModelFor(t, x), w, e) == Truth(ModelFor(t, x), w', e)
    {
      FramedAlike(ModelFor(t, x), Changes(t, x), w, w', e);
    }
  }

  /** What a transition leaves is read as it leaves it, by its declaration alone: no invariant it is held to is read by an
      attribute, or by the state, that the analysis reads otherwise than the effect in its order leaves it; its guards share
      nothing with them that it changes; and a creation's do not test for its absence what is read though there is no object. */
  predicate WritesRead(t: TypeDecl, x: Transition) {
    && Distinct(t, GuardReads(t, x).counts) && Unmixed(CheckedReads(t, x).counts) && Askable(t, x) && Apart(t, x)
    && (forall n | n in CheckedNames(t, x) && IsAttr(ModelOf(t), n) :: ReadsRight(t, x, n))
    && ("state" in CheckedNames(t, x) ==> !Moves(x))
  }

  /** An object a transition is taken on, and what the request leaves of it: what its steps do, and of what it does not hold
      itself nothing changed that is read through no name they change or reach. */
  ghost predicate Takes(t: TypeDecl, x: Transition, w: World, w': World) {
    && Takeable(t, x, w) && Coherent(ModelFor(t, x), w') && Unreached(ModelFor(t, x), Changes(t, x), w, w')
    && exists given: set<string>, run: seq<World> :: IsRun(t, x, given, w, run) && run[|x.effect|] == w'
  }

  lemma TakesLeaves(t: TypeDecl, x: Transition, w: World, w': World)
    requires WritesRead(t, x) && Takes(t, x, w, w')
    ensures Leaves(t, x, w, w')
  {
    var given: set<string>, run: seq<World> :| IsRun(t, x, given, w, run) && run[|x.effect|] == w';
    LeftIsRead(t, x, given, w, run, CheckedNames(t, x));
    RunKeeps(t, x, given, w, run, |x.effect|);
    SharedAgree(t, x, w, w');
  }

  /** Of a declaration whose writes are read as they are made, a finding that the writes break an invariant is no false
      alarm: whatever object the transition is taken on, one it is held to is false of what is left. */
  lemma WriteFoundIsBroken(t: TypeDecl, xn: string, names: seq<string>, w: World, w': World) returns (tree: Expr)
    requires Justified(t, WriteBreaks(xn, names)) && WritesRead(t, t.transitions[xn]) && Takes(t, t.transitions[xn], w, w')
    ensures IsInvariant(t, tree) && Truth(ModelFor(t, t.transitions[xn]), w', tree) == F
  {
    var x := t.transitions[xn];
    TakesLeaves(t, x, w, w');
    tree :| IsInvariant(t, tree) && ReadsOnlyWrites(t, x, tree) && Truth(ModelFor(t, x), w', tree) == F;
  }

  // ── the invariants left out ──────────────────────────────────────────────

  /** What `taken_by` generates: an attribute is null, or one value, or another. */
  predicate IsTakenBy(tree: Expr, a: string) {
    tree == IsNull(Name(a), false) || (tree.Bin? && tree.op == Or && IsTakenBy(tree.left, a))
  }

  /** The attributes of the invariants left out. */
  function LeftOutNames(t: TypeDecl, all: map<string, Expr>): set<string> {
    set n | n in all && IsLeftOut(t, all, n) :: GeneratedFor(t, n).value + "_by_kind"
  }

  /** Each invariant left out is one `taken_by` generates of an attribute of the type's that may be absent, and no other
      invariant and no derived attribute turns on it. */
  predicate LeftOutApart(t: TypeDecl, all: map<string, Expr>) {
    var m, names := ModelOf(t), LeftOutNames(t, all);
    && (forall n | n in all && IsLeftOut(t, all, n) :: IsTakenBy(all[n], GeneratedFor(t, n).value + "_by_kind"))
    && (forall a | a in names :: a in t.attrs && t.attrs[a].optional && t.attrs[a].typ != "counter" && a != "now" && a != "state")
    && (forall n | n in all && !IsLeftOut(t, all, n) :: Untouched(m, names, all[n]))
    && (forall d | d in t.derived :: Untouched(m, names, t.derived[d]) && d !in names)
  }

  /** An object with some attributes absent. */
  ghost function Without(w: World, names: set<string>): World {
    w.(vars := imap z | z in w.vars && !(z.AttrVar? && z.attr in names) :: w.vars[z])
  }

  lemma WithoutFramed(m: Model, w: World, names: set<string>)
    ensures Framed(m, names, w, Without(w, names))
  {
  }

  lemma {:induction false} TakenByHolds(m: Model, w: World, tree: Expr, a: string)
    requires IsTakenBy(tree, a) && ValueOf(m, w, Name(a)).None?
    ensures Truth(m, w, tree) == T
  {
    if tree.Bin? {
      TakenByHolds(m, w, tree.left, a);
    }
  }

  lemma NameWithout(m: Model, w: World, names: set<string>, n: string)
    requires n !in names
    ensures Truth(m, Without(w, names), Name(n)) == Truth(m, w, Name(n))
  {
    assert Lookup(Without(w, names).vars, AttrVar(n)) == Lookup(w.vars, AttrVar(n));
    assert NameValue(m, Without(w, names), n) == NameValue(m, w, n);
  }

  lemma WithoutTyped(t: TypeDecl, all: map<string, Expr>, w: World, x: Var)
    requires LeftOutApart(t, all) && Typed(ModelOf(t), w.vars) && !x.CountVar? && VarInfo(ModelOf(t), x).Some?
    ensures Fits(VarInfo(ModelOf(t), x).value, Lookup(Without(w, LeftOutNames(t, all)).vars, x))
  {
    assert Fits(VarInfo(ModelOf(t), x).value, Lookup(w.vars, x));
    if x.AttrVar? && x.attr in LeftOutNames(t, all) {
      assert VarInfo(ModelOf(t), x) == Kind(ModelOf(t), Some(t.attrs[x.attr]), true);
    }
  }

  lemma WithoutOrdinary(t: TypeDecl, all: map<string, Expr>, w: World)
    requires LeftOutApart(t, all) && Ordinary(ModelOf(t), w)
    ensures Ordinary(ModelOf(t), Without(w, LeftOutNames(t, all)))
  {
    var m, names := ModelOf(t), LeftOutNames(t, all);
    var w' := Without(w, names);
    WithoutFramed(m, w, names);
    forall x | VarInfo(m, x).Some? && !x.CountVar? ensures Fits(VarInfo(m, x).value, Lookup(w'.vars, x)) {
      WithoutTyped(t, all, w, x);
    }
    forall d | d in m.derived ensures Truth(m, w', Name(d)) == Truth(m, w', m.derived[d]) {
      FramedAlike(m, names, w, w', m.derived[d]);
      NameWithout(m, w, names, d);
    }
  }

  /** Leaving them out changes no answer: some object in a state leaves every invariant true or unknown if and only if some
      leaves those read so. */
  lemma LeftOutKeepsAnswer(t: TypeDecl, all: map<string, Expr>, s: string)
    requires NamesApart(ModelOf(t)) && LeftOutApart(t, all)
    ensures (exists w :: Ordinary(ModelOf(t), w) && InState(w, {s}) && forall n | n in all :: Truth(ModelOf(t), w, all[n]) != F)
      <==> (exists w :: Ordinary(ModelOf(t), w) && InState(w, {s})
                        && forall n | n in all && !IsLeftOut(t, all, n) :: Truth(ModelOf(t), w, all[n]) != F)
  {
    var m, names := ModelOf(t), LeftOutNames(t, all);
    if w :| Ordinary(m, w) && InState(w, {s}) && forall n | n in all && !IsLeftOut(t, all, n) :: Truth(m, w, all[n]) != F {
      var w' := Without(w, names);
      WithoutOrdinary(t, all, w);
      WithoutFramed(m, w, names);
      assert InState(w', {s}) by {
        assert Lookup(w'.vars, StateVar) == Lookup(w.vars, StateVar);
      }
      forall n | n in all ensures Truth(m, w', all[n]) != F {
        if IsLeftOut(t, all, n) {
          LeftOutHolds(t, all, w, n);
        } else {
          FramedAlike(m, names, w, w', all[n]);
        }
      }
    }
  }

  lemma LeftOutHolds(t: TypeDecl, all: map<string, Expr>, w: World, n: string)
    requires LeftOutApart(t, all) && n in all && IsLeftOut(t, all, n)
    ensures Truth(ModelOf(t), Without(w, LeftOutNames(t, all)), all[n]) == T
  {
    var a := GeneratedFor(t, n).value + "_by_kind";
    assert a in LeftOutNames(t, all);
    TakenByHolds(ModelOf(t), Without(w, LeftOutNames(t, all)), all[n], a);
  }
}
