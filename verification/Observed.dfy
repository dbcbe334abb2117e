/** What a valuation is of an object: before a transition, and after one's writes. */
module Observed {
  import opened Wrappers
  import opened Syntax
  import opened TypeModel
  import opened Bounds
  import opened Atoms
  import opened CaseProducts
  import opened Conditions
  import opened Expansion
  import opened Exactness
  import opened Objects

  // ── the counts, read as numbers ──────────────────────────────────────────

  predicate IsKeyed(g: Expr, x: Var) {
    g.Agg? && g.coll.Some? && KeyOf(g) == x
  }

  predicate HasKey(counts: set<Expr>, x: Var) {
    exists g :: g in counts && IsKeyed(g, x)
  }

  /** Aggregates read through one variable are one: they count the same elements, each in the same way. */
  predicate Unmixed(counts: set<Expr>) {
    forall g, h | g in counts && h in counts && g.Agg? && h.Agg? && g.coll == h.coll && g.where == h.where ::
      TallyKey(g) == TallyKey(h)
  }

  /** A count is compared as a number, beside or instead of being tested for being nought. */
  predicate IsCompared(counts: set<Expr>, x: Var) {
    exists g :: g in counts && IsKeyed(g, x) && g.kind == "count"
  }

  /** A tally as one number: what is known to meet the filter, or none where more may. Read exactly, what is known to meet
      it stands where the number is only tested for being nought. */
  function TallyRead(r: Reading, compared: bool, t: Option<Tally>): Option<Value> {
    if t.None? then None
    else if t.value.unknown > 0 && (r.Under? || (r.Exact? && (compared || t.value.yes == 0))) then None
    else Some(VNum(t.value.yes as real))
  }

  ghost function CountSeen(r: Reading, counts: set<Expr>, w: World, x: Var): Option<Value> {
    if !HasKey(counts, x) then None
    else
      var g :| g in counts && IsKeyed(g, x);
      TallyRead(r, IsCompared(counts, x), Lookup(w.tallies, TallyKey(g)))
  }

  lemma CountSeenIs(r: Reading, counts: set<Expr>, w: World, g: Expr)
    requires Unmixed(counts) && g in counts && g.Agg? && g.coll.Some?
    ensures CountSeen(r, counts, w, KeyOf(g)) == TallyRead(r, IsCompared(counts, KeyOf(g)), Lookup(w.tallies, TallyKey(g)))
  {
    assert IsKeyed(g, KeyOf(g));
    assert forall h | h in counts && IsKeyed(h, KeyOf(g)) :: TallyKey(h) == TallyKey(g);
  }

  /** No tally is undecided, with an element known to meet its filter, of an aggregate both compared as a number and tested
      for being nought. */
  ghost predicate Settles(w: World, counts: set<Expr>) {
    forall g | g in counts && g.Agg? && g.coll.Some? && g.kind != "count" && IsCompared(counts, KeyOf(g)) ::
      var t := Lookup(w.tallies, TallyKey(g));
      !(t.Some? && t.value.unknown > 0 && t.value.yes > 0)
  }

  lemma CountSeenReads(r: Reading, counts: set<Expr>, w: World, g: Expr)
    requires Unmixed(counts) && g in counts && g.Agg? && g.coll.Some? && (r.Exact? ==> Settles(w, counts))
    ensures CountReads(r, w, g, CountSeen(r, counts, w, KeyOf(g)))
  {
    CountSeenIs(r, counts, w, g);
    assert IsKeyed(g, KeyOf(g));
  }

  lemma CountSeenTyped(r: Reading, counts: set<Expr>, w: World, x: Var)
    ensures IsNumber(CountSeen(r, counts, w, x))
  {
    if HasKey(counts, x) {
      var g :| g in counts && IsKeyed(g, x)
        && CountSeen(r, counts, w, x) == TallyRead(r, IsCompared(counts, x), Lookup(w.tallies, TallyKey(g)));
    }
  }

  ghost predicate IsNumber(c: Option<Value>) {
    c.Some? ==> c.value.VNum? && c.value.r >= 0.0 && c.value.r.Floor as real == c.value.r
  }

  /** An object as a valuation: its values, its counts as they are read, and the truth of every expression. */
  ghost function VarSeen(r: Reading, m: Model, counts: set<Expr>, u: World, x: Var): Option<Value> {
    if x.CountVar? then CountSeen(r, counts, u, x) else ValueSeen(m, u, x)
  }

  ghost function ValueSeen(m: Model, u: World, x: Var): Option<Value> {
    if !Shadowed(m, x) then Lookup(u.vars, x) else if IsCounter(m, x.attr) then Some(VNum(0.0)) else None
  }

  ghost function Seen(r: Reading, m: Model, counts: set<Expr>, w: World): Valuation {
    SeenAs(r, m, counts, w, w)
  }

  /** The values of one, the truths of another. */
  ghost function SeenAs(r: Reading, m: Model, counts: set<Expr>, w: World, u: World): Valuation {
    Valuation(imap x | VarSeen(r, m, counts, u, x).Some? :: VarSeen(r, m, counts, u, x).value,
              imap e: Expr | OracleOf(m, w, e).Some? :: OracleOf(m, w, e).value)
  }

  ghost function OracleOf(m: Model, w: World, e: Expr): Option<Tri> {
    Some(Truth(m, w, e))
  }

  lemma SeenTyped(m: Model, u: World, vars: imap<Var, Value>)
    requires Typed(m, u.vars)
    requires forall x: Var :: if x.CountVar? then IsNumber(Lookup(vars, x)) else Lookup(vars, x) == ValueSeen(m, u, x)
    ensures WellTyped(m, vars)
  {
    forall x | VarInfo(m, x).Some? ensures Fits(VarInfo(m, x).value, Lookup(vars, x)) {
      if x.CountVar? {
        assert IsNumber(Lookup(vars, x));
      } else if !Shadowed(m, x) {
        assert Fits(VarInfo(m, x).value, Lookup(u.vars, x));
      } else {
        assert VarInfo(m, x) == Kind(m, Some(m.attrs[x.attr]), true);
      }
    }
    forall c, f | CountVar(c, f) in vars ensures vars[CountVar(c, f)].VNum? && vars[CountVar(c, f)].r >= 0.0 {
      assert IsNumber(Lookup(vars, CountVar(c, f)));
    }
  }

  /** What a value's node is resolved to is a variable that is seen as it is. */
  lemma {:induction false} ResolvedIsSeen(a: Analysis, e: Expr)
    ensures Resolve(a, e).Variable? ==> !Resolve(a, e).x.CountVar? && !Shadowed(a.m, Resolve(a, e).x)
    decreases a.written, 1
  {
    if e.Name? {
      NameIsSeen(a, e.name);
    } else if e.Path? {
      assert Resolve(a, e) == ResolvePath(a, e.base, e.member);
      if e.base == Name("this") {
        NameIsSeen(a, e.member);
      }
    }
  }

  lemma {:induction false} NameIsSeen(a: Analysis, n: string)
    ensures ResolveName(a, n).Variable? ==> !ResolveName(a, n).x.CountVar? && !Shadowed(a.m, ResolveName(a, n).x)
    decreases a.written, 0
  {
    if n in a.written && IsAttr(a.m, n) {
      ResolvedIsSeen(a.(written := a.written - {n}), a.written[n]);
    }
  }

  /** What the analysis reads of an object it reads of the valuation that has its values. */
  lemma SeenDenoted(a: Analysis, w: World, u: World, vars: imap<Var, Value>, names: set<string>)
    requires ReadsAgree(a, w, u.vars, names)
    requires forall x: Var | !x.CountVar? :: Lookup(vars, x) == ValueSeen(a.m, u, x)
    ensures ReadsAgree(a, w, vars, names)
  {
    forall n | n in names && IsAttr(a.m, n) ensures Denotes(vars, ResolveName(a, n), Lookup(w.vars, AttrVar(n))) {
      NameIsSeen(a, n);
    }
    assert Lookup(vars, StateVar) == Lookup(u.vars, StateVar) && Lookup(vars, NowVar) == Lookup(u.vars, NowVar);
    assert forall s :: Lookup(vars, EnteredVar(s)) == Lookup(u.vars, EnteredVar(s));
    assert forall i :: Lookup(vars, InputVar(i)) == Lookup(u.vars, InputVar(i));
  }

  /** What the analysis reads, before any write, of values it may read. */
  lemma PlainDenoted(m: Model, u: World, names: set<string>)
    requires Readable(m, u)
    ensures ReadsAgree(Unwritten(m), u, u.vars, names)
  {
  }

  lemma SeenVars(r: Reading, m: Model, counts: set<Expr>, w: World, u: World)
    requires Typed(m, u.vars)
    ensures var v := SeenAs(r, m, counts, w, u); WellTyped(m, v.vars) && forall x: Var | !x.CountVar? :: Lookup(v.vars, x) == ValueSeen(m, u, x)
  {
    var v := SeenAs(r, m, counts, w, u);
    forall x: Var ensures Lookup(v.vars, x) == VarSeen(r, m, counts, u, x) && (x.CountVar? ==> IsNumber(Lookup(v.vars, x))) {
      CountSeenTyped(r, counts, u, x);
    }
    SeenTyped(m, u, v.vars);
  }

  /** The analysis of a condition before any write, over an object. */
  lemma SeenAgrees(r: Reading, m: Model, counts: set<Expr>, w: World, u: World, names: set<string>)
    requires Readable(m, u) && NamesApart(m)
    ensures Agrees(Unwritten(m), u, SeenAs(r, m, counts, w, u), names)
    ensures forall e :: OracleAgrees(m, w, SeenAs(r, m, counts, w, u), e)
  {
    SeenVars(r, m, counts, w, u);
    PlainDenoted(m, u, names);
    SeenDenoted(Unwritten(m), u, u, SeenAs(r, m, counts, w, u).vars, names);
  }

  lemma SeenCounts(r: Reading, m: Model, counts: set<Expr>, w: World, u: World, read: set<Expr>)
    requires Unmixed(counts) && read <= counts && (r.Exact? ==> Settles(u, counts))
    ensures CountsRelate(r, u, SeenAs(r, m, counts, w, u).vars, read)
  {
    var v := SeenAs(r, m, counts, w, u);
    forall g | g in read && g.Agg? && g.coll.Some? ensures CountReads(r, u, g, Lookup(v.vars, KeyOf(g))) {
      CountSeenReads(r, counts, u, g);
      assert Lookup(v.vars, KeyOf(g)) == VarSeen(r, m, counts, u, KeyOf(g));
    }
  }

  lemma SeenReads(r: Reading, m: Model, counts: set<Expr>, w: World, e: Expr)
    requires Ordinary(m, w) && NamesApart(m) && Unmixed(counts) && CountsRead(Unwritten(m), e, {}) <= counts
    requires r.Exact? ==> Settles(w, counts)
    ensures ReadsFor(r, Unwritten(m), w, Seen(r, m, counts, w), e, {})
  {
    SeenAgrees(r, m, counts, w, w, NamesResolved(Unwritten(m), e, {}));
    SeenCounts(r, m, counts, w, w, CountsRead(Unwritten(m), e, {}));
  }

  /** Case expansion over one object: a condition has the wanted value exactly where a case of its expansion holds. */
  lemma SeenExact(m: Model, counts: set<Expr>, w: World, e: Expr, want: Tri)
    requires Ordinary(m, w) && NamesApart(m) && Unmixed(counts) && CountsRead(Unwritten(m), e, {}) <= counts
    requires Settles(w, counts) && Expand(Unwritten(m), e, want, {}).Ok?
    ensures SomeHolds(Seen(Exact, m, counts, w), Expand(Unwritten(m), e, want, {}).value) <==> Truth(m, w, e) == want
  {
    SeenReads(Exact, m, counts, w, e);
    ExpandExact(Unwritten(m), w, Seen(Exact, m, counts, w), e, want, {});
  }

  ghost predicate CountsAreNumbers(vars: imap<Var, Value>) {
    forall c, f :: IsNumber(Lookup(vars, CountVar(c, f)))
  }

  /** Some numbers read every aggregate exactly, so that every condition is, if and only if the object settles them. */
  lemma ReadExactly(m: Model, counts: set<Expr>, w: World)
    requires Unmixed(counts) && forall g | g in counts :: IsTallied(m, g)
    ensures (exists vars: imap<Var, Value> :: CountsAreNumbers(vars) && CountsRelate(Exact, w, vars, counts)) <==>
              Settles(w, counts)
  {
    if Settles(w, counts) {
      var v := Seen(Exact, m, counts, w);
      forall c, f ensures IsNumber(Lookup(v.vars, CountVar(c, f))) {
        CountSeenTyped(Exact, counts, w, CountVar(c, f));
        assert Lookup(v.vars, CountVar(c, f)) == VarSeen(Exact, m, counts, w, CountVar(c, f));
      }
      forall g | g in counts && g.Agg? && g.coll.Some? ensures CountReads(Exact, w, g, Lookup(v.vars, KeyOf(g))) {
        CountSeenReads(Exact, counts, w, g);
        assert Lookup(v.vars, KeyOf(g)) == VarSeen(Exact, m, counts, w, KeyOf(g));
      }
      assert CountsAreNumbers(v.vars) && CountsRelate(Exact, w, v.vars, counts);
    }
    if vars: imap<Var, Value> :| CountsAreNumbers(vars) && CountsRelate(Exact, w, vars, counts) {
      forall g | g in counts && g.Agg? && g.coll.Some? && g.kind != "count" && IsCompared(counts, KeyOf(g))
        ensures var t := Lookup(w.tallies, TallyKey(g)); !(t.Some? && t.value.unknown > 0 && t.value.yes > 0)
      {
        var h :| h in counts && IsKeyed(h, KeyOf(g)) && h.kind == "count";
        assert TallyKey(g) == TallyKey(h);
        assert CountReads(Exact, w, g, Lookup(vars, KeyOf(g))) && CountReads(Exact, w, h, Lookup(vars, KeyOf(h)));
      }
    }
  }

  /** A condition that is true, or that is false, is read so, whatever its aggregates leave undecided: of an object there
      is, and of none where a creation makes one. */
  lemma SeenCovers(m: Model, taken: set<string>, counts: set<Expr>, w: World, u: World, e: Expr, want: Tri)
    requires AskedAs(m, taken, w, u, e) && NamesApart(m) && Unmixed(counts) && CountsRead(Unwritten(m), e, {}) <= counts
    requires Truth(m, w, e) == want && want != U && Expand(Unwritten(m), e, want, {}).Ok?
    ensures SomeHolds(SeenAs(Covering, m, counts, w, u), Expand(Unwritten(m), e, want, {}).value)
  {
    AskedReadable(m, taken, w, u, e);
    SeenAgrees(Covering, m, counts, w, u, NamesResolved(Unwritten(m), e, {}));
    SeenCounts(Covering, m, counts, w, u, CountsRead(Unwritten(m), e, {}));
    Covered(m, taken, w, u, SeenAs(Covering, m, counts, w, u), e, want);
  }

  lemma Covered(m: Model, taken: set<string>, w: World, u: World, v: Valuation, e: Expr, want: Tri)
    requires AskedAs(m, taken, w, u, e) && Agrees(Unwritten(m), u, v, NamesResolved(Unwritten(m), e, {}))
    requires LeavesAgree(Unwritten(m), w, v, e, {}) && CountsRelate(Covering, u, v.vars, CountsRead(Unwritten(m), e, {}))
    requires Truth(m, w, e) == want && want != U && Expand(Unwritten(m), e, want, {}).Ok?
    ensures SomeHolds(v, Expand(Unwritten(m), e, want, {}).value)
  {
    AskedCounts(m, taken, w, u, v.vars, e);
    AskedSound(m, taken, w, u, v, e);
    ReadRelates(Covering, Unwritten(m), w, v, e, {});
    ExpandReads(Covering, Unwritten(m), w, v, e, want, {});
  }

  /** The cases under which an invariant holds: true, or unknown. */
  function HoldsCases(a: Analysis, tree: Expr): Cases {
    var t :- Expand(a, tree, T, {});
    var u :- Expand(a, tree, U, {});
    Unions([t, u])
  }

  /** An invariant that is not false is read as true or unknown. */
  lemma UnderHolds(a: Analysis, w: World, v: Valuation, tree: Expr)
    requires ReadsFor(Under, a, w, v, tree, {}) && Truth(a.m, w, tree) != F && HoldsCases(a, tree).Ok?
    ensures SomeHolds(v, HoldsCases(a, tree).value)
  {
    ReadsForSound(Under, a, w, v, tree, {});
    ReadRelates(Under, a, w, v, tree, {});
    ExpandReads(Under, a, w, v, tree, T, {});
    ExpandReads(Under, a, w, v, tree, U, {});
    PairUnion(v, Expand(a, tree, T, {}).value, Expand(a, tree, U, {}).value);
  }

  // ── after a transition's writes ──────────────────────────────────────────

  /** An opaque expression of both conditions is true, false or unknown after as before. */
  ghost predicate SharedOpaqueAgree(m: Model, before: set<Expr>, after: set<Expr>, w: World, w': World) {
    forall e | e in before && e in after :: Truth(m, w, e) == Truth(m, w', e)
  }

  /** A count read after as the invariants held to then turn on it. */
  ghost function CountAfter(after: set<Expr>, w': World, x: Var): Option<Value> {
    CountSeen(if IsCompared(after, x) then Under else Exact, after, w', x)
  }

  /** A count both conditions read is, as it is read after, what the conditions before need of it. */
  ghost predicate SharedCountsAgree(before: set<Expr>, after: set<Expr>, w: World, w': World) {
    forall g | g in before && g.Agg? && g.coll.Some? && HasKey(after, KeyOf(g)) ::
      CountReads(Covering, w, g, CountAfter(after, w', KeyOf(g)))
  }

  ghost function BothVars(m: Model, before: set<Expr>, after: set<Expr>, u: World, w': World, x: Var): Option<Value> {
    if x.CountVar? && HasKey(after, x) then CountAfter(after, w', x) else VarSeen(Covering, m, before, u, x)
  }

  ghost function BothOracle(m: Model, opaques: set<Expr>, w: World, w': World, e: Expr): Option<Tri> {
    Some(if e in opaques then Truth(m, w, e) else Truth(m, w', e))
  }

  /** What conditions read of a type: the expressions they leave opaque, and the aggregates. */
  datatype Phase = Phase(opaques: set<Expr>, counts: set<Expr>)

  /** One valuation of an object before a transition and after it: the values read of it before, each opaque expression and
      count as the phase that reads it has it. */
  ghost function SeenBoth(m: Model, before: Phase, after: set<Expr>, w: World, u: World, w': World): Valuation {
    Valuation(imap x | BothVars(m, before.counts, after, u, w', x).Some? :: BothVars(m, before.counts, after, u, w', x).value,
              imap e: Expr | BothOracle(m, before.opaques, w, w', e).Some? :: BothOracle(m, before.opaques, w, w', e).value)
  }

  lemma BothTyped(m: Model, before: Phase, after: set<Expr>, w: World, u: World, w': World)
    requires Typed(m, u.vars)
    ensures var v := SeenBoth(m, before, after, w, u, w');
            WellTyped(m, v.vars) && forall x: Var | !x.CountVar? :: Lookup(v.vars, x) == ValueSeen(m, u, x)
  {
    var v := SeenBoth(m, before, after, w, u, w');
    forall x: Var ensures if x.CountVar? then IsNumber(Lookup(v.vars, x)) else Lookup(v.vars, x) == ValueSeen(m, u, x) {
      assert Lookup(v.vars, x) == BothVars(m, before.counts, after, u, w', x);
      if x.CountVar? {
        CountSeenTyped(Covering, before.counts, u, x);
        CountSeenTyped(if IsCompared(after, x) then Under else Exact, after, w', x);
      }
    }
    SeenTyped(m, u, v.vars);
  }

  lemma CountsBefore(m: Model, before: Phase, after: set<Expr>, w: World, u: World, w': World, counts: set<Expr>)
    requires Unmixed(before.counts) && counts <= before.counts && SharedCountsAgree(before.counts, after, u, w')
    ensures CountsRelate(Covering, u, SeenBoth(m, before, after, w, u, w').vars, counts)
  {
    var v := SeenBoth(m, before, after, w, u, w');
    forall g | g in counts && g.Agg? && g.coll.Some? ensures CountReads(Covering, u, g, Lookup(v.vars, KeyOf(g))) {
      assert Lookup(v.vars, KeyOf(g)) == BothVars(m, before.counts, after, u, w', KeyOf(g));
      if !HasKey(after, KeyOf(g)) {
        CountSeenReads(Covering, before.counts, u, g);
      }
    }
  }

  lemma CountsAfter(m: Model, before: Phase, after: set<Expr>, w: World, u: World, w': World, counts: set<Expr>)
    requires Unmixed(after) && counts <= after
    ensures CountsRelate(Under, w', SeenBoth(m, before, after, w, u, w').vars, counts)
  {
    var v := SeenBoth(m, before, after, w, u, w');
    forall g | g in counts && g.Agg? && g.coll.Some? ensures CountReads(Under, w', g, Lookup(v.vars, KeyOf(g))) {
      assert IsKeyed(g, KeyOf(g)) && HasKey(after, KeyOf(g));
      assert Lookup(v.vars, KeyOf(g)) == BothVars(m, before.counts, after, u, w', KeyOf(g)) == CountAfter(after, w', KeyOf(g));
      AfterReads(after, w', g);
    }
  }

  lemma AfterReads(after: set<Expr>, w': World, g: Expr)
    requires Unmixed(after) && g in after && g.Agg? && g.coll.Some?
    ensures CountReads(Under, w', g, CountAfter(after, w', KeyOf(g)))
  {
    assert IsKeyed(g, KeyOf(g));
    CountSeenIs(Under, after, w', g);
    CountSeenIs(Exact, after, w', g);
  }

  /** Before the writes: a condition that is true has a case of its expansion that holds of the one valuation, where the
      counts it shares with what is read after agree. */
  lemma CoversBefore(m: Model, taken: set<string>, before: Phase, after: set<Expr>, w: World, u: World, w': World, e: Expr)
    requires AskedAs(m, taken, w, u, e) && NamesApart(m) && Unmixed(before.counts) && Truth(m, w, e) == T
    requires OpaqueLeaves(Unwritten(m), e, {}) <= before.opaques && CountsRead(Unwritten(m), e, {}) <= before.counts
    requires SharedCountsAgree(before.counts, after, w, w') && Expand(Unwritten(m), e, T, {}).Ok?
    ensures SomeHolds(SeenBoth(m, before, after, w, u, w'), Expand(Unwritten(m), e, T, {}).value)
  {
    var v, names := SeenBoth(m, before, after, w, u, w'), NamesResolved(Unwritten(m), e, {});
    AskedReadable(m, taken, w, u, e);
    BothTyped(m, before, after, w, u, w');
    PlainDenoted(m, u, names);
    SeenDenoted(Unwritten(m), u, u, v.vars, names);
    SharedAsRead(m, taken, before.counts, after, w, u, w', e);
    CountsBefore(m, before, after, w, u, w', CountsRead(Unwritten(m), e, {}));
    forall x | x in OpaqueLeaves(Unwritten(m), e, {}) ensures OracleAgrees(m, w, v, x) {
      assert BothOracle(m, before.opaques, w, w', x) == Some(Truth(m, w, x));
    }
    Covered(m, taken, w, u, v, e, T);
  }

  lemma AskedReadable(m: Model, taken: set<string>, w: World, u: World, e: Expr)
    requires AskedAs(m, taken, w, u, e)
    ensures Readable(m, u) && u.tallies == w.tallies
  {
    if m.created {
      var to :| to in m.states && u == AsRead(m, to, w);
      AsReadReadable(m, taken, to, w);
    }
  }

  lemma AskedCounts(m: Model, taken: set<string>, w: World, u: World, vars: imap<Var, Value>, e: Expr)
    requires AskedAs(m, taken, w, u, e) && CountsRelate(Covering, u, vars, CountsRead(Unwritten(m), e, {}))
    ensures CountsRelate(Covering, w, vars, CountsRead(Unwritten(m), e, {}))
  {
    AskedReadable(m, taken, w, u, e);
    TalliesCount(w, u);
    forall g | g in CountsRead(Unwritten(m), e, {}) && g.Agg? && g.coll.Some?
      ensures CountReads(Covering, w, g, Lookup(vars, KeyOf(g)))
    {
      assert CountReads(Covering, u, g, Lookup(vars, KeyOf(g)));
    }
  }

  lemma TalliesCount(w: World, u: World)
    requires u.tallies == w.tallies
    ensures forall g: Expr | g.Agg? :: CountOf(u, g) == CountOf(w, g) && AnyOf(u, g) == AnyOf(w, g)
  {
  }

  lemma SharedAsRead(m: Model, taken: set<string>, before: set<Expr>, after: set<Expr>, w: World, u: World, w': World, e: Expr)
    requires AskedAs(m, taken, w, u, e) && SharedCountsAgree(before, after, w, w')
    ensures SharedCountsAgree(before, after, u, w')
  {
    AskedReadable(m, taken, w, u, e);
    TalliesCount(w, u);
    forall g | g in before && g.Agg? && g.coll.Some? && HasKey(after, KeyOf(g))
      ensures CountReads(Covering, u, g, CountAfter(after, w', KeyOf(g)))
    {
      assert CountReads(Covering, w, g, CountAfter(after, w', KeyOf(g)));
    }
  }

  /** After them: an invariant that is not false has a case of its being true or unknown that holds of the same valuation,
      where the values it is read by are what the analysis reads them as and the opaque expressions it shares with what is
      read before agree. */
  lemma HoldsAfter(a: Analysis, before: Phase, after: set<Expr>, w: World, u: World, w': World, tree: Expr)
    requires Typed(a.m, u.vars) && NamesApart(a.m) && ReadsAgree(a, w', u.vars, NamesResolved(a, tree, {})) && Coherent(a.m, w')
    requires Unmixed(after) && CountsRead(a, tree, {}) <= after
    requires SharedOpaqueAgree(a.m, before.opaques, OpaqueLeaves(a, tree, {}), w, w')
    requires Truth(a.m, w', tree) != F && HoldsCases(a, tree).Ok?
    ensures SomeHolds(SeenBoth(a.m, before, after, w, u, w'), HoldsCases(a, tree).value)
  {
    var v := SeenBoth(a.m, before, after, w, u, w');
    BothTyped(a.m, before, after, w, u, w');
    SeenDenoted(a, w', u, v.vars, NamesResolved(a, tree, {}));
    CountsAfter(a.m, before, after, w, u, w', CountsRead(a, tree, {}));
    forall x | x in OpaqueLeaves(a, tree, {}) ensures OracleAgrees(a.m, w', v, x) {
      assert BothOracle(a.m, before.opaques, w, w', x) == Some(Truth(a.m, w', x));
    }
    UnderHolds(a, w', v, tree);
  }
}
