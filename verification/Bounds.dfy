/** Difference bounds between ordered values, decided by Floyd-Warshall (scripts/flowlogic.py, `consistent`). */
module Bounds {
  import opened Wrappers
  import opened TypeModel
  import opened Weights

  /** `ZERO`, or a variable. */
  datatype Node = Zero | At(x: Var)

  /** u - v <= c, or < c where strict. */
  datatype Bound = Bound(u: Node, v: Node, c: real, strict: bool)

  // ── the matrix ───────────────────────────────────────────────────────────

  ghost predicate Square(dist: array2<Entry>) {
    dist.Length0 == dist.Length1
  }

  /** An assignment to the nodes keeps within every cell: x[j] - x[i] within dist[i,j]. */
  ghost predicate Keeps(x: seq<real>, dist: array2<Entry>)
    requires Square(dist) && |x| == dist.Length0
    reads dist
  {
    forall i, j :: 0 <= i < |x| && 0 <= j < |x| ==> Holds(x[j] - x[i], dist[i, j])
  }

  /** No cell is looser than the way through any of the first `k` nodes. */
  ghost predicate ClosedThrough(dist: array2<Entry>, k: nat)
    requires Square(dist) && k <= dist.Length0
    reads dist
  {
    forall i, j, l :: 0 <= i < dist.Length0 && 0 <= j < dist.Length0 && 0 <= l < k ==>
      AtMost(dist[i, j], Join(dist[i, l], dist[l, j]))
  }

  ghost predicate NegativeCycle(dist: array2<Entry>)
    requires Square(dist)
    reads dist
  {
    exists i :: 0 <= i < dist.Length0 && Negative(dist[i, i])
  }

  predicate IsWhole(r: real) {
    r.Floor as real == r
  }

  /** A weight over integers: never strict, and an integer. */
  predicate WholeEntry(e: Entry) {
    e.Some? ==> !e.value.strict && IsWhole(e.value.c)
  }

  lemma WholeJoin(a: Entry, b: Entry)
    requires WholeEntry(a) && WholeEntry(b)
    ensures WholeEntry(Join(a, b))
  {
    if a.Some? && b.Some? {
      var k := a.value.c.Floor + b.value.c.Floor;
      assert a.value.c + b.value.c == k as real;
    }
  }

  lemma WholeNegation(r: real)
    requires IsWhole(r)
    ensures IsWhole(-r)
  {
    assert -r == (-(r.Floor)) as real;
  }

  ghost predicate WholeCells(dist: array2<Entry>)
    reads dist
  {
    forall i, j :: 0 <= i < dist.Length0 && 0 <= j < dist.Length1 ==> WholeEntry(dist[i, j])
  }

  /** The two inner loops of Floyd-Warshall, one node `k`. */
  method RelaxThrough(dist: array2<Entry>, k: nat)
    requires Square(dist) && k < dist.Length0
    modifies dist
    ensures forall i, j :: 0 <= i < dist.Length0 && 0 <= j < dist.Length0 ==> AtMost(dist[i, j], old(dist[i, j]))
    ensures forall x: seq<real> :: |x| == dist.Length0 && old(Keeps(x, dist)) ==> Keeps(x, dist)
    ensures old(WholeCells(dist)) ==> WholeCells(dist)
    ensures !Negative(old(dist[k, k])) ==>
              forall i, j :: 0 <= i < dist.Length0 && 0 <= j < dist.Length0 ==>
                dist[i, j] == old(Least(dist[i, j], Join(dist[i, k], dist[k, j])))
  {
    var n := dist.Length0;
    var i := 0;
    while i < n
      invariant 0 <= i <= n
      invariant forall p, q :: 0 <= p < n && 0 <= q < n ==> AtMost(dist[p, q], old(dist[p, q]))
      invariant forall x: seq<real> :: |x| == n && old(Keeps(x, dist)) ==> Keeps(x, dist)
      invariant old(WholeCells(dist)) ==> WholeCells(dist)
      invariant !Negative(old(dist[k, k])) ==>
                  forall p, q :: 0 <= p < n && 0 <= q < n ==>
                    dist[p, q] == if p < i then old(Least(dist[p, q], Join(dist[p, k], dist[k, q])))
                                  else old(dist[p, q])
    {
      if dist[i, k].Some? {
        var j := 0;
        while j < n
          invariant 0 <= j <= n && dist[i, k].Some?
          invariant forall p, q :: 0 <= p < n && 0 <= q < n ==> AtMost(dist[p, q], old(dist[p, q]))
          invariant forall x: seq<real> :: |x| == n && old(Keeps(x, dist)) ==> Keeps(x, dist)
          invariant old(WholeCells(dist)) ==> WholeCells(dist)
          invariant !Negative(old(dist[k, k])) ==>
                      forall p, q :: 0 <= p < n && 0 <= q < n ==>
                        dist[p, q] == if p < i || (p == i && q < j)
                                      then old(Least(dist[p, q], Join(dist[p, k], dist[k, q])))
                                      else old(dist[p, q])
        {
          if dist[k, j].Some? {
            var w := Plus(dist[i, k].value, dist[k, j].value);
            if !Negative(old(dist[k, k])) {
              Round(old(dist[i, k]), old(dist[k, k]));
              Round(old(dist[k, j]), old(dist[k, k]));
            }
            if Better(w, dist[i, j]) {
              forall x: seq<real> | |x| == n && Keeps(x, dist) ensures Holds(x[j] - x[i], Some(w)) {
                HoldsJoin(x[k] - x[i], x[j] - x[k], dist[i, k], dist[k, j]);
              }
              if old(WholeCells(dist)) {
                WholeJoin(dist[i, k], dist[k, j]);
              }
              dist[i, j] := Some(w);
            }
          }
          j := j + 1;
        }
      }
      i := i + 1;
    }
  }

  /** Floyd-Warshall: the matrix closed, or a cell of its diagonal negative, and nothing lost. */
  method Close(dist: array2<Entry>)
    requires Square(dist)
    modifies dist
    ensures forall i, j :: 0 <= i < dist.Length0 && 0 <= j < dist.Length0 ==> AtMost(dist[i, j], old(dist[i, j]))
    ensures forall x: seq<real> :: |x| == dist.Length0 && old(Keeps(x, dist)) ==> Keeps(x, dist)
    ensures old(WholeCells(dist)) ==> WholeCells(dist)
    ensures NegativeCycle(dist) || ClosedThrough(dist, dist.Length0)
  {
    var n := dist.Length0;
    var k := 0;
    while k < n
      invariant 0 <= k <= n
      invariant forall i, j :: 0 <= i < n && 0 <= j < n ==> AtMost(dist[i, j], old(dist[i, j]))
      invariant forall x: seq<real> :: |x| == n && old(Keeps(x, dist)) ==> Keeps(x, dist)
      invariant old(WholeCells(dist)) ==> WholeCells(dist)
      invariant NegativeCycle(dist) || ClosedThrough(dist, k)
    {
      label Phase:
      RelaxThrough(dist, k);
      if old@Phase(NegativeCycle(dist)) {
        var i :| 0 <= i < n && Negative(old@Phase(dist[i, i]));
        assert Negative(dist[i, i]);
      } else {
        assert !Negative(old@Phase(dist[k, k]));
        forall i, j, l | 0 <= i < n && 0 <= j < n && 0 <= l < k + 1
          ensures AtMost(dist[i, j], Join(dist[i, l], dist[l, j]))
        {
          if l < k {
            Triangle(old@Phase(dist[i, j]), old@Phase(dist[i, l]), old@Phase(dist[l, j]), old@Phase(dist[i, k]),
                     old@Phase(dist[k, j]), old@Phase(dist[k, l]), old@Phase(dist[l, k]), old@Phase(dist[k, k]));
          } else {
            Round(old@Phase(dist[i, k]), old@Phase(dist[k, k]));
            Round(old@Phase(dist[k, j]), old@Phase(dist[k, k]));
          }
        }
      }
      k := k + 1;
    }
  }

  // ── a solution of a closed matrix ────────────────────────────────────────

  function Shift(e: Entry, r: real): Entry {
    if e.Some? then Some(Weight(e.value.c + r, e.value.strict)) else None
  }

  /** The tightest of some bounds, and where among them it is where any bounds at all. */
  lemma Tightest(es: seq<Entry>) returns (t: Entry, at: nat)
    ensures forall i :: 0 <= i < |es| ==> AtMost(t, es[i])
    ensures t.Some? ==> at < |es| && t == es[at]
  {
    t, at := None, 0;
    for n := 0 to |es|
      invariant forall i :: 0 <= i < n ==> AtMost(t, es[i])
      invariant t.Some? ==> at < n && t == es[at]
    {
      if es[n].Some? && Better(es[n].value, t) {
        t, at := es[n], n;
      }
    }
  }

  /** A number within an upper bound whose negation is within a lower one, an integer where they are integers. */
  ghost function Between(upper: Entry, lower: Entry, whole: bool): (v: real)
    requires !Negative(Join(upper, lower))
    requires whole ==> WholeEntry(upper) && WholeEntry(lower)
    ensures Holds(v, upper) && Holds(-v, lower)
  {
    if lower.Some? && upper.Some? then
      (if whole || upper.value.c == -lower.value.c then -lower.value.c else (upper.value.c - lower.value.c) / 2.0)
    else if lower.Some? then (if whole then -lower.value.c else -lower.value.c + 1.0)
    else if upper.Some? then (if whole then upper.value.c else upper.value.c - 1.0)
    else 0.0
  }

  lemma BetweenWhole(upper: Entry, lower: Entry)
    requires !Negative(Join(upper, lower)) && WholeEntry(upper) && WholeEntry(lower)
    ensures IsWhole(Between(upper, lower, true))
  {
    if lower.Some? {
      WholeNegation(lower.value.c);
    }
  }

  /** An upper and a lower bound on one more node's value, from two nodes valued before it, leave a value between. */
  lemma NoGap(ij: Entry, i_n: Entry, n_j: Entry, xi: real, xj: real)
    requires Holds(xj - xi, ij) && AtMost(ij, Join(i_n, n_j))
    ensures !Negative(Join(Shift(i_n, xi), Shift(n_j, -xj)))
  {
  }

  /** The bounds on one more node's value from the nodes valued before it, which do not contradict each other. */
  lemma BoundsOnNext(dist: array2<Entry>, x: seq<real>) returns (upper: Entry, lower: Entry)
    requires Square(dist) && |x| < dist.Length0
    requires ClosedThrough(dist, dist.Length0)
    requires forall i, j :: 0 <= i < |x| && 0 <= j < |x| ==> Holds(x[j] - x[i], dist[i, j])
    ensures !Negative(Join(upper, lower))
    ensures forall i :: 0 <= i < |x| ==>
              AtMost(upper, Shift(dist[i, |x|], x[i])) && AtMost(lower, Shift(dist[|x|, i], -x[i]))
    ensures WholeCells(dist) && (forall i :: 0 <= i < |x| ==> IsWhole(x[i])) ==> WholeEntry(upper) && WholeEntry(lower)
  {
    var n := |x|;
    var uppers := seq(n, i requires 0 <= i < n reads dist => Shift(dist[i, n], x[i]));
    var lowers := seq(n, i requires 0 <= i < n reads dist => Shift(dist[n, i], -x[i]));
    var i, j;
    upper, i := Tightest(uppers);
    lower, j := Tightest(lowers);
    forall p | 0 <= p < n
      ensures AtMost(upper, Shift(dist[p, n], x[p])) && AtMost(lower, Shift(dist[n, p], -x[p]))
    {
      assert AtMost(upper, uppers[p]) && AtMost(lower, lowers[p]);
    }
    if upper.Some? && lower.Some? {
      NoGap(dist[i, j], dist[i, n], dist[n, j], x[i], x[j]);
    }
    if WholeCells(dist) && forall p :: 0 <= p < n ==> IsWhole(x[p]) {
      if upper.Some? {
        WholeShift(dist[i, n], x[i]);
      }
      if lower.Some? {
        WholeNegation(x[j]);
        WholeShift(dist[n, j], -x[j]);
      }
    }
  }

  lemma WholeShift(e: Entry, r: real)
    requires WholeEntry(e) && IsWhole(r)
    ensures WholeEntry(Shift(e, r))
  {
    WholeJoin(e, Some(Weight(r, false)));
  }

  /** One more node given a value within every bound to the nodes valued before it. */
  lemma NextValue(dist: array2<Entry>, x: seq<real>) returns (v: real)
    requires Square(dist) && |x| < dist.Length0
    requires ClosedThrough(dist, dist.Length0)
    requires forall i, j :: 0 <= i < |x| && 0 <= j < |x| ==> Holds(x[j] - x[i], dist[i, j])
    ensures forall i :: 0 <= i < |x| ==> Holds(v - x[i], dist[i, |x|]) && Holds(x[i] - v, dist[|x|, i])
    ensures WholeCells(dist) && (forall i :: 0 <= i < |x| ==> IsWhole(x[i])) ==> IsWhole(v)
  {
    var upper, lower := BoundsOnNext(dist, x);
    var whole := WholeEntry(upper) && WholeEntry(lower);
    v := Between(upper, lower, whole);
    if whole {
      BetweenWhole(upper, lower);
    }
    forall i | 0 <= i < |x| ensures Holds(v - x[i], dist[i, |x|]) && Holds(x[i] - v, dist[|x|, i]) {
      HoldsWeaker(v, upper, Shift(dist[i, |x|], x[i]));
      HoldsWeaker(-v, lower, Shift(dist[|x|, i], -x[i]));
    }
  }

  /** A closed matrix with no negative cycle is kept by some assignment, of integers where its bounds are. */
  lemma {:induction false} Assignment(dist: array2<Entry>, n: nat) returns (x: seq<real>)
    requires Square(dist) && n <= dist.Length0
    requires ClosedThrough(dist, dist.Length0) && !NegativeCycle(dist)
    ensures |x| == n && forall i, j :: 0 <= i < n && 0 <= j < n ==> Holds(x[j] - x[i], dist[i, j])
    ensures WholeCells(dist) ==> forall i :: 0 <= i < n ==> IsWhole(x[i])
  {
    if n == 0 {
      x := [];
    } else {
      var y := Assignment(dist, n - 1);
      var v := NextValue(dist, y);
      x := y + [v];
      assert !Negative(dist[n - 1, n - 1]);
    }
  }

  // ── the decision ─────────────────────────────────────────────────────────

  function Nodes(bounds: seq<Bound>): set<Node> {
    (set b | b in bounds :: b.u) + (set b | b in bounds :: b.v)
  }

  predicate IntegralNode(m: Model, n: Node) {
    n.Zero? || (VarInfo(m, n.x).Some? && VarInfo(m, n.x).value.Integral?)
  }

  /** The `integer` flag: every node of the bounds is an integer. */
  predicate AllIntegral(m: Model, bounds: seq<Bound>) {
    forall n | n in Nodes(bounds) :: IntegralNode(m, n)
  }

  ghost predicate BoundHolds(x: imap<Node, real>, b: Bound) {
    b.u in x && b.v in x && Within(x[b.u] - x[b.v], Weight(b.c, b.strict))
  }

  /** Values for the nodes, `Zero`'s zero, within every bound; integers where every node is an integer. */
  ghost predicate Solves(m: Model, bounds: seq<Bound>, x: imap<Node, real>) {
    && Zero in x && x[Zero] == 0.0
    && (forall b | b in bounds :: BoundHolds(x, b))
    && (AllIntegral(m, bounds) ==> forall n | n in Nodes(bounds) :: n in x && IsWhole(x[n]))
  }

  function Ceiling(c: real): int {
    -((-c).Floor)
  }

  /** A bound's weight; over integers a strict one tightens to the next integer below it. */
  function WeightOf(b: Bound, integer: bool): Weight {
    if !integer then Weight(b.c, b.strict)
    else if b.strict then Weight(Ceiling(b.c) as real - 1.0, false)
    else Weight(b.c.Floor as real, false)
  }

  lemma TighteningIsExact(b: Bound, d: real)
    requires IsWhole(d)
    ensures Within(d, WeightOf(b, true)) <==> Within(d, Weight(b.c, b.strict))
    ensures WholeEntry(Some(WeightOf(b, true)))
  {
    var k := d.Floor;
    assert b.c.Floor as real <= b.c < b.c.Floor as real + 1.0;
    if b.strict {
      assert Ceiling(b.c) as real - 1.0 < b.c <= Ceiling(b.c) as real;
      assert WeightOf(b, true).c == (Ceiling(b.c) - 1) as real;
      assert k as real < b.c <==> k <= Ceiling(b.c) - 1;
    } else {
      assert k as real <= b.c <==> k <= b.c.Floor;
    }
  }

  lemma DifferenceIsWhole(a: real, b: real)
    requires IsWhole(a) && IsWhole(b)
    ensures IsWhole(a - b)
  {
    assert a - b == (a.Floor - b.Floor) as real;
  }

  /** The nodes in an order, and each one's index. */
  method Indexed(s: set<Node>) returns (nodes: seq<Node>, index: map<Node, nat>)
    ensures index.Keys == s
    ensures forall n | n in s :: index[n] < |nodes| && nodes[index[n]] == n
    ensures forall i | 0 <= i < |nodes| :: nodes[i] in s && index[nodes[i]] == i
  {
    nodes, index := [], map[];
    var rest := s;
    while rest != {}
      invariant rest <= s && index.Keys == s - rest
      invariant forall n | n in index :: index[n] < |nodes| && nodes[index[n]] == n
      invariant forall i | 0 <= i < |nodes| :: nodes[i] in index && index[nodes[i]] == i
      decreases rest
    {
      var n :| n in rest;
      index := index[n := |nodes|];
      nodes := nodes + [n];
      rest := rest - {n};
    }
  }

  /** A tightened weight is an integer's. */
  lemma WeightIsWhole(b: Bound)
    ensures WholeEntry(Some(WeightOf(b, true)))
  {
    TighteningIsExact(b, 0.0);
  }

  /** Values in the nodes' order within a bound's weight. */
  ghost predicate Meets(y: seq<real>, index: map<Node, nat>, b: Bound, integer: bool) {
    && b.u in index && b.v in index && index[b.u] < |y| && index[b.v] < |y|
    && Within(y[index[b.u]] - y[index[b.v]], WeightOf(b, integer))
  }

  ghost predicate MeetsAll(y: seq<real>, index: map<Node, nat>, bounds: seq<Bound>, integer: bool) {
    forall b | b in bounds :: Meets(y, index, b, integer)
  }

  /** A bound's cell bounds at least as tightly. */
  ghost predicate Loaded(dist: array2<Entry>, index: map<Node, nat>, b: Bound, integer: bool)
    reads dist
  {
    && b.u in index && b.v in index && index[b.v] < dist.Length0 && index[b.u] < dist.Length1
    && AtMost(dist[index[b.v], index[b.u]], Some(WeightOf(b, integer)))
  }

  /** A bound's weight at its cell, where it is tighter than the one there. */
  method Place(dist: array2<Entry>, i: nat, j: nat, w: Weight)
    requires Square(dist) && i < dist.Length0 && j < dist.Length0
    modifies dist
    ensures AtMost(dist[i, j], Some(w))
    ensures forall p, q | 0 <= p < dist.Length0 && 0 <= q < dist.Length0 :: AtMost(dist[p, q], old(dist[p, q]))
    ensures forall y: seq<real> :: |y| == dist.Length0 && old(Keeps(y, dist)) && Within(y[j] - y[i], w) ==> Keeps(y, dist)
    ensures old(WholeCells(dist)) && WholeEntry(Some(w)) ==> WholeCells(dist)
  {
    if Better(w, dist[i, j]) {
      dist[i, j] := Some(w);
    }
  }

  /** Each bound's weight at its cell, the tightest of those that share one; each cell a bound's, the diagonal zero. */
  method Load(bounds: seq<Bound>, integer: bool, index: map<Node, nat>, dist: array2<Entry>)
    requires Square(dist) && index.Keys == Nodes(bounds)
    requires forall n | n in index :: index[n] < dist.Length0
    modifies dist
    ensures forall b | b in bounds :: Loaded(dist, index, b, integer)
    ensures forall i | 0 <= i < dist.Length0 :: dist[i, i].Some?
    ensures forall y: seq<real> :: |y| == dist.Length0 && MeetsAll(y, index, bounds, integer) ==> Keeps(y, dist)
    ensures integer ==> WholeCells(dist)
  {
    var n := dist.Length0;
    forall i, j | 0 <= i < n && 0 <= j < n {
      dist[i, j] := if i == j then Some(Weight(0.0, false)) else None;
    }
    for k := 0 to |bounds|
      invariant forall h | 0 <= h < k :: Loaded(dist, index, bounds[h], integer)
      invariant forall i | 0 <= i < n :: dist[i, i].Some?
      invariant forall y: seq<real> :: |y| == n && MeetsAll(y, index, bounds, integer) ==> Keeps(y, dist)
      invariant integer ==> WholeCells(dist)
    {
      var b := bounds[k];
      assert b in bounds && b.u in Nodes(bounds) && b.v in Nodes(bounds);
      var w := WeightOf(b, integer);
      if integer {
        WeightIsWhole(b);
      }
      var i, j := index[b.v], index[b.u];
      label Before:
      Place(dist, i, j, w);
      forall h | 0 <= h < k + 1 ensures Loaded(dist, index, bounds[h], integer) {
        assert h < k ==> old@Before(Loaded(dist, index, bounds[h], integer));
      }
      forall y: seq<real> | |y| == n && MeetsAll(y, index, bounds, integer) ensures Keeps(y, dist) {
        assert Meets(y, index, b, integer) && old@Before(Keeps(y, dist));
      }
    }
  }

  /** A solution's values in the nodes' order. */
  ghost function Flattened(nodes: seq<Node>, x: imap<Node, real>): seq<real> {
    seq(|nodes|, i requires 0 <= i < |nodes| => if nodes[i] in x then x[nodes[i]] else 0.0)
  }

  /** The order of the nodes and their indexes agree. */
  ghost predicate Indexes(nodes: seq<Node>, index: map<Node, nat>) {
    && (forall n | n in index :: index[n] < |nodes| && nodes[index[n]] == n)
    && (forall i | 0 <= i < |nodes| :: nodes[i] in index && index[nodes[i]] == i)
  }

  lemma FlattenedMeets(m: Model, bounds: seq<Bound>, nodes: seq<Node>, index: map<Node, nat>, x: imap<Node, real>)
    requires Solves(m, bounds, x) && index.Keys == Nodes(bounds) && Indexes(nodes, index)
    ensures MeetsAll(Flattened(nodes, x), index, bounds, AllIntegral(m, bounds))
  {
    forall b | b in bounds ensures Meets(Flattened(nodes, x), index, b, AllIntegral(m, bounds)) {
      FlattenedOne(m, bounds, nodes, index, x, b);
    }
  }

  lemma FlattenedOne(m: Model, bounds: seq<Bound>, nodes: seq<Node>, index: map<Node, nat>, x: imap<Node, real>, b: Bound)
    requires Solves(m, bounds, x) && index.Keys == Nodes(bounds) && Indexes(nodes, index) && b in bounds
    ensures Meets(Flattened(nodes, x), index, b, AllIntegral(m, bounds))
  {
    assert b.u in Nodes(bounds) && b.v in Nodes(bounds) && BoundHolds(x, b);
    var y, u, v := Flattened(nodes, x), x[b.u], x[b.v];
    assert y[index[b.u]] == u && y[index[b.v]] == v;
    if AllIntegral(m, bounds) {
      TightenedHolds(b, u, v);
    }
  }

  lemma TightenedHolds(b: Bound, u: real, v: real)
    requires IsWhole(u) && IsWhole(v) && Within(u - v, Weight(b.c, b.strict))
    ensures Within(u - v, WeightOf(b, true))
  {
    DifferenceIsWhole(u, v);
    TighteningIsExact(b, u - v);
  }

  /** An assignment in the nodes' order, moved so that `Zero` is zero. */
  ghost function Unflattened(index: map<Node, nat>, y: seq<real>): imap<Node, real>
    requires forall n | n in index :: index[n] < |y|
  {
    var zero := if Zero in index then y[index[Zero]] else 0.0;
    imap n: Node | n in index.Keys + {Zero} :: if n in index then y[index[n]] - zero else 0.0
  }

  lemma UnflattenedSolves(m: Model, bounds: seq<Bound>, index: map<Node, nat>, y: seq<real>)
    requires index.Keys == Nodes(bounds) && forall n | n in index :: index[n] < |y|
    requires MeetsAll(y, index, bounds, AllIntegral(m, bounds))
    requires AllIntegral(m, bounds) ==> forall i | 0 <= i < |y| :: IsWhole(y[i])
    ensures Solves(m, bounds, Unflattened(index, y))
  {
    var x := Unflattened(index, y);
    forall b | b in bounds ensures BoundHolds(x, b) {
      UnflattenedHolds(index, y, b, AllIntegral(m, bounds));
    }
    if AllIntegral(m, bounds) {
      forall n | n in Nodes(bounds) ensures n in x && IsWhole(x[n]) {
        DifferenceIsWhole(y[index[n]], if Zero in index then y[index[Zero]] else 0.0);
      }
    }
  }

  lemma UnflattenedHolds(index: map<Node, nat>, y: seq<real>, b: Bound, integer: bool)
    requires forall n | n in index :: index[n] < |y|
    requires Meets(y, index, b, integer)
    requires integer ==> forall i | 0 <= i < |y| :: IsWhole(y[i])
    ensures BoundHolds(Unflattened(index, y), b)
  {
    var x := Unflattened(index, y);
    var d := y[index[b.u]] - y[index[b.v]];
    assert x[b.u] - x[b.v] == d;
    if integer {
      DifferenceIsWhole(y[index[b.u]], y[index[b.v]]);
      TighteningIsExact(b, d);
    }
  }

  /** What a loaded and closed matrix with no negative cycle gives: a solution. */
  lemma ClosedSolves(m: Model, bounds: seq<Bound>, index: map<Node, nat>, dist: array2<Entry>)
    requires Square(dist) && ClosedThrough(dist, dist.Length0) && !NegativeCycle(dist)
    requires index.Keys == Nodes(bounds) && forall n | n in index :: index[n] < dist.Length0
    requires forall b | b in bounds :: Loaded(dist, index, b, AllIntegral(m, bounds))
    requires AllIntegral(m, bounds) ==> WholeCells(dist)
    ensures exists x :: Solves(m, bounds, x)
  {
    var y := Assignment(dist, dist.Length0);
    forall b | b in bounds ensures Meets(y, index, b, AllIntegral(m, bounds)) {
      assert Loaded(dist, index, b, AllIntegral(m, bounds));
      var i, j := index[b.v], index[b.u];
      HoldsWeaker(y[j] - y[i], dist[i, j], Some(WeightOf(b, AllIntegral(m, bounds))));
    }
    UnflattenedSolves(m, bounds, index, y);
  }

  /** The test is a decision procedure: it answers true exactly where the bounds have a solution, strict ones
      included, over the integers where every node is one and over the rationals otherwise. */
  method Consistent(bounds: seq<Bound>, m: Model) returns (ok: bool)
    ensures ok <==> exists x :: Solves(m, bounds, x)
  {
    if bounds == [] {
      assert Solves(m, bounds, imap[Zero := 0.0]);
      return true;
    }
    var nodes, index := Indexed(Nodes(bounds));
    var integer := forall n | n in Nodes(bounds) :: IntegralNode(m, n);
    var size := |nodes|;
    var dist := new Entry[size, size]((i, j) => None);
    Load(bounds, integer, index, dist);
    label Loaded:
    Close(dist);
    forall x | Solves(m, bounds, x) ensures Keeps(Flattened(nodes, x), dist) {
      FlattenedMeets(m, bounds, nodes, index, x);
    }
    ok := forall i | 0 <= i < size :: !Negative(dist[i, i]);
    if ok {
      forall b | b in bounds ensures Loaded(dist, index, b, integer) {
        assert old@Loaded(Loaded(dist, index, b, integer));
      }
      ClosedSolves(m, bounds, index, dist);
    }
  }
}
