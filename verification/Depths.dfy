/** The depth of a tree, counted without recursion (scripts/flowexpr.py, `depth`). */
module Depths {
  import opened Wrappers
  import opened Syntax

  function Larger(a: int, b: int): (r: int)
    ensures a <= r && b <= r
  {
    if a < b then b else a
  }

  /** The depth of a tree, every node a level; a metric's binding is one too. */
  ghost function Depth(e: Expr): (n: int)
    ensures n >= 1
    decreases e
  {
    match e
    case Path(base, _) => 1 + Depth(base)
    case Call(fn, args) => 1 + Larger(Depth(fn), DepthAll(args))
    case Agg(_, _, _, coll, where, body) => 1 + Larger(Larger(DepthOf(coll), DepthOf(where)), DepthOf(body))
    case Metric(name, binds, over, fresh_) =>
      1 + Larger(Larger(Larger(Depth(name), DepthBinds(binds)), DepthOf(over)), DepthOf(fresh_))
    case Changed(_, event) => 1 + Depth(event)
    case SetLit(items) => 1 + DepthAll(items)
    case Not(x) => 1 + Depth(x)
    case Neg(x) => 1 + Depth(x)
    case IsNull(x, _) => 1 + Depth(x)
    case In(l, r) => 1 + Larger(Depth(l), Depth(r))
    case Bin(_, l, r) => 1 + Larger(Depth(l), Depth(r))
    case If(c, a, b) => 1 + Larger(Larger(Depth(c), Depth(a)), Depth(b))
    case _ => 1
  }

  ghost function DepthOf(e: Option<Expr>): (n: int)
    ensures n >= 0
    decreases e
  {
    if e.Some? then Depth(e.value) else 0
  }

  ghost function DepthAll(es: seq<Expr>): (n: int)
    ensures n >= 0
    decreases es
  {
    if es == [] then 0 else Larger(Depth(es[0]), DepthAll(es[1..]))
  }

  ghost function DepthBinds(bs: seq<(string, Expr)>): (n: int)
    ensures n >= 0
    decreases bs
  {
    if bs == [] then 0
    else
      var b := bs[0];
      assert b in bs && b.1 < b;
      Larger(1 + Depth(b.1), DepthBinds(bs[1..]))
  }

  /** What a tree is made of: its nodes, and the pairs of a metric's name and expression. */
  datatype Item = Node(e: Expr) | Bind(e: Expr)

  ghost function ItemDepth(x: Item): int {
    if x.Bind? then 1 + Depth(x.e) else Depth(x.e)
  }

  function Nodes(es: seq<Expr>): (r: seq<Item>)
    ensures |r| == |es| && forall i | 0 <= i < |es| :: r[i] == Node(es[i])
  {
    seq(|es|, i requires 0 <= i < |es| => Node(es[i]))
  }

  function Binds(bs: seq<(string, Expr)>): (r: seq<Item>)
    ensures |r| == |bs| && forall i | 0 <= i < |bs| :: r[i] == Bind(bs[i].1)
  {
    seq(|bs|, i requires 0 <= i < |bs| => Bind(bs[i].1))
  }

  function Optional(e: Option<Expr>): seq<Item> {
    if e.Some? then [Node(e.value)] else []
  }

  /** What lies just below a node. */
  function Children(x: Item): seq<Item> {
    if x.Bind? then [Node(x.e)]
    else
      match x.e
      case Path(base, _) => [Node(base)]
      case Call(fn, args) => [Node(fn)] + Nodes(args)
      case Agg(_, _, _, coll, where, body) => Optional(coll) + Optional(where) + Optional(body)
      case Metric(name, binds, over, fresh_) => [Node(name)] + Binds(binds) + Optional(over) + Optional(fresh_)
      case Changed(_, event) => [Node(event)]
      case SetLit(items) => Nodes(items)
      case Not(y) => [Node(y)]
      case Neg(y) => [Node(y)]
      case IsNull(y, _) => [Node(y)]
      case In(l, r) => [Node(l)] + [Node(r)]
      case Bin(_, l, r) => [Node(l)] + [Node(r)]
      case If(c, a, b) => [Node(c)] + [Node(a)] + [Node(b)]
      case _ => []
  }

  /** The deepest of some items, each counted by f. */
  ghost function Deepest(f: Item -> int, xs: seq<Item>): (n: int)
    ensures n >= 0
  {
    if xs == [] then 0 else Larger(f(xs[0]), Deepest(f, xs[1..]))
  }

  lemma {:induction false} DeepestOfBoth(f: Item -> int, xs: seq<Item>, ys: seq<Item>)
    ensures Deepest(f, xs + ys) == Larger(Deepest(f, xs), Deepest(f, ys))
  {
    if xs == [] {
      assert xs + ys == ys;
    } else {
      assert (xs + ys)[1..] == xs[1..] + ys;
      DeepestOfBoth(f, xs[1..], ys);
    }
  }

  lemma DeepestOfOne(f: Item -> int, x: Item)
    ensures Deepest(f, [x]) == Larger(f(x), 0)
  {
    assert [x][1..] == [];
  }

  lemma {:induction false} DeepestNodes(f: Item -> int, es: seq<Expr>)
    requires forall x :: f(x) == ItemDepth(x)
    ensures Deepest(f, Nodes(es)) == DepthAll(es)
  {
    if es != [] {
      assert Nodes(es)[1..] == Nodes(es[1..]);
      DeepestNodes(f, es[1..]);
    }
  }

  lemma {:induction false} DeepestBinds(f: Item -> int, bs: seq<(string, Expr)>)
    requires forall x :: f(x) == ItemDepth(x)
    ensures Deepest(f, Binds(bs)) == DepthBinds(bs)
  {
    if bs != [] {
      assert Binds(bs)[1..] == Binds(bs[1..]);
      DeepestBinds(f, bs[1..]);
    }
  }

  lemma DeepestOptional(f: Item -> int, e: Option<Expr>)
    requires forall x :: f(x) == ItemDepth(x)
    ensures Deepest(f, Optional(e)) == DepthOf(e)
  {
    if e.Some? {
      DeepestOfOne(f, Node(e.value));
    }
  }

  /** A node is a level above the deepest just below it. */
  lemma DepthByChildren(f: Item -> int, x: Item)
    requires forall y :: f(y) == ItemDepth(y)
    ensures f(x) == 1 + Deepest(f, Children(x))
  {
    if x.Bind? {
      DeepestOfOne(f, Node(x.e));
    } else {
      match x.e
      case Path(base, _) => DeepestOfOne(f, Node(base));
      case Call(fn, args) =>
        DeepestOfOne(f, Node(fn));
        DeepestNodes(f, args);
        DeepestOfBoth(f, [Node(fn)], Nodes(args));
      case Agg(_, _, _, coll, where, body) =>
        DeepestOptional(f, coll);
        DeepestOptional(f, where);
        DeepestOptional(f, body);
        DeepestOfBoth(f, Optional(coll), Optional(where));
        DeepestOfBoth(f, Optional(coll) + Optional(where), Optional(body));
      case Metric(name, binds, over, fresh_) =>
        DeepestOfOne(f, Node(name));
        DeepestBinds(f, binds);
        DeepestOptional(f, over);
        DeepestOptional(f, fresh_);
        DeepestOfBoth(f, [Node(name)], Binds(binds));
        DeepestOfBoth(f, [Node(name)] + Binds(binds), Optional(over));
        DeepestOfBoth(f, [Node(name)] + Binds(binds) + Optional(over), Optional(fresh_));
      case Changed(_, event) => DeepestOfOne(f, Node(event));
      case SetLit(items) => DeepestNodes(f, items);
      case Not(y) => DeepestOfOne(f, Node(y));
      case Neg(y) => DeepestOfOne(f, Node(y));
      case IsNull(y, _) => DeepestOfOne(f, Node(y));
      case In(l, r) => DeepestOfTwo(f, l, r);
      case Bin(_, l, r) => DeepestOfTwo(f, l, r);
      case If(c, a, b) =>
        DeepestOfTwo(f, c, a);
        DeepestOfOne(f, Node(b));
        DeepestOfBoth(f, [Node(c)] + [Node(a)], [Node(b)]);
      case _ =>
    }
  }

  lemma DeepestOfTwo(f: Item -> int, l: Expr, r: Expr)
    requires forall y :: f(y) == ItemDepth(y)
    ensures Deepest(f, [Node(l)] + [Node(r)]) == Larger(Depth(l), Depth(r))
  {
    DeepestOfOne(f, Node(l));
    DeepestOfOne(f, Node(r));
    DeepestOfBoth(f, [Node(l)], [Node(r)]);
  }

  /** Some items, each with the level it is at. */
  type Stack = seq<(Item, nat)>

  function Placed(xs: seq<Item>, d: nat): (r: Stack)
    ensures |r| == |xs| && forall i | 0 <= i < |xs| :: r[i] == (xs[i], d)
  {
    seq(|xs|, i requires 0 <= i < |xs| => (xs[i], d))
  }

  /** The depth the items still on the stack reach, each from the level it is at. */
  ghost function Reach(f: Item -> int, stack: Stack): (r: int)
    ensures r >= 0
  {
    if stack == [] then 0
    else
      var last := stack[|stack| - 1];
      Larger(last.1 - 1 + f(last.0), Reach(f, stack[..|stack| - 1]))
  }

  lemma ReachPushed(f: Item -> int, stack: Stack, x: Item, d: nat)
    ensures Reach(f, stack + [(x, d)]) == Larger(d - 1 + f(x), Reach(f, stack))
  {
    assert (stack + [(x, d)])[..|stack|] == stack;
  }

  lemma {:induction false} ReachPlaced(f: Item -> int, stack: Stack, xs: seq<Item>, d: nat)
    requires d >= 1 && forall x :: f(x) >= 0
    ensures Reach(f, stack + Placed(xs, d)) ==
            Larger(Reach(f, stack), if xs == [] then 0 else d - 1 + Deepest(f, xs))
  {
    if xs == [] {
      assert stack + Placed(xs, d) == stack;
    } else {
      var n := |xs| - 1;
      var rest := stack + Placed(xs[..n], d);
      ReachPlaced(f, stack, xs[..n], d);
      PlacedLast(stack, xs, d);
      ReachPushed(f, rest, xs[n], d);
      DeepestLast(f, xs);
    }
  }

  lemma DeepestLast(f: Item -> int, xs: seq<Item>)
    requires xs != [] && forall x :: f(x) >= 0
    ensures var n := |xs| - 1; Deepest(f, xs) == Larger(Deepest(f, xs[..n]), f(xs[n]))
  {
    var n := |xs| - 1;
    assert xs == xs[..n] + [xs[n]];
    DeepestOfBoth(f, xs[..n], [xs[n]]);
    DeepestOfOne(f, xs[n]);
  }

  lemma PlacedLast(stack: Stack, xs: seq<Item>, d: nat)
    requires xs != []
    ensures var n := |xs| - 1; stack + Placed(xs, d) == stack + Placed(xs[..n], d) + [(xs[n], d)]
  {
  }

  /** An item taken off the stack, what is below it in its place. */
  lemma Popped(f: Item -> int, rest: Stack, x: Item, below: seq<Item>, d: nat, deepest: nat)
    requires d >= 1 && f(x) == 1 + Deepest(f, below) && forall y :: f(y) >= 0
    ensures Larger(deepest, Reach(f, rest + [(x, d)])) == Larger(Larger(deepest, d), Reach(f, rest + Placed(below, d + 1)))
  {
    ReachPushed(f, rest, x, d);
    ReachPlaced(f, rest, below, d + 1);
  }

  lemma Step(f: Item -> int, g: Item -> nat, rest: Stack, x: Item, d: nat, deepest: nat)
    requires d >= 1 && (forall y :: f(y) == ItemDepth(y)) && forall y :: g(y) == ItemSize(y)
    ensures var next := rest + Placed(Children(x), d + 1);
            && Larger(deepest, Reach(f, rest + [(x, d)])) == Larger(Larger(deepest, d), Reach(f, next))
            && Left(g, next) < Left(g, rest + [(x, d)])
  {
    DepthByChildren(f, x);
    Popped(f, rest, x, Children(x), d, deepest);
    SizeByChildren(g, x);
    Shrinks(g, rest, x, Children(x), d);
  }

  lemma Shrinks(g: Item -> nat, rest: Stack, x: Item, below: seq<Item>, d: nat)
    requires g(x) == 1 + Total(g, below)
    ensures Left(g, rest + Placed(below, d + 1)) < Left(g, rest + [(x, d)])
  {
    LeftPlaced(g, rest, below, d + 1);
    assert (rest + [(x, d)])[..|rest|] == rest;
  }

  /** The depth, by an explicit stack of what is still to be counted. */
  method CountDepth(e: Expr) returns (deepest: nat)
    ensures deepest == Depth(e)
  {
    ghost var f := (x: Item) => ItemDepth(x);
    ghost var g := (x: Item) => ItemSize(x);
    var stack: Stack := [(Node(e), 1)];
    deepest := 0;
    ReachPushed(f, [], Node(e), 1);
    assert stack == [] + [(Node(e), 1)];
    while stack != []
      invariant Larger(deepest, Reach(f, stack)) == Depth(e)
      invariant forall p | p in stack :: p.1 >= 1
      decreases Left(g, stack)
    {
      var n := |stack| - 1;
      var (x, d) := stack[n];
      assert stack == stack[..n] + [(x, d)] && stack[n] in stack;
      Step(f, g, stack[..n], x, d, deepest);
      deepest := Larger(deepest, d);
      stack := stack[..n] + Placed(Children(x), d + 1);
    }
  }

  // the count ends: what is left on the stack grows smaller

  ghost function Size(e: Expr): (n: nat)
    ensures n >= 1
    decreases e
  {
    match e
    case Path(base, _) => 1 + Size(base)
    case Call(fn, args) => 1 + Size(fn) + SizeAll(args)
    case Agg(_, _, _, coll, where, body) => 1 + SizeOf(coll) + SizeOf(where) + SizeOf(body)
    case Metric(name, binds, over, fresh_) => 1 + Size(name) + SizeBinds(binds) + SizeOf(over) + SizeOf(fresh_)
    case Changed(_, event) => 1 + Size(event)
    case SetLit(items) => 1 + SizeAll(items)
    case Not(x) => 1 + Size(x)
    case Neg(x) => 1 + Size(x)
    case IsNull(x, _) => 1 + Size(x)
    case In(l, r) => 1 + Size(l) + Size(r)
    case Bin(_, l, r) => 1 + Size(l) + Size(r)
    case If(c, a, b) => 1 + Size(c) + Size(a) + Size(b)
    case _ => 1
  }

  ghost function SizeOf(e: Option<Expr>): nat
    decreases e
  {
    if e.Some? then Size(e.value) else 0
  }

  ghost function SizeAll(es: seq<Expr>): nat
    decreases es
  {
    if es == [] then 0 else Size(es[0]) + SizeAll(es[1..])
  }

  ghost function SizeBinds(bs: seq<(string, Expr)>): nat
    decreases bs
  {
    if bs == [] then 0
    else
      var b := bs[0];
      assert b in bs && b.1 < b;
      1 + Size(b.1) + SizeBinds(bs[1..])
  }

  ghost function ItemSize(x: Item): nat {
    if x.Bind? then 1 + Size(x.e) else Size(x.e)
  }

  ghost function Total(g: Item -> nat, xs: seq<Item>): nat {
    if xs == [] then 0 else g(xs[0]) + Total(g, xs[1..])
  }

  lemma {:induction false} TotalOfBoth(g: Item -> nat, xs: seq<Item>, ys: seq<Item>)
    ensures Total(g, xs + ys) == Total(g, xs) + Total(g, ys)
  {
    if xs == [] {
      assert xs + ys == ys;
    } else {
      assert (xs + ys)[1..] == xs[1..] + ys;
      TotalOfBoth(g, xs[1..], ys);
    }
  }

  lemma TotalOfOne(g: Item -> nat, x: Item)
    ensures Total(g, [x]) == g(x)
  {
    assert [x][1..] == [];
  }

  lemma {:induction false} TotalOfNodes(g: Item -> nat, es: seq<Expr>)
    requires forall x :: g(x) == ItemSize(x)
    ensures Total(g, Nodes(es)) == SizeAll(es)
  {
    if es != [] {
      assert Nodes(es)[1..] == Nodes(es[1..]);
      TotalOfNodes(g, es[1..]);
    }
  }

  lemma {:induction false} TotalOfBinds(g: Item -> nat, bs: seq<(string, Expr)>)
    requires forall x :: g(x) == ItemSize(x)
    ensures Total(g, Binds(bs)) == SizeBinds(bs)
  {
    if bs != [] {
      assert Binds(bs)[1..] == Binds(bs[1..]);
      TotalOfBinds(g, bs[1..]);
    }
  }

  lemma TotalOfOptional(g: Item -> nat, e: Option<Expr>)
    requires forall x :: g(x) == ItemSize(x)
    ensures Total(g, Optional(e)) == SizeOf(e)
  {
    if e.Some? {
      TotalOfOne(g, Node(e.value));
    }
  }

  lemma TotalOfTwo(g: Item -> nat, l: Expr, r: Expr)
    requires forall y :: g(y) == ItemSize(y)
    ensures Total(g, [Node(l)] + [Node(r)]) == Size(l) + Size(r)
  {
    TotalOfOne(g, Node(l));
    TotalOfOne(g, Node(r));
    TotalOfBoth(g, [Node(l)], [Node(r)]);
  }

  lemma SizeByChildren(g: Item -> nat, x: Item)
    requires forall y :: g(y) == ItemSize(y)
    ensures g(x) == 1 + Total(g, Children(x))
  {
    if x.Bind? {
      TotalOfOne(g, Node(x.e));
    } else {
      match x.e
      case Path(base, _) => TotalOfOne(g, Node(base));
      case Call(fn, args) =>
        TotalOfOne(g, Node(fn));
        TotalOfNodes(g, args);
        TotalOfBoth(g, [Node(fn)], Nodes(args));
      case Agg(_, _, _, coll, where, body) =>
        TotalOfOptional(g, coll);
        TotalOfOptional(g, where);
        TotalOfOptional(g, body);
        TotalOfBoth(g, Optional(coll), Optional(where));
        TotalOfBoth(g, Optional(coll) + Optional(where), Optional(body));
      case Metric(name, binds, over, fresh_) =>
        TotalOfOne(g, Node(name));
        TotalOfBinds(g, binds);
        TotalOfOptional(g, over);
        TotalOfOptional(g, fresh_);
        TotalOfBoth(g, [Node(name)], Binds(binds));
        TotalOfBoth(g, [Node(name)] + Binds(binds), Optional(over));
        TotalOfBoth(g, [Node(name)] + Binds(binds) + Optional(over), Optional(fresh_));
      case Changed(_, event) => TotalOfOne(g, Node(event));
      case SetLit(items) => TotalOfNodes(g, items);
      case Not(y) => TotalOfOne(g, Node(y));
      case Neg(y) => TotalOfOne(g, Node(y));
      case IsNull(y, _) => TotalOfOne(g, Node(y));
      case In(l, r) => TotalOfTwo(g, l, r);
      case Bin(_, l, r) => TotalOfTwo(g, l, r);
      case If(c, a, b) =>
        TotalOfTwo(g, c, a);
        TotalOfOne(g, Node(b));
        TotalOfBoth(g, [Node(c)] + [Node(a)], [Node(b)]);
      case _ =>
    }
  }

  ghost function Left(g: Item -> nat, stack: Stack): nat {
    if stack == [] then 0 else g(stack[|stack| - 1].0) + Left(g, stack[..|stack| - 1])
  }

  lemma {:induction false} LeftPlaced(g: Item -> nat, stack: Stack, xs: seq<Item>, d: nat)
    ensures Left(g, stack + Placed(xs, d)) == Left(g, stack) + Total(g, xs)
  {
    if xs == [] {
      assert stack + Placed(xs, d) == stack;
    } else {
      var n := |xs| - 1;
      var rest := stack + Placed(xs[..n], d);
      LeftPlaced(g, stack, xs[..n], d);
      PlacedLast(stack, xs, d);
      assert (rest + [(xs[n], d)])[..|rest|] == rest;
      assert xs == xs[..n] + [xs[n]];
      TotalOfBoth(g, xs[..n], [xs[n]]);
      TotalOfOne(g, xs[n]);
    }
  }
}
