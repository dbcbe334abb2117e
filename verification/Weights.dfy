/** The weights of a difference-bound matrix and the one inequality Floyd-Warshall rests on
    (scripts/flowlogic.py, `consistent`). */
module Weights {
  import opened Wrappers

  /** A difference at most `c`, or below it where strict. */
  datatype Weight = Weight(c: real, strict: bool)

  /** A cell of the matrix: no bound, or the tightest found. */
  type Entry = Option<Weight>

  predicate Tighter(a: Weight, b: Weight) {
    a.c < b.c || (a.c == b.c && a.strict && !b.strict)
  }

  function Plus(a: Weight, b: Weight): Weight {
    Weight(a.c + b.c, a.strict || b.strict)
  }

  predicate Within(d: real, w: Weight) {
    if w.strict then d < w.c else d <= w.c
  }

  predicate Better(a: Weight, b: Entry) {
    b.None? || Tighter(a, b.value)
  }

  function Join(a: Entry, b: Entry): Entry {
    if a.Some? && b.Some? then Some(Plus(a.value, b.value)) else None
  }

  function Least(a: Entry, b: Entry): Entry {
    if b.Some? && Better(b.value, a) then b else a
  }

  /** `a` bounds at least as tightly as `b`. */
  predicate AtMost(a: Entry, b: Entry) {
    b.None? || (a.Some? && !Tighter(b.value, a.value))
  }

  predicate Holds(d: real, e: Entry) {
    e.Some? ==> Within(d, e.value)
  }

  /** A difference of a node from itself, which is zero, cannot be within it. */
  predicate Negative(e: Entry) {
    e.Some? && (e.value.c < 0.0 || (e.value.c == 0.0 && e.value.strict))
  }

  /** The bounds close over a path: two differences within two weights sum within the sum. */
  lemma HoldsJoin(d1: real, d2: real, a: Entry, b: Entry)
    requires Holds(d1, a) && Holds(d2, b)
    ensures Holds(d1 + d2, Join(a, b))
  {
  }

  lemma HoldsWeaker(d: real, a: Entry, b: Entry)
    requires Holds(d, a) && AtMost(a, b)
    ensures Holds(d, b)
  {
  }

  /** Routing every pair through `k` keeps a triangle through `l` closed, where `k` is on no negative cycle. */
  lemma Triangle(ij: Entry, il: Entry, lj: Entry, ik: Entry, kj: Entry, kl: Entry, lk: Entry, kk: Entry)
    requires AtMost(ij, Join(il, lj)) && AtMost(ik, Join(il, lk)) && AtMost(kj, Join(kl, lj))
    requires AtMost(kk, Join(kl, lk)) && !Negative(kk)
    ensures AtMost(Least(ij, Join(ik, kj)), Join(Least(il, Join(ik, kl)), Least(lj, Join(lk, kj))))
  {
  }

  /** Going round a node that is on no negative cycle tightens nothing. */
  lemma Round(ik: Entry, kk: Entry)
    requires !Negative(kk)
    ensures Least(ik, Join(ik, kk)) == ik && Least(ik, Join(kk, ik)) == ik
  {
  }
}
