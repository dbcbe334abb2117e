/** Conjunctions taken one from each of several lists of cases (scripts/flowlogic.py, `product` and `union`). */
module CaseProducts {
  import opened Wrappers
  import opened TypeModel
  import opened Atoms

  datatype TooLarge = TooLarge

  type Cases = Result<seq<Case>, TooLarge>

  /** The cases a set of conditions may expand to before it is reported rather than decided. */
  const LIMIT := 4096

  function Each(a: Case, ys: seq<Case>): (r: seq<Case>)
    ensures |r| == |ys| && forall i | 0 <= i < |ys| :: r[i] == a + ys[i]
  {
    seq(|ys|, i requires 0 <= i < |ys| => a + ys[i])
  }

  /** Every case of one list joined with every case of another. */
  function Cross(xs: seq<Case>, ys: seq<Case>): seq<Case> {
    if xs == [] then [] else Each(xs[0], ys) + Cross(xs[1..], ys)
  }

  /** The fold of `Cross` over the lists, refused past the limit and cut short where nothing is left. */
  function Fold(out: seq<Case>, lists: seq<seq<Case>>): Cases
    decreases |lists|
  {
    if lists == [] then Ok(out)
    else
      var next := Cross(out, lists[0]);
      if |next| > LIMIT then Err(TooLarge)
      else if next == [] then Ok([])
      else Fold(next, lists[1..])
  }

  function Products(lists: seq<seq<Case>>): Cases {
    Fold([{}], lists)
  }

  function Flat(lists: seq<seq<Case>>): seq<Case> {
    if lists == [] then [] else lists[0] + Flat(lists[1..])
  }

  function Unions(lists: seq<seq<Case>>): Cases {
    if |Flat(lists)| > LIMIT then Err(TooLarge) else Ok(Flat(lists))
  }

  /** The loop the source runs. */
  method Product(lists: seq<seq<Case>>) returns (r: Cases)
    ensures r == Products(lists)
  {
    var out: seq<Case> := [{}];
    assert lists[0..] == lists;
    for i := 0 to |lists|
      invariant Products(lists) == Fold(out, lists[i..])
    {
      assert lists[i..][0] == lists[i] && lists[i..][1..] == lists[i + 1..];
      var next: seq<Case> := [];
      assert out[0..] == out && next + Cross(out, lists[i]) == Cross(out, lists[i]);
      for j := 0 to |out|
        invariant next + Cross(out[j..], lists[i]) == Cross(out, lists[i])
      {
        assert out[j..][0] == out[j] && out[j..][1..] == out[j + 1..];
        assert next + Each(out[j], lists[i]) + Cross(out[j + 1..], lists[i]) == next + Cross(out[j..], lists[i]);
        next := next + Each(out[j], lists[i]);
      }
      assert out[|out|..] == [] && next == next + [];
      assert next == Cross(out, lists[i]);
      out := next;
      if |out| > LIMIT {
        return Err(TooLarge);
      }
      if out == [] {
        return Ok([]);
      }
    }
    assert lists[|lists|..] == [];
    return Ok(out);
  }

  lemma UnionHolds(v: Valuation, a: Case, b: Case)
    ensures CaseHolds(v, a + b) <==> CaseHolds(v, a) && CaseHolds(v, b)
  {
    if CaseHolds(v, a + b) {
      assert forall x | x in a || x in b :: x in a + b && AtomHolds(v, x);
    }
  }

  lemma ConcatHolds(v: Valuation, xs: seq<Case>, ys: seq<Case>)
    ensures SomeHolds(v, xs + ys) <==> SomeHolds(v, xs) || SomeHolds(v, ys)
  {
    forall i | 0 <= i < |xs| ensures (xs + ys)[i] == xs[i] {}
    forall i | 0 <= i < |ys| ensures (xs + ys)[|xs| + i] == ys[i] {}
    if SomeHolds(v, xs + ys) {
      var i :| 0 <= i < |xs + ys| && CaseHolds(v, (xs + ys)[i]);
      assert i < |xs| || CaseHolds(v, ys[i - |xs|]);
    }
  }

  lemma {:induction false} CrossHolds(v: Valuation, xs: seq<Case>, ys: seq<Case>)
    ensures SomeHolds(v, Cross(xs, ys)) <==> SomeHolds(v, xs) && SomeHolds(v, ys)
  {
    if xs == [] {
    } else {
      CrossHolds(v, xs[1..], ys);
      ConcatHolds(v, Each(xs[0], ys), Cross(xs[1..], ys));
      assert xs == [xs[0]] + xs[1..];
      ConcatHolds(v, [xs[0]], xs[1..]);
      assert SomeHolds(v, [xs[0]]) <==> CaseHolds(v, xs[0]) by {
        assert [xs[0]][0] == xs[0];
      }
      forall i | 0 <= i < |ys|
        ensures CaseHolds(v, Each(xs[0], ys)[i]) <==> CaseHolds(v, xs[0]) && CaseHolds(v, ys[i])
      {
        UnionHolds(v, xs[0], ys[i]);
      }
      if SomeHolds(v, Each(xs[0], ys)) {
        var i :| 0 <= i < |ys| && CaseHolds(v, Each(xs[0], ys)[i]);
        assert CaseHolds(v, ys[i]);
      }
    }
  }

  /** Every list has a case that holds. */
  ghost predicate AllHold(v: Valuation, lists: seq<seq<Case>>) {
    forall i | 0 <= i < |lists| :: SomeHolds(v, lists[i])
  }

  lemma {:induction false} FoldHolds(v: Valuation, out: seq<Case>, lists: seq<seq<Case>>)
    requires Fold(out, lists).Ok?
    ensures SomeHolds(v, Fold(out, lists).value) <==> SomeHolds(v, out) && AllHold(v, lists)
    decreases |lists|
  {
    if lists != [] {
      var next := Cross(out, lists[0]);
      CrossHolds(v, out, lists[0]);
      assert AllHold(v, lists) <==> SomeHolds(v, lists[0]) && AllHold(v, lists[1..]) by {
        if SomeHolds(v, lists[0]) && AllHold(v, lists[1..]) {
          forall i | 0 <= i < |lists| ensures SomeHolds(v, lists[i]) {
            assert i == 0 || lists[i] == lists[1..][i - 1];
          }
        }
        if AllHold(v, lists) {
          forall i | 0 <= i < |lists[1..]| ensures SomeHolds(v, lists[1..][i]) {
            assert lists[1..][i] == lists[i + 1];
          }
        }
      }
      if next != [] {
        FoldHolds(v, next, lists[1..]);
      }
    }
  }

  /** A product holds exactly where a case of each of its lists does. */
  lemma ProductHolds(v: Valuation, lists: seq<seq<Case>>)
    requires Products(lists).Ok?
    ensures SomeHolds(v, Products(lists).value) <==> AllHold(v, lists)
  {
    FoldHolds(v, [{}], lists);
    assert CaseHolds(v, [{}][0]);
  }

  /** A union holds exactly where a case of one of its lists does. */
  lemma {:induction false} FlatHolds(v: Valuation, lists: seq<seq<Case>>)
    ensures SomeHolds(v, Flat(lists)) <==> exists i | 0 <= i < |lists| :: SomeHolds(v, lists[i])
  {
    if lists != [] {
      FlatHolds(v, lists[1..]);
      ConcatHolds(v, lists[0], Flat(lists[1..]));
      if exists i | 0 <= i < |lists[1..]| :: SomeHolds(v, lists[1..][i]) {
        var i :| 0 <= i < |lists[1..]| && SomeHolds(v, lists[1..][i]);
        assert SomeHolds(v, lists[i + 1]);
      }
      if exists i | 0 <= i < |lists| :: SomeHolds(v, lists[i]) {
        var i :| 0 <= i < |lists| && SomeHolds(v, lists[i]);
        assert i == 0 || lists[i] == lists[1..][i - 1];
      }
    }
  }

  // ── a product's cases are built of its lists' ────────────────────────────

  lemma {:induction false} CrossFits(m: Model, xs: seq<Case>, ys: seq<Case>)
    requires AllWellFormed(m, xs) && AllWellFormed(m, ys)
    ensures AllWellFormed(m, Cross(xs, ys))
  {
    if xs != [] {
      CrossFits(m, xs[1..], ys);
      forall i | 0 <= i < |ys| ensures WellFormed(m, Each(xs[0], ys)[i]) {
        UnionFits(m, xs[0], ys[i]);
      }
    }
  }

  lemma {:induction false} FoldFits(m: Model, out: seq<Case>, lists: seq<seq<Case>>)
    requires Fold(out, lists).Ok? && AllWellFormed(m, out)
    requires forall i | 0 <= i < |lists| :: AllWellFormed(m, lists[i])
    ensures AllWellFormed(m, Fold(out, lists).value)
    decreases |lists|
  {
    if lists != [] {
      CrossFits(m, out, lists[0]);
      if Cross(out, lists[0]) != [] {
        FoldFits(m, Cross(out, lists[0]), lists[1..]);
      }
    }
  }

  lemma {:induction false} FlatFits(m: Model, lists: seq<seq<Case>>)
    requires forall i | 0 <= i < |lists| :: AllWellFormed(m, lists[i])
    ensures AllWellFormed(m, Flat(lists))
  {
    if lists != [] {
      FlatFits(m, lists[1..]);
    }
  }
}
