/** Findings gathered by code, each as grave as its gravest and with the ids it names (scripts/flowpublish.py, `Found`). */
module Reports {
  import opened Wrappers

  type Id = nat

  datatype Severity = Fatal | Decision | Notice

  /** What a finding is about. A code's text joins these parts with `:` and `.`, which no name holds. */
  datatype Code =
    | Check(message: string)
    | Load
    | NotComputed
    | MovedType(tn: string)
    | MovedTypeTwice(tn: string)
    | MovedState(tn: string, state: string)
    | MappingMove(tn: string, to: string)
    | MappingMoveAttribute(tn: string, to: string, attr: string)
    | MappingMember(enumeration: string, member: string)
    | MappingState(tn: string, state: string)
    | MappingBackfill(tn: string, attr: string)
    | MappingClear(tn: string, attr: string)
    | BackfillRewrites(tn: string, attr: string)
    | MappingReference(tn: string, attr: string)
    | MovedReference(tn: string, attr: string)
    | RemovedType(tn: string)
    | RetiredType(tn: string)
    | RemovedState(tn: string, state: string)
    | RemovedMember(enumeration: string, member: string)
    | RequiredAbsent(tn: string, attr: string)
    | UnreachableState(tn: string, state: string)
    | Stranded(tn: string, attr: string)
    | Invariant(tn: string, n: string)
    | AdmitFinal(tn: string, n: string)
    | ObservationInvariant(tn: string, n: string)
    | Discharged(tn: string, n: string)
    | TypeChanged(tn: string, attr: string)
    | ProposalsInvalidated
    | Superseded
    | Noted(text: string)

  /** The codes an object's migration records as its mappings. */
  predicate IsMapping(c: Code) {
    c.MappingMove? || c.MappingMoveAttribute? || c.MappingMember? || c.MappingState? || c.MappingBackfill? || c.MappingClear?
  }

  datatype Met = Met(severity: Severity, code: Code, id: Option<Id>)

  datatype Finding = Finding(severity: Severity, code: Code, ids: seq<Id>)

  function Gravity(s: Severity): nat {
    match s case Fatal => 0 case Decision => 1 case Notice => 2
  }

  /** A code's finding, wherever in the report it stands. */
  datatype Entry = Entry(severity: Severity, ids: set<Id>)

  type Contents = map<Code, Entry>

  function Ids(ids: seq<Id>): (r: set<Id>)
    ensures forall id :: id in r <==> id in ids
  {
    set id | id in ids
  }

  predicate Distinct(findings: seq<Finding>) {
    forall i, j | 0 <= i < j < |findings| :: findings[i].code != findings[j].code
  }

  function EntryOf(f: Finding): Entry {
    Entry(f.severity, Ids(f.ids))
  }

  function ContentsOf(findings: seq<Finding>): Contents {
    if findings == [] then map[]
    else ContentsOf(findings[..|findings| - 1])[findings[|findings| - 1].code := EntryOf(findings[|findings| - 1])]
  }

  /** One met: its code is as grave as the graver, and names its id too. */
  function Merged(c: Contents, m: Met): Contents {
    var was := if m.code in c then c[m.code] else Entry(m.severity, {});
    c[m.code := Entry(if Gravity(m.severity) < Gravity(was.severity) then m.severity else was.severity,
                      if m.id.Some? then was.ids + {m.id.value} else was.ids)]
  }

  /** What has been met, whatever the order: a code is found where it was met, as grave as the gravest of it, and names
      each id it was met with. */
  ghost predicate Gathers(c: Contents, met: set<Met>) {
    && (forall m | m in met :: m.code in c && Gravity(c[m.code].severity) <= Gravity(m.severity)
                               && (m.id.Some? ==> m.id.value in c[m.code].ids))
    && (forall code | code in c :: MetAs(met, code, c[code].severity))
    && (forall code, id | code in c && id in c[code].ids :: Names(met, code, id))
  }

  ghost predicate MetAs(met: set<Met>, code: Code, severity: Severity) {
    exists m :: m in met && m.code == code && m.severity == severity
  }

  ghost predicate Names(met: set<Met>, code: Code, id: Id) {
    exists m :: m in met && m.code == code && m.id == Some(id)
  }

  ghost predicate AnyFatal(met: set<Met>) {
    exists m :: m in met && m.severity == Fatal
  }

  lemma MergedGathers(c: Contents, met: set<Met>, m: Met)
    requires Gathers(c, met)
    ensures Gathers(Merged(c, m), met + {m})
  {
    var all, d := met + {m}, Merged(c, m);
    forall code | code in d
      ensures MetAs(all, code, d[code].severity)
    {
      if d[code].severity == m.severity && code == m.code {
        assert m in all;
      } else {
        var w :| w in met && w.code == code && w.severity == c[code].severity;
        assert w in all;
      }
    }
    forall code, id | code in d && id in d[code].ids
      ensures Names(all, code, id)
    {
      if code == m.code && m.id == Some(id) {
        assert m in all;
      } else {
        var w :| w in met && w.code == code && w.id == Some(id);
        assert w in all;
      }
    }
  }

  /** What has been met says what is found: whatever the order, the same codes are found, as grave, of the same ids. */
  lemma OrderDoesNotMatter(c: Contents, d: Contents, met: set<Met>)
    requires Gathers(c, met) && Gathers(d, met)
    ensures c == d
  {
    forall code
      ensures (code in c <==> code in d) && (code in c ==> c[code].severity == d[code].severity)
    {
      if code in c {
        var m :| m in met && m.code == code && m.severity == c[code].severity;
      }
      if code in d {
        var m :| m in met && m.code == code && m.severity == d[code].severity;
      }
    }
    forall code | code in c
      ensures c[code].ids == d[code].ids
    {
      forall id
        ensures id in c[code].ids <==> id in d[code].ids
      {
        if id in c[code].ids {
          var m :| m in met && m.code == code && m.id == Some(id);
        }
        if id in d[code].ids {
          var m :| m in met && m.code == code && m.id == Some(id);
        }
      }
    }
  }

  // the list of findings, each code once

  lemma {:induction false} FoundAt(findings: seq<Finding>, code: Code) returns (k: nat)
    requires code in ContentsOf(findings)
    ensures k < |findings| && findings[k].code == code
  {
    k := |findings| - 1;
    if findings[k].code != code {
      k := FoundAt(findings[..k], code);
    }
  }

  lemma {:induction false} ContentsAt(findings: seq<Finding>, k: nat)
    requires Distinct(findings) && k < |findings|
    ensures findings[k].code in ContentsOf(findings)
    ensures ContentsOf(findings)[findings[k].code] == EntryOf(findings[k])
  {
    if k < |findings| - 1 {
      var some := findings[..|findings| - 1];
      ContentsAt(some, k);
      assert some[k] == findings[k];
    }
  }

  lemma {:induction false} ContentsUpdated(findings: seq<Finding>, k: nat, f: Finding)
    requires Distinct(findings) && k < |findings| && f.code == findings[k].code
    ensures ContentsOf(findings[k := f]) == ContentsOf(findings)[f.code := EntryOf(f)]
  {
    var n := |findings| - 1;
    var some, last := findings[..n], findings[n];
    var next := findings[k := f];
    if k < n {
      ContentsUpdated(some, k, f);
      assert next[..n] == some[k := f];
      assert next[n] == last && last.code != f.code;
      assert ContentsOf(next) == ContentsOf(some)[f.code := EntryOf(f)][last.code := EntryOf(last)];
    } else {
      assert next[..n] == some;
      assert ContentsOf(next) == ContentsOf(some)[f.code := EntryOf(f)];
    }
  }

  lemma ContentsExtended(findings: seq<Finding>, f: Finding)
    ensures ContentsOf(findings + [f]) == ContentsOf(findings)[f.code := EntryOf(f)]
  {
    assert (findings + [f])[..|findings|] == findings;
  }

  /** The first finding of a code taking one more met, or the finding it makes. */
  function Taking(findings: seq<Finding>, k: nat, m: Met): Finding
    requires k <= |findings|
  {
    var f := if k < |findings| then findings[k] else Finding(m.severity, m.code, []);
    Finding(if Gravity(m.severity) < Gravity(f.severity) then m.severity else f.severity, m.code,
            if m.id.Some? && m.id.value !in f.ids then f.ids + [m.id.value] else f.ids)
  }

  lemma TakingMerges(findings: seq<Finding>, k: nat, m: Met)
    requires Distinct(findings) && k <= |findings| && (k < |findings| ==> findings[k].code == m.code)
    requires forall i | 0 <= i < k :: findings[i].code != m.code
    ensures var f := Taking(findings, k, m);
            var next := if k < |findings| then findings[k := f] else findings + [f];
            Distinct(next) && ContentsOf(next) == Merged(ContentsOf(findings), m)
  {
    var f := Taking(findings, k, m);
    if k < |findings| {
      ContentsAt(findings, k);
      ContentsUpdated(findings, k, f);
      assert Ids(f.ids) == if m.id.Some? then Ids(findings[k].ids) + {m.id.value} else Ids(findings[k].ids);
    } else {
      if m.code in ContentsOf(findings) {
        var j := FoundAt(findings, m.code);
        assert false;
      }
      ContentsExtended(findings, f);
      var none: set<Id> := {};
      assert Ids(f.ids) == if m.id.Some? then none + {m.id.value} else none;
      assert EntryOf(f) == Merged(ContentsOf(findings), m)[m.code];
    }
  }

  class Found {
    var findings: seq<Finding>
    ghost var met: set<Met>

    ghost predicate Valid()
      reads this
    {
      Distinct(findings) && Gathers(ContentsOf(findings), met)
    }

    constructor ()
      ensures Valid() && met == {} && findings == []
    {
      findings, met := [], {};
    }

    method Add(severity: Severity, code: Code, id: Option<Id>)
      requires Valid()
      modifies this
      ensures Valid() && met == old(met) + {Met(severity, code, id)}
      ensures ContentsOf(findings) == Merged(ContentsOf(old(findings)), Met(severity, code, id))
    {
      var k := 0;
      while k < |findings| && findings[k].code != code
        invariant 0 <= k <= |findings|
        invariant forall i | 0 <= i < k :: findings[i].code != code
      {
        k := k + 1;
      }
      var m := Met(severity, code, id);
      var f := Taking(findings, k, m);
      TakingMerges(findings, k, m);
      MergedGathers(ContentsOf(findings), met, m);
      findings := if k < |findings| then findings[k := f] else findings + [f];
      met := met + {m};
    }

    /** All of them, in whatever order they come. */
    method AddAll(all: set<Met>)
      requires Valid()
      modifies this
      ensures Valid() && met == old(met) + all
    {
      var rest := all;
      ghost var done: set<Met> := {};
      while rest != {}
        invariant Valid() && done + rest == all && met == old(met) + done
        decreases rest
      {
        var m :| m in rest;
        Add(m.severity, m.code, m.id);
        rest := rest - {m};
        done := done + {m};
      }
    }

    method HoldsFatal() returns (fatal: bool)
      requires Valid()
      ensures fatal <==> AnyFatal(met)
    {
      fatal := exists f :: f in findings && f.severity == Fatal;
      if fatal {
        var k :| 0 <= k < |findings| && findings[k].severity == Fatal;
        ContentsAt(findings, k);
        assert MetAs(met, findings[k].code, Fatal);
      } else if AnyFatal(met) {
        ghost var m :| m in met && m.severity == Fatal;
        ghost var k := FoundAt(findings, m.code);
        ContentsAt(findings, k);
      }
    }
  }
}
