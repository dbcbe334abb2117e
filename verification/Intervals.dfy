/** The record of an object's states and tracked members, and the time it spends in each (scripts/check-scenarios.py, `Obj`,
    `Store.apply`, `Store.publish`, `time_in`, `duration`). */
module Intervals {
  import opened Wrappers

  /** A value held from when it was entered to when it was left, by a kind of actor; the current one not yet left. */
  datatype Interval = Interval(value: string, entered: int, left: Option<int>, kind: string)

  type Record = seq<Interval>

  /** Each interval closes where the next opens, the first opens at a time, and only the last is open. */
  ghost predicate Tiles(r: Record, from: int) {
    && r != [] && r[0].entered == from && r[|r| - 1].left == None
    && forall i | 0 <= i < |r| - 1 :: r[i].left == Some(r[i + 1].entered)
  }

  /** No interval's value is the next one's. */
  ghost predicate Differ(r: Record) {
    forall i | 0 <= i < |r| - 1 :: r[i].value != r[i + 1].value
  }

  /** Entered one after another. */
  ghost predicate Ascending(r: Record) {
    forall i, j | 0 <= i < j < |r| :: r[i].entered <= r[j].entered
  }

  /** No span closed before it opened. */
  ghost predicate NoneNegative(r: Record) {
    forall i | 0 <= i < |r| && r[i].left.Some? :: r[i].entered <= r[i].left.value
  }

  /** A record with its last interval closed where another opens. */
  function Followed(r: Record, value: string, at: int, kind: string): Record {
    if r == [] then [Interval(value, at, None, kind)]
    else r[|r| - 1 := r[|r| - 1].(left := Some(at))] + [Interval(value, at, None, kind)]
  }

  lemma FollowedTiles(r: Record, from: int, value: string, at: int, kind: string)
    requires if r == [] then at == from else Tiles(r, from)
    ensures Tiles(Followed(r, value, at, kind), from)
    ensures Followed(r, value, at, kind)[|r|].value == value
    ensures Differ(r) && (r != [] ==> r[|r| - 1].value != value) ==> Differ(Followed(r, value, at, kind))
    ensures Ascending(r) && (r != [] ==> r[|r| - 1].entered <= at) ==> Ascending(Followed(r, value, at, kind))
  {
    var next := Followed(r, value, at, kind);
    if r != [] {
      assert forall i | 0 <= i < |r| :: next[i].value == r[i].value && next[i].entered == r[i].entered;
      assert forall i | 0 <= i < |r| - 1 :: next[i] == r[i];
      assert next[|r| - 1].left == Some(at) && next[|r|].entered == at;
    }
  }

  /** A write leaves no span negative if and only if it does not precede the current span's entry. */
  lemma FollowedExactly(r: Record, from: int, value: string, at: int, kind: string)
    requires Tiles(r, from)
    ensures NoneNegative(Followed(r, value, at, kind)) <==> NoneNegative(r) && r[|r| - 1].entered <= at
  {
    var n, next := |r| - 1, Followed(r, value, at, kind);
    assert next[n] == r[n].(left := Some(at)) && next[|r|].left.None?;
    assert forall i | 0 <= i < n :: next[i] == r[i];
    if NoneNegative(next) {
      forall i | 0 <= i < |r| && r[i].left.Some? ensures r[i].entered <= r[i].left.value {
        assert next[i] == r[i];
      }
    }
  }

  // tracked members

  type Members = map<string, Record>

  ghost predicate AllTile(members: Members) {
    forall m | m in members :: members[m] != [] && Tiles(members[m], members[m][0].entered) && Differ(members[m])
  }

  ghost predicate AllNonNegative(members: Members) {
    forall m | m in members :: NoneNegative(members[m])
  }

  /** A member's record once it is given a value: as it was where it holds it. */
  function Given(members: Members, write: (string, string), at: int, kind: string): Members {
    var r := if write.0 in members then members[write.0] else [];
    if r != [] && r[|r| - 1].value == write.1 then members else members[write.0 := Followed(r, write.1, at, kind)]
  }

  function GivenAll(members: Members, tracked: seq<(string, string)>, at: int, kind: string): Members {
    if tracked == [] then members
    else Given(GivenAll(members, tracked[..|tracked| - 1], at, kind), tracked[|tracked| - 1], at, kind)
  }

  lemma GivenTiles(members: Members, write: (string, string), at: int, kind: string)
    requires AllTile(members)
    ensures AllTile(Given(members, write, at, kind)) && write.0 in Given(members, write, at, kind)
  {
    var r := if write.0 in members then members[write.0] else [];
    FollowedTiles(r, if r == [] then at else r[0].entered, write.1, at, kind);
  }

  lemma {:induction false} AllGivenTile(members: Members, tracked: seq<(string, string)>, at: int, kind: string)
    requires AllTile(members)
    ensures AllTile(GivenAll(members, tracked, at, kind))
  {
    if tracked != [] {
      AllGivenTile(members, tracked[..|tracked| - 1], at, kind);
      GivenTiles(GivenAll(members, tracked[..|tracked| - 1], at, kind), tracked[|tracked| - 1], at, kind);
    }
  }

  /** A write of another value than the one held, that occurred before that was entered. */
  predicate Backdates(members: Members, write: (string, string), at: int) {
    write.0 in members && members[write.0] != []
    && var last := members[write.0][|members[write.0]| - 1]; last.value != write.1 && at < last.entered
  }

  /** A member none of whose writes is of another value than it holds. */
  predicate Untouched(members: Members, tracked: seq<(string, string)>, m: string) {
    m in members && members[m] != []
    && forall k | 0 <= k < |tracked| && tracked[k].0 == m :: tracked[k].1 == members[m][|members[m]| - 1].value
  }

  /** One write leaves every other member's record, and its own as it was, the value held, or in a span entered then. */
  lemma GivenAt(members: Members, write: (string, string), at: int, kind: string, m: string)
    requires AllTile(members)
    ensures var after := Given(members, write, at, kind);
            && (m != write.0 || (m in members && members[m][|members[m]| - 1].value == write.1) ==>
                  (m in after <==> m in members) && (m in members ==> after[m] == members[m]))
            && (m == write.0 && !(m in members && members[m][|members[m]| - 1].value == write.1) ==>
                  m in after && after[m] != [] && after[m][|after[m]| - 1].entered == at)
  {
  }

  /** Where a member stands after its writes: as it was, or in a span entered then. */
  ghost predicate Stands(members: Members, tracked: seq<(string, string)>, after: Members, at: int, m: string) {
    if Untouched(members, tracked, m) then m in after && after[m] == members[m]
    else m in after ==> after[m] != [] && after[m][|after[m]| - 1].entered == at
  }

  lemma {:induction false} GivenStands(members: Members, tracked: seq<(string, string)>, at: int, kind: string, m: string)
    requires AllTile(members)
    ensures Stands(members, tracked, GivenAll(members, tracked, at, kind), at, m)
  {
    if tracked != [] {
      var n := |tracked| - 1;
      GivenStands(members, tracked[..n], at, kind, m);
      AllGivenTile(members, tracked[..n], at, kind);
      StandsFurther(members, tracked, GivenAll(members, tracked[..n], at, kind), at, kind, m);
    }
  }

  lemma StandsFurther(members: Members, tracked: seq<(string, string)>, before: Members, at: int, kind: string, m: string)
    requires tracked != [] && AllTile(members) && AllTile(before)
    requires Stands(members, tracked[..|tracked| - 1], before, at, m)
    ensures Stands(members, tracked, Given(before, tracked[|tracked| - 1], at, kind), at, m)
  {
    var last := tracked[|tracked| - 1];
    GivenAt(before, last, at, kind, m);
    UntouchedMore(members, tracked, |tracked| - 1, m);
  }

  lemma UntouchedMore(members: Members, tracked: seq<(string, string)>, n: nat, m: string)
    requires |tracked| == n + 1
    ensures Untouched(members, tracked, m) <==>
              Untouched(members, tracked[..n], m)
              && (tracked[n].0 == m ==> tracked[n].1 == members[m][|members[m]| - 1].value)
  {
    assert forall k | 0 <= k < n :: tracked[..n][k] == tracked[k];
  }

  /** The writes of one event leave no span of a member negative if and only if none of them precedes the entry of the value
      it replaces. */
  lemma {:induction false} GivenExactly(members: Members, tracked: seq<(string, string)>, at: int, kind: string)
    requires AllTile(members) && AllNonNegative(members)
    ensures AllNonNegative(GivenAll(members, tracked, at, kind)) <==>
              forall k | 0 <= k < |tracked| :: !Backdates(members, tracked[k], at)
  {
    if tracked != [] {
      var n := |tracked| - 1;
      var before := GivenAll(members, tracked[..n], at, kind);
      GivenExactly(members, tracked[..n], at, kind);
      AllGivenTile(members, tracked[..n], at, kind);
      GivenStands(members, tracked[..n], at, kind, tracked[n].0);
      assert forall k | 0 <= k < n :: tracked[..n][k] == tracked[k];
      OneGivenExactly(before, tracked[n], at, kind);
      LastBackdates(members, tracked, at, kind, n);
    }
  }

  lemma OneGivenExactly(members: Members, write: (string, string), at: int, kind: string)
    requires AllTile(members)
    ensures AllNonNegative(Given(members, write, at, kind)) <==> AllNonNegative(members) && !Backdates(members, write, at)
  {
    var after := Given(members, write, at, kind);
    var m := write.0;
    if m in members {
      FollowedExactly(members[m], members[m][0].entered, write.1, at, kind);
    }
    if after != members {
      assert after == members[m := after[m]];
      assert NoneNegative(after[m]) <==> (m in members ==> NoneNegative(members[m]) && members[m][|members[m]| - 1].entered <= at);
      if AllNonNegative(after) {
        forall k | k in members ensures NoneNegative(members[k]) {
          assert k != m ==> after[k] == members[k];
        }
      }
    }
  }

  /** Among writes none of which precedes what it replaces, the last does exactly where it precedes what was there first. */
  lemma LastBackdates(members: Members, tracked: seq<(string, string)>, at: int, kind: string, n: nat)
    requires AllTile(members) && n < |tracked|
    ensures (forall k | 0 <= k < n :: !Backdates(members, tracked[k], at)) ==>
              (Backdates(GivenAll(members, tracked[..n], at, kind), tracked[n], at) <==> Backdates(members, tracked[n], at))
  {
    var m, before := tracked[n].0, GivenAll(members, tracked[..n], at, kind);
    GivenStands(members, tracked[..n], at, kind, m);
    if m in members && !Untouched(members, tracked[..n], m) {
      var k :| 0 <= k < n && tracked[..n][k].0 == m && tracked[..n][k].1 != members[m][|members[m]| - 1].value;
      assert tracked[..n][k] == tracked[k];
      GivenKeeps(members, tracked[..n], at, kind, m);
    }
  }

  lemma {:induction false} GivenKeeps(members: Members, tracked: seq<(string, string)>, at: int, kind: string, m: string)
    requires m in members
    ensures m in GivenAll(members, tracked, at, kind)
  {
    if tracked != [] {
      GivenKeeps(members, tracked[..|tracked| - 1], at, kind, m);
    }
  }

  /** Each member written holds the last value it was given. */
  ghost predicate AllHeld(tracked: seq<(string, string)>, members: Members) {
    forall k | 0 <= k < |tracked| && (forall j | k < j < |tracked| :: tracked[j].0 != tracked[k].0) ::
      tracked[k].0 in members && Holds(members[tracked[k].0], tracked[k].1)
  }

  /** A member holds the last value it was given. */
  lemma {:induction false} GivenLast(members: Members, tracked: seq<(string, string)>, at: int, kind: string, k: nat)
    requires AllTile(members) && k < |tracked| && forall j | k < j < |tracked| :: tracked[j].0 != tracked[k].0
    ensures var after, m := GivenAll(members, tracked, at, kind), tracked[k].0;
            m in after && Holds(after[m], tracked[k].1)
  {
    var n := |tracked| - 1;
    var before := GivenAll(members, tracked[..n], at, kind);
    AllGivenTile(members, tracked[..n], at, kind);
    if k < n {
      GivenLast(members, tracked[..n], at, kind, k);
      assert tracked[n].0 != tracked[k].0;
      GivenAt(before, tracked[n], at, kind, tracked[k].0);
    } else {
      GivenHeld(before, tracked[n], at, kind);
    }
  }

  ghost predicate Holds(r: Record, value: string) {
    r != [] && r[|r| - 1].value == value
  }

  lemma GivenHeld(members: Members, write: (string, string), at: int, kind: string)
    ensures write.0 in Given(members, write, at, kind) && Holds(Given(members, write, at, kind)[write.0], write.1)
  {
  }

  lemma GivenAllHeld(members: Members, tracked: seq<(string, string)>, at: int, kind: string)
    requires AllTile(members)
    ensures AllHeld(tracked, GivenAll(members, tracked, at, kind))
  {
    forall k | 0 <= k < |tracked| && (forall j | k < j < |tracked| :: tracked[j].0 != tracked[k].0)
      ensures tracked[k].0 in GivenAll(members, tracked, at, kind)
      ensures Holds(GivenAll(members, tracked, at, kind)[tracked[k].0], tracked[k].1)
    {
      GivenLast(members, tracked, at, kind, k);
    }
  }

  class Obj {
    const createdAt: int
    var state: string
    var intervals: Record
    var members: map<string, Record>

    /** Its states' intervals tile its life, the current one its state; and each member's tile theirs, none followed by one
        of the same value. */
    ghost predicate Valid()
      reads this
    {
      && Tiles(intervals, createdAt) && intervals[|intervals| - 1].value == state
      && AllTile(members)
    }

    constructor (state: string, at: int, kind: string)
      ensures Valid() && this.state == state && createdAt == at
      ensures intervals == [Interval(state, at, None, kind)] && members == map[] && Ascending(intervals)
    {
      this.state, createdAt, members := state, at, map[];
      intervals := [Interval(state, at, None, kind)];
    }

    method OpenInterval(state: string, at: int, kind: string)
      requires Tiles(intervals, createdAt)
      modifies this`intervals
      ensures intervals == Followed(old(intervals), state, at, kind)
      ensures Tiles(intervals, createdAt) && intervals[|intervals| - 1].value == state
      ensures NoneNegative(intervals) <==>
                NoneNegative(old(intervals)) && old(intervals)[|old(intervals)| - 1].entered <= at
    {
      FollowedTiles(intervals, createdAt, state, at, kind);
      FollowedExactly(intervals, createdAt, state, at, kind);
      if intervals != [] {
        intervals := intervals[|intervals| - 1 := intervals[|intervals| - 1].(left := Some(at))];
      }
      intervals := intervals + [Interval(state, at, None, kind)];
    }

    /** A tracked member takes a value: its current interval ends and a new one opens, unless it holds it already. */
    method Hold(member: string, value: string, at: int, kind: string)
      requires Valid()
      modifies this`members
      ensures Valid() && members == Given(old(members), (member, value), at, kind)
      ensures member in members && Holds(members[member], value)
    {
      GivenTiles(members, (member, value), at, kind);
      GivenHeld(members, (member, value), at, kind);
      var spans: Record := if member in members then members[member] else [];
      assert spans != [] ==> spans[|spans| - 1].left.None?;
      if spans != [] && spans[|spans| - 1].left.None? {
        if spans[|spans| - 1].value == value {
          return;
        }
        spans := spans[|spans| - 1 := spans[|spans| - 1].(left := Some(at))];
      }
      spans := spans + [Interval(value, at, None, kind)];
      assert spans == Followed(if member in members then members[member] else [], value, at, kind);
      members := members[member := spans];
    }

    /** A transition taken: its state entered where it enters one, and each tracked member holding what it now holds. */
    method Apply(target: Option<string>, tracked: seq<(string, string)>, at: int, kind: string)
      requires Valid()
      modifies this
      ensures Valid()
      ensures target.None? ==> state == old(state) && intervals == old(intervals)
      ensures target.Some? ==> state == target.value && intervals == Followed(old(intervals), target.value, at, kind)
      ensures members == GivenAll(old(members), tracked, at, kind) && AllHeld(tracked, members)
      ensures NoneNegative(old(intervals)) && AllNonNegative(old(members)) ==>
                (NoneNegative(intervals) && AllNonNegative(members) <==>
                   && (target.Some? ==> old(intervals)[|old(intervals)| - 1].entered <= at)
                   && forall k | 0 <= k < |tracked| :: !Backdates(old(members), tracked[k], at))
    {
      ghost var was := members;
      if target.Some? {
        state := target.value;
        OpenInterval(state, at, kind);
      }
      HoldAll(tracked, at, kind);
      if AllNonNegative(was) {
        GivenExactly(was, tracked, at, kind);
      }
    }

    method HoldAll(tracked: seq<(string, string)>, at: int, kind: string)
      requires Valid()
      modifies this`members
      ensures Valid() && AllHeld(tracked, members) && members == GivenAll(old(members), tracked, at, kind)
    {
      for k := 0 to |tracked|
        invariant Valid() && members == GivenAll(old(members), tracked[..k], at, kind)
      {
        Hold(tracked[k].0, tracked[k].1, at, kind);
        assert tracked[..k + 1][..k] == tracked[..k];
      }
      assert tracked[..|tracked|] == tracked;
      GivenAllHeld(old(members), tracked, at, kind);
    }

    /** A publish's migration of a removed state. */
    method Migrate(mapping: map<string, string>, at: int, kind: string)
      requires Valid()
      modifies this`state, this`intervals
      ensures Valid()
      ensures old(state) !in mapping ==> state == old(state) && intervals == old(intervals)
      ensures old(state) in mapping ==>
                state == mapping[old(state)] && intervals == Followed(old(intervals), mapping[old(state)], at, kind)
    {
      if state in mapping {
        state := mapping[state];
        OpenInterval(state, at, kind);
      }
    }
  }

  // the reads

  /** A span's exit less its entry, a current one to now. */
  function Length(iv: Interval, now: int): int {
    (if iv.left.Some? then iv.left.value else now) - iv.entered
  }

  /** The total of a record's spans of a value. */
  function TimeIn(r: Record, value: string, now: int): int {
    if r == [] then 0
    else (if r[0].value == value then Length(r[0], now) else 0) + TimeIn(r[1..], value, now)
  }

  function TimeInEach(r: Record, values: seq<string>, now: int): int {
    if values == [] then 0 else TimeIn(r, values[0], now) + TimeInEach(r, values[1..], now)
  }

  /** What one interval adds to the totals of some values, each named once: its length, where one of them is its own. */
  lemma {:induction false} OneInterval(r: Record, values: seq<string>, now: int)
    requires r != [] && forall i, j | 0 <= i < j < |values| :: values[i] != values[j]
    ensures TimeInEach(r, values, now) ==
            TimeInEach(r[1..], values, now) + if r[0].value in values then Length(r[0], now) else 0
  {
    if values != [] {
      OneInterval(r, values[1..], now);
    }
  }

  /** Time is conserved: the time a tiling spends in each value comes to the whole, from when it began to now. */
  lemma {:induction false} TimeConserved(r: Record, from: int, values: seq<string>, now: int)
    requires Tiles(r, from) && (forall i, j | 0 <= i < j < |values| :: values[i] != values[j])
    requires forall i | 0 <= i < |r| :: r[i].value in values
    ensures TimeInEach(r, values, now) == now - from
  {
    OneInterval(r, values, now);
    if |r| == 1 {
      NoTime(values, now);
      assert r[1..] == [];
    } else {
      TimeConserved(r[1..], r[1].entered, values, now);
    }
  }

  lemma {:induction false} NoTime(values: seq<string>, now: int)
    ensures TimeInEach([], values, now) == 0
  {
    if values != [] {
      NoTime(values[1..], now);
    }
  }

  /** When a value was last entered: the latest entry of any of its spans. */
  function EnteredAt(r: Record, value: string): Option<int> {
    if r == [] then None
    else
      var rest := EnteredAt(r[..|r| - 1], value);
      var last := r[|r| - 1];
      if last.value == value && (rest.None? || rest.value <= last.entered) then Some(last.entered) else rest
  }

  /** The latest entry: an entry of the value, and none later. */
  lemma {:induction false} EnteredAtIsLatest(r: Record, value: string)
    ensures EnteredAt(r, value).None? <==> forall i | 0 <= i < |r| :: r[i].value != value
    ensures EnteredAt(r, value).Some? ==>
              && (exists i :: 0 <= i < |r| && r[i].value == value && r[i].entered == EnteredAt(r, value).value)
              && (forall i | 0 <= i < |r| && r[i].value == value :: r[i].entered <= EnteredAt(r, value).value)
  {
    if r != [] {
      var n := |r| - 1;
      EnteredAtIsLatest(r[..n], value);
      if EnteredAt(r, value).Some? {
        if EnteredAt(r, value) == EnteredAt(r[..n], value) && EnteredAt(r[..n], value).Some? {
          var i :| 0 <= i < n && r[..n][i].value == value && r[..n][i].entered == EnteredAt(r, value).value;
          assert r[i].value == value && r[i].entered == EnteredAt(r, value).value;
        } else {
          assert r[n].value == value && r[n].entered == EnteredAt(r, value).value;
        }
      }
    }
  }

  /** Of a record entered in order, the present value's entry is its last interval's. */
  lemma PresentEntry(r: Record, from: int)
    requires Tiles(r, from) && Ascending(r)
    ensures EnteredAt(r, r[|r| - 1].value) == Some(r[|r| - 1].entered)
  {
    var n := |r| - 1;
    EnteredAtIsLatest(r[..n], r[n].value);
  }

  /** A tracked member written by an event that occurred before its current span was entered: given one value at ten, and
      another by an event of five, the object spends less than no time in the first. */
  method BackdatedIsNegative() returns (o: Obj, now: int)
    ensures fresh(o) && o.Valid() && "owner" in o.members && o.members["owner"] != []
    ensures Length(o.members["owner"][0], now) < 0 && !AllNonNegative(o.members)
  {
    o := new Obj("OPEN", 0, "human");
    o.Apply(None, [("owner", "ann")], 10, "human");
    ghost var first := o.members;
    assert [("owner", "ann")][..0] == [];
    assert first == GivenAll(map[], [("owner", "ann")], 10, "human") == Given(map[], ("owner", "ann"), 10, "human");
    assert first["owner"] == [Interval("ann", 10, None, "human")];
    o.Apply(None, [("owner", "bob")], 5, "human");
    assert [("owner", "bob")][..0] == [];
    assert o.members == GivenAll(first, [("owner", "bob")], 5, "human") == Given(first, ("owner", "bob"), 5, "human");
    assert o.members["owner"][0] == Interval("ann", 10, Some(5), "human");
    now := 20;
  }

  /** Of a record that tiles, no span is negative exactly where it is entered in order: then its lengths, which come to the
      whole, are each a time. */
  lemma NoneNegativeIsAscending(r: Record, from: int)
    requires Tiles(r, from)
    ensures NoneNegative(r) <==> Ascending(r)
  {
    if Ascending(r) {
      forall i | 0 <= i < |r| && r[i].left.Some? ensures r[i].entered <= r[i].left.value {
        assert i < |r| - 1 && r[i].left == Some(r[i + 1].entered);
      }
    }
    if NoneNegative(r) {
      forall i, j | 0 <= i < j < |r| ensures r[i].entered <= r[j].entered {
        EnteredInOrder(r, from, i, j);
      }
    }
  }

  lemma {:induction false} EnteredInOrder(r: Record, from: int, i: nat, j: nat)
    requires Tiles(r, from) && NoneNegative(r) && i <= j < |r|
    ensures r[i].entered <= r[j].entered
  {
    if i < j {
      EnteredInOrder(r, from, i, j - 1);
      assert r[j - 1].left == Some(r[j].entered);
    }
  }
}
