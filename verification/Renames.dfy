/** What a publish's attribute renames carry, and when they lose a value no finding names (scripts/flowpublish.py,
    `impact`). */
module Renames {
  import opened Wrappers
  import opened Reports
  import opened Versions

  type Names = seq<(string, string, string)>

  /** The name an attribute ends at, once every rename of the type's family is done. */
  function EndName(kinds: Kinds, tn: string, renames: Names, a: string): string {
    if renames == [] then a
    else EndName(kinds, tn, renames[1..], if IsA(kinds, tn, renames[0].0) && renames[0].1 == a then renames[0].2 else a)
  }

  /** One rename of an attribute's name. */
  function NextName(kinds: Kinds, tn: string, rename: (string, string, string), a: string): string {
    if IsA(kinds, tn, rename.0) && rename.1 == a then rename.2 else a
  }

  /** Values that end at one name are one value. */
  ghost predicate MeetAlike(kinds: Kinds, tn: string, renames: Names, attrs: map<string, Val>) {
    forall a, b | a in attrs && b in attrs && EndName(kinds, tn, renames, a) == EndName(kinds, tn, renames, b) ::
      attrs[a] == attrs[b]
  }

  ghost predicate EndsHeld(kinds: Kinds, tn: string, renames: Names, attrs: map<string, Val>) {
    forall a | a in attrs ::
      var end := EndName(kinds, tn, renames, a);
      end in RenamedAttributes(kinds, tn, renames, attrs) && RenamedAttributes(kinds, tn, renames, attrs)[end] == attrs[a]
  }

  /** The renames carry every value to the name its attribute ends at if and only if no two that differ end at one. */
  lemma {:induction false} CarriedExactly(kinds: Kinds, tn: string, renames: Names, attrs: map<string, Val>)
    ensures EndsHeld(kinds, tn, renames, attrs) <==> MeetAlike(kinds, tn, renames, attrs)
  {
    if MeetAlike(kinds, tn, renames, attrs) {
      AllCarried(kinds, tn, renames, attrs);
    }
  }

  lemma {:induction false} AllCarried(kinds: Kinds, tn: string, renames: Names, attrs: map<string, Val>)
    requires MeetAlike(kinds, tn, renames, attrs)
    ensures EndsHeld(kinds, tn, renames, attrs)
  {
    if renames != [] {
      var next := if IsA(kinds, tn, renames[0].0) then Moved(attrs, renames[0].1, renames[0].2) else attrs;
      NextCarried(kinds, tn, renames, attrs, next);
      AllCarried(kinds, tn, renames[1..], next);
      assert RenamedAttributes(kinds, tn, renames, attrs) == RenamedAttributes(kinds, tn, renames[1..], next);
      forall a | a in attrs
        ensures var end := EndName(kinds, tn, renames, a);
                end in RenamedAttributes(kinds, tn, renames, attrs) && RenamedAttributes(kinds, tn, renames, attrs)[end] == attrs[a]
      {
        NextHeld(kinds, tn, renames, attrs, next, a);
      }
    }
  }

  lemma NextHeld(kinds: Kinds, tn: string, renames: Names, attrs: map<string, Val>, next: map<string, Val>, a: string)
    requires renames != [] && MeetAlike(kinds, tn, renames, attrs) && a in attrs
    requires next == if IsA(kinds, tn, renames[0].0) then Moved(attrs, renames[0].1, renames[0].2) else attrs
    ensures var c := NextName(kinds, tn, renames[0], a);
            c in next && next[c] == attrs[a] && EndName(kinds, tn, renames, a) == EndName(kinds, tn, renames[1..], c)
  {
    var (base, from, to) := renames[0];
    if IsA(kinds, tn, base) && from in attrs && a == to {
      assert EndName(kinds, tn, renames, a) == EndName(kinds, tn, renames, from);
    }
  }

  lemma NextCarried(kinds: Kinds, tn: string, renames: Names, attrs: map<string, Val>, next: map<string, Val>)
    requires renames != [] && MeetAlike(kinds, tn, renames, attrs)
    requires next == if IsA(kinds, tn, renames[0].0) then Moved(attrs, renames[0].1, renames[0].2) else attrs
    ensures MeetAlike(kinds, tn, renames[1..], next)
  {
    forall c, d | c in next && d in next && EndName(kinds, tn, renames[1..], c) == EndName(kinds, tn, renames[1..], d)
      ensures next[c] == next[d]
    {
      var a := Before(kinds, tn, renames, attrs, next, c);
      var b := Before(kinds, tn, renames, attrs, next, d);
    }
  }

  /** The attribute a name after one rename was. */
  lemma Before(kinds: Kinds, tn: string, renames: Names, attrs: map<string, Val>, next: map<string, Val>, c: string)
    returns (a: string)
    requires renames != [] && c in next
    requires next == if IsA(kinds, tn, renames[0].0) then Moved(attrs, renames[0].1, renames[0].2) else attrs
    ensures a in attrs && attrs[a] == next[c]
    ensures EndName(kinds, tn, renames, a) == EndName(kinds, tn, renames[1..], c)
  {
    a := if IsA(kinds, tn, renames[0].0) && renames[0].1 in attrs && c == renames[0].2 then renames[0].1 else c;
  }

  // ── an object's values ───────────────────────────────────────────────────

  /** Every value an object holds is left under the name its attribute ends at, a renamed member under its new name. */
  ghost predicate KeepsAll(m: Migration, kinds: Kinds, was: Kind, o: Obj) {
    forall a | a in o.attrs ::
      var end := EndName(kinds, o.tn, m.renamedAttributes, a);
      end in Carried(m, kinds, was, o, false).attrs
      && Carried(m, kinds, was, o, false).attrs[end] == RenamedMember(m, o.attrs[a])
  }

  /** No two values it holds that differ end at one name, and none at a name whose old attribute changes its type. */
  ghost predicate NoneMeet(m: Migration, kinds: Kinds, was: Kind, o: Obj) {
    && (forall a, b | a in o.attrs && b in o.attrs
                      && EndName(kinds, o.tn, m.renamedAttributes, a) == EndName(kinds, o.tn, m.renamedAttributes, b) ::
          RenamedMember(m, o.attrs[a]) == RenamedMember(m, o.attrs[b]))
    && (forall a | a in o.attrs ::
          EndName(kinds, o.tn, m.renamedAttributes, a) !in TypeChangedOf(m, was, KindOf(kinds, o.tn)))
  }

  /** An object keeps every value it holds if and only if none is carried onto another. */
  lemma KeepsExactly(m: Migration, kinds: Kinds, was: Kind, o: Obj)
    ensures KeepsAll(m, kinds, was, o) <==> NoneMeet(m, kinds, was, o)
  {
    var named := map a | a in o.attrs :: RenamedMember(m, o.attrs[a]);
    CarriedExactly(kinds, o.tn, m.renamedAttributes, named);
    if NoneMeet(m, kinds, was, o) {
      assert MeetAlike(kinds, o.tn, m.renamedAttributes, named);
    }
  }

  // ── a type's ─────────────────────────────────────────────────────────────

  /** Of the attributes a type declared whose type the version keeps, no two end at one name, and none at a name whose old
      attribute changes its type. */
  predicate EndsApart(m: Migration, kinds: Kinds, was: Kind, tn: string) {
    var changed := TypeChangedOf(m, was, KindOf(kinds, tn));
    forall a | a in was.attributes.Keys - changed ::
      && EndName(kinds, tn, m.renamedAttributes, a) !in changed
      && forall b | b in was.attributes.Keys - changed ::
           EndName(kinds, tn, m.renamedAttributes, a) == EndName(kinds, tn, m.renamedAttributes, b) ==> a == b
  }

  /** An object of a type holding none of its attributes whose type changes, as no finding then names it for what the
      renames carry. */
  predicate HoldsNoneChanged(m: Migration, kinds: Kinds, was: Kind, o: Obj) {
    o.attrs.Keys <= was.attributes.Keys - TypeChangedOf(m, was, KindOf(kinds, o.tn))
  }

  lemma {:induction false} RenamedOne(kinds: Kinds, tn: string, renames: Names, a: string, v: Val)
    ensures RenamedAttributes(kinds, tn, renames, map[a := v]) == map[EndName(kinds, tn, renames, a) := v]
  {
    if renames != [] {
      var (base, from, to) := renames[0];
      if IsA(kinds, tn, base) && from == a {
        assert Moved(map[a := v], from, to) == map[to := v];
        RenamedOne(kinds, tn, renames[1..], to, v);
      } else {
        RenamedOne(kinds, tn, renames[1..], a, v);
      }
    }
  }

  lemma LostWhereMet(m: Migration, kinds: Kinds, was: Kind, tn: string) returns (o: Obj)
    requires !EndsApart(m, kinds, was, tn)
    ensures o.tn == tn && HoldsNoneChanged(m, kinds, was, o) && !KeepsAll(m, kinds, was, o)
  {
    var changed := TypeChangedOf(m, was, KindOf(kinds, tn));
    var a :| a in was.attributes.Keys - changed
             && (EndName(kinds, tn, m.renamedAttributes, a) in changed
                 || exists b | b in was.attributes.Keys - changed ::
                      a != b && EndName(kinds, tn, m.renamedAttributes, a) == EndName(kinds, tn, m.renamedAttributes, b));
    if EndName(kinds, tn, m.renamedAttributes, a) in changed {
      o := Obj(tn, "", map[a := Other("")], {}, false, 0);
    } else {
      var b :| b in was.attributes.Keys - changed && a != b
               && EndName(kinds, tn, m.renamedAttributes, a) == EndName(kinds, tn, m.renamedAttributes, b);
      o := Obj(tn, "", map[a := Other("a"), b := Other("b")], {}, false, 0);
      assert RenamedMember(m, o.attrs[a]) != RenamedMember(m, o.attrs[b]);
    }
    KeepsExactly(m, kinds, was, o);
  }

  /** Renames lose no value unnamed exactly where no two of a type's kept attributes end at one name, nor one at a name whose
      old attribute changes its type. */
  lemma RenamesLoseNothing(m: Migration, kinds: Kinds, was: Kind, tn: string)
    ensures EndsApart(m, kinds, was, tn) <==>
              forall o: Obj | o.tn == tn && HoldsNoneChanged(m, kinds, was, o) :: KeepsAll(m, kinds, was, o)
  {
    if EndsApart(m, kinds, was, tn) {
      forall o: Obj | o.tn == tn && HoldsNoneChanged(m, kinds, was, o) ensures KeepsAll(m, kinds, was, o) {
        KeepsExactly(m, kinds, was, o);
      }
    } else {
      var o := LostWhereMet(m, kinds, was, tn);
    }
  }

  /** A value lost: `note`, text, renamed to `mark`, whose old attribute of that name was an int. The object held no `mark`,
      so no finding names it, and it is left with neither. */
  lemma RenameOntoChangedLosesValue()
    ensures var int_ := Attribute("int", false, false, None, false, true, false, false, false);
            var text := int_.(holds := "text");
            var was := Kind(None, false, false, false, false, map["mark" := int_, "note" := text], {}, map[], map[]);
            var now := was.(attributes := map["mark" := text]);
            var m := Migration(map[], [("Job", "note", "mark")], [], [], [], {}, [], [], []);
            var o := Obj("Job", "OPEN", map["note" := Other("kept")], {}, false, 1);
            HoldsNoneChanged(m, map["Job" := now], was, o) && Carried(m, map["Job" := now], was, o, false).attrs == map[]
  {
    var int_ := Attribute("int", false, false, None, false, true, false, false, false);
    var text := int_.(holds := "text");
    var was := Kind(None, false, false, false, false, map["mark" := int_, "note" := text], {}, map[], map[]);
    var now := was.(attributes := map["mark" := text]);
    var m := Migration(map[], [("Job", "note", "mark")], [], [], [], {}, [], [], []);
    var o := Obj("Job", "OPEN", map["note" := Other("kept")], {}, false, 1);
    var kinds := map["Job" := now];
    Changed(m, was, now, int_, text);
    assert IsA(kinds, "Job", "Job");
    assert EndName(kinds, "Job", m.renamedAttributes, "note") == EndName(kinds, "Job", [], "mark") by {
      assert m.renamedAttributes[1..] == [];
    }
    assert (map a | a in o.attrs :: RenamedMember(m, o.attrs[a])) == map["note" := Other("kept")];
    RenamedOne(kinds, "Job", m.renamedAttributes, "note", Other("kept"));
  }

  lemma Changed(m: Migration, was: Kind, now: Kind, int_: Attribute, text: Attribute)
    requires was.attributes == map["mark" := int_, "note" := text] && now.attributes == map["mark" := text]
    requires int_.holds == "int" && text.holds == "text" && !int_.reference && m.renamedEnums == map[]
    ensures TypeChangedOf(m, was, now) == {"mark"}
  {
    assert "mark" in was.attributes && "mark" in now.attributes;
    assert !SameDeclared(was.attributes["mark"], now.attributes["mark"]);
    assert !Carries(m, was.attributes["mark"], now.attributes["mark"]);
  }

  /** Another: `note` renamed to `mark`, both text and both held, the version keeping `mark` alone. Nothing changes its type,
      and the object is left with one value, of the two it held. */
  lemma RenameOntoHeldLosesValue()
    ensures var text := Attribute("text", false, false, None, false, true, false, false, false);
            var was := Kind(None, false, false, false, false, map["mark" := text, "note" := text], {}, map[], map[]);
            var now := was.(attributes := map["mark" := text]);
            var m := Migration(map[], [("Job", "note", "mark")], [], [], [], {}, [], [], []);
            var o := Obj("Job", "OPEN", map["note" := Other("of note"), "mark" := Other("of mark")], {}, false, 1);
            && TypeChangedOf(m, was, now) == {} && HoldsNoneChanged(m, map["Job" := now], was, o)
            && !KeepsAll(m, map["Job" := now], was, o)
            && Carried(m, map["Job" := now], was, o, false).attrs == map["mark" := Other("of note")]
  {
    var text := Attribute("text", false, false, None, false, true, false, false, false);
    var was := Kind(None, false, false, false, false, map["mark" := text, "note" := text], {}, map[], map[]);
    var now := was.(attributes := map["mark" := text]);
    var m := Migration(map[], [("Job", "note", "mark")], [], [], [], {}, [], [], []);
    var o := Obj("Job", "OPEN", map["note" := Other("of note"), "mark" := Other("of mark")], {}, false, 1);
    var kinds := map["Job" := now];
    assert IsA(kinds, "Job", "Job") && m.renamedAttributes[1..] == [];
    assert TypeChangedOf(m, was, now) == {};
    var named := map a | a in o.attrs :: RenamedMember(m, o.attrs[a]);
    assert named == o.attrs;
    assert Moved(named, "note", "mark") == map["mark" := Other("of note")];
    assert RenamedAttributes(kinds, "Job", [], Moved(named, "note", "mark")) == map["mark" := Other("of note")];
    assert EndName(kinds, "Job", m.renamedAttributes, "mark") == EndName(kinds, "Job", [], "mark");
  }
}
