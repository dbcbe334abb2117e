/** What a transition does to the object it is taken on, step by step, and how the analysis reads what it writes: of which
    attributes it reads the value they are left, and when the reading ends (scripts/flowlogic.py, `Analysis.resolve`;
    scripts/flowrun.py, `taken` and `effects`). */
module Writing {
  import opened Wrappers
  import opened Syntax
  import opened TypeModel
  import opened Bounds
  import opened Atoms
  import opened CaseProducts
  import opened Conditions
  import opened Expansion
  import opened Exactness
  import opened Objects
  import opened Declarations
  import opened Observed

  // ── what a transition does ───────────────────────────────────────────────

  /** The analysis after a transition's writes. */
  function After(t: TypeDecl, x: Transition): Analysis {
    Analysis(ModelFor(t, x), WrittenBy(x), StateAfter(x))
  }

  /** The attributes a transition takes as inputs. */
  function Taken(x: Transition): set<string> {
    set i | i in x.required + x.optionals
  }

  /** One object and another that differs from it by no more than some of its attributes, and its state where it moved. */
  ghost predicate KeptBut(names: set<string>, moved: bool, w: World, w': World) {
    && (forall n | n !in names :: Lookup(w'.vars, AttrVar(n)) == Lookup(w.vars, AttrVar(n)))
    && (forall i :: Lookup(w'.vars, InputVar(i)) == Lookup(w.vars, InputVar(i)))
    && Lookup(w'.vars, NowVar) == Lookup(w.vars, NowVar)
    && (!moved ==> StateKept(w, w'))
  }

  ghost predicate StateKept(w: World, w': World) {
    Lookup(w'.vars, StateVar) == Lookup(w.vars, StateVar) && forall s :: Lookup(w'.vars, EnteredVar(s)) == Lookup(w.vars, EnteredVar(s))
  }

  /** The inputs a request gives, those it must among them; an input given may be null, which clears. */
  ghost predicate Gives(m: Model, given: set<string>, w: World) {
    MayGive(m, given) && forall i | i in m.inputs && i !in given :: Lookup(w.vars, InputVar(i)).None?
  }

  predicate MayGive(m: Model, given: set<string>) {
    m.present <= given <= m.inputs.Keys
  }

  /** What a creation gives an attribute it does not take: a counter is nought, a set is empty, and a default, or what is
      minted or stamped, is its own. */
  predicate IsFilled(m: Model, n: string)
    requires n in m.attrs
  {
    m.attrs[n].many || m.attrs[n].default_
  }

  /** An object as its effect finds it: in the state entered, each input given written to its attribute, the others as they
      were, or as a creation leaves them. */
  ghost predicate Starts(t: TypeDecl, x: Transition, given: set<string>, w: World, w': World) {
    var m := ModelFor(t, x);
    && KeptBut(m.attrs.Keys, StateAfter(x).Some?, w, w')
    && (StateAfter(x).Some? ==> Lookup(w'.vars, StateVar) == Some(VName(StateAfter(x).value)))
    && forall n | n in m.attrs :: StartsAs(m, x, given, w, n, Lookup(w'.vars, AttrVar(n)))
  }

  ghost predicate StartsAs(m: Model, x: Transition, given: set<string>, w: World, n: string, value: Option<Value>)
    requires n in m.attrs
  {
    if n in given && n in Taken(x) then value == Lookup(w.vars, InputVar(n))
    else if !m.created then value == Lookup(w.vars, AttrVar(n))
    else if IsCounter(m, n) then value == Some(VNum(0.0))
    else IsFilled(m, n) || value.None?
  }

  /** How an effect's trees are read: of the object there then is, each attribute as it stands. */
  function Here(a: Analysis): Analysis {
    Analysis(a.m.(created := false), map[], a.fixedState)
  }

  /** A tree that is a value's node, not one worked out of others. */
  predicate IsFollowed(a: Analysis, tree: Expr) {
    Resolve(Here(a), tree) != NotModelled
  }

  /** A tree that is exactly an input the request does not give: its write is skipped. */
  predicate IsSkipped(m: Model, given: set<string>, tree: Expr) {
    tree.Path? && tree.base == Name("inputs") && tree.member in m.inputs && tree.member !in given
  }

  /** A step of an effect: an assignment gives the value its tree has of the object as the steps before it left it, or any
      where the tree is worked out of others; a clear leaves nothing; and any other may change the names it is known by. */
  ghost predicate Stepped(a: Analysis, given: set<string>, s: Step, w: World, w': World) {
    match s
    case Assign(n, tree) =>
      && KeptBut({n}, false, w, w')
      && (if IsSkipped(a.m, given, tree) then Lookup(w'.vars, AttrVar(n)) == Lookup(w.vars, AttrVar(n))
          else IsFollowed(a, tree) ==> Lookup(w'.vars, AttrVar(n)) == ValueOf(Here(a).m, w, tree))
    case Clear(names) =>
      KeptBut(NameSet(names), false, w, w') && forall n | n in names :: Lookup(w'.vars, AttrVar(n)).None?
    case OtherStep(changes, _) => KeptBut(changes, "state" in changes, w, w')
  }

  function NameSet(names: seq<string>): set<string> {
    set n | n in names
  }

  /** An object a transition is taken on, as each step of its effect leaves it. */
  ghost predicate IsRun(t: TypeDecl, x: Transition, given: set<string>, w: World, run: seq<World>) {
    && |run| == |x.effect| + 1 && Gives(ModelFor(t, x), given, w) && Starts(t, x, given, w, run[0])
    && forall k | 0 <= k < |x.effect| :: Stepped(After(t, x), given, x.effect[k], run[k], run[k + 1])
  }

  /** What the analysis reads of an object a transition is taken on. */
  ghost function ReadFor(t: TypeDecl, x: Transition, w: World): World {
    if x.kind == Initial && x.to.Some? then AsRead(ModelFor(t, x), x.to.value, w) else w
  }

  /** A creation is of no object: there is nothing there but what it takes. */
  ghost predicate Blank(t: TypeDecl, x: Transition, w: World) {
    x.kind == Initial ==>
      && Lookup(w.vars, StateVar).None? && (forall s :: Lookup(w.vars, EnteredVar(s)).None?)
      && (forall n | n in t.attrs :: Lookup(w.vars, AttrVar(n)) == if n in Taken(x) then Lookup(w.vars, InputVar(n)) else None)
  }

  /** The states a transition enters are declared, and a creation enters one. */
  predicate EntersDeclared(t: TypeDecl, x: Transition) {
    && (StateAfter(x).Some? ==> StateAfter(x).value in t.states)
    && (x.kind == Initial ==> x.to.Some?)
  }

  // ── what it leaves, by its declaration ───────────────────────────────────

  /** What an attribute holds: what a variable held before, or one value or none, or anything. */
  datatype Held = Was(x: Var) | Is(value: Option<Value>) | Anything

  /** What each attribute holds, and whether the state may be another. */
  datatype Image = Image(attrs: map<string, Held>, moved: bool)

  /** What a creation leaves in an attribute it is given nothing for. */
  function FilledWith(m: Model, n: string): Held
    requires n in m.attrs
  {
    if IsCounter(m, n) then Is(Some(VNum(0.0))) else if IsFilled(m, n) then Anything else Is(None)
  }

  /** What the analysis takes an attribute to hold, of what a request gives. */
  function HeldOf(m: Model, given: set<string>, r: Resolved): Held {
    match r
    case Variable(InputVar(i)) => if i in given then Was(InputVar(i)) else Is(None)
    case Variable(AttrVar(n)) =>
      if m.created then Is(if IsCounter(m, n) then Some(VNum(0.0)) else None) else Was(AttrVar(n))
    case Variable(x) => Was(x)
    case Literal(_, v) => Is(Some(v))
    case NullValue => Is(None)
    case NotModelled => Anything
  }

  /** What a tree gives, of what each attribute then holds. */
  function ValueIn(a: Analysis, given: set<string>, img: Image, tree: Expr): Held {
    var n := OwnName(tree);
    if n.Some? && IsAttr(a.m, n.value) then (if n.value in img.attrs then img.attrs[n.value] else Anything)
    else if img.moved && "state" in ValueNames(tree) then Anything
    else HeldOf(Here(a).m, given, Resolve(Here(a), tree))
  }

  function ImageStarts(t: TypeDecl, x: Transition, given: set<string>): Image {
    var m := ModelFor(t, x);
    Image(map n | n in m.attrs ::
            if n in given && n in Taken(x) then Was(InputVar(n)) else if m.created then FilledWith(m, n) else Was(AttrVar(n)),
          false)
  }

  function ImageStepped(a: Analysis, given: set<string>, s: Step, img: Image): Image {
    match s
    case Assign(n, tree) =>
      if IsSkipped(a.m, given, tree) then img else img.(attrs := img.attrs[n := ValueIn(a, given, img, tree)])
    case Clear(names) => img.(attrs := img.attrs + (map n | n in names :: Is(None)))
    case OtherStep(changes, _) =>
      Image(img.attrs + (map n | n in changes :: Anything), img.moved || "state" in changes)
  }

  /** What each attribute holds after some steps. */
  function ImageAfter(t: TypeDecl, x: Transition, given: set<string>, steps: seq<Step>): Image {
    if steps == [] then ImageStarts(t, x, given)
    else ImageStepped(After(t, x), given, steps[|steps| - 1], ImageAfter(t, x, given, steps[..|steps| - 1]))
  }

  /** Whatever a request gives, the analysis reads an attribute as what the effect, in its order, leaves it; or reads
      nothing of it. */
  predicate ReadsRight(t: TypeDecl, x: Transition, n: string) {
    var m, r := ModelFor(t, x), ResolveName(After(t, x), n);
    r == NotModelled ||
    forall given: set<string> | m.present <= given && given <= m.inputs.Keys ::
      n in ImageAfter(t, x, given, x.effect).attrs && HeldOf(m, given, r) == ImageAfter(t, x, given, x.effect).attrs[n]
  }

  /** Some step not followed may change the state. */
  predicate Moves(x: Transition) {
    exists k | 0 <= k < |x.effect| :: x.effect[k].OtherStep? && "state" in x.effect[k].changes
  }

  // ── which is what it leaves ──────────────────────────────────────────────

  /** An attribute holds what it is said to; and where it may hold anything, not a value to be avoided. */
  ghost predicate Holds(vars: imap<Var, Value>, h: Held, value: Option<Value>, avoid: Option<Option<Value>>) {
    match h
    case Was(x) => value == Lookup(vars, x)
    case Is(v) => value == v
    case Anything => avoid == None || avoid != Some(value)
  }

  /** Nothing read of the state is a value to be avoided. */
  ghost predicate StateAvoids(m: Model, w: World, avoid: Option<Option<Value>>) {
    avoid.Some? ==>
      && Lookup(w.vars, StateVar) != avoid.value && (forall s :: Lookup(w.vars, EnteredVar(s)) != avoid.value)
      && (match CategoryNow(m, w) case Some(c) => Some(VName(c)) != avoid.value case None => None != avoid.value)
  }

  ghost predicate StateRead(a: Analysis, w: World, now: World) {
    match a.fixedState
    case Some(s) => s in a.m.states && Lookup(now.vars, StateVar) == Some(VName(s))
    case None => StateKept(w, now)
  }

  /** An object's attributes hold what an image says. */
  ghost predicate Pictures(a: Analysis, img: Image, w: World, now: World, avoid: Option<Option<Value>>) {
    && a.m.attrs.Keys <= img.attrs.Keys
    && (forall n | n in img.attrs && n in a.m.attrs :: Holds(w.vars, img.attrs[n], Lookup(now.vars, AttrVar(n)), avoid))
    && (forall i :: Lookup(now.vars, InputVar(i)) == Lookup(w.vars, InputVar(i)))
    && Lookup(now.vars, NowVar) == Lookup(w.vars, NowVar)
    && (if img.moved then StateAvoids(a.m, now, avoid) else StateRead(a, w, now))
  }

  /** A tree's value is what it is said to give. */
  lemma ValueHeld(a: Analysis, given: set<string>, img: Image, w: World, now: World, tree: Expr, avoid: Option<Option<Value>>)
    requires Pictures(a, img, w, now, avoid) && NamesApart(a.m)
    requires IsFollowed(a, tree) && !IsSkipped(a.m, given, tree)
    ensures Holds(w.vars, ValueIn(a, given, img, tree), ValueOf(Here(a).m, now, tree), avoid)
  {
    var here := Here(a);
    assert NamesApart(here.m);
    var n := OwnName(tree);
    if n.Some? && IsAttr(a.m, n.value) {
      assert ValueOf(here.m, now, tree) == NameValue(here.m, now, n.value);
      assert Holds(w.vars, img.attrs[n.value], Lookup(now.vars, AttrVar(n.value)), avoid);
    } else if img.moved && "state" in ValueNames(tree) {
      MovedHeld(a, w, now, tree, avoid);
    } else {
      PlainHeld(a, given, img, w, now, tree, avoid);
    }
  }

  lemma MovedHeld(a: Analysis, w: World, now: World, tree: Expr, avoid: Option<Option<Value>>)
    requires StateAvoids(a.m, now, avoid) && "state" in ValueNames(tree) && IsFollowed(a, tree) && NamesApart(a.m)
    ensures Holds(w.vars, Anything, ValueOf(Here(a).m, now, tree), avoid)
  {
    var here := Here(a);
    if tree.Path? {
      assert Resolve(here, tree) == ResolvePath(here, tree.base, tree.member);
      assert CategoryNow(here.m, now) == CategoryNow(a.m, now);
    }
  }

  lemma PlainHeld(a: Analysis, given: set<string>, img: Image, w: World, now: World, tree: Expr, avoid: Option<Option<Value>>)
    requires Pictures(a, img, w, now, avoid) && NamesApart(a.m)
    requires IsFollowed(a, tree) && !IsSkipped(a.m, given, tree)
    requires OwnName(tree).Some? ==> !IsAttr(a.m, OwnName(tree).value)
    requires !(img.moved && "state" in ValueNames(tree))
    ensures Holds(w.vars, HeldOf(Here(a).m, given, Resolve(Here(a), tree)), ValueOf(Here(a).m, now, tree), avoid)
  {
    var here, names := Here(a), ValueNames(tree);
    assert forall n | n in names :: !IsAttr(here.m, n);
    assert "state" in names ==> StateRead(a, w, now);
    assert ReadsAgree(here, now, w.vars, names);
    ResolveDenotes(here, now, w.vars, tree, names);
    PlainVariable(a, given, tree);
    PlainHolds(here.m, given, w, Resolve(here, tree), ValueOf(here.m, now, tree), avoid);
  }

  lemma PlainHolds(m: Model, given: set<string>, w: World, r: Resolved, value: Option<Value>, avoid: Option<Option<Value>>)
    requires Denotes(w.vars, r, value) && r != NotModelled && !m.created
    requires r.Variable? ==> !r.x.AttrVar? && (r.x.InputVar? ==> r.x.input in given)
    ensures Holds(w.vars, HeldOf(m, given, r), value, avoid)
  {
  }

  lemma PlainVariable(a: Analysis, given: set<string>, tree: Expr)
    requires !IsSkipped(a.m, given, tree) && (OwnName(tree).Some? ==> !IsAttr(a.m, OwnName(tree).value))
    ensures var r := Resolve(Here(a), tree); r.Variable? ==> !r.x.AttrVar? && (r.x.InputVar? ==> r.x.input in given)
  {
    var here := Here(a);
    if tree.Path? {
      assert Resolve(here, tree) == ResolvePath(here, tree.base, tree.member);
      if tree.base == Name("this") {
        assert ResolvePath(here, tree.base, tree.member) == ResolveName(here, tree.member);
      }
    }
  }

  lemma StartPictured(t: TypeDecl, x: Transition, given: set<string>, w: World, w': World, avoid: Option<Option<Value>>)
    requires Starts(t, x, given, w, w') && EntersDeclared(t, x)
    requires forall n | n in t.attrs :: Holds(w.vars, ImageStarts(t, x, given).attrs[n], Lookup(w'.vars, AttrVar(n)), avoid)
    ensures Pictures(After(t, x), ImageStarts(t, x, given), w, w', avoid)
  {
  }

  /** A step leaves what it is said to. */
  lemma StepPictured(a: Analysis, given: set<string>, s: Step, img: Image, w: World, now: World, next: World,
                     avoid: Option<Option<Value>>)
    requires Pictures(a, img, w, now, avoid) && NamesApart(a.m) && Stepped(a, given, s, now, next)
    requires avoid.Some? ==> Avoids(a, given, s, next, avoid)
    ensures Pictures(a, ImageStepped(a, given, s, img), w, next, avoid)
  {
    var after := ImageStepped(a, given, s, img);
    forall n | n in after.attrs && n in a.m.attrs ensures Holds(w.vars, after.attrs[n], Lookup(next.vars, AttrVar(n)), avoid) {
      AttrPictured(a, given, s, img, w, now, next, avoid, n);
    }
    if s.OtherStep? && "state" in s.changes {
    } else {
      assert StateKept(now, next);
    }
  }

  /** Where a step leaves anything, it is not a value to be avoided. */
  ghost predicate Avoids(a: Analysis, given: set<string>, s: Step, next: World, avoid: Option<Option<Value>>) {
    match s
    case Assign(n, tree) =>
      IsSkipped(a.m, given, tree) || IsFollowed(a, tree) || Some(Lookup(next.vars, AttrVar(n))) != avoid
    case Clear(_) => true
    case OtherStep(changes, _) =>
      && (forall n | n in changes :: Some(Lookup(next.vars, AttrVar(n))) != avoid)
      && ("state" in changes ==> StateAvoids(a.m, next, avoid))
  }

  lemma AttrPictured(a: Analysis, given: set<string>, s: Step, img: Image, w: World, now: World, next: World,
                     avoid: Option<Option<Value>>, n: string)
    requires Pictures(a, img, w, now, avoid) && NamesApart(a.m) && Stepped(a, given, s, now, next)
    requires avoid.Some? ==> Avoids(a, given, s, next, avoid)
    requires n in ImageStepped(a, given, s, img).attrs && n in a.m.attrs
    ensures Holds(w.vars, ImageStepped(a, given, s, img).attrs[n], Lookup(next.vars, AttrVar(n)), avoid)
  {
    assert n in img.attrs && Holds(w.vars, img.attrs[n], Lookup(now.vars, AttrVar(n)), avoid);
    if s.Assign? && s.location == n && !IsSkipped(a.m, given, s.value) {
      if IsFollowed(a, s.value) {
        ValueHeld(a, given, img, w, now, s.value, avoid);
      } else {
        NotFollowedIsAnything(a, given, img, s.value);
      }
    }
  }

  lemma NotFollowedIsAnything(a: Analysis, given: set<string>, img: Image, tree: Expr)
    requires !IsFollowed(a, tree)
    ensures ValueIn(a, given, img, tree) == Anything
  {
    OwnIsFollowed(a, tree);
  }

  lemma OwnIsFollowed(a: Analysis, tree: Expr)
    ensures OwnName(tree).Some? && IsAttr(a.m, OwnName(tree).value) ==> IsFollowed(a, tree)
  {
    if tree.Path? {
      assert Resolve(Here(a), tree) == ResolvePath(Here(a), tree.base, tree.member);
      assert tree.base == Name("this") ==> Resolve(Here(a), tree) == ResolveName(Here(a), tree.member);
    }
  }

  lemma ImageOfStep(t: TypeDecl, x: Transition, given: set<string>, k: nat)
    requires 0 < k <= |x.effect|
    ensures ImageAfter(t, x, given, x.effect[..k]) ==
            ImageStepped(After(t, x), given, x.effect[k - 1], ImageAfter(t, x, given, x.effect[..k - 1]))
  {
    assert x.effect[..k][..k - 1] == x.effect[..k - 1];
  }

  /** Each step of a run leaves what it is said to. */
  lemma {:induction false} RunPictured(t: TypeDecl, x: Transition, given: set<string>, w: World, run: seq<World>, k: nat)
    requires IsRun(t, x, given, w, run) && k <= |x.effect| && NamesApart(ModelOf(t)) && EntersDeclared(t, x)
    ensures Pictures(After(t, x), ImageAfter(t, x, given, x.effect[..k]), w, run[k], None)
  {
    assert NamesApart(ModelFor(t, x));
    if k == 0 {
      assert x.effect[..0] == [];
      StartPictured(t, x, given, w, run[0], None);
    } else {
      RunPictured(t, x, given, w, run, k - 1);
      ImageOfStep(t, x, given, k);
      StepPictured(After(t, x), given, x.effect[k - 1], ImageAfter(t, x, given, x.effect[..k - 1]), w, run[k - 1], run[k], None);
    }
  }

  lemma {:induction false} MovedExactly(t: TypeDecl, x: Transition, given: set<string>, k: nat)
    requires k <= |x.effect|
    ensures ImageAfter(t, x, given, x.effect[..k]).moved <==>
              exists j | 0 <= j < k :: x.effect[j].OtherStep? && "state" in x.effect[j].changes
  {
    if k > 0 {
      MovedExactly(t, x, given, k - 1);
      ImageOfStep(t, x, given, k);
    }
  }

  // ── and what the analysis reads of it ────────────────────────────────────

  /** A variable that stands for a value of an object a transition is taken on. */
  predicate IsSeen(m: Model, given: set<string>, x: Var) {
    x.NowVar? || (x.InputVar? && x.input in given) || (!m.created && (x.AttrVar? || x.StateVar? || x.EnteredVar?))
  }

  /** With the state it is in known, the analysis reads no variable for it. */
  lemma {:induction false} StateNotRead(a: Analysis, e: Expr)
    requires a.fixedState.Some?
    ensures Resolve(a, e).Variable? ==> !Resolve(a, e).x.StateVar? && !Resolve(a, e).x.EnteredVar?
    decreases a.written, 1
  {
    if e.Name? {
      StateNotNamed(a, e.name);
    } else if e.Path? {
      assert Resolve(a, e) == ResolvePath(a, e.base, e.member);
      if e.base == Name("this") {
        StateNotNamed(a, e.member);
      }
    }
  }

  lemma {:induction false} StateNotNamed(a: Analysis, n: string)
    requires a.fixedState.Some?
    ensures ResolveName(a, n).Variable? ==> !ResolveName(a, n).x.StateVar? && !ResolveName(a, n).x.EnteredVar?
    decreases a.written, 0
  {
    if n in a.written && IsAttr(a.m, n) {
      StateNotRead(a.(written := a.written - {n}), a.written[n]);
    }
  }

  /** What the analysis takes an attribute to hold it has the value of. */
  lemma HeldDenotes(t: TypeDecl, x: Transition, given: set<string>, w: World, n: string, value: Option<Value>)
    requires Gives(ModelFor(t, x), given, w) && Blank(t, x, w) && EntersDeclared(t, x)
    ensures var r := ResolveName(After(t, x), n);
            r != NotModelled ==> (Denotes(ReadFor(t, x, w).vars, r, value) <==> Holds(w.vars, HeldOf(ModelFor(t, x), given, r), value, None))
    ensures var h := HeldOf(ModelFor(t, x), given, ResolveName(After(t, x), n)); h.Was? ==> IsSeen(ModelFor(t, x), given, h.x)
  {
    var a, m := After(t, x), ModelFor(t, x);
    var r := ResolveName(a, n);
    NameIsSeen(a, n);
    InputIsDeclared(a, n);
    if x.kind == Initial {
      StateNotNamed(a, n);
      if r.Variable? {
        AsReadVar(m, x.to.value, w, r.x);
      }
    }
  }

  lemma {:induction false} InputIsDeclared(a: Analysis, n: string)
    ensures ResolveName(a, n).Variable? ==>
              match ResolveName(a, n).x case InputVar(i) => i in a.m.inputs case AttrVar(b) => b in a.m.attrs case _ => true
    decreases a.written, 0
  {
    if n in a.written && IsAttr(a.m, n) {
      TreeIsDeclared(a.(written := a.written - {n}), a.written[n]);
    }
  }

  lemma {:induction false} TreeIsDeclared(a: Analysis, e: Expr)
    ensures Resolve(a, e).Variable? ==>
              match Resolve(a, e).x case InputVar(i) => i in a.m.inputs case AttrVar(b) => b in a.m.attrs case _ => true
    decreases a.written, 1
  {
    if e.Name? {
      InputIsDeclared(a, e.name);
    } else if e.Path? {
      assert Resolve(a, e) == ResolvePath(a, e.base, e.member);
      if e.base == Name("this") {
        InputIsDeclared(a, e.member);
      }
    }
  }

  /** An object a transition leaves is read, by some names, as what it is left. */
  lemma LeftIsRead(t: TypeDecl, x: Transition, given: set<string>, w: World, run: seq<World>, names: set<string>)
    requires IsRun(t, x, given, w, run) && Blank(t, x, w) && NamesApart(ModelOf(t)) && EntersDeclared(t, x)
    requires forall n | n in names && IsAttr(ModelFor(t, x), n) :: ReadsRight(t, x, n)
    requires "state" in names ==> !Moves(x)
    ensures ReadsAgree(After(t, x), run[|x.effect|], ReadFor(t, x, w).vars, names)
  {
    var a, m, last, u := After(t, x), ModelFor(t, x), run[|x.effect|], ReadFor(t, x, w);
    RunPictured(t, x, given, w, run, |x.effect|);
    assert x.effect[..|x.effect|] == x.effect;
    forall n | n in names && IsAttr(m, n) ensures Denotes(u.vars, ResolveName(a, n), Lookup(last.vars, AttrVar(n))) {
      HeldDenotes(t, x, given, w, n, Lookup(last.vars, AttrVar(n)));
      assert ReadsRight(t, x, n);
    }
    if "state" in names {
      MovedExactly(t, x, given, |x.effect|);
    }
    InputsAsRead(t, x, w);
  }

  lemma InputsAsRead(t: TypeDecl, x: Transition, w: World)
    ensures var u := ReadFor(t, x, w);
            && (forall i :: Lookup(u.vars, InputVar(i)) == Lookup(w.vars, InputVar(i))) && Lookup(u.vars, NowVar) == Lookup(w.vars, NowVar)
            && (x.kind != Initial ==> u == w)
  {
    if x.kind == Initial && x.to.Some? {
      forall z: Var ensures Lookup(ReadFor(t, x, w).vars, z) == ReadVar(ModelFor(t, x), x.to.value, w, z) {
        AsReadVar(ModelFor(t, x), x.to.value, w, z);
      }
    }
  }

  // ── a run made to leave another value ────────────────────────────────────

  /** Not a value. */
  function Else(d: Option<Value>): Option<Value> {
    if d.None? then Some(VBool(true)) else None
  }

  ghost function NextVar(a: Analysis, given: set<string>, s: Step, d: Option<Value>, state: string, now: World, x: Var): Option<Value> {
    match s
    case Assign(n, tree) =>
      if x != AttrVar(n) || IsSkipped(a.m, given, tree) then Lookup(now.vars, x)
      else if IsFollowed(a, tree) then ValueOf(Here(a).m, now, tree)
      else Else(d)
    case Clear(names) => if x.AttrVar? && x.attr in names then None else Lookup(now.vars, x)
    case OtherStep(changes, _) =>
      if x.AttrVar? && x.attr in changes then Else(d)
      else if x.StateVar? && "state" in changes then (if d.None? then Some(VName(state)) else None)
      else if x.EnteredVar? && "state" in changes then Else(d)
      else Lookup(now.vars, x)
  }

  ghost function NextWorld(a: Analysis, given: set<string>, s: Step, d: Option<Value>, state: string, now: World): World {
    now.(vars := imap x: Var | NextVar(a, given, s, d, state, now, x).Some? :: NextVar(a, given, s, d, state, now, x).value)
  }

  lemma NextIs(a: Analysis, given: set<string>, s: Step, d: Option<Value>, state: string, now: World, x: Var)
    ensures Lookup(NextWorld(a, given, s, d, state, now).vars, x) == NextVar(a, given, s, d, state, now, x)
  {
  }

  lemma NextSteps(a: Analysis, given: set<string>, s: Step, d: Option<Value>, state: string, now: World)
    ensures Stepped(a, given, s, now, NextWorld(a, given, s, d, state, now))
  {
    var next := NextWorld(a, given, s, d, state, now);
    forall x: Var ensures Lookup(next.vars, x) == NextVar(a, given, s, d, state, now, x) {
      NextIs(a, given, s, d, state, now, x);
    }
  }

  lemma NextAvoids(a: Analysis, given: set<string>, s: Step, d: Option<Value>, state: string, now: World)
    requires state in a.m.states
    ensures Avoids(a, given, s, NextWorld(a, given, s, d, state, now), Some(d))
  {
    var next := NextWorld(a, given, s, d, state, now);
    forall x: Var ensures Lookup(next.vars, x) == NextVar(a, given, s, d, state, now, x) {
      NextIs(a, given, s, d, state, now, x);
    }
  }

  ghost function StartVar(m: Model, x: Transition, given: set<string>, d: Option<Value>, w: World, z: Var): Option<Value> {
    match z
    case AttrVar(n) =>
      if n !in m.attrs then Lookup(w.vars, z)
      else if n in given && n in Taken(x) then Lookup(w.vars, InputVar(n))
      else if !m.created then Lookup(w.vars, z)
      else if IsCounter(m, n) then Some(VNum(0.0))
      else if IsFilled(m, n) then Else(d)
      else None
    case StateVar => if StateAfter(x).Some? then Some(VName(StateAfter(x).value)) else Lookup(w.vars, z)
    case _ => Lookup(w.vars, z)
  }

  ghost function StartWorld(m: Model, x: Transition, given: set<string>, d: Option<Value>, w: World): World {
    w.(vars := imap z: Var | StartVar(m, x, given, d, w, z).Some? :: StartVar(m, x, given, d, w, z).value)
  }

  lemma StartStarts(t: TypeDecl, x: Transition, given: set<string>, d: Option<Value>, w: World)
    ensures Starts(t, x, given, w, StartWorld(ModelFor(t, x), x, given, d, w))
  {
    var m, w' := ModelFor(t, x), StartWorld(ModelFor(t, x), x, given, d, w);
    forall z: Var ensures Lookup(w'.vars, z) == StartVar(m, x, given, d, w, z) {
    }
  }

  lemma StartAvoids(t: TypeDecl, x: Transition, given: set<string>, d: Option<Value>, w: World)
    requires EntersDeclared(t, x)
    ensures Pictures(After(t, x), ImageStarts(t, x, given), w, StartWorld(ModelFor(t, x), x, given, d, w), Some(d))
  {
    var m, w' := ModelFor(t, x), StartWorld(ModelFor(t, x), x, given, d, w);
    forall n | n in t.attrs ensures Holds(w.vars, ImageStarts(t, x, given).attrs[n], Lookup(w'.vars, AttrVar(n)), Some(d)) {
      assert Lookup(w'.vars, AttrVar(n)) == StartVar(m, x, given, d, w, AttrVar(n));
    }
    StartStarts(t, x, given, d, w);
    StartPictured(t, x, given, w, w', Some(d));
  }

  /** Some steps of a run that leaves what it is said to and, where that may be anything, not one value. */
  ghost predicate RunsAvoiding(t: TypeDecl, x: Transition, given: set<string>, w: World, d: Option<Value>, k: nat, run: seq<World>)
    requires k <= |x.effect|
  {
    && |run| == k + 1 && Starts(t, x, given, w, run[0])
    && (forall j | 0 <= j < k :: Stepped(After(t, x), given, x.effect[j], run[j], run[j + 1]))
    && Pictures(After(t, x), ImageAfter(t, x, given, x.effect[..k]), w, run[k], Some(d))
  }

  lemma {:induction false} MakeRun(t: TypeDecl, x: Transition, given: set<string>, w: World, d: Option<Value>, state: string, k: nat)
    returns (run: seq<World>)
    requires k <= |x.effect| && EntersDeclared(t, x) && NamesApart(ModelOf(t)) && state in t.states
    ensures RunsAvoiding(t, x, given, w, d, k, run)
  {
    if k == 0 {
      StartStarts(t, x, given, d, w);
      StartAvoids(t, x, given, d, w);
      run := [StartWorld(ModelFor(t, x), x, given, d, w)];
      assert x.effect[..0] == [];
    } else {
      var before := MakeRun(t, x, given, w, d, state, k - 1);
      run := before + [NextWorld(After(t, x), given, x.effect[k - 1], d, state, before[k - 1])];
      StepMade(t, x, given, w, d, state, k, before[k - 1]);
    }
  }

  lemma StepMade(t: TypeDecl, x: Transition, given: set<string>, w: World, d: Option<Value>, state: string, k: nat, now: World)
    requires 0 < k <= |x.effect| && NamesApart(ModelOf(t)) && state in t.states
    requires Pictures(After(t, x), ImageAfter(t, x, given, x.effect[..k - 1]), w, now, Some(d))
    ensures var next := NextWorld(After(t, x), given, x.effect[k - 1], d, state, now);
            && Stepped(After(t, x), given, x.effect[k - 1], now, next)
            && Pictures(After(t, x), ImageAfter(t, x, given, x.effect[..k]), w, next, Some(d))
  {
    var a, s := After(t, x), x.effect[k - 1];
    var next := NextWorld(a, given, s, d, state, now);
    assert NamesApart(a.m);
    NextSteps(a, given, s, d, state, now);
    NextAvoids(a, given, s, d, state, now);
    StepPictured(a, given, s, ImageAfter(t, x, given, x.effect[..k - 1]), w, now, next, Some(d));
    ImageOfStep(t, x, given, k);
  }

  /** What each attribute holds of what a variable held before is of one a request or an object has. */
  ghost predicate ImageIsSeen(t: TypeDecl, x: Transition, given: set<string>, img: Image) {
    forall n | n in t.attrs :: n in img.attrs && (img.attrs[n].Was? ==> IsSeen(ModelFor(t, x), given, img.attrs[n].x))
  }

  lemma ValueSeenIn(t: TypeDecl, x: Transition, given: set<string>, img: Image, tree: Expr)
    requires EntersDeclared(t, x) && ImageIsSeen(t, x, given, img) && !IsSkipped(ModelFor(t, x), given, tree)
    ensures var h := ValueIn(After(t, x), given, img, tree); h.Was? ==> IsSeen(ModelFor(t, x), given, h.x)
  {
    var own := OwnName(tree);
    if own.Some? && IsAttr(ModelFor(t, x), own.value) {
      assert own.value in t.attrs;
    } else {
      TreeSeen(t, x, given, tree);
    }
  }

  lemma StepSeen(t: TypeDecl, x: Transition, given: set<string>, s: Step, img: Image)
    requires EntersDeclared(t, x) && ImageIsSeen(t, x, given, img)
    ensures ImageIsSeen(t, x, given, ImageStepped(After(t, x), given, s, img))
  {
    if s.Assign? && !IsSkipped(ModelFor(t, x), given, s.value) {
      ValueSeenIn(t, x, given, img, s.value);
    }
  }

  lemma {:induction false} ImageSeen(t: TypeDecl, x: Transition, given: set<string>, k: nat)
    requires k <= |x.effect| && EntersDeclared(t, x)
    ensures k == 0 || ImageIsSeen(t, x, given, ImageAfter(t, x, given, x.effect[..k]))
    ensures ImageIsSeen(t, x, given, ImageStarts(t, x, given))
  {
    if k > 0 {
      ImageOfStep(t, x, given, k);
      ImageSeen(t, x, given, k - 1);
      assert k == 1 ==> x.effect[..k - 1] == [];
      StepSeen(t, x, given, x.effect[k - 1], ImageAfter(t, x, given, x.effect[..k - 1]));
    }
  }

  lemma TreeSeen(t: TypeDecl, x: Transition, given: set<string>, tree: Expr)
    requires EntersDeclared(t, x) && !IsSkipped(ModelFor(t, x), given, tree)
    requires OwnName(tree).Some? ==> !IsAttr(ModelFor(t, x), OwnName(tree).value)
    ensures var here := Here(After(t, x)); var h := HeldOf(here.m, given, Resolve(here, tree));
            h.Was? ==> IsSeen(ModelFor(t, x), given, h.x)
  {
    var here := Here(After(t, x));
    PlainVariable(After(t, x), given, tree);
    ResolvedIsSeen(here, tree);
    if x.kind == Initial {
      StateNotRead(here, tree);
    }
  }

  /** Every variable of one truth, or every one but one. */
  ghost function WitnessVar(t: TypeDecl, x: Transition, given: set<string>, y: Option<Var>, b: bool, z: Var): Option<Value> {
    var read := if z.AttrVar? && x.kind == Initial then InputVar(z.attr) else z;
    if read.CountVar? || (read.InputVar? && read.input !in given) then None
    else if x.kind == Initial && (z.StateVar? || z.EnteredVar? || (z.AttrVar? && z.attr !in Taken(x))) then None
    else Some(VBool((Some(read) == y) == b))
  }

  ghost function Witness(t: TypeDecl, x: Transition, given: set<string>, y: Option<Var>, b: bool): World {
    World(imap z: Var | WitnessVar(t, x, given, y, b, z).Some? :: WitnessVar(t, x, given, y, b, z).value, imap[], imap[])
  }

  lemma WitnessIs(t: TypeDecl, x: Transition, given: set<string>, y: Option<Var>, b: bool)
    requires MayGive(ModelFor(t, x), given)
    ensures var w := Witness(t, x, given, y, b);
            && Blank(t, x, w) && Gives(ModelFor(t, x), given, w)
            && forall z | IsSeen(ModelFor(t, x), given, z) :: Lookup(w.vars, z) == Some(VBool((Some(z) == y) == b))
  {
    var w := Witness(t, x, given, y, b);
    forall z: Var ensures Lookup(w.vars, z) == WitnessVar(t, x, given, y, b, z) {
    }
  }

  /** The value of what an attribute holds. */
  ghost function HeldValue(w: World, h: Held): Option<Value> {
    match h case Was(x) => Lookup(w.vars, x) case Is(v) => v case Anything => None
  }

  /** Two that differ are of different values of some object. */
  lemma HeldDiffer(t: TypeDecl, x: Transition, given: set<string>, h: Held, q: Held) returns (w: World)
    requires MayGive(ModelFor(t, x), given) && h != q && h != Anything
    requires h.Was? ==> IsSeen(ModelFor(t, x), given, h.x)
    requires q.Was? ==> IsSeen(ModelFor(t, x), given, q.x)
    ensures Blank(t, x, w) && Gives(ModelFor(t, x), given, w)
    ensures q != Anything ==> HeldValue(w, q) != HeldValue(w, h)
  {
    var y := if q.Was? then Some(q.x) else if h.Was? then Some(h.x) else None;
    var v := if h.Is? then h.value else if q.Is? then q.value else None;
    w := Witness(t, x, given, y, v != Some(VBool(true)));
    WitnessIs(t, x, given, y, v != Some(VBool(true)));
  }

  /** The analysis reads an attribute as what it is left, whatever a transition is taken on and with. */
  ghost predicate WritesDenoted(t: TypeDecl, x: Transition, n: string) {
    forall given: set<string>, w: World, run: seq<World> | Blank(t, x, w) && IsRun(t, x, given, w, run) ::
      Denotes(ReadFor(t, x, w).vars, ResolveName(After(t, x), n), Lookup(run[|x.effect|].vars, AttrVar(n)))
  }

  lemma MisreadHeld(t: TypeDecl, x: Transition, n: string) returns (given: set<string>, h: Held, q: Held)
    requires EntersDeclared(t, x) && n in t.attrs && !ReadsRight(t, x, n)
    ensures MayGive(ModelFor(t, x), given) && h == HeldOf(ModelFor(t, x), given, ResolveName(After(t, x), n)) && h != q
    ensures ResolveName(After(t, x), n) != NotModelled && h != Anything
    ensures n in ImageAfter(t, x, given, x.effect).attrs && q == ImageAfter(t, x, given, x.effect).attrs[n]
    ensures (h.Was? ==> IsSeen(ModelFor(t, x), given, h.x)) && (q.Was? ==> IsSeen(ModelFor(t, x), given, q.x))
  {
    var m, r := ModelFor(t, x), ResolveName(After(t, x), n);
    given :| MayGive(m, given) && !(n in ImageAfter(t, x, given, x.effect).attrs
                                    && HeldOf(m, given, r) == ImageAfter(t, x, given, x.effect).attrs[n]);
    assert x.effect[..|x.effect|] == x.effect;
    ImageSeen(t, x, given, |x.effect|);
    h, q := HeldOf(m, given, r), ImageAfter(t, x, given, x.effect).attrs[n];
    WitnessIs(t, x, given, None, true);
    HeldDenotes(t, x, given, Witness(t, x, given, None, true), n, None);
  }

  /** A run that leaves in an attribute what is said, and not one value where that is anything. */
  lemma RunTo(t: TypeDecl, x: Transition, given: set<string>, w: World, n: string, d: Option<Value>) returns (run: seq<World>)
    requires NamesApart(ModelOf(t)) && EntersDeclared(t, x) && t.states != map[] && n in t.attrs
    requires Gives(ModelFor(t, x), given, w) && n in ImageAfter(t, x, given, x.effect).attrs
    ensures IsRun(t, x, given, w, run)
    ensures Holds(w.vars, ImageAfter(t, x, given, x.effect).attrs[n], Lookup(run[|x.effect|].vars, AttrVar(n)), Some(d))
  {
    var state :| state in t.states;
    run := MakeRun(t, x, given, w, d, state, |x.effect|);
    assert x.effect[..|x.effect|] == x.effect;
  }

  /** A request and an object of which an attribute is misread. */
  lemma Misread(t: TypeDecl, x: Transition, n: string) returns (given: set<string>, w: World, run: seq<World>)
    requires NamesApart(ModelOf(t)) && EntersDeclared(t, x) && t.states != map[] && IsAttr(ModelOf(t), n) && !ReadsRight(t, x, n)
    ensures Blank(t, x, w) && IsRun(t, x, given, w, run)
    ensures !Denotes(ReadFor(t, x, w).vars, ResolveName(After(t, x), n), Lookup(run[|x.effect|].vars, AttrVar(n)))
  {
    var h, q;
    given, h, q := MisreadHeld(t, x, n);
    w := HeldDiffer(t, x, given, h, q);
    run := RunTo(t, x, given, w, n, HeldValue(w, h));
    var value := Lookup(run[|x.effect|].vars, AttrVar(n));
    assert !Holds(w.vars, h, value, None);
    HeldDenotes(t, x, given, w, n, value);
  }

  /** The analysis reads an attribute as what a transition leaves it, of every object and of every request, if and only if
      the declaration says so: its reading is the effect's own, in order, whatever a request gives. */
  lemma WritesReadExactly(t: TypeDecl, x: Transition, n: string)
    requires NamesApart(ModelOf(t)) && EntersDeclared(t, x) && t.states != map[] && IsAttr(ModelOf(t), n)
    ensures WritesDenoted(t, x, n) <==> ReadsRight(t, x, n)
  {
    if ReadsRight(t, x, n) {
      forall given: set<string>, w: World, run: seq<World> | Blank(t, x, w) && IsRun(t, x, given, w, run)
        ensures Denotes(ReadFor(t, x, w).vars, ResolveName(After(t, x), n), Lookup(run[|x.effect|].vars, AttrVar(n)))
      {
        LeftIsRead(t, x, given, w, run, {n});
      }
    } else {
      var given, w, run := Misread(t, x, n);
    }
  }

  /** Some step not followed changes an attribute. */
  predicate IsChanged(steps: seq<Step>, n: string) {
    exists k | 0 <= k < |steps| :: steps[k].OtherStep? && n in steps[k].changes
  }

  lemma {:induction false} ImageUnwritten(t: TypeDecl, x: Transition, given: set<string>, k: nat, n: string)
    requires x.kind != Initial && n in t.attrs && k <= |x.effect| && n !in StepsWrite(x.required, x.effect[..k])
    ensures var img := ImageAfter(t, x, given, x.effect[..k]);
            n in img.attrs && img.attrs[n] == if IsChanged(x.effect[..k], n) then Anything
                                              else if n in given && n in Taken(x) then Was(InputVar(n)) else Was(AttrVar(n))
  {
    if k == 0 {
      assert x.effect[..0] == [];
    } else {
      ImageOfStep(t, x, given, k);
      assert x.effect[..k][..k - 1] == x.effect[..k - 1];
      ImageUnwritten(t, x, given, k - 1, n);
      ChangedMore(x, k, n);
    }
  }

  lemma ChangedMore(x: Transition, k: nat, n: string)
    requires 0 < k <= |x.effect|
    ensures IsChanged(x.effect[..k], n) <==>
              IsChanged(x.effect[..k - 1], n) || (x.effect[k - 1].OtherStep? && n in x.effect[k - 1].changes)
  {
    if IsChanged(x.effect[..k - 1], n) {
      var j :| 0 <= j < k - 1 && x.effect[..k - 1][j].OtherStep? && n in x.effect[..k - 1][j].changes;
      assert x.effect[..k][j] == x.effect[j];
    }
    if IsChanged(x.effect[..k], n) {
      var j :| 0 <= j < k && x.effect[..k][j].OtherStep? && n in x.effect[..k][j].changes;
      assert j < k - 1 ==> x.effect[..k - 1][j] == x.effect[j];
    }
    assert x.effect[..k][k - 1] == x.effect[k - 1];
  }

  /** So of an object there is, an attribute the query takes to be as it was is read right if and only if it is not an
      optional input and no step not followed changes it. */
  lemma UnwrittenReadsExactly(t: TypeDecl, x: Transition, n: string)
    requires x.kind != Initial && IsAttr(ModelOf(t), n) && n !in WrittenBy(x)
    ensures ReadsRight(t, x, n) <==> n !in x.optionals && !IsChanged(x.effect, n)
  {
    var m := ModelFor(t, x);
    assert ResolveName(After(t, x), n) == Variable(AttrVar(n)) && x.effect[..|x.effect|] == x.effect;
    forall given: set<string> | MayGive(m, given)
      ensures var img := ImageAfter(t, x, given, x.effect);
              n in img.attrs && img.attrs[n] == if IsChanged(x.effect, n) then Anything
                                                else if n in given && n in Taken(x) then Was(InputVar(n)) else Was(AttrVar(n))
    {
      ImageUnwritten(t, x, given, |x.effect|, n);
    }
    assert MayGive(m, m.inputs.Keys);
    if n in x.required {
      RequiredWritten(x.required, x.effect, n);
    }
    assert n in x.optionals ==> n in InputNames(x) && n in Taken(x);
  }

  lemma {:induction false} RequiredWritten(required: seq<string>, effect: seq<Step>, n: string)
    requires n in required
    ensures n in StepsWrite(required, effect)
  {
    if effect != [] {
      RequiredWritten(required, effect[..|effect| - 1], n);
    }
  }

  /** And the state, if and only if no step not followed may change it. */
  lemma StateReadExactly(t: TypeDecl, x: Transition)
    requires NamesApart(ModelOf(t)) && EntersDeclared(t, x) && t.states != map[]
    ensures (forall given: set<string>, w: World, run: seq<World> | Blank(t, x, w) && IsRun(t, x, given, w, run) ::
               StateAgrees(After(t, x), run[|x.effect|], ReadFor(t, x, w).vars)) <==> !Moves(x)
  {
    if Moves(x) {
      var w, run := MovedAway(t, x);
    } else {
      forall given: set<string>, w: World, run: seq<World> | Blank(t, x, w) && IsRun(t, x, given, w, run)
        ensures StateAgrees(After(t, x), run[|x.effect|], ReadFor(t, x, w).vars)
      {
        StateLeft(t, x, given, w, run);
      }
    }
  }

  lemma StateLeft(t: TypeDecl, x: Transition, given: set<string>, w: World, run: seq<World>)
    requires IsRun(t, x, given, w, run) && NamesApart(ModelOf(t)) && EntersDeclared(t, x) && !Moves(x)
    ensures StateAgrees(After(t, x), run[|x.effect|], ReadFor(t, x, w).vars)
  {
    RunPictured(t, x, given, w, run, |x.effect|);
    MovedExactly(t, x, given, |x.effect|);
    assert x.effect[..|x.effect|] == x.effect;
    InputsAsRead(t, x, w);
  }

  lemma MovedAway(t: TypeDecl, x: Transition) returns (w: World, run: seq<World>)
    requires NamesApart(ModelOf(t)) && EntersDeclared(t, x) && t.states != map[] && Moves(x)
    ensures Blank(t, x, w) && IsRun(t, x, ModelFor(t, x).inputs.Keys, w, run)
    ensures !StateAgrees(After(t, x), run[|x.effect|], ReadFor(t, x, w).vars)
  {
    var m, given := ModelFor(t, x), ModelFor(t, x).inputs.Keys;
    assert MayGive(m, given);
    w := Witness(t, x, given, None, true);
    WitnessIs(t, x, given, None, true);
    var d := if StateAfter(x).Some? then Some(VName(StateAfter(x).value)) else Lookup(w.vars, StateVar);
    var state :| state in t.states;
    run := MakeRun(t, x, given, w, d, state, |x.effect|);
    MovedExactly(t, x, given, |x.effect|);
    assert x.effect[..|x.effect|] == x.effect;
    InputsAsRead(t, x, w);
  }

  // ── reading that ends ────────────────────────────────────────────────────

  /** The written attribute a tree is read through next. */
  function Next(a: Analysis, e: Expr): Option<string> {
    var n := if e.Name? then Some(e.name) else if e.Path? && e.base == Name("this") then Some(e.member) else None;
    if n.Some? && n.value != "now" && n.value != "state" && n.value in a.m.attrs && n.value in a.written then n else None
  }

  /** What the source resolves a tree to in a number of calls, each written attribute read again wherever it is met. */
  function ResolvedIn(a: Analysis, e: Expr, calls: nat): Option<Resolved>
    decreases calls
  {
    match Next(a, e)
    case None => Some(Resolve(a.(written := map[]), e))
    case Some(n) => if calls == 0 then None else ResolvedIn(a, a.written[n], calls - 1)
  }

  /** No written attribute is met twice. */
  predicate Ends(a: Analysis, e: Expr, met: set<string>)
    decreases a.written.Keys - met
  {
    match Next(a, e)
    case None => true
    case Some(n) => n !in met && Ends(a, a.written[n], met + {n})
  }

  /** Where none is, the source resolves a tree, and to what the model does. */
  lemma {:induction false} EndsResolved(a: Analysis, e: Expr, met: set<string>) returns (calls: nat)
    requires Ends(a, e, met)
    ensures ResolvedIn(a, e, calls) == Some(Resolve(a.(written := a.written - met), e))
    decreases a.written.Keys - met
  {
    var less := a.(written := a.written - met);
    if Next(a, e).None? {
      UnwrittenAlike(a, less, e);
      calls := 0;
    } else {
      var n := Next(a, e).value;
      var before := EndsResolved(a, a.written[n], met + {n});
      calls := before + 1;
      assert a.written - (met + {n}) == less.written - {n};
      ReadNext(less, e, n);
    }
  }

  lemma ReadNext(a: Analysis, e: Expr, n: string)
    requires Next(a, e) == Some(n)
    ensures Resolve(a, e) == Resolve(a.(written := a.written - {n}), a.written[n])
  {
    if e.Path? {
      assert Resolve(a, e) == ResolvePath(a, e.base, e.member) == ResolveName(a, n);
    } else {
      assert Resolve(a, e) == ResolveName(a, n);
    }
  }

  lemma UnwrittenAlike(a: Analysis, less: Analysis, e: Expr)
    requires Next(a, e).None? && less == a.(written := less.written) && less.written.Keys <= a.written.Keys
    ensures Resolve(less, e) == Resolve(a.(written := map[]), e)
  {
    var none := a.(written := map[]);
    if e.Name? {
      assert ResolveName(less, e.name) == ResolveName(none, e.name);
    } else if e.Path? {
      assert Resolve(less, e) == ResolvePath(less, e.base, e.member);
      assert Resolve(none, e) == ResolvePath(none, e.base, e.member);
      if e.base == Name("this") {
        assert ResolveName(less, e.member) == ResolveName(none, e.member);
      }
    }
  }

  /** Each of some attributes is written by a tree read next through another of them. */
  predicate IsLoop(a: Analysis, names: set<string>) {
    forall n | n in names :: n in a.written && Next(a, a.written[n]).Some? && Next(a, a.written[n]).value in names
  }

  lemma {:induction false} LoopNeverResolved(a: Analysis, names: set<string>, e: Expr, calls: nat)
    requires IsLoop(a, names) && Next(a, e).Some? && Next(a, e).value in names
    ensures ResolvedIn(a, e, calls) == None
    decreases calls
  {
    if calls > 0 {
      LoopNeverResolved(a, names, a.written[Next(a, e).value], calls - 1);
    }
  }

  lemma {:induction false} LoopMet(a: Analysis, e: Expr, met: set<string>) returns (names: set<string>)
    requires !Ends(a, e, met)
    requires forall n | n in met :: n in a.written && Next(a, a.written[n]).Some?
                                    && (Next(a, a.written[n]).value in met || Next(a, a.written[n]) == Next(a, e))
    ensures IsLoop(a, names) && met <= names && Next(a, e).Some? && Next(a, e).value in names
    decreases a.written.Keys - met
  {
    var n := Next(a, e).value;
    if n in met {
      names := met;
    } else {
      names := LoopMet(a, a.written[n], met + {n});
    }
  }

  /** The source resolves a tree, and to what the model does, if and only if no written attribute is met twice on the way:
      else its recursion does not end. */
  lemma ResolvesExactly(a: Analysis, e: Expr)
    ensures (exists calls: nat :: ResolvedIn(a, e, calls).Some?) <==> Ends(a, e, {})
    ensures forall calls: nat | ResolvedIn(a, e, calls).Some? :: ResolvedIn(a, e, calls) == Some(Resolve(a, e))
  {
    assert a.(written := a.written - {}) == a;
    if Ends(a, e, {}) {
      var calls := EndsResolved(a, e, {});
      forall more: nat | ResolvedIn(a, e, more).Some? ensures ResolvedIn(a, e, more) == Some(Resolve(a, e)) {
        OneResolution(a, e, calls, more);
      }
    } else {
      var names := LoopMet(a, e, {});
      forall calls: nat ensures ResolvedIn(a, e, calls).None? {
        LoopNeverResolved(a, names, e, calls);
      }
    }
  }

  lemma {:induction false} OneResolution(a: Analysis, e: Expr, calls: nat, more: nat)
    requires ResolvedIn(a, e, calls).Some? && ResolvedIn(a, e, more).Some?
    ensures ResolvedIn(a, e, calls) == ResolvedIn(a, e, more)
    decreases calls
  {
    if Next(a, e).Some? {
      OneResolution(a, a.written[Next(a, e).value], calls - 1, more - 1);
    }
  }
}
