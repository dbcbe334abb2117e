/** The text `held_through` writes (scripts/flowexpr.py, `held_through`): every token but the fields it reads through the
    holder, and every space between tokens, as they were. */
module Splicing {
  import opened Wrappers
  import opened Tokens
  import opened Holding

  /** A token and where it begins in the text. */
  datatype Placed = Placed(token: Token, pos: nat)

  function TokensOf(toks: seq<Placed>): (ts: seq<Token>)
    ensures |ts| == |toks| && forall i | 0 <= i < |ts| :: ts[i] == toks[i].token
  {
    seq(|toks|, i requires 0 <= i < |toks| => toks[i].token)
  }

  /** The tokens lie in the text one after another, the end last. */
  ghost predicate LieIn(text: string, toks: seq<Placed>) {
    && |toks| > 0 && toks[|toks| - 1] == Placed(END, |text|)
    && (forall i | 0 <= i < |toks| :: Within(text, toks[i]))
    && (forall i | 0 <= i < |toks| - 1 :: toks[i].pos + |toks[i].token.text| <= toks[i + 1].pos)
  }

  ghost predicate Within(text: string, t: Placed) {
    t.pos + |t.token.text| <= |text| && text[t.pos..t.pos + |t.token.text|] == t.token.text
  }

  /** Tokens' texts, nothing between them. */
  function Spelled(ts: seq<Token>): string {
    if ts == [] then "" else ts[0].text + Spelled(ts[1..])
  }

  predicate AfterDot(toks: seq<Placed>, k: nat)
    requires k <= |toks|
  {
    k > 0 && IsDot(toks[k - 1].token)
  }

  predicate IsReplaced(h: Through, toks: seq<Placed>, k: nat)
    requires k < |toks| && toks[|toks| - 1].token == END
  {
    var t := toks[k].token;
    t.kind == NameTok && t.text in h.fields && t.text !in KEYWORDS && !AfterDot(toks, k) && toks[k + 1].token != Op_("(")
  }

  function InItsPlace(h: Through, toks: seq<Placed>, k: nat): string
    requires k < |toks| && toks[|toks| - 1].token == END
  {
    var t := toks[k].token.text;
    if IsReplaced(h, toks, k) then h.holder + "." + t else t
  }

  /** Where the first tokens end. */
  function Reached(toks: seq<Placed>, k: nat): nat
    requires k <= |toks|
  {
    if k == 0 then 0 else toks[k - 1].pos + |toks[k - 1].token.text|
  }

  /** What the first tokens are written as: before each what was before it, and then what is in its place. */
  ghost function Rewritten(h: Through, text: string, toks: seq<Placed>, k: nat): string
    requires LieIn(text, toks) && k <= |toks|
  {
    if k == 0 then ""
    else
      InOrder(text, toks, k - 1);
      Rewritten(h, text, toks, k - 1) + text[Reached(toks, k - 1)..toks[k - 1].pos] + InItsPlace(h, toks, k - 1)
  }

  lemma InOrder(text: string, toks: seq<Placed>, k: nat)
    requires LieIn(text, toks) && k < |toks|
    ensures Reached(toks, k) <= toks[k].pos && Reached(toks, k + 1) <= |text| && Within(text, toks[k])
  {
    assert Within(text, toks[k]);
    assert k > 0 ==> toks[k - 1].pos + |toks[k - 1].token.text| <= toks[k - 1 + 1].pos;
  }

  /** What is in a token's place spells the tokens that are: the text is that of the rewritten tokens. */
  lemma PlacesSpellTokens(h: Through, text: string, toks: seq<Placed>, k: nat)
    requires LieIn(text, toks) && k < |toks|
    ensures InItsPlace(h, toks, k) == Spelled(InPlace(h, AfterDot(toks, k), TokensOf(toks)[k..]))
  {
    var ts := TokensOf(toks)[k..];
    assert ts[0] == toks[k].token && (k + 1 < |toks| ==> Peek(ts, 1) == toks[k + 1].token);
    if Replaced(h, AfterDot(toks, k), ts) {
      SpelledThrough(h, ts[0]);
    } else {
      SpelledOne(ts[0]);
    }
  }

  function OrHolds(holder: string, rule: string): string {
    holder + " is null or (" + rule + ")"
  }

  method HeldText(h: Through, text: string, toks: seq<Placed>) returns (r: string)
    requires LieIn(text, toks)
    ensures r == OrHolds(h.holder, Rewritten(h, text, toks, |toks|))
  {
    var out: string := "";
    var at: nat := 0;
    for k := 0 to |toks|
      invariant SoFar(h, text, toks, k, out, at)
    {
      if IsReplaced(h, toks, k) {
        ReadThrough(h, text, toks, k, out, at);
        out := out + text[at..toks[k].pos] + InItsPlace(h, toks, k);
        at := toks[k].pos + |toks[k].token.text|;
      } else {
        Kept(h, text, toks, k, out, at);
      }
    }
    assert text[at..Reached(toks, |toks|)] == text[at..];
    r := OrHolds(h.holder, out + text[at..]);
  }

  /** What is written, and what is yet to be copied, are the first tokens' rewriting. */
  ghost predicate SoFar(h: Through, text: string, toks: seq<Placed>, k: nat, out: string, at: nat)
    requires LieIn(text, toks)
  {
    && k <= |toks| && at <= Reached(toks, k) <= |text|
    && out + text[at..Reached(toks, k)] == Rewritten(h, text, toks, k)
  }

  /** A token more: what stood before it, and what is in its place. */
  lemma Step(h: Through, text: string, toks: seq<Placed>, k: nat, out: string, at: nat)
    requires LieIn(text, toks) && k < |toks| && at <= Reached(toks, k)
    requires out + text[at..Reached(toks, k)] == Rewritten(h, text, toks, k)
    ensures at <= toks[k].pos <= |text|
    ensures Rewritten(h, text, toks, k + 1) == out + text[at..toks[k].pos] + InItsPlace(h, toks, k)
  {
    var was, pos := Reached(toks, k), toks[k].pos;
    InOrder(text, toks, k);
    Split(text, at, was, pos);
    Regroup(out, text[at..was], text[was..pos], InItsPlace(h, toks, k));
  }

  lemma ReadThrough(h: Through, text: string, toks: seq<Placed>, k: nat, out: string, at: nat)
    requires LieIn(text, toks) && k < |toks| && SoFar(h, text, toks, k, out, at) && IsReplaced(h, toks, k)
    ensures at <= toks[k].pos <= |text|
    ensures SoFar(h, text, toks, k + 1, out + text[at..toks[k].pos] + InItsPlace(h, toks, k),
                  toks[k].pos + |toks[k].token.text|)
  {
    Step(h, text, toks, k, out, at);
    InOrder(text, toks, k);
    var next := out + text[at..toks[k].pos] + InItsPlace(h, toks, k);
    Nothing(next, text, Reached(toks, k + 1));
  }

  /** A token kept leaves the text as it was. */
  lemma Kept(h: Through, text: string, toks: seq<Placed>, k: nat, out: string, at: nat)
    requires LieIn(text, toks) && k < |toks| && SoFar(h, text, toks, k, out, at) && !IsReplaced(h, toks, k)
    ensures SoFar(h, text, toks, k + 1, out, at)
  {
    var pos, end := toks[k].pos, Reached(toks, k + 1);
    InOrder(text, toks, k);
    Step(h, text, toks, k, out, at);
    Joined(out, text, at, pos, end);
  }

  lemma Joined(out: string, text: string, a: nat, b: nat, c: nat)
    requires a <= b <= c <= |text|
    ensures out + text[a..b] + text[b..c] == out + text[a..c]
  {
    Split(text, a, b, c);
    assert out + (text[a..b] + text[b..c]) == out + text[a..b] + text[b..c];
  }

  lemma Nothing(out: string, text: string, at: nat)
    requires at <= |text|
    ensures out + text[at..at] == out
  {
  }

  lemma Regroup(a: string, b: string, c: string, d: string)
    ensures a + b + c + d == a + (b + c) + d
  {
  }

  lemma Split(text: string, a: nat, b: nat, c: nat)
    requires a <= b <= c <= |text|
    ensures text[a..b] + text[b..c] == text[a..c]
  {
  }

  lemma SpelledOne(t: Token)
    ensures Spelled([t]) == t.text
  {
    assert [t][1..] == [];
    assert t.text + [] == t.text;
  }

  lemma SpelledThrough(h: Through, t: Token)
    ensures Spelled([Word(h.holder), Op_("."), t]) == h.holder + "." + t.text
  {
    assert [Word(h.holder), Op_("."), t][1..] == [Op_("."), t];
    assert [Op_("."), t][1..] == [t];
    SpelledOne(t);
    assert Spelled([Op_("."), t]) == "." + t.text;
  }
}
