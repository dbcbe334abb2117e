/** The expression language's tree, as scripts/flowexpr.py builds it (its module comment lists the nodes). */
module Syntax {
  import opened Wrappers

  /** A number's literal: an int, or a decimal kept as its text. */
  datatype NumLit = Whole(n: nat) | Decimal(text: string)

  datatype Op = Implies | Or | And | Eq | Ne | Lt | Le | Gt | Ge | Add | Sub | Mul | Div

  predicate IsComparison(op: Op) {
    op.Eq? || op.Ne? || op.Lt? || op.Le? || op.Gt? || op.Ge?
  }

  predicate IsArithmetic(op: Op) {
    op.Add? || op.Sub? || op.Mul? || op.Div?
  }

  /** `Null` and `Unknown` are not parsed: the first is what a `clear` leaves, the second what a write leaves where
      the analysis cannot follow it. */
  datatype Expr =
    | Num(lit: NumLit)
    | Str(text: string)
    | Bool(b: bool)
    | Dur(count: NumLit, unit: string)
    | Money(ccy: string, amount: string)
    | Name(name: string)
    | Path(base: Expr, member: string)
    | Call(fn: Expr, args: seq<Expr>)
    | Agg(kind: string, distinct: bool, binder: Option<string>,
          coll: Option<Expr>, where: Option<Expr>, body: Option<Expr>)
    | Metric(metric: Expr, binds: seq<(string, Expr)>, over: Option<Expr>, fresh_: Option<Expr>)
    | Changed(names: seq<string>, event: Expr)
    | SetLit(items: seq<Expr>)
    | Not(e: Expr)
    | Neg(e: Expr)
    | IsNull(e: Expr, negated: bool)
    | In(left: Expr, right: Expr)
    | Bin(op: Op, left: Expr, right: Expr)
    | If(cond: Expr, thn: Expr, els: Expr)
    | Null
    | Unknown

  /** The number a run of decimal digits writes. */
  function Digits(text: string): nat {
    if |text| == 0 then 0
    else
      var c := text[|text| - 1];
      Digits(text[..|text| - 1]) * 10 + (if '0' <= c <= '9' then (c as int) - ('0' as int) else 0)
  }

  function PowerOfTen(n: nat): (p: nat)
    ensures p >= 1
  {
    if n == 0 then 1 else 10 * PowerOfTen(n - 1)
  }

  /** The position of a decimal's point, its length where it has none. */
  function PointAt(text: string): (k: nat)
    ensures k <= |text|
  {
    if |text| == 0 then 0 else if text[0] == '.' then 0 else 1 + PointAt(text[1..])
  }

  /** The value of a decimal's text, `19.99`. */
  function DecimalValue(text: string): real {
    var k := PointAt(text);
    var fraction := if k < |text| then text[k + 1..] else "";
    Digits(text[..k]) as real + Digits(fraction) as real / PowerOfTen(|fraction|) as real
  }

  function LitValue(l: NumLit): real {
    match l
    case Whole(n) => n as real
    case Decimal(text) => DecimalValue(text)
  }

  /** The bare names an expression reads at the start of a path, a loop's own binder excepted (scripts/flowlogic.py,
      `names_in`). */
  function NamesIn(e: Expr): set<string> {
    match e
    case Name(n) => {n}
    case Path(base, _) => NamesIn(base)
    case Agg(_, _, binder, coll, where, body) =>
      OptionalNames(coll) + ((OptionalNames(where) + OptionalNames(body)) - (if binder.Some? then {binder.value} else {}))
    case Metric(_, binds, _, _) => set i, n | 0 <= i < |binds| && n in NamesIn(binds[i].1) :: n
    case Changed(names, event) => (set n | n in names) + NamesIn(event)
    case Call(fn, args) =>
      (if fn.Name? then {} else NamesIn(fn)) + set i, n | 0 <= i < |args| && n in NamesIn(args[i]) :: n
    case SetLit(items) => set i, n | 0 <= i < |items| && n in NamesIn(items[i]) :: n
    case Not(x) => NamesIn(x)
    case Neg(x) => NamesIn(x)
    case IsNull(x, _) => NamesIn(x)
    case In(l, r) => NamesIn(l) + NamesIn(r)
    case Bin(_, l, r) => NamesIn(l) + NamesIn(r)
    case If(c, a, b) => NamesIn(c) + NamesIn(a) + NamesIn(b)
    case _ => {}
  }

  function OptionalNames(e: Option<Expr>): set<string> {
    match e case Some(x) => NamesIn(x) case None => {}
  }

  /** The names an expression turns on, a loop's own binder excepted. */
  function FreeNames(e: Expr): set<string> {
    match e
    case Name(n) => {n}
    case Path(base, _) => FreeNames(base)
    case Agg(_, _, binder, coll, where, body) =>
      OptionalFree(coll) + ((OptionalFree(where) + OptionalFree(body)) - BinderOf(binder))
    case Metric(metric, binds, over, fresh_) =>
      FreeNames(metric) + OptionalFree(over) + OptionalFree(fresh_)
      + set i, n | 0 <= i < |binds| && n in FreeNames(binds[i].1) :: n
    case Changed(names, event) => (set n | n in names) + FreeNames(event)
    case Call(fn, args) =>
      (if fn.Name? then {} else FreeNames(fn)) + set i, n | 0 <= i < |args| && n in FreeNames(args[i]) :: n
    case SetLit(items) => set i, n | 0 <= i < |items| && n in FreeNames(items[i]) :: n
    case Not(x) => FreeNames(x)
    case Neg(x) => FreeNames(x)
    case IsNull(x, _) => FreeNames(x)
    case In(l, r) => FreeNames(l) + FreeNames(r)
    case Bin(_, l, r) => FreeNames(l) + FreeNames(r)
    case If(c, a, b) => FreeNames(c) + FreeNames(a) + FreeNames(b)
    case _ => {}
  }

  function OptionalFree(e: Option<Expr>): set<string> {
    match e case Some(x) => FreeNames(x) case None => {}
  }

  function InnerFree(where: Option<Expr>, body: Option<Expr>): set<string> {
    OptionalFree(where) + OptionalFree(body)
  }

  function BinderOf(binder: Option<string>): set<string> {
    match binder case Some(b) => {b} case None => {}
  }
}
