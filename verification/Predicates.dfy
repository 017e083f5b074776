/** The predicates an intent carries, and their strictly typed evaluation.
    Models xair/core/context_validator.py. */
module Predicates {
  import opened Wrappers
  import opened ContextTree

  datatype Op = Eq | Ne | Lt | Le | Gt | Ge

  datatype Literal = LBool(b: bool) | LNumber(r: real) | LStr(s: string)

  datatype Condition = Condition(op: Op, literal: Literal)

  /** A predicate: its text, the path its text starts with ([] if none), and the comparison it parses
      to, if it parses. The path of a predicate that parses is the one its text starts with. */
  datatype Expr = Expr(text: string, path: Path, condition: Option<Condition>)

  /** What Python's float() makes of a string; nothing is assumed about it. */
  const NumberOf: string -> Option<real>

  function Lower(s: string): string {
    seq(|s|, i requires 0 <= i < |s| => if 'A' <= s[i] <= 'Z' then (s[i] as int + 32) as char else s[i])
  }

  /** Operands of a comparison, after alignment. */
  datatype Operand = OBool(b: bool) | ONumber(r: real) | OStr(s: string) | OOther

  function AsOperand(v: Value): Operand {
    match v
    case Bool(b) => OBool(b)
    case Int(n) => ONumber(n as real)
    case Float(r) => ONumber(r)
    case Str(s) => OStr(s)
    case _ => OOther
  }

  function LiteralOperand(l: Literal): Operand {
    match l
    case LBool(b) => OBool(b)
    case LNumber(r) => ONumber(r)
    case LStr(s) => OStr(s)
  }

  function NumberIn(s: string): Option<Operand> {
    var x := NumberOf(s);
    if x.Some? then Some(ONumber(x.value)) else None
  }

  /** Snapshots may report Booleans and numbers as strings: the left side, aligned with the right one. None is
      the ill-typed case. */
  function AlignLeft(left: Operand, right: Operand): Option<Operand> {
    if !left.OStr? then Some(left)
    else if right.ONumber? then NumberIn(left.s)
    else if right.OBool? && Lower(left.s) in {"true", "false"} then Some(OBool(Lower(left.s) == "true"))
    else Some(left)
  }

  /** The right side: a string next to a number is read as a number. */
  function AlignRight(left: Operand, right: Operand): Option<Operand> {
    if left.ONumber? && right.OStr? then NumberIn(right.s) else Some(right)
  }

  predicate IsOrdering(op: Op) { op.Lt? || op.Le? || op.Gt? || op.Ge? }

  predicate Ordered(op: Op, a: real, b: real) {
    match op
    case Lt => a < b
    case Le => a <= b
    case Gt => a > b
    case _ => a >= b
  }

  predicate Comparable(l: Operand, r: Operand) {
    !l.OOther? && l.OBool? == r.OBool? && l.ONumber? == r.ONumber? && l.OStr? == r.OStr?
  }

  datatype Verdict = Holds | IsFalse | EmptyExpression | Unsupported | MissingPath | IllTyped

  function Answer(b: bool): Verdict { if b then Holds else IsFalse }

  /** The comparison of two aligned operands. */
  function Assess(op: Op, l: Operand, r: Operand): Verdict {
    if IsOrdering(op) then (if l.ONumber? && r.ONumber? then Answer(Ordered(op, l.r, r.r)) else IllTyped)
    else if Comparable(l, r) then Answer((l == r) == op.Eq?)
    else IllTyped
  }

  /** The comparison of one resolved value; every failure mode is closed. */
  function Judge(left: Option<Value>, c: Condition): Verdict {
    if left.None? || left.value.Null? then MissingPath
    else
      var l := AlignLeft(AsOperand(left.value), LiteralOperand(c.literal));
      var r := AlignRight(AsOperand(left.value), LiteralOperand(c.literal));
      if l.None? || r.None? then IllTyped else Assess(c.op, l.value, r.value)
  }

  /** Evaluation of one predicate. */
  function CheckExpression(e: Expr, ctx: Tree): Verdict {
    if e.text == "" then EmptyExpression
    else if e.condition.None? || e.path == [] then Unsupported
    else Judge(Look(ctx, e.path), e.condition.value)
  }

  predicate Truth(e: Expr, ctx: Tree) { CheckExpression(e, ctx) == Holds }

  predicate AllTrue(es: seq<Expr>, ctx: Tree) {
    forall i | 0 <= i < |es| :: Truth(es[i], ctx)
  }

  /** Conjunctive evaluation: safety constraints first, then preconditions, stopping at the first
      failure. `expired(k)` says whether the time budget was spent before the k-th evaluation. */
  method EvaluatePredicates(safety: seq<Expr>, preconditions: seq<Expr>, ctx: Tree, expired: nat -> bool)
    returns (ok: bool)
    ensures ok <==> AllTrue(safety + preconditions, ctx)
                    && forall k :: 0 <= k < |safety + preconditions| ==> !expired(k)
  {
    var all := safety + preconditions;
    for i := 0 to |all|
      invariant forall j :: 0 <= j < i ==> Truth(all[j], ctx) && !expired(j)
    {
      if expired(i) || CheckExpression(all[i], ctx) != Holds {
        return false;
      }
    }
    return true;
  }

  lemma SameSightSameOperand(a: Value, b: Value)
    requires SameSight(Some(a), Some(b))
    ensures AsOperand(a) == AsOperand(b) && (a.Null? <==> b.Null?)
  {
  }

  /** The frame property of evaluation: a predicate whose path no changed path is related to keeps
      its truth value across the merge. */
  lemma TruthFrame(e: Expr, ctx: Tree, patch: Tree)
    requires !Touches(ChangedPaths(ctx, patch), e.path)
    ensures Truth(e, ctx) == Truth(e, Merge(ctx, patch))
  {
    if e.path != [] {
      Frame(ctx, patch, e.path);
      var a, b := Look(ctx, e.path), Look(Merge(ctx, patch), e.path);
      if a.Some? {
        SameSightSameOperand(a.value, b.value);
      }
    }
  }

  /** A predicate reads nothing outside the subtree of its first segment. */
  lemma TruthNeedsOnlyItsRoot(e: Expr, a: Tree, b: Tree)
    requires e.path != [] ==> (e.path[0] in a.fields <==> e.path[0] in b.fields)
    requires e.path != [] && e.path[0] in a.fields ==> a.fields[e.path[0]] == b.fields[e.path[0]]
    ensures Truth(e, a) == Truth(e, b)
  {
  }

  // ---------------------------------------------------------------- what truth means

  /** The string reads `low` in any mix of upper and lower case; `up` is `low` in upper case. */
  predicate Spells(s: string, low: string, up: string) {
    |s| == |low| == |up| && forall i :: 0 <= i < |s| ==> s[i] == low[i] || s[i] == up[i]
  }

  lemma LowerSpells(s: string)
    ensures Lower(s) == "true" <==> Spells(s, "true", "TRUE")
    ensures Lower(s) == "false" <==> Spells(s, "false", "FALSE")
  {
    var low := Lower(s);
    if |s| == 4 && Spells(s, "true", "TRUE") {
      assert low == "true";
    }
    if |s| == 5 && Spells(s, "false", "FALSE") {
      assert low == "false";
    }
    if low == "true" {
      assert forall i :: 0 <= i < 4 ==> low[i] == "true"[i];
    }
    if low == "false" {
      assert forall i :: 0 <= i < 5 ==> low[i] == "false"[i];
    }
  }

  /** The number a value counts as next to a number: itself, or what a string converts to. A Boolean is none. */
  predicate CountsAs(v: Value, x: real) {
    v == Float(x) || (v.Int? && v.n as real == x) || (v.Str? && NumberOf(v.s) == Some(x))
  }

  /** The number a literal counts as next to a value: a string literal only next to a number. */
  predicate LiteralCountsAs(v: Value, l: Literal, y: real) {
    l == LNumber(y) || (l.LStr? && (v.Int? || v.Float?) && NumberOf(l.s) == Some(y))
  }

  /** The predicate parses, and there is something at its path. */
  predicate Evaluates(e: Expr, ctx: Tree) {
    e.text != "" && e.condition.Some? && e.path != [] && Look(ctx, e.path).Some?
  }

  /** Numbers are compared as numbers, with each of the six operators, integers and floats alike; a string on
      one side counts as the number it converts to. */
  lemma NumbersCompare(e: Expr, ctx: Tree, x: real, y: real)
    requires Evaluates(e, ctx)
    requires CountsAs(Look(ctx, e.path).value, x) && LiteralCountsAs(Look(ctx, e.path).value, e.condition.value.literal, y)
    ensures e.condition.value.op == Eq ==> (Truth(e, ctx) <==> x == y)
    ensures e.condition.value.op == Ne ==> (Truth(e, ctx) <==> x != y)
    ensures e.condition.value.op == Lt ==> (Truth(e, ctx) <==> x < y)
    ensures e.condition.value.op == Le ==> (Truth(e, ctx) <==> x <= y)
    ensures e.condition.value.op == Gt ==> (Truth(e, ctx) <==> x > y)
    ensures e.condition.value.op == Ge ==> (Truth(e, ctx) <==> x >= y)
  {
  }

  /** A string is compared with a string literal letter by letter, for equality only. */
  lemma StringsCompare(e: Expr, ctx: Tree, s: string, t: string)
    requires Evaluates(e, ctx) && Look(ctx, e.path) == Some(Str(s)) && e.condition.value.literal == LStr(t)
    ensures Truth(e, ctx) <==> (e.condition.value.op == Eq && s == t) || (e.condition.value.op == Ne && s != t)
  {
  }

  /** A Boolean, or a string that spells one, is compared with a Boolean literal, for equality only. */
  lemma BooleansCompare(e: Expr, ctx: Tree, b: bool, c: bool)
    requires Evaluates(e, ctx) && e.condition.value.literal == LBool(c)
    requires var v := Look(ctx, e.path).value;
             || v == Bool(b)
             || (v.Str? && Spells(v.s, "true", "TRUE") && b)
             || (v.Str? && Spells(v.s, "false", "FALSE") && !b)
    ensures Truth(e, ctx) <==> (e.condition.value.op == Eq && b == c) || (e.condition.value.op == Ne && b != c)
  {
    if Look(ctx, e.path).value.Str? {
      LowerSpells(Look(ctx, e.path).value.s);
    }
  }

  /** A value and a literal that can be compared at all. */
  ghost predicate Matched(v: Value, l: Literal) {
    || (exists x, y :: CountsAs(v, x) && LiteralCountsAs(v, l, y))
    || (v.Str? && l.LStr?)
    || (v.Bool? && l.LBool?)
    || (v.Str? && l.LBool? && (Spells(v.s, "true", "TRUE") || Spells(v.s, "false", "FALSE")))
  }

  /** Everything else is false: predicates that do not parse, missing values, and every pairing not named above. */
  lemma ElseFalse(e: Expr, ctx: Tree)
    requires Truth(e, ctx)
    ensures Evaluates(e, ctx) && Matched(Look(ctx, e.path).value, e.condition.value.literal)
  {
    var v, l := Look(ctx, e.path).value, e.condition.value.literal;
    if v.Str? {
      LowerSpells(v.s);
    }
    var x := if v.Int? then v.n as real else if v.Float? then v.r else if v.Str? && NumberOf(v.s).Some? then NumberOf(v.s).value else 0.0;
    var y := if l.LNumber? then l.r else if l.LStr? && NumberOf(l.s).Some? then NumberOf(l.s).value else 0.0;
    assert CountsAs(v, x) && LiteralCountsAs(v, l, y) ==> exists x, y :: CountsAs(v, x) && LiteralCountsAs(v, l, y);
  }

  /** Strict typing, spelled out: a true predicate had a present, comparable operand. */
  lemma TruthIsTyped(e: Expr, ctx: Tree)
    requires Truth(e, ctx)
    ensures var v := Look(ctx, e.path);
            && e.path != [] && e.condition.Some? && v.Some? && !v.value.Null? && !v.value.Obj? && !v.value.Arr?
            && (IsOrdering(e.condition.value.op) ==> !v.value.Bool? && !e.condition.value.literal.LBool?)
            && (v.value.Bool? <==> e.condition.value.literal.LBool? && !v.value.Str?)
  {
  }
}
