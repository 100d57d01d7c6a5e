/**
 * How the precedence levels build trees: the five left-folding levels associate to the left,
 * `^` associates to the right. Also how a function call reads its aggregation modifier in
 * either of its two positions.
 */
module Precedence {
  import opened Wrappers
  import Errors
  import opened Ast
  import opened Combinators
  import opened Lexical
  import opened Ops
  import opened Fold
  import opened Grouping
  import opened Calls
  import opened Grammar
  import opened GrammarSteps
  import opened GrammarProps

  // ----- Associativity -----

  lemma TwoPairs(op1: BinaryOp, b: Expr, op2: BinaryOp, c: Expr)
    ensures [(op1, b)] + ([(op2, c)] + []) == [(op1, b), (op2, c)]
  {
  }

  /**
   * `a op1 b op2 c` on one left-folding level, with nothing of the level after `c`, is
   * `(a op1 b) op2 c`.
   */
  lemma LeftFold(dec: Errors.Decoder, l: Level, s: string,
                 t1: string, a: Expr, u1: string, op1: BinaryOp,
                 t2: string, b: Expr, u2: string, op2: BinaryOp, t3: string, c: Expr)
    requires l != PowerLevel
    requires ParseOperand(dec, l, s) == Ok(t1, a) && LevelOp(l, t1) == Ok(u1, op1)
    requires ParseOperand(dec, l, u1) == Ok(t2, b) && LevelOp(l, t2) == Ok(u2, op2)
    requires ParseOperand(dec, l, u2) == Ok(t3, c) && LevelOp(l, t3).Err?
    ensures ParseLevel(dec, l, s) == Ok(t3, BinaryExpr(op2, BinaryExpr(op1, a, b), c))
  {
    TailEnd(dec, l, t3);
    TailMore(dec, l, t2);
    TailMore(dec, l, t1);
    TwoPairs(op1, b, op2, c);
    ChainTwo(a, op1, b, op2, c);
    LevelFold(dec, l, s);
  }

  /** `a ^ b ^ c`, with no `^` after `c`, is `a ^ (b ^ c)`. */
  lemma PowerRight(dec: Errors.Decoder, s: string,
                   t1: string, a: Expr, u1: string, op1: BinaryOp,
                   t2: string, b: Expr, u2: string, op2: BinaryOp, t3: string, c: Expr)
    requires ParseAtom(dec, s) == Ok(t1, a) && LevelOp(PowerLevel, t1) == Ok(u1, op1)
    requires ParseAtom(dec, u1) == Ok(t2, b) && LevelOp(PowerLevel, t2) == Ok(u2, op2)
    requires ParseAtom(dec, u2) == Ok(t3, c) && LevelOp(PowerLevel, t3).Err?
    ensures ParsePower(dec, s) == Ok(t3, BinaryExpr(op1, a, BinaryExpr(op2, b, c)))
  {
    PowerEnd(dec, u2);
    PowerMore(dec, u1);
    PowerMore(dec, s);
  }

  /** A single operand with no operator of the level after it is the level's result, unchanged. */
  lemma LoneOperand(dec: Errors.Decoder, l: Level, s: string, t: string, a: Expr)
    requires l != PowerLevel
    requires ParseOperand(dec, l, s) == Ok(t, a) && LevelOp(l, t).Err?
    ensures ParseLevel(dec, l, s) == Ok(t, a)
  {
    TailEnd(dec, l, t);
    LevelFold(dec, l, s);
  }

  lemma ChainOne(a: Expr, op: BinaryOp, b: Expr)
    ensures Chain(a, [(op, b)]) == BinaryExpr(op, a, b)
  {
    assert [(op, b)][..0] == [];
  }

  /** `a op b` on one left-folding level, with nothing of the level after `b`. */
  lemma SingleOperator(dec: Errors.Decoder, l: Level, s: string,
                       t1: string, a: Expr, u1: string, op: BinaryOp, t2: string, b: Expr)
    requires l != PowerLevel
    requires ParseOperand(dec, l, s) == Ok(t1, a) && LevelOp(l, t1) == Ok(u1, op)
    requires ParseOperand(dec, l, u1) == Ok(t2, b) && LevelOp(l, t2).Err?
    ensures ParseLevel(dec, l, s) == Ok(t2, BinaryExpr(op, a, b))
  {
    TailEnd(dec, l, t2);
    TailMore(dec, l, t1);
    assert [(op, b)] + [] == [(op, b)];
    ChainOne(a, op, b);
    LevelFold(dec, l, s);
  }

  /** The operands of `+`/`-` are products, and the operands of `*`/`/`/`%` are powers. */
  lemma SumOperand(dec: Errors.Decoder, s: string)
    ensures ParseOperand(dec, PlusMinusLevel, s) == ParseLevel(dec, MulDivModLevel, s)
    ensures ParseOperand(dec, MulDivModLevel, s) == ParsePower(dec, s)
  {
  }

  /**
   * `a + b * c`: the tighter level is parsed first, so the product is the right operand of the
   * sum.
   */
  lemma TighterInside(dec: Errors.Decoder, s: string,
                      t1: string, a: Expr, u1: string, op1: BinaryOp,
                      t2: string, b: Expr, u2: string, op2: BinaryOp, t3: string, c: Expr)
    requires ParseLevel(dec, MulDivModLevel, s) == Ok(t1, a) && LevelOp(PlusMinusLevel, t1) == Ok(u1, op1)
    requires ParsePower(dec, u1) == Ok(t2, b) && LevelOp(MulDivModLevel, t2) == Ok(u2, op2)
    requires ParsePower(dec, u2) == Ok(t3, c) && LevelOp(MulDivModLevel, t3).Err?
    requires LevelOp(PlusMinusLevel, t3).Err?
    ensures ParseLevel(dec, PlusMinusLevel, s) == Ok(t3, BinaryExpr(op1, a, BinaryExpr(op2, b, c)))
  {
    SumOperand(dec, u1);
    SumOperand(dec, u2);
    SingleOperator(dec, MulDivModLevel, u1, t2, b, u2, op2, t3, c);
    SumOperand(dec, s);
    SingleOperator(dec, PlusMinusLevel, s, t1, a, u1, op1, t3, BinaryExpr(op2, b, c));
  }

  // ----- The aggregation modifier before or after the arguments -----

  /** The keyword of an aggregation starts with a letter. */
  lemma KeywordText(a: AggregationAction, z: string)
    ensures var x := AggregationText(a) + z;
      x != [] && !IsSpace(x[0]) && SkipWs(x) == x && Tag("(", x).Err? && !NameChar(' ', MetricPunct)
  {
    var x := AggregationText(a) + z;
    assert x[0] == AggregationText(a)[0];
  }

  /** A name followed by a character that cannot continue it is read as that name. */
  lemma NameThen(n: string, u: string)
    requires IsName(n, MetricPunct) && u != [] && !NameChar(u[0], MetricPunct)
    ensures ParseMetricName(n + u) == Ok(u, n)
  {
    RecognizeNameRoundTrip(n, u, MetricPunct);
  }

  /** Whitespace before the keyword is skipped. */
  lemma ModifierAfterSpace(x: string)
    requires SkipWs(x) == x && AggregationKeyword(x).Ok?
    ensures ParseAggregationModifier(" " + x) == ParseAggregationModifier(x)
  {
    SkipWsSpace(x);
  }

  /** The text of a modifier, `by (l1, …)` or `without (l1, …)`, then `t`. */
  function AggregationClause(a: AggregationAction, ls: seq<string>, t: string): string {
    AggregationText(a) + (" " + (GroupingText(ls) + t))
  }

  lemma AggregationClauseFacts(a: AggregationAction, ls: seq<string>, t: string)
    requires AllLabelNames(ls)
    ensures var m := AggregationClause(a, ls, t);
      SkipWs(m) == m && SkipWs(" " + m) == m && Tag("(", m).Err? &&
      ParseAggregationModifier(m) == Ok(SkipWs(t), AggregationModifier(a, ls)) &&
      ParseAggregationModifier(" " + m) == Ok(SkipWs(t), AggregationModifier(a, ls))
  {
    var m := AggregationClause(a, ls, t);
    KeywordText(a, " " + (GroupingText(ls) + t));
    SkipWsSpace(m);
    AggregationRoundTrip(a, ls, t);
    ModifierAfterSpace(m);
  }

  /** The body comes first: `n() by (…)`. */
  lemma ModifierAfterBody(dec: Errors.Decoder, n: string, a: AggregationAction, ls: seq<string>, t: string)
    requires IsName(n, MetricPunct) && AllLabelNames(ls)
    ensures ParseFunctionCall(dec, n + ("()" + (" " + AggregationClause(a, ls, t)))) ==
      Ok(SkipWs(t), FunCall(n, [], Some(AggregationModifier(a, ls))))
  {
    var m := AggregationClause(a, ls, t);
    var x := "()" + (" " + m);
    AggregationClauseFacts(a, ls, t);
    EmptyBody(dec, " " + m);
    BodyThenModifier(dec, x);
    NameThenParen(n, x);
    CallOf(dec, n + x);
  }

  /** The modifier comes first: `n by (…) ()`. */
  lemma ModifierBeforeBody(dec: Errors.Decoder, n: string, a: AggregationAction, ls: seq<string>, t: string)
    requires IsName(n, MetricPunct) && AllLabelNames(ls)
    ensures ParseFunctionCall(dec, n + (" " + AggregationClause(a, ls, "()" + t))) ==
      Ok(SkipWs(t), FunCall(n, [], Some(AggregationModifier(a, ls))))
  {
    var m := AggregationClause(a, ls, "()" + t);
    var y := " " + m;
    AggregationClauseFacts(a, ls, "()" + t);
    ParensText(t);
    BodyNotHere(dec, y);
    EmptyBody(dec, t);
    ModifierThenBody(dec, y);
    KeywordText(a, "");
    NameThen(n, y);
    CallOf(dec, n + y);
  }
}
