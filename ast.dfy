/**
 * The PromQL syntax tree produced by the parser, with the `Default` values and the builder
 * helpers of the `ast` module, and the shape invariant every successful parse establishes.
 */
module Ast {
  import opened Wrappers

  /** `std::time::Duration`: whole seconds and the sub-second part in nanoseconds. */
  datatype Duration = Duration(secs: nat, nanos: nat)

  /**
   * The value of a number literal. The source stores an `f64`; the model keeps the decimal
   * value exactly and the two non-finite values the grammar can produce.
   */
  datatype Number = Finite(x: real) | NaN | Infinity

  datatype NumberLiteral = NumberLiteral(value: Number)

  /** A string literal keeps the raw text between its delimiters, escapes included. */
  datatype StringLiteral = StringLiteral(value: string)

  /** `BinaryModifierAction`: `on (…)` or `ignoring (…)`. */
  datatype ModifierAction = On | Ignore

  /** `BinaryModifierGroupSide`: `group_left` or `group_right`. */
  datatype GroupSide = Left | Right

  datatype ModifierGroup = ModifierGroup(side: GroupSide, labels: seq<string>)

  datatype BinaryModifier = BinaryModifier(action: ModifierAction, labels: seq<string>, group: Option<ModifierGroup>)

  /** The fifteen binary operators; comparisons also carry the `bool` flag. */
  datatype BinaryOp =
    | Add(modifier: Option<BinaryModifier>)
    | Sub(modifier: Option<BinaryModifier>)
    | Mul(modifier: Option<BinaryModifier>)
    | Div(modifier: Option<BinaryModifier>)
    | Mod(modifier: Option<BinaryModifier>)
    | Power(modifier: Option<BinaryModifier>)
    | Equal(returnBool: bool, modifier: Option<BinaryModifier>)
    | NotEqual(returnBool: bool, modifier: Option<BinaryModifier>)
    | GreaterThan(returnBool: bool, modifier: Option<BinaryModifier>)
    | LessThan(returnBool: bool, modifier: Option<BinaryModifier>)
    | GreaterEqual(returnBool: bool, modifier: Option<BinaryModifier>)
    | LessEqual(returnBool: bool, modifier: Option<BinaryModifier>)
    | And(modifier: Option<BinaryModifier>)
    | Or(modifier: Option<BinaryModifier>)
    | Unless(modifier: Option<BinaryModifier>)
  {
    predicate IsComparison() {
      Equal? || NotEqual? || GreaterThan? || LessThan? || GreaterEqual? || LessEqual?
    }
  }

  /** `LabelMatcherOp`; `Unset` is the source's `None` variant, the default. */
  datatype LabelMatcherOp = Unset | Equal | NotEqual | Regexp | NotRegexp

  datatype LabelMatcher = LabelMatcher(op: LabelMatcherOp, name: string, value: string)

  datatype Vector = Vector(name: string, labelMatchers: seq<LabelMatcher>, offset: Option<Duration>, range: Option<Duration>)

  /** `AggregationModifierAction`. */
  datatype AggregationAction = Without | By

  datatype AggregationModifier = AggregationModifier(action: AggregationAction, labels: seq<string>)

  datatype Expr =
    | BinaryExpr(op: BinaryOp, lhs: Expr, rhs: Expr)
    | FunCallExpr(call: FunCall)
    | VectorExpr(vector: Vector)
    | NumberLiteralExpr(number: NumberLiteral)
    | StringLiteralExpr(str: StringLiteral)
    | SubQueryExpr(expr: Expr, range: Option<Duration>, resolution: Option<Duration>)
    | NegationExpr(inner: Expr)

  datatype FunCall = FunCall(name: string, args: seq<Expr>, aggregation: Option<AggregationModifier>)

  // ----- Default values -----

  function DefaultExpr(): (e: Expr)
    ensures e.NumberLiteralExpr? && e.number.value == Finite(0.0)
  {
    NumberLiteralExpr(NumberLiteral(Finite(0.0)))
  }

  function DefaultBinaryOp(): (op: BinaryOp)
    ensures op.Add? && op.modifier.None?
  {
    Add(None)
  }

  function DefaultBinaryModifier(): (m: BinaryModifier)
    ensures m.action == On && m.labels == [] && m.group.None?
  {
    BinaryModifier(On, [], None)
  }

  function DefaultModifierGroup(): (g: ModifierGroup)
    ensures g.side == Left && g.labels == []
  {
    ModifierGroup(Left, [])
  }

  function DefaultLabelMatcher(): (m: LabelMatcher)
    ensures m.op == Unset && m.name == [] && m.value == []
  {
    LabelMatcher(Unset, "", "")
  }

  function DefaultVector(): (v: Vector)
    ensures v.name == [] && v.labelMatchers == [] && v.offset.None? && v.range.None?
  {
    Vector("", [], None, None)
  }

  function DefaultAggregationModifier(): (m: AggregationModifier)
    ensures m.action == Without && m.labels == []
  {
    AggregationModifier(Without, [])
  }

  function DefaultFunCall(): (c: FunCall)
    ensures c.name == [] && c.args == [] && c.aggregation.None?
  {
    FunCall("", [], None)
  }

  // ----- Builders: each fills the named fields and takes the rest from the default -----

  function SubqueryExprOf(expr: Expr, range: Option<Duration>, resolution: Option<Duration>): (e: Expr)
    ensures e.SubQueryExpr? && e.expr == expr && e.range == range && e.resolution == resolution
  {
    SubQueryExpr(expr, range, resolution)
  }

  function FunCallExprOf(c: FunCall): (e: Expr)
    ensures e.FunCallExpr? && e.call == c
  {
    FunCallExpr(c)
  }

  function BinaryExprOf(op: BinaryOp, lhs: Expr, rhs: Expr): (e: Expr)
    ensures e.BinaryExpr? && e.op == op && e.lhs == lhs && e.rhs == rhs
  {
    BinaryExpr(op, lhs, rhs)
  }

  function NumberLiteralExprOf(x: real): (e: Expr)
    ensures e.NumberLiteralExpr? && e.number.value == Finite(x)
  {
    NumberLiteralExpr(NumberLiteral(Finite(x)))
  }

  function VectorExprOf(v: Vector): (e: Expr)
    ensures e.VectorExpr? && e.vector == v
  {
    VectorExpr(v)
  }

  function BinaryModifierOf(action: ModifierAction, labels: seq<string>): (m: BinaryModifier)
    ensures m == DefaultBinaryModifier().(action := action, labels := labels)
  {
    BinaryModifier(action, labels, None)
  }

  function BinaryGroupModifier(action: ModifierAction, labels: seq<string>, group: ModifierGroup): (m: BinaryModifier)
    ensures m == BinaryModifierOf(action, labels).(group := Some(group))
  {
    BinaryModifier(action, labels, Some(group))
  }

  function GroupRight(labels: seq<string>): (g: ModifierGroup)
    ensures g == DefaultModifierGroup().(side := Right, labels := labels)
  {
    ModifierGroup(Right, labels)
  }

  function GroupLeft(labels: seq<string>): (g: ModifierGroup)
    ensures g == DefaultModifierGroup().(labels := labels)
  {
    ModifierGroup(Left, labels)
  }

  /** `v(name)`: a plain instant selector. */
  function V(name: string): (v: Vector)
    ensures v == DefaultVector().(name := name)
  {
    Vector(name, [], None, None)
  }

  /** `v_r(name, range)`: a range selector without matchers. */
  function VR(name: string, range: Duration): (v: Vector)
    ensures v == V(name).(range := Some(range))
  {
    Vector(name, [], None, Some(range))
  }

  function VectorLabels(name: string, matchers: seq<LabelMatcher>): (v: Vector)
    ensures v == V(name).(labelMatchers := matchers)
  {
    Vector(name, matchers, None, None)
  }

  function VectorLabelsRange(name: string, matchers: seq<LabelMatcher>, range: Option<Duration>): (v: Vector)
    ensures v == VectorLabels(name, matchers).(range := range)
  {
    Vector(name, matchers, None, range)
  }

  /** `vector(name)`: the same selector `v(name)` builds. */
  function NamedVector(name: string): (v: Vector)
    ensures v == V(name) && v == VectorLabels(name, [])
  {
    Vector(name, [], None, None)
  }

  function FunCallOf(name: string, args: seq<Expr>): (c: FunCall)
    ensures c == DefaultFunCall().(name := name, args := args)
  {
    FunCall(name, args, None)
  }

  function FunCallAgg(name: string, args: seq<Expr>, aggregation: Option<AggregationModifier>): (c: FunCall)
    ensures c == FunCallOf(name, args).(aggregation := aggregation)
  {
    FunCall(name, args, aggregation)
  }

  function StringLiteralOf(value: string): (s: StringLiteral)
    ensures s.value == value
  {
    StringLiteral(value)
  }

  function NumberLiteralOf(x: real): (n: NumberLiteral)
    ensures n.value == Finite(x)
  {
    NumberLiteral(Finite(x))
  }

  // ----- Shape of a parsed tree -----

  /** Every matcher carries an operator. */
  predicate OperatorsSet(ms: seq<LabelMatcher>) {
    forall i :: 0 <= i < |ms| ==> ms[i].op != Unset
  }

  lemma OperatorsSetCons(m: LabelMatcher, ms: seq<LabelMatcher>)
    requires m.op != Unset && OperatorsSet(ms)
    ensures OperatorsSet([m] + ms)
  {
  }

  /**
   * A call argument the parser discards: a selector with an empty name and no label matchers
   * (the empty fallback of the atom parser), whatever its range and offset.
   */
  predicate IsPhantom(e: Expr) {
    e.VectorExpr? && e.vector.name == [] && e.vector.labelMatchers == []
  }

  /**
   * The shape every tree the expression parser returns has: string literals occur only as call
   * arguments, call arguments are never phantoms, every label matcher has an operator and every
   * subquery has both its range and its resolution.
   */
  predicate WellFormed(e: Expr)
    decreases e, 1
  {
    match e
    case BinaryExpr(_, lhs, rhs) => WellFormed(lhs) && WellFormed(rhs)
    case FunCallExpr(c) => forall i :: 0 <= i < |c.args| ==> WellFormedArg(c.args[i])
    case VectorExpr(v) => OperatorsSet(v.labelMatchers)
    case NumberLiteralExpr(_) => true
    case StringLiteralExpr(_) => false
    case SubQueryExpr(x, range, resolution) => range.Some? && resolution.Some? && WellFormed(x)
    case NegationExpr(x) => WellFormed(x)
  }

  predicate WellFormedArg(e: Expr)
    decreases e, 2
  {
    e.StringLiteralExpr? || (WellFormed(e) && !IsPhantom(e))
  }

  // Each constructor the parser builds keeps the shape.

  lemma BinaryWellFormed(op: BinaryOp, lhs: Expr, rhs: Expr)
    requires WellFormed(lhs) && WellFormed(rhs)
    ensures WellFormed(BinaryExpr(op, lhs, rhs))
  {
  }

  lemma NumberWellFormed(n: NumberLiteral)
    ensures WellFormed(NumberLiteralExpr(n))
  {
  }

  lemma VectorWellFormed(v: Vector)
    requires OperatorsSet(v.labelMatchers)
    ensures WellFormed(VectorExpr(v))
  {
  }

  lemma NegationWellFormed(e: Expr)
    requires WellFormed(e)
    ensures WellFormed(NegationExpr(e))
  {
  }

  lemma CallWellFormed(c: FunCall)
    requires forall i :: 0 <= i < |c.args| ==> WellFormedArg(c.args[i])
    ensures WellFormed(FunCallExpr(c))
  {
  }

  lemma SubqueryWellFormed(e: Expr, range: Duration, resolution: Duration)
    requires WellFormed(e)
    ensures WellFormed(SubQueryExpr(e, Some(range), Some(resolution)))
  {
  }
}
