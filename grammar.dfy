/**
 * The expression grammar: the subquery suffix and the atoms (`parse_expr`, `parse_atom`), the
 * precedence levels (`parse_power` … `parse_or`) and function calls with their arguments. The
 * parsers are mutually recursive; each recursive call is made on a shorter input or, on the
 * same input, on a parser of lower rank.
 *
 * Every parser here takes the duration decoder `dec` the selector grammar delegates to.
 */
module Grammar {
  import opened Wrappers
  import Errors
  import opened Ast
  import opened Combinators
  import opened Lexical
  import opened Literal
  import opened Selector
  import opened Ops
  import opened Fold
  import opened Calls

  /** The failures no alternative recovers from: a rejected duration or an exponent without digits. */
  predicate FatalError(e: Errors.Error) {
    (e.Parser? && e.parserError.InvalidDuration?) || (e.Nom? && e.kind == Errors.Float)
  }

  /** A parser that never fails recoverably: it succeeds, fails fatally or panics. */
  predicate NoRecoverableError<T>(r: PResult<T>) {
    r.Ok? || (r.Fail? && FatalError(r.err)) || r.Panic?
  }

  /** A call argument as the argument parser reads it: a string literal or an expression. */
  predicate ArgShape(e: Expr) {
    e.StringLiteralExpr? || WellFormed(e)
  }

  /** The precedence rank of a level, for termination. */
  function Rank(l: Level): nat {
    match l
    case PowerLevel => 4
    case MulDivModLevel => 5
    case PlusMinusLevel => 6
    case CompareLevel => 7
    case AndUnlessLevel => 8
    case OrLevel => 9
  }

  // ----- parse_expr -----

  /** `[range:resolution]`, the resolution optional; whitespace is allowed around `[`, `:` and `]`. */
  function SubquerySuffix(dec: Errors.Decoder, s: string): (r: PResult<(Duration, Option<Duration>)>)
    ensures !r.Panic?
    ensures r.Ok? ==> |r.rest| < |s| && r.val.1.Some?
    ensures r.Fail? ==> FatalError(r.err)
  {
    var open := Ws(Tag("[", SkipWs(s)));
    if !open.Ok? then Propagate(open)
    else
      var range := ParseDuration(dec, open.rest);
      if !range.Ok? then Propagate(range)
      else
        var colon := Ws(Tag(":", SkipWs(range.rest)));
        if !colon.Ok? then Propagate(colon)
        else
          var resolution := Opt(ParseDuration(dec, colon.rest), colon.rest);
          if !resolution.Ok? then Propagate(resolution)
          else
            var close := Ws(Tag("]", SkipWs(resolution.rest)));
            if !close.Ok? then Propagate(close)
            else Ok(close.rest, (range.val, resolution.val))
  }

  /**
   * `parse_expr`: the loosest level, then an optional subquery suffix that wraps the expression
   * in a `SubQueryExpr` whose range is always present.
   */
  function ParseExpr(dec: Errors.Decoder, s: string): (r: PResult<Expr>)
    ensures NoRecoverableError(r)
    ensures r.Ok? ==> |r.rest| <= |s| && WellFormed(r.val)
    decreases |s|, 10, 0
  {
    var e := ParseLevel(dec, OrLevel, s);
    if !e.Ok? then Propagate(e)
    else
      match Opt(SubquerySuffix(dec, e.rest), e.rest)
      case Ok(rest, None) => Ok(rest, e.val)
      case Ok(rest, Some(sub)) =>
        SubqueryWellFormed(e.val, sub.0, sub.1.value);
        Ok(rest, SubqueryExprOf(e.val, Some(sub.0), sub.1))
      case Fail(err) => Fail(err)
  }

  // ----- The precedence levels -----

  /**
   * A left-folding level: a first operand, then `many0` of an operator of the level and another
   * operand, folded left; with no operator the first operand is returned as it is.
   */
  function ParseLevel(dec: Errors.Decoder, l: Level, s: string): (r: PResult<Expr>)
    requires l != PowerLevel
    ensures NoRecoverableError(r)
    ensures r.Ok? ==> |r.rest| <= |s| && WellFormed(r.val)
    decreases |s|, Rank(l), 2
  {
    var a := ParseOperand(dec, l, s);
    if !a.Ok? then Propagate(a)
    else
      var tail := LevelTail(dec, l, a.rest);
      if !tail.Ok? then Propagate(tail)
      else if tail.val == [] then Ok(tail.rest, a.val)
      else
        ChainWellFormed(a.val, tail.val);
        Ok(tail.rest, Chain(a.val, tail.val))
  }

  /** The operands of a level are parsed by the next tighter level. */
  function ParseOperand(dec: Errors.Decoder, l: Level, s: string): (r: PResult<Expr>)
    requires l != PowerLevel
    ensures NoRecoverableError(r)
    ensures r.Ok? ==> |r.rest| <= |s| && WellFormed(r.val)
    decreases |s|, Rank(l), 1
  {
    match l
    case MulDivModLevel => ParsePower(dec, s)
    case PlusMinusLevel => ParseLevel(dec, MulDivModLevel, s)
    case CompareLevel => ParseLevel(dec, PlusMinusLevel, s)
    case AndUnlessLevel => ParseLevel(dec, CompareLevel, s)
    case OrLevel => ParseLevel(dec, AndUnlessLevel, s)
  }

  /** `ws(parse_binary_op_…)` of a level. */
  function LevelOp(l: Level, s: string): (r: PResult<BinaryOp>)
    ensures r.Ok? || r.Err? || r.Panic?
    ensures r.Ok? ==> |r.rest| < |s| && InLevel(r.val, l)
  {
    Ws(ParseBinaryOp(l, SkipWs(s)))
  }

  /** Every operator of a tail belongs to the level. */
  predicate AllInLevel(ps: Tail, l: Level) {
    forall i :: 0 <= i < |ps| ==> InLevel(ps[i].0, l)
  }

  lemma TailCons(op: BinaryOp, c: Expr, ps: Tail, l: Level)
    requires InLevel(op, l) && WellFormed(c)
    requires AllInLevel(ps, l) && AllWellFormed(ps)
    ensures AllInLevel([(op, c)] + ps, l) && AllWellFormed([(op, c)] + ps)
  {
  }

  /**
   * `many0(tuple((ws(op), operand)))`: the pairs after the first operand. A recoverable error of
   * the operator or of the operand ends the repetition before that operator.
   */
  function LevelTail(dec: Errors.Decoder, l: Level, s: string): (r: PResult<Tail>)
    requires l != PowerLevel
    ensures NoRecoverableError(r)
    ensures r.Ok? ==> |r.rest| <= |s| && AllWellFormed(r.val) && AllInLevel(r.val, l)
    decreases |s|, Rank(l), 0
  {
    var op := LevelOp(l, s);
    if op.Err? then Ok(s, [])
    else if !op.Ok? then Propagate(op)
    else
      var c := ParseOperand(dec, l, op.rest);
      if c.Err? then Ok(s, [])
      else if !c.Ok? then Propagate(c)
      else
        var more := LevelTail(dec, l, c.rest);
        if !more.Ok? then Propagate(more)
        else
          TailCons(op.val, c.val, more.val, l);
          Ok(more.rest, [(op.val, c.val)] + more.val)
  }

  /** `parse_power`: an atom, then optionally `^` and another power; `^` associates to the right. */
  function ParsePower(dec: Errors.Decoder, s: string): (r: PResult<Expr>)
    ensures NoRecoverableError(r)
    ensures r.Ok? ==> |r.rest| <= |s| && WellFormed(r.val)
    decreases |s|, 4, 0
  {
    var a := ParseAtom(dec, s);
    if !a.Ok? then Propagate(a)
    else
      match PowerTail(dec, a.rest)
      case Ok(rest, None) => Ok(rest, a.val)
      case Ok(rest, Some(p)) =>
        BinaryWellFormed(p.0, a.val, p.1);
        Ok(rest, BinaryExprOf(p.0, a.val, p.1))
      case Fail(err) => Fail(err)
      case Panic => Panic
  }

  /** `opt(tuple((ws(parse_binary_op_power), parse_power)))`. */
  function PowerTail(dec: Errors.Decoder, s: string): (r: PResult<Option<(BinaryOp, Expr)>>)
    ensures NoRecoverableError(r)
    ensures r.Ok? ==> |r.rest| <= |s|
    ensures r.Ok? && r.val.Some? ==> r.val.value.0.Power? && WellFormed(r.val.value.1)
    decreases |s|, 0, 0
  {
    var op := LevelOp(PowerLevel, s);
    if op.Err? then Ok(s, None)
    else if !op.Ok? then Propagate(op)
    else
      var b := ParsePower(dec, op.rest);
      if !b.Ok? then Propagate(b)
      else Ok(b.rest, Some((op.val, b.val)))
  }

  // ----- parse_atom -----

  /**
   * `parse_atom`: the first alternative that does not fail recoverably among a parenthesised
   * expression, a number, unary `+`, unary `-`, a function call and a selector. The selector
   * matches the empty input, so the atom never fails recoverably.
   */
  function ParseAtom(dec: Errors.Decoder, s: string): (r: PResult<Expr>)
    ensures NoRecoverableError(r)
    ensures r.Ok? ==> |r.rest| <= |s| && WellFormed(r.val)
    decreases |s|, 3, 0
  {
    var paren := ParenAtom(dec, s);
    if !paren.Err? then paren
    else
      var number := NumberAtom(s);
      if !number.Err? then number
      else
        var plus := PlusAtom(dec, s);
        if !plus.Err? then plus
        else
          var minus := MinusAtom(dec, s);
          if !minus.Err? then minus
          else
            var call := CallAtom(dec, s);
            if !call.Err? then call
            else VectorAtom(dec, s)
  }

  /** What every alternative of the atom promises. */
  predicate AtomResult(r: PResult<Expr>, s: string) {
    (r.Ok? ==> |r.rest| < |s| && WellFormed(r.val)) && (r.Fail? ==> FatalError(r.err))
  }

  /** `ws(parse_number_literal)`. */
  function NumberAtom(s: string): (r: PResult<Expr>)
    ensures r.Ok? || r.Err? || r.Fail?
    ensures AtomResult(r, s)
  {
    var n := ParseNumberLiteral(SkipWs(s));
    if !n.Ok? then Propagate(n)
    else
      NumberWellFormed(n.val);
      Ok(SkipWs(n.rest), NumberLiteralExpr(n.val))
  }

  /** `preceded(tag("+"), parse_atom)`: the inner atom unchanged. */
  function PlusAtom(dec: Errors.Decoder, s: string): (r: PResult<Expr>)
    ensures AtomResult(r, s)
    decreases |s|, 0, 0
  {
    var plus := Tag("+", s);
    if !plus.Ok? then Propagate(plus) else ParseAtom(dec, plus.rest)
  }

  /** `preceded(tag("-"), parse_atom)`, wrapped in a negation. */
  function MinusAtom(dec: Errors.Decoder, s: string): (r: PResult<Expr>)
    ensures AtomResult(r, s)
    decreases |s|, 0, 0
  {
    var minus := Tag("-", s);
    if !minus.Ok? then Propagate(minus)
    else
      match ParseAtom(dec, minus.rest)
      case Ok(rest, e) =>
        NegationWellFormed(e);
        Ok(rest, NegationExpr(e))
      case Fail(err) => Fail(err)
      case Panic => Panic
  }

  /** `parse_function_call`, wrapped in a call expression. */
  function CallAtom(dec: Errors.Decoder, s: string): (r: PResult<Expr>)
    ensures AtomResult(r, s)
    decreases |s|, 2, 1
  {
    match ParseFunctionCall(dec, s)
    case Ok(rest, c) =>
        CallWellFormed(c);
        Ok(rest, FunCallExprOf(c))
    case Err(err) => Err(err)
    case Fail(err) => Fail(err)
    case Panic => Panic
  }

  /** `parse_vector`, wrapped in a selector expression; it matches the empty input. */
  function VectorAtom(dec: Errors.Decoder, s: string): (r: PResult<Expr>)
    ensures NoRecoverableError(r)
    ensures r.Ok? ==> |r.rest| <= |s| && WellFormed(r.val)
  {
    match ParseVector(dec, s)
    case Ok(rest, v) =>
        VectorWellFormed(v);
        Ok(rest, VectorExprOf(v))
    case Fail(err) => Fail(err)
  }

  /** `delimited(tag("("), parse_expr, tag(")"))`, with no whitespace skipped around the parentheses. */
  function ParenAtom(dec: Errors.Decoder, s: string): (r: PResult<Expr>)
    ensures r.Ok? ==> |r.rest| < |s| && WellFormed(r.val)
    ensures r.Fail? ==> FatalError(r.err)
    decreases |s|, 0, 0
  {
    var open := Tag("(", s);
    if !open.Ok? then Propagate(open)
    else
      var e := ParseExpr(dec, open.rest);
      if !e.Ok? then Propagate(e)
      else
        var close := Tag(")", e.rest);
        if !close.Ok? then Propagate(close)
        else Ok(close.rest, e.val)
  }

  // ----- Function calls -----

  /** Every argument of a call is a string literal or a well-formed expression that is not a phantom. */
  predicate ArgsWellFormed(args: seq<Expr>) {
    forall i :: 0 <= i < |args| ==> WellFormedArg(args[i])
  }

  /**
   * `parse_function_call`: a metric name, then either the argument list followed by an optional
   * aggregation modifier or an optional aggregation modifier followed by the argument list; the
   * first order is tried first.
   */
  function ParseFunctionCall(dec: Errors.Decoder, s: string): (r: PResult<FunCall>)
    ensures r.Ok? ==> |r.rest| < |s| && IsName(r.val.name, MetricPunct) && ArgsWellFormed(r.val.args)
    ensures r.Ok? ==> ParseMetricName(s).Ok? && r.val.name == ParseMetricName(s).val
    ensures r.Fail? ==> FatalError(r.err)
    decreases |s|, 2, 0
  {
    RecognizeNameIsName(s, MetricPunct);
    var name := ParseMetricName(s);
    if !name.Ok? then Propagate(name)
    else
      var call := CallTail(dec, name.rest);
      if !call.Ok? then Propagate(call)
      else Ok(call.rest, FunCallAgg(name.val, call.val.0, call.val.1))
  }

  /** The two orders a call's body and aggregation modifier may come in, tried in turn. */
  function CallTail(dec: Errors.Decoder, s: string): (r: PResult<(seq<Expr>, Option<AggregationModifier>)>)
    ensures r.Ok? ==> |r.rest| < |s| && ArgsWellFormed(r.val.0)
    ensures r.Fail? ==> FatalError(r.err)
    decreases |s|, 1, 2
  {
    Alt(BodyThenAggregation(dec, s), AggregationThenBody(dec, s), s)
  }

  /** `tuple((parse_function_call_body, opt(parse_aggregation_modifier)))`. */
  function BodyThenAggregation(dec: Errors.Decoder, s: string): (r: PResult<(seq<Expr>, Option<AggregationModifier>)>)
    ensures r.Ok? ==> |r.rest| < |s| && ArgsWellFormed(r.val.0)
    ensures r.Fail? ==> FatalError(r.err)
    decreases |s|, 1, 1
  {
    var body := ParseFunctionCallBody(dec, s);
    if !body.Ok? then Propagate(body)
    else
      var aggregation := Opt(ParseAggregationModifier(body.rest), body.rest);
      if !aggregation.Ok? then Propagate(aggregation)
      else Ok(aggregation.rest, (body.val, aggregation.val))
  }

  /** `tuple((opt(parse_aggregation_modifier), parse_function_call_body))`, swapped back. */
  function AggregationThenBody(dec: Errors.Decoder, s: string): (r: PResult<(seq<Expr>, Option<AggregationModifier>)>)
    ensures r.Ok? ==> |r.rest| < |s| && ArgsWellFormed(r.val.0)
    ensures r.Fail? ==> FatalError(r.err)
    decreases |s|, 1, 1
  {
    var aggregation := Opt(ParseAggregationModifier(s), s);
    if !aggregation.Ok? then Propagate(aggregation)
    else
      var body := ParseFunctionCallBody(dec, aggregation.rest);
      if !body.Ok? then Propagate(body)
      else Ok(body.rest, (body.val, aggregation.val))
  }

  /** `parse_function_call_body`: the arguments between `(` and `)`, whitespace allowed around both. */
  function ParseFunctionCallBody(dec: Errors.Decoder, s: string): (r: PResult<seq<Expr>>)
    ensures r.Ok? ==> |r.rest| < |s| && ArgsWellFormed(r.val)
    ensures r.Fail? ==> FatalError(r.err)
    decreases |s|, 1, 0
  {
    var open := Ws(Tag("(", SkipWs(s)));
    Context(
      if !open.Ok? then Propagate(open)
      else
        var args := ParseFunctionCallArgs(dec, open.rest);
        if !args.Ok? then Propagate(args)
        else
          var close := Ws(Tag(")", SkipWs(args.rest)));
          if !close.Ok? then Propagate(close)
          else Ok(close.rest, args.val),
      s, "function_call_body")
  }

  /**
   * `parse_function_call_args`: `separated_list0(tag(","), argument)`, then the phantom
   * arguments dropped.
   */
  function ParseFunctionCallArgs(dec: Errors.Decoder, s: string): (r: PResult<seq<Expr>>)
    ensures NoRecoverableError(r)
    ensures r.Ok? ==> |r.rest| <= |s| && ArgsWellFormed(r.val)
    decreases |s|, 12, 0
  {
    var first := ParseArg(dec, s);
    if first.Err? then Ok(s, DropPhantoms([]))
    else if !first.Ok? then Propagate(first)
    else
      var more := ArgsTail(dec, first.rest);
      if !more.Ok? then Propagate(more)
      else
        var all := [first.val] + more.val;
        assert forall i :: 0 <= i < |all| ==> ArgShape(all[i]);
        Ok(more.rest, DropPhantoms(all))
  }

  /** The arguments after the first: `(',' argument)*`, stopping before a `,` with no argument. */
  function ArgsTail(dec: Errors.Decoder, s: string): (r: PResult<seq<Expr>>)
    ensures NoRecoverableError(r)
    ensures r.Ok? ==> |r.rest| <= |s| && forall i :: 0 <= i < |r.val| ==> ArgShape(r.val[i])
    decreases |s|, 0, 0
  {
    var sep := Tag(",", s);
    if !sep.Ok? then Ok(s, [])
    else
      var a := ParseArg(dec, sep.rest);
      if a.Err? then Ok(s, [])
      else if !a.Ok? then Propagate(a)
      else
        var more := ArgsTail(dec, a.rest);
        if !more.Ok? then Propagate(more)
        else Ok(more.rest, [a.val] + more.val)
  }

  /** One argument: a string literal, else an expression. */
  function ParseArg(dec: Errors.Decoder, s: string): (r: PResult<Expr>)
    ensures NoRecoverableError(r)
    ensures r.Ok? ==> |r.rest| <= |s| && ArgShape(r.val)
    decreases |s|, 11, 0
  {
    match ParseStringLiteral(s)
    case Ok(rest, lit) => Ok(rest, StringLiteralExpr(lit))
    case Err(_) => ParseExpr(dec, s)
  }
}
