/**
 * Properties of the expression grammar that relate several parsers: what the parser returns
 * where no expression starts, the order in which the atom alternatives are tried, and calls
 * with no arguments.
 */
module GrammarProps {
  import opened Wrappers
  import Errors
  import opened Ast
  import opened Combinators
  import opened Lexical
  import opened Literal
  import opened Selector
  import opened Ops
  import opened Fold
  import opened Calls
  import opened Grammar
  import opened GrammarSteps

  /** The selector the atom falls back to when nothing else matches. */
  function EmptySelector(): (e: Expr)
    ensures IsPhantom(e)
  {
    VectorExpr(DefaultVector())
  }

  // ----- Facts about the text alone -----

  /** The end of the input, or a closing parenthesis or comma: no alternative of the grammar starts here. */
  predicate AtClose(s: string) {
    s == [] || s[0] == ')' || s[0] == ','
  }

  /** What a one-character prefix leaves. */
  lemma FirstChar(c: char, x: string)
    ensures [c] + x != [] && ([c] + x)[0] == c && ([c] + x)[1..] == x
  {
  }

  /** What a name in front of some text says about the first character. */
  lemma NameFirst(n: string, u: string)
    ensures IsName(n, MetricPunct) ==>
      var s := n + u;
      s != [] && s[0] == n[0] && NameStart(s[0], MetricPunct) && !IsSpace(s[0])
  {
  }

  /** A name that does not begin with the special float spellings `nan` or `inf`, in any case. */
  predicate NotNumberWord(n: string) {
    !CiPrefix("nan", n) && !CiPrefix("inf", n)
  }

  /** A number cannot start at a closing parenthesis or comma. */
  lemma NoNumberAtClose(s: string)
    ensures AtClose(s) ==> ParseNumberLiteral(s).Err?
  {
    if AtClose(s) {
      assert SignLength(s) == 0;
      assert MantissaLength(s) == 0;
      assert RecognizeFloat(s).Err?;
      assert !CiPrefix("nan", s) && !CiPrefix("inf", s) && !CiPrefix("infinity", s);
    }
  }

  /** Nothing that starts with a name and continues with a character other than a letter is a number. */
  lemma NameIsNoNumber(n: string, u: string)
    ensures IsName(n, MetricPunct) && NotNumberWord(n) && u != [] && !IsAlpha(u[0]) ==>
      ParseNumberLiteral(n + u).Err?
  {
    if IsName(n, MetricPunct) && NotNumberWord(n) && u != [] && !IsAlpha(u[0]) {
      var s := n + u;
      assert s[0] == n[0];
      assert SignLength(s) == 0;
      assert MantissaLength(s) == 0;
      NotWordPrefix("nan", n, u);
      NotWordPrefix("inf", n, u);
    }
  }

  lemma NotWordPrefix(k: string, n: string, u: string)
    requires |k| == 3 && forall i :: 0 <= i < |k| ==> IsAlpha(k[i]) && Lower(k[i]) == k[i]
    requires !CiPrefix(k, n) && u != [] && !IsAlpha(u[0])
    ensures !CiPrefix(k, n + u) && !CiPrefix(k + "inity", n + u)
  {
    var s := n + u;
    if |n| >= 3 {
      assert forall i :: 0 <= i < 3 ==> s[i] == n[i];
    } else {
      assert s[|n|] == u[0];
      assert Lower(k[|n|]) != Lower(u[0]);
    }
    assert (k + "inity")[..3] == k;
  }

  lemma NoStringAtClose(s: string)
    ensures AtClose(s) ==> ParseStringLiteral(s).Err?
  {
    if AtClose(s) {
      assert !(['"'] <= s) && !(['\''] <= s) && !(['`'] <= s);
    }
  }

  /** No level's operator starts at a closing parenthesis or comma. */
  lemma NoOperatorAtClose(l: Level, s: string)
    ensures AtClose(s) ==> LevelOp(l, s).Err?
  {
    if AtClose(s) {
      NoOperatorTextAtClose(l, s);
    }
  }

  lemma NoOperatorTextAtClose(l: Level, s: string)
    requires AtClose(s)
    ensures SkipWs(s) == s && !StartsOperator(l, s)
  {
    assert SkipWs(s) == s;
  }

  /** No subquery suffix starts there either. */
  lemma NoSubqueryAtClose(dec: Errors.Decoder, s: string)
    ensures AtClose(s) ==> SubquerySuffix(dec, s).Err?
  {
    if AtClose(s) {
      assert !("[" <= s);
    }
  }

  /** The instant selector there has no name and no matchers and reads nothing. */
  lemma InstantVecAtClose(s: string)
    requires AtClose(s)
    ensures ParseInstantVec(s) == Ok(s, DefaultVector())
  {
    ClosedText(s);
    assert !("{" <= s);
    InstantVecEmpty(s);
  }

  /** The selector parser reads nothing there and returns the empty selector. */
  lemma VectorAtClose(dec: Errors.Decoder, s: string)
    requires AtClose(s)
    ensures ParseVector(dec, s) == Ok(s, DefaultVector())
  {
    InstantVecAtClose(s);
    NoSuffixHere(dec, s);
    VectorOf(dec, s);
  }

  /** The instant selector reads a name followed by `(` as that name and stops before the `(`. */
  lemma InstantVecOfName(s: string, n: string, u: string)
    requires IsName(n, MetricPunct) && u != [] && u[0] == '('
    requires SkipWs(s) == n + u
    ensures ParseInstantVec(s) == Ok(u, V(n))
  {
    ParenStart(u);
    RecognizeNameRoundTrip(n, u, MetricPunct);
    InstantVecName(s);
  }

  /** Neither a name nor a matcher list nor whitespace continues at `(`. */
  lemma ParenStart(u: string)
    requires u != [] && u[0] == '('
    ensures SkipWs(u) == u && !NameChar(u[0], MetricPunct) && ParseLabelMatchers(u).Err?
  {
    assert !("{" <= u);
  }

  /** A name followed by `(` is a plain selector that leaves the `(` unread. */
  lemma NameSelector(dec: Errors.Decoder, s: string, n: string, u: string)
    requires IsName(n, MetricPunct) && u != [] && u[0] == '('
    requires SkipWs(s) == n + u
    ensures ParseVector(dec, s) == Ok(u, V(n))
  {
    InstantVecOfName(s, n, u);
    ParenStart(u);
    NoSuffixHere(dec, u);
    VectorOf(dec, s);
  }

  /** `()` followed by `t`: the text of both parentheses, whitespace after them skipped. */
  lemma ParensText(t: string)
    ensures SkipWs("()" + t) == "()" + t && Ws(Tag("(", SkipWs("()" + t))) == Ok(")" + t, "(")
    ensures SkipWs(")" + t) == ")" + t && Ws(Tag(")", ")" + t)) == Ok(SkipWs(t), ")")
  {
    assert ("()" + t)[1..] == ")" + t;
    assert (")" + t)[1..] == t;
  }

  /** A name followed by `(` is read as that name. */
  lemma NameThenParen(n: string, u: string)
    ensures IsName(n, MetricPunct) && u != [] && u[0] == '(' ==> ParseMetricName(n + u) == Ok(u, n)
  {
    if IsName(n, MetricPunct) && u != [] && u[0] == '(' {
      RecognizeNameRoundTrip(n, u, MetricPunct);
    }
  }

  /** Without a `by` or `without` keyword there is no aggregation modifier. */
  lemma NoAggregation(t: string)
    ensures !CiPrefix("by", SkipWs(t)) && !CiPrefix("without", SkipWs(t)) ==>
      ParseAggregationModifier(SkipWs(t)).Err?
  {
    SkipWsIdempotent(t);
  }

  lemma DropEmptySelector()
    ensures DropPhantoms([EmptySelector()] + []) == []
  {
    assert ([EmptySelector()] + [])[1..] == [];
  }

  // What each kind of first character rules out, before any parser of the grammar is involved.

  lemma ClosedText(s: string)
    requires AtClose(s)
    ensures SkipWs(s) == s && Tag("(", s).Err? && Tag("+", s).Err? && Tag("-", s).Err?
    ensures ParseMetricName(s).Err? && ParseNumberLiteral(s).Err?
  {
    SkipWsNoSpace(s);
    assert !("(" <= s) && !("+" <= s) && !("-" <= s);
    assert s == [] || !NameStart(s[0], MetricPunct);
    NoNumberAtClose(s);
  }

  lemma NameText(s: string)
    requires s != [] && NameStart(s[0], MetricPunct)
    ensures SkipWs(s) == s && Tag("(", s).Err? && Tag("+", s).Err? && Tag("-", s).Err?
  {
    assert SkipWs(s) == s;
  }

  lemma SpaceText(s: string)
    requires s != [] && s[0] == ' '
    ensures Tag("(", s).Err? && Tag("+", s).Err? && Tag("-", s).Err? && ParseMetricName(s).Err?
  {
  }

  lemma SignText(s: string)
    requires s != [] && (s[0] == '-' || s[0] == '+')
    ensures SkipWs(s) == s && Tag("(", s).Err?
    ensures s[0] == '-' ==> "-" <= s && Tag("+", s).Err?
    ensures s[0] == '+' ==> "+" <= s
  {
    assert SkipWs(s) == s;
  }

  lemma ParenText(x: string, t: string)
    ensures "(" <= "(" + x && ("(" + x)[1..] == x
    ensures ")" <= ")" + t && (")" + t)[1..] == t
  {
  }

  // ----- Where no expression starts -----

  /**
   * At the end of the input or before `)` or `,`, every alternative of the atom but the selector
   * fails recoverably, and the selector is the empty one: the atom consumes nothing.
   */
  lemma AtomAtClose(dec: Errors.Decoder, s: string)
    requires AtClose(s)
    ensures ParseAtom(dec, s) == Ok(s, EmptySelector())
  {
    ClosedText(s);
    ParenNotHere(dec, s);
    PlusNotHere(dec, s);
    MinusNotHere(dec, s);
    CallNotHere(dec, s);
    NumberNotHere(s);
    VectorAtClose(dec, s);
    VectorAtomOf(dec, s);
    AtomOrder(dec, s);
  }

  lemma PowerAtClose(dec: Errors.Decoder, s: string)
    ensures AtClose(s) ==> ParsePower(dec, s) == Ok(s, EmptySelector())
  {
    if AtClose(s) {
      AtomAtClose(dec, s);
    }
    NoOperatorAtClose(PowerLevel, s);
    PowerEnd(dec, s);
  }

  /** Every level returns the empty selector there and consumes nothing. */
  lemma LevelAtClose(dec: Errors.Decoder, l: Level, s: string)
    ensures AtClose(s) && l != PowerLevel ==> ParseLevel(dec, l, s) == Ok(s, EmptySelector())
    decreases Rank(l), 1
  {
    OperandAtClose(dec, l, s);
    NoOperatorAtClose(l, s);
    TailEnd(dec, l, s);
    LevelFold(dec, l, s);
  }

  lemma OperandAtClose(dec: Errors.Decoder, l: Level, s: string)
    ensures AtClose(s) && l != PowerLevel ==> ParseOperand(dec, l, s) == Ok(s, EmptySelector())
    decreases Rank(l), 0
  {
    match l
    case PowerLevel =>
    case MulDivModLevel => PowerAtClose(dec, s);
    case PlusMinusLevel => LevelAtClose(dec, MulDivModLevel, s);
    case CompareLevel => LevelAtClose(dec, PlusMinusLevel, s);
    case AndUnlessLevel => LevelAtClose(dec, CompareLevel, s);
    case OrLevel => LevelAtClose(dec, AndUnlessLevel, s);
  }

  /** The expression parser returns the empty selector where no expression starts. */
  lemma ExprAtClose(dec: Errors.Decoder, s: string)
    ensures AtClose(s) ==> ParseExpr(dec, s) == Ok(s, EmptySelector())
  {
    LevelAtClose(dec, OrLevel, s);
    NoSubqueryAtClose(dec, s);
    ExprNoSuffix(dec, s);
  }

  /** `parse_expr("")` succeeds with the empty selector and nothing left over. */
  lemma EmptyQuery(dec: Errors.Decoder)
    ensures ParseExpr(dec, "") == Ok("", EmptySelector())
  {
    ExprAtClose(dec, "");
  }

  // ----- Calls with no arguments -----

  /** At a closing parenthesis the argument list is empty: the one phantom argument read is dropped. */
  lemma ArgsAtClose(dec: Errors.Decoder, s: string)
    ensures s == [] || s[0] == ')' ==> ParseFunctionCallArgs(dec, s) == Ok(s, [])
  {
    NoStringAtClose(s);
    ArgIsExpr(dec, s);
    ExprAtClose(dec, s);
    ArgsTailEnd(dec, s);
    ArgsOf(dec, s);
    DropEmptySelector();
  }

  /** `()` is an empty argument list, whitespace after it skipped. */
  lemma EmptyBody(dec: Errors.Decoder, t: string)
    ensures ParseFunctionCallBody(dec, "()" + t) == Ok(SkipWs(t), [])
  {
    ParensText(t);
    ArgsAtClose(dec, ")" + t);
    BodyOf(dec, "()" + t);
  }

  /** `n()` with no aggregation after it is the call `n` with no arguments. */
  lemma EmptyCallParse(dec: Errors.Decoder, n: string, t: string)
    requires IsName(n, MetricPunct)
    requires !CiPrefix("by", SkipWs(t)) && !CiPrefix("without", SkipWs(t))
    ensures ParseFunctionCall(dec, n + ("()" + t)) == Ok(SkipWs(t), FunCall(n, [], None))
  {
    NameThenParen(n, "()" + t);
    EmptyBody(dec, t);
    NoAggregation(t);
    BodyFirst(dec, "()" + t);
    CallOf(dec, n + ("()" + t));
  }

  /**
   * An input that starts with a name and is no number is read by the call alternative whenever
   * that alternative succeeds: calls are tried before selectors.
   */
  lemma AtomIsCall(dec: Errors.Decoder, s: string)
    requires s != [] && NameStart(s[0], MetricPunct) && ParseNumberLiteral(s).Err?
    requires ParseFunctionCall(dec, s).Ok?
    ensures ParseAtom(dec, s) == Ok(ParseFunctionCall(dec, s).rest, FunCallExpr(ParseFunctionCall(dec, s).val))
  {
    NameText(s);
    ParenNotHere(dec, s);
    PlusNotHere(dec, s);
    MinusNotHere(dec, s);
    NumberNotHere(s);
    CallAtomOf(dec, s);
    AtomOrder(dec, s);
  }

  /**
   * `n()` is a call to `n` with no arguments and no aggregation: the call alternative comes
   * before the selector, and the phantom the empty argument list reads is dropped.
   */
  lemma EmptyCall(dec: Errors.Decoder, n: string, t: string)
    requires IsName(n, MetricPunct) && NotNumberWord(n)
    requires !CiPrefix("by", SkipWs(t)) && !CiPrefix("without", SkipWs(t))
    ensures ParseAtom(dec, n + ("()" + t)) == Ok(SkipWs(t), FunCallExpr(FunCall(n, [], None)))
  {
    EmptyCallParse(dec, n, t);
    CallStep(dec, n, "()" + t, SkipWs(t), FunCall(n, [], None));
  }

  /** A call read after a name that is no number word is the atom there. */
  lemma CallStep(dec: Errors.Decoder, n: string, u: string, rest: string, c: FunCall)
    requires IsName(n, MetricPunct) && NotNumberWord(n) && u != [] && !IsAlpha(u[0])
    requires ParseFunctionCall(dec, n + u) == Ok(rest, c)
    ensures ParseAtom(dec, n + u) == Ok(rest, FunCallExpr(c))
  {
    NameIsNoNumber(n, u);
    NameFirst(n, u);
    AtomIsCall(dec, n + u);
  }

  // ----- Whitespace before an atom -----

  /**
   * Only the number and selector alternatives skip leading whitespace: ` n(…)` is the selector
   * `n`, and the parenthesis is left unread.
   */
  lemma SpaceThenName(dec: Errors.Decoder, n: string, u: string)
    requires IsName(n, MetricPunct) && NotNumberWord(n)
    requires u != [] && u[0] == '('
    ensures ParseAtom(dec, " " + (n + u)) == Ok(u, VectorExpr(V(n)))
  {
    var s := " " + (n + u);
    SpaceName(n, u);
    assert ParenAtom(dec, s).Err? && PlusAtom(dec, s).Err? && MinusAtom(dec, s).Err? && CallAtom(dec, s).Err? by {
      SpaceText(s);
      ParenNotHere(dec, s);
      PlusNotHere(dec, s);
      MinusNotHere(dec, s);
      CallNotHere(dec, s);
    }
    assert NumberAtom(s).Err? by {
      NameIsNoNumber(n, u);
      NumberNotHere(s);
    }
    assert VectorAtom(dec, s) == Ok(u, VectorExpr(V(n))) by {
      NameSelector(dec, s, n, u);
      VectorAtomOf(dec, s);
    }
    AtomOrder(dec, s);
  }

  /** A space in front of a name: the space is the first character, and skipping it leaves the name. */
  lemma SpaceName(n: string, u: string)
    requires IsName(n, MetricPunct)
    ensures var s := " " + (n + u); s != [] && s[0] == ' ' && SkipWs(s) == n + u
  {
    FirstChar(' ', n + u);
    SkipWsSpace(n + u);
    NameFirst(n, u);
    NoLeadingSpace(n + u);
  }

  // ----- Signs and parentheses -----

  /** A number literal wins over the sign alternatives: `-1` is a literal, not a negation. */
  lemma SignedNumber(dec: Errors.Decoder, s: string, t: string, n: NumberLiteral)
    requires s != [] && (s[0] == '-' || s[0] == '+')
    requires ParseNumberLiteral(s) == Ok(t, n)
    ensures ParseAtom(dec, s) == Ok(SkipWs(t), NumberLiteralExpr(n))
  {
    SignText(s);
    ParenNotHere(dec, s);
    NumberAtomOf(s);
    AtomOrder(dec, s);
  }

  /** Unary `-` that does not start a number wraps the atom after it in a negation. */
  lemma UnaryMinus(dec: Errors.Decoder, s: string, t: string, e: Expr)
    requires s != [] && s[0] == '-' && ParseNumberLiteral(s).Err?
    requires ParseAtom(dec, s[1..]) == Ok(t, e)
    ensures ParseAtom(dec, s) == Ok(t, NegationExpr(e))
  {
    SignText(s);
    ParenNotHere(dec, s);
    PlusNotHere(dec, s);
    NumberNotHere(s);
    MinusAtomOf(dec, s);
    AtomOrder(dec, s);
  }

  /** Unary `+` that does not start a number is the atom after it, unchanged. */
  lemma UnaryPlus(dec: Errors.Decoder, s: string)
    requires s != [] && s[0] == '+' && ParseNumberLiteral(s).Err?
    ensures ParseAtom(dec, s) == ParseAtom(dec, s[1..])
  {
    SignText(s);
    ParenNotHere(dec, s);
    NumberNotHere(s);
    PlusAtomOf(dec, s);
    AtomOrder(dec, s);
  }

  /** A parenthesised expression is the expression itself: parentheses leave no node in the tree. */
  lemma Parenthesised(dec: Errors.Decoder, x: string, e: Expr, t: string)
    requires ParseExpr(dec, x) == Ok(")" + t, e)
    ensures ParseAtom(dec, "(" + x) == Ok(t, e)
  {
    ParenText(x, t);
    ParenAtomOf(dec, "(" + x);
    AtomOrder(dec, "(" + x);
  }
}
