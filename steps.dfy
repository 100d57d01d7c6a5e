/**
 * One step of each parser of the expression grammar, stated as an implication: when the
 * parsers it calls return the given results, the parser returns the stated one. The lemmas
 * about whole inputs chain these steps.
 *
 * These are proof steps, not separate promises of the parser: most hold by unfolding one
 * definition, and they exist so that the lemmas in `GrammarProps`, `Precedence`, `Subquery`
 * and `Ranges` can name each step instead of unfolding the whole grammar at once.
 */
module GrammarSteps {
  import opened Wrappers
  import Errors
  import opened Ast
  import opened Combinators
  import opened Lexical
  import opened Literal
  import opened Selector
  import opened Ops
  import opened Fold
  import opened Calls
  import opened Grammar

  // ----- Whitespace -----

  lemma NoLeadingSpace(s: string)
    ensures s == [] || !IsSpace(s[0]) ==> SkipWs(s) == s
  {
  }

  // ----- The atom -----

  /** The atom is the first alternative that does not fail recoverably, in their fixed order. */
  lemma AtomOrder(dec: Errors.Decoder, s: string)
    ensures !ParenAtom(dec, s).Err? ==> ParseAtom(dec, s) == ParenAtom(dec, s)
    ensures ParenAtom(dec, s).Err? && !NumberAtom(s).Err? ==> ParseAtom(dec, s) == NumberAtom(s)
    ensures ParenAtom(dec, s).Err? && NumberAtom(s).Err? && !PlusAtom(dec, s).Err? ==>
      ParseAtom(dec, s) == PlusAtom(dec, s)
    ensures ParenAtom(dec, s).Err? && NumberAtom(s).Err? && PlusAtom(dec, s).Err? && !MinusAtom(dec, s).Err? ==>
      ParseAtom(dec, s) == MinusAtom(dec, s)
    ensures ParenAtom(dec, s).Err? && NumberAtom(s).Err? && PlusAtom(dec, s).Err? && MinusAtom(dec, s).Err? ==>
      ParseAtom(dec, s) == if CallAtom(dec, s).Err? then VectorAtom(dec, s) else CallAtom(dec, s)
  {
  }

  /** The parenthesis and sign alternatives fail recoverably when their character is not there. */
  lemma ParenNotHere(dec: Errors.Decoder, s: string)
    ensures Tag("(", s).Err? ==> ParenAtom(dec, s).Err?
  {
  }

  lemma PlusNotHere(dec: Errors.Decoder, s: string)
    ensures Tag("+", s).Err? ==> PlusAtom(dec, s).Err?
  {
  }

  lemma MinusNotHere(dec: Errors.Decoder, s: string)
    ensures Tag("-", s).Err? ==> MinusAtom(dec, s).Err?
  {
  }

  /** The call alternative fails recoverably unless the input starts with a metric name. */
  lemma CallNotHere(dec: Errors.Decoder, s: string)
    ensures ParseMetricName(s).Err? ==> CallAtom(dec, s).Err?
  {
  }

  /** The number alternative fails recoverably where no number starts after the whitespace. */
  lemma NumberNotHere(s: string)
    ensures ParseNumberLiteral(SkipWs(s)).Err? ==> NumberAtom(s).Err?
  {
  }

  lemma NumberAtomOf(s: string)
    ensures var n := ParseNumberLiteral(SkipWs(s));
      n.Ok? ==> NumberAtom(s) == Ok(SkipWs(n.rest), NumberLiteralExpr(n.val))
  {
  }

  lemma PlusAtomOf(dec: Errors.Decoder, s: string)
    ensures "+" <= s ==> PlusAtom(dec, s) == ParseAtom(dec, s[1..])
  {
  }

  lemma MinusAtomOf(dec: Errors.Decoder, s: string)
    ensures "-" <= s && ParseAtom(dec, s[1..]).Ok? ==>
      MinusAtom(dec, s) == Ok(ParseAtom(dec, s[1..]).rest, NegationExpr(ParseAtom(dec, s[1..]).val))
  {
  }

  lemma CallAtomOf(dec: Errors.Decoder, s: string)
    ensures var c := ParseFunctionCall(dec, s);
      c.Ok? ==> CallAtom(dec, s) == Ok(c.rest, FunCallExpr(c.val))
  {
  }

  lemma VectorAtomOf(dec: Errors.Decoder, s: string)
    ensures var v := ParseVector(dec, s);
      v.Ok? ==> VectorAtom(dec, s) == Ok(v.rest, VectorExpr(v.val))
  {
  }

  lemma ParenAtomOf(dec: Errors.Decoder, s: string)
    ensures "(" <= s ==>
      var e := ParseExpr(dec, s[1..]);
      e.Ok? && ")" <= e.rest ==> ParenAtom(dec, s) == Ok(e.rest[1..], e.val)
  {
  }

  // ----- Selectors -----

  /** A selector with no range and no offset after it is the instant selector. */
  lemma VectorOf(dec: Errors.Decoder, s: string)
    ensures var v := ParseInstantVec(s);
      RangeSuffix(dec, v.rest).Err? && OffsetSuffix(dec, v.rest).Err? ==> ParseVector(dec, s) == v
  {
  }

  /** With no name and no matchers, the instant selector is the default one and reads nothing. */
  lemma InstantVecEmpty(s: string)
    ensures ParseMetricName(SkipWs(s)).Err? && ParseLabelMatchers(SkipWs(s)).Err? ==>
      ParseInstantVec(s) == Ok(s, DefaultVector())
  {
  }

  /** A name and no matchers after it: the plain selector of that name. */
  lemma InstantVecName(s: string)
    ensures var n := ParseMetricName(SkipWs(s));
      n.Ok? && ParseLabelMatchers(SkipWs(n.rest)).Err? ==> ParseInstantVec(s) == Ok(SkipWs(n.rest), V(n.val))
  {
  }

  /** No range, no offset: the input does not start with `[`, nor with `offset` after whitespace. */
  lemma NoSuffixHere(dec: Errors.Decoder, u: string)
    ensures SkipWs(u) == u && (u == [] || (u[0] != '[' && Lower(u[0]) != 'o')) ==>
      RangeSuffix(dec, u).Err? && OffsetSuffix(dec, u).Err?
  {
    if SkipWs(u) == u && (u == [] || (u[0] != '[' && Lower(u[0]) != 'o')) {
      assert !("[" <= u);
      assert !CiPrefix("offset", u);
    }
  }

  // ----- Levels -----

  /** A level is its first operand folded left with the pairs of its tail. */
  lemma LevelFold(dec: Errors.Decoder, l: Level, s: string)
    ensures l != PowerLevel ==>
      var a := ParseOperand(dec, l, s);
      a.Ok? && LevelTail(dec, l, a.rest).Ok? ==>
        ParseLevel(dec, l, s) == Ok(LevelTail(dec, l, a.rest).rest, Chain(a.val, LevelTail(dec, l, a.rest).val))
  {
  }

  /** The tail ends before anything that is not an operator of the level. */
  lemma TailEnd(dec: Errors.Decoder, l: Level, s: string)
    ensures l != PowerLevel && LevelOp(l, s).Err? ==> LevelTail(dec, l, s) == Ok(s, [])
  {
  }

  /** An operator and an operand add one pair in front of the rest of the tail. */
  lemma TailMore(dec: Errors.Decoder, l: Level, s: string)
    ensures l != PowerLevel ==>
      var op := LevelOp(l, s);
      op.Ok? ==>
        var c := ParseOperand(dec, l, op.rest);
        c.Ok? && LevelTail(dec, l, c.rest).Ok? ==>
          LevelTail(dec, l, s) == Ok(LevelTail(dec, l, c.rest).rest, [(op.val, c.val)] + LevelTail(dec, l, c.rest).val)
  {
  }

  /** An atom with no `^` after it is the whole power. */
  lemma PowerEnd(dec: Errors.Decoder, s: string)
    ensures var a := ParseAtom(dec, s);
      a.Ok? && LevelOp(PowerLevel, a.rest).Err? ==> ParsePower(dec, s) == a
  {
  }

  /** An atom, `^` and a power: the power to the right is the right-hand side. */
  lemma PowerMore(dec: Errors.Decoder, s: string)
    ensures var a := ParseAtom(dec, s);
      a.Ok? ==>
        var op := LevelOp(PowerLevel, a.rest);
        op.Ok? && ParsePower(dec, op.rest).Ok? ==>
          ParsePower(dec, s) == Ok(ParsePower(dec, op.rest).rest, BinaryExpr(op.val, a.val, ParsePower(dec, op.rest).val))
  {
  }

  // ----- parse_expr -----

  lemma ExprNoSuffix(dec: Errors.Decoder, s: string)
    ensures var e := ParseLevel(dec, OrLevel, s);
      e.Ok? && SubquerySuffix(dec, e.rest).Err? ==> ParseExpr(dec, s) == e
  {
  }

  lemma ExprSuffix(dec: Errors.Decoder, s: string)
    ensures var e := ParseLevel(dec, OrLevel, s);
      e.Ok? && SubquerySuffix(dec, e.rest).Ok? ==>
        var q := SubquerySuffix(dec, e.rest);
        ParseExpr(dec, s) == Ok(q.rest, SubQueryExpr(e.val, Some(q.val.0), q.val.1))
  {
  }

  lemma ExprFail(dec: Errors.Decoder, s: string)
    ensures var e := ParseLevel(dec, OrLevel, s);
      e.Ok? && SubquerySuffix(dec, e.rest).Fail? ==> ParseExpr(dec, s) == Fail(SubquerySuffix(dec, e.rest).err)
  {
  }

  // ----- Calls -----

  lemma ArgIsExpr(dec: Errors.Decoder, s: string)
    ensures ParseStringLiteral(s).Err? ==> ParseArg(dec, s) == ParseExpr(dec, s)
  {
  }

  lemma ArgsOf(dec: Errors.Decoder, s: string)
    ensures var a := ParseArg(dec, s);
      a.Ok? && ArgsTail(dec, a.rest).Ok? ==>
        ParseFunctionCallArgs(dec, s) == Ok(ArgsTail(dec, a.rest).rest, DropPhantoms([a.val] + ArgsTail(dec, a.rest).val))
  {
  }

  lemma ArgsTailEnd(dec: Errors.Decoder, s: string)
    ensures s == [] || s[0] != ',' ==> ArgsTail(dec, s) == Ok(s, [])
  {
    if s == [] || s[0] != ',' {
      assert !("," <= s);
    }
  }

  lemma BodyOf(dec: Errors.Decoder, s: string)
    ensures var open := Ws(Tag("(", SkipWs(s)));
      open.Ok? && ParseFunctionCallArgs(dec, open.rest).Ok? ==>
        var args := ParseFunctionCallArgs(dec, open.rest);
        var close := Ws(Tag(")", SkipWs(args.rest)));
        close.Ok? ==> ParseFunctionCallBody(dec, s) == Ok(close.rest, args.val)
  {
  }

  /** The argument list fails recoverably where no `(` follows the whitespace. */
  lemma BodyNotHere(dec: Errors.Decoder, s: string)
    ensures Tag("(", SkipWs(s)).Err? ==> ParseFunctionCallBody(dec, s).Err?
  {
  }

  lemma BodyFirst(dec: Errors.Decoder, s: string)
    ensures var b := ParseFunctionCallBody(dec, s);
      b.Ok? && ParseAggregationModifier(b.rest).Err? ==> CallTail(dec, s) == Ok(b.rest, (b.val, None))
  {
  }

  lemma BodyThenModifier(dec: Errors.Decoder, s: string)
    ensures var b := ParseFunctionCallBody(dec, s);
      b.Ok? && ParseAggregationModifier(b.rest).Ok? ==>
        var m := ParseAggregationModifier(b.rest);
        CallTail(dec, s) == Ok(m.rest, (b.val, Some(m.val)))
  {
  }

  lemma ModifierThenBody(dec: Errors.Decoder, s: string)
    ensures var m := ParseAggregationModifier(s);
      ParseFunctionCallBody(dec, s).Err? && m.Ok? && ParseFunctionCallBody(dec, m.rest).Ok? ==>
        var b := ParseFunctionCallBody(dec, m.rest);
        CallTail(dec, s) == Ok(b.rest, (b.val, Some(m.val)))
  {
  }

  lemma CallOf(dec: Errors.Decoder, s: string)
    ensures var n := ParseMetricName(s);
      n.Ok? && CallTail(dec, n.rest).Ok? ==>
        var t := CallTail(dec, n.rest);
        ParseFunctionCall(dec, s) == Ok(t.rest, FunCall(n.val, t.val.0, t.val.1))
  {
  }
}
