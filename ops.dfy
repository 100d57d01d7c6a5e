/**
 * The binary operator parsers, one per precedence level: an operator text, surrounded by
 * whitespace, followed by the optional modifiers. The `bool` flag is kept only by the
 * comparison operators; the other levels parse it and drop it.
 */
module Ops {
  import opened Wrappers
  import opened Ast
  import opened Combinators
  import opened Modifiers
  import opened Grouping

  /** The precedence levels, from the tightest binding to the loosest. */
  datatype Level = PowerLevel | MulDivModLevel | PlusMinusLevel | CompareLevel | AndUnlessLevel | OrLevel

  /** The operator texts a level's parser tries, in this order. */
  function Tokens(l: Level): (ts: seq<string>)
    ensures |ts| > 0
  {
    match l
    case PowerLevel => ["^"]
    case MulDivModLevel => ["*", "/", "%"]
    case PlusMinusLevel => ["+", "-"]
    case CompareLevel => [">=", "<=", "==", "!=", ">", "<"]
    case AndUnlessLevel => ["and", "less"]
    case OrLevel => ["or"]
  }

  /** The operators that belong to a level. */
  predicate InLevel(op: BinaryOp, l: Level) {
    match l
    case PowerLevel => op.Power?
    case MulDivModLevel => op.Mul? || op.Div? || op.Mod?
    case PlusMinusLevel => op.Add? || op.Sub?
    case CompareLevel => op.IsComparison()
    case AndUnlessLevel => op.And? || op.Unless?
    case OrLevel => op.Or?
  }

  /**
   * The operator a matched text builds, given the `bool` flag and the modifier; `None` is the
   * `panic!` arm of the source. The `and`/`unless` level matches the text `less` but builds an
   * operator only for `and` and `unless`.
   */
  function TokenOp(l: Level, tok: string, returnBool: bool, m: Option<BinaryModifier>): (op: Option<BinaryOp>)
    ensures op.Some? ==> InLevel(op.value, l) && op.value.modifier == m
    ensures op.Some? && op.value.IsComparison() ==> op.value.returnBool == returnBool
  {
    match l
    case PowerLevel => if tok == "^" then Some(Power(m)) else None
    case MulDivModLevel =>
      if tok == "*" then Some(Mul(m))
      else if tok == "/" then Some(Div(m))
      else if tok == "%" then Some(Mod(m))
      else None
    case PlusMinusLevel =>
      if tok == "+" then Some(Add(m))
      else if tok == "-" then Some(Sub(m))
      else None
    case CompareLevel =>
      if tok == ">=" then Some(GreaterEqual(returnBool, m))
      else if tok == "<=" then Some(LessEqual(returnBool, m))
      else if tok == "!=" then Some(BinaryOp.NotEqual(returnBool, m))
      else if tok == "==" then Some(BinaryOp.Equal(returnBool, m))
      else if tok == ">" then Some(GreaterThan(returnBool, m))
      else if tok == "<" then Some(LessThan(returnBool, m))
      else None
    case AndUnlessLevel =>
      if tok == "and" then Some(And(m))
      else if tok == "unless" then Some(Unless(m))
      else None
    case OrLevel => if tok == "or" then Some(Or(m)) else None
  }

  /** The input starts with one of the texts of the level. */
  predicate StartsOperator(l: Level, t: string) {
    match l
    case PowerLevel => "^" <= t
    case MulDivModLevel => "*" <= t || "/" <= t || "%" <= t
    case PlusMinusLevel => "+" <= t || "-" <= t
    case CompareLevel => "==" <= t || "!=" <= t || ">" <= t || "<" <= t
    case AndUnlessLevel => "and" <= t || "less" <= t
    case OrLevel => "or" <= t
  }

  /** `StartsOperator` is the reference for "some text of the level is a prefix". */
  lemma StartsOperatorTokens(l: Level, t: string)
    ensures StartsOperator(l, t) <==> exists i :: 0 <= i < |Tokens(l)| && Tokens(l)[i] <= t
  {
    var ts := Tokens(l);
    if StartsOperator(l, t) {
      match l
      case PowerLevel => assert ts[0] <= t;
      case MulDivModLevel => assert ts[0] <= t || ts[1] <= t || ts[2] <= t;
      case PlusMinusLevel => assert ts[0] <= t || ts[1] <= t;
      case CompareLevel => assert ts[2] <= t || ts[3] <= t || ts[4] <= t || ts[5] <= t;
      case AndUnlessLevel => assert ts[0] <= t || ts[1] <= t;
      case OrLevel => assert ts[0] <= t;
    } else if l == CompareLevel {
      assert !(ts[4] <= t) && !(ts[5] <= t);
      assert |t| > 0 ==> t[0] != '>' && t[0] != '<';
    }
  }

  /**
   * Every text a level matches builds an operator, except `less` on the `and`/`unless` level,
   * where only `and` does.
   */
  lemma TokenOpOfTokens(l: Level, tok: string)
    requires tok in Tokens(l)
    ensures l != AndUnlessLevel ==> forall b, m :: TokenOp(l, tok, b, m).Some?
    ensures l == AndUnlessLevel ==> forall b, m :: TokenOp(l, tok, b, m) == if tok == "and" then Some(And(m)) else None
  {
  }

  /** `ws(alt((tag(t0), tag(t1), …)))` over the texts of a level. */
  function OpToken(l: Level, s: string): (r: PResult<string>)
    ensures r.Ok? || r.Err?
    ensures r.Ok? ==> r.val in Tokens(l) && |r.rest| < |s|
    ensures r.Err? <==> !StartsOperator(l, SkipWs(s))
  {
    StartsOperatorTokens(l, SkipWs(s));
    Ws(FirstTag(Tokens(l), SkipWs(s)))
  }

  /**
   * The operator parser of a level: the operator text, then `opt(parse_binary_modifier)`.
   * The modifier parser never fails recoverably, so the optional result is always present; the
   * arm for its absence is kept as the source writes it.
   */
  function ParseBinaryOp(l: Level, s: string): (r: PResult<BinaryOp>)
    ensures r.Ok? || r.Err? || r.Panic?
    ensures r.Err? <==> !StartsOperator(l, SkipWs(s))
    ensures r.Ok? ==> |r.rest| < |s| && InLevel(r.val, l)
    ensures r.Ok? && l == AndUnlessLevel ==> r.val.And?
    ensures r.Panic? ==> var tok := OpToken(l, s);
      tok.Ok? && (ParseBinaryModifier(tok.rest).Panic? || (l == AndUnlessLevel && tok.val == "less"))
  {
    var tok := OpToken(l, s);
    if !tok.Ok? then Propagate(tok)
    else
      var text := tok.val;
      TokenOpOfTokens(l, text);
      match Opt(ParseBinaryModifier(tok.rest), tok.rest)
      case Ok(rest, Some(mod)) =>
        (match TokenOp(l, text, mod.0, mod.1)
         case Some(op) => Ok(rest, op)
         case None => Panic)
      case Ok(rest, None) =>
        (match TokenOp(l, text, false, None)
         case Some(op) => Ok(rest, op)
         case None => Panic)
      case Err(e) => Err(e)
      case Fail(e) => Fail(e)
      case Panic => Panic
  }

  /** `parse_binary_op_power`: `^`. */
  function ParseBinaryOpPower(s: string): (r: PResult<BinaryOp>)
    ensures r.Ok? || r.Err? || r.Panic?
    ensures r.Err? <==> !("^" <= SkipWs(s))
    ensures r.Ok? ==> |r.rest| < |s| && r.val.Power?
  {
    ParseBinaryOp(PowerLevel, s)
  }

  /** `parse_binary_op_mul_div_mod`: `*`, `/` or `%`. */
  function ParseBinaryOpMulDivMod(s: string): (r: PResult<BinaryOp>)
    ensures r.Ok? || r.Err? || r.Panic?
    ensures r.Err? <==> !("*" <= SkipWs(s) || "/" <= SkipWs(s) || "%" <= SkipWs(s))
    ensures r.Ok? ==> |r.rest| < |s| && (r.val.Mul? || r.val.Div? || r.val.Mod?)
  {
    ParseBinaryOp(MulDivModLevel, s)
  }

  /** `parse_binary_op_plus_minus`: `+` or `-`. */
  function ParseBinaryOpPlusMinus(s: string): (r: PResult<BinaryOp>)
    ensures r.Ok? || r.Err? || r.Panic?
    ensures r.Err? <==> !("+" <= SkipWs(s) || "-" <= SkipWs(s))
    ensures r.Ok? ==> |r.rest| < |s| && (r.val.Add? || r.val.Sub?)
  {
    ParseBinaryOp(PlusMinusLevel, s)
  }

  /** `parse_binary_op_compare`: the two-character comparisons are tried before `>` and `<`. */
  function ParseBinaryOpCompare(s: string): (r: PResult<BinaryOp>)
    ensures r.Ok? || r.Err? || r.Panic?
    ensures r.Err? <==> !("==" <= SkipWs(s) || "!=" <= SkipWs(s) || ">" <= SkipWs(s) || "<" <= SkipWs(s))
    ensures r.Ok? ==> |r.rest| < |s| && r.val.IsComparison()
  {
    ParseBinaryOp(CompareLevel, s)
  }

  /**
   * `parse_binary_op_and_unless`: only `and` yields an operator. The second text it matches is
   * `less`, for which no arm exists, so `unless` is never recognised.
   */
  function ParseBinaryOpAndUnless(s: string): (r: PResult<BinaryOp>)
    ensures r.Ok? || r.Err? || r.Panic?
    ensures r.Err? <==> !("and" <= SkipWs(s) || "less" <= SkipWs(s))
    ensures r.Ok? ==> |r.rest| < |s| && r.val.And?
  {
    ParseBinaryOp(AndUnlessLevel, s)
  }

  /** `parse_binary_op_or`: `or`. */
  function ParseBinaryOpOr(s: string): (r: PResult<BinaryOp>)
    ensures r.Ok? || r.Err? || r.Panic?
    ensures r.Err? <==> !("or" <= SkipWs(s))
    ensures r.Ok? ==> |r.rest| < |s| && r.val.Or?
  {
    ParseBinaryOp(OrLevel, s)
  }

  // ----- Printing and the round trip -----

  /** The text of an operator. */
  function OpText(op: BinaryOp): string {
    match op
    case Add(_) => "+"
    case Sub(_) => "-"
    case Mul(_) => "*"
    case Div(_) => "/"
    case Mod(_) => "%"
    case Power(_) => "^"
    case Equal(_, _) => "=="
    case NotEqual(_, _) => "!="
    case GreaterThan(_, _) => ">"
    case LessThan(_, _) => "<"
    case GreaterEqual(_, _) => ">="
    case LessEqual(_, _) => "<="
    case And(_) => "and"
    case Or(_) => "or"
    case Unless(_) => "unless"
  }

  /** The level an operator belongs to. */
  function LevelOf(op: BinaryOp): (l: Level)
    ensures InLevel(op, l)
  {
    match op
    case Power(_) => PowerLevel
    case Mul(_) => MulDivModLevel
    case Div(_) => MulDivModLevel
    case Mod(_) => MulDivModLevel
    case Add(_) => PlusMinusLevel
    case Sub(_) => PlusMinusLevel
    case And(_) => AndUnlessLevel
    case Unless(_) => AndUnlessLevel
    case Or(_) => OrLevel
    case _ => CompareLevel
  }

  /** The `bool` flag an operator carries; only comparisons carry one. */
  function OpFlag(op: BinaryOp): bool {
    if op.IsComparison() then op.returnBool else false
  }

  /**
   * Building an operator from a text is the inverse of printing it: a text of a level builds
   * exactly the operator whose text it is, and every operator but `unless` is built from its text.
   */
  lemma TokenOpText(l: Level, tok: string, b: bool, m: Option<BinaryModifier>)
    ensures TokenOp(l, tok, b, m).Some? ==> var op := TokenOp(l, tok, b, m).value;
      tok == OpText(op) && l == LevelOf(op) && OpFlag(op) == (op.IsComparison() && b)
  {
  }

  lemma OpTextTokenOp(op: BinaryOp, b: bool)
    requires !op.Unless?
    requires op.IsComparison() ==> b == op.returnBool
    ensures TokenOp(LevelOf(op), OpText(op), b, op.modifier) == Some(op)
  {
  }

  /** The modifier clauses of an operator as text. */
  function ModifierOptText(m: Option<BinaryModifier>): string {
    if m.Some? then ModifierText(m.value) else ""
  }

  /** The position of an operator's text among the texts of its level. */
  function OpIndex(op: BinaryOp): (k: nat)
    requires !op.Unless?
    ensures k < |Tokens(LevelOf(op))| && Tokens(LevelOf(op))[k] == OpText(op)
  {
    match op
    case Div(_) => 1
    case Mod(_) => 2
    case Sub(_) => 1
    case LessEqual(_, _) => 1
    case Equal(_, _) => 2
    case NotEqual(_, _) => 3
    case GreaterThan(_, _) => 4
    case LessThan(_, _) => 5
    case _ => 0
  }

  /** The text of an operator reads back as that operator. */
  lemma OpTokenOf(op: BinaryOp, x: string)
    requires !op.Unless?
    requires |x| > 0 && x[0] == ' '
    ensures OpToken(LevelOf(op), OpText(op) + x) == Ok(SkipWs(x), OpText(op))
  {
    OpFirstTag(op, x);
    OpTextStart(op);
    TextStart(OpText(op), x);
    OpTokenStep(LevelOf(op), OpText(op) + x, x, OpText(op));
  }

  lemma OpTextStart(op: BinaryOp)
    ensures |OpText(op)| > 0 && !IsSpace(OpText(op)[0])
  {
  }

  lemma TextStart(text: string, x: string)
    requires |text| > 0 && !IsSpace(text[0])
    ensures SkipWs(text + x) == text + x
  {
    assert (text + x)[0] == text[0];
    SkipWsNoSpace(text + x);
  }

  lemma OpTokenStep(l: Level, s: string, x: string, text: string)
    requires SkipWs(s) == s
    requires FirstTag(Tokens(l), s) == Ok(x, text)
    ensures OpToken(l, s) == Ok(SkipWs(x), text)
  {
  }

  lemma OpFirstTag(op: BinaryOp, x: string)
    requires !op.Unless?
    requires |x| > 0 && x[0] == ' '
    ensures FirstTag(Tokens(LevelOf(op)), OpText(op) + x) == Ok(x, OpText(op))
  {
    var l := LevelOf(op);
    var k := OpIndex(op);
    var ts := Tokens(l);
    var s := ts[k] + x;
    forall i | 0 <= i < k ensures !(ts[i] <= s) {
      EarlierToken(l, i, k, x);
    }
    FirstTagAt(ts, k, s);
    assert s[|ts[k]|..] == x;
  }

  /** A text tried before an operator's own text is not a prefix of that text followed by a space. */
  lemma EarlierToken(l: Level, i: nat, k: nat, x: string)
    requires i < k < |Tokens(l)|
    requires |x| > 0 && x[0] == ' '
    ensures !(Tokens(l)[i] <= Tokens(l)[k] + x)
  {
    var ts := Tokens(l);
    var s := ts[k] + x;
    assert s[0] == ts[k][0];
    if |ts[k]| == 1 {
      assert s[1] == ' ';
    }
  }

  /**
   * Round trip of an operator: its text, a space, the `bool` keyword when it returns a boolean,
   * and its modifier clauses read back as the operator. A `bool` written after an operator that
   * is not a comparison (`extra`) is read and dropped.
   */
  lemma OperatorRoundTrip(op: BinaryOp, extra: bool, t: string)
    requires !op.Unless?
    requires extra ==> !op.IsComparison()
    requires op.modifier.Some? ==> AllLabelNames(op.modifier.value.labels)
    requires op.modifier.Some? && op.modifier.value.group.Some? ==> AllLabelNames(op.modifier.value.group.value.labels)
    requires PlainStart(t)
    ensures ParseBinaryOp(LevelOf(op), OpText(op) + (" " + (BoolText(OpFlag(op) || extra) + (ModifierOptText(op.modifier) + t)))) == Ok(t, op)
  {
    var flag := OpFlag(op) || extra;
    var z := BoolText(flag) + (ModifierOptText(op.modifier) + t);
    var s := OpText(op) + (" " + z);
    assert ParseBinaryModifier(z) == Ok(t, (flag, op.modifier)) by {
      ModifiersOf(flag, op.modifier, t);
    }
    assert OpToken(LevelOf(op), s) == Ok(z, OpText(op)) by {
      SpaceThenModifiers(flag, op.modifier, t);
      OpTokenOf(op, " " + z);
    }
    assert TokenOp(LevelOf(op), OpText(op), flag, op.modifier) == Some(op) by {
      OpTextTokenOp(op, flag);
    }
    OperatorStep(LevelOf(op), s, z, OpText(op), t, flag, op);
  }

  lemma ModifiersOf(flag: bool, m: Option<BinaryModifier>, t: string)
    requires m.Some? ==> AllLabelNames(m.value.labels)
    requires m.Some? && m.value.group.Some? ==> AllLabelNames(m.value.group.value.labels)
    requires PlainStart(t)
    ensures ParseBinaryModifier(BoolText(flag) + (ModifierOptText(m) + t)) == Ok(t, (flag, m))
  {
    if m.Some? {
      PlainNoGroupKeyword(t);
      SkipWsNoSpace(t);
      BinaryModifierRoundTrip(flag, m.value, "", "", t);
    } else {
      assert ModifierOptText(m) + t == t;
      BareModifierRoundTrip(flag, t);
    }
  }

  lemma SpaceThenModifiers(flag: bool, m: Option<BinaryModifier>, t: string)
    requires PlainStart(t)
    ensures var z := BoolText(flag) + (ModifierOptText(m) + t); SkipWs(" " + z) == z
  {
    var z := BoolText(flag) + (ModifierOptText(m) + t);
    SkipWsSpace(z);
    ModifierStart(flag, m, t);
    SkipWsNoSpace(z);
  }

  lemma ModifierStart(flag: bool, m: Option<BinaryModifier>, t: string)
    requires PlainStart(t)
    ensures PlainStart(BoolText(flag) + (ModifierOptText(m) + t)) || (BoolText(flag) + (ModifierOptText(m) + t))[0] in "boi"
  {
    if m.Some? {
      ModifierTextStart(m.value, "", "", t);
    }
  }

  lemma OperatorStep(l: Level, s: string, z: string, text: string, t: string, flag: bool, op: BinaryOp)
    requires OpToken(l, s) == Ok(z, text)
    requires ParseBinaryModifier(z) == Ok(t, (flag, op.modifier))
    requires TokenOp(l, text, flag, op.modifier) == Some(op)
    ensures ParseBinaryOp(l, s) == Ok(t, op)
  {
  }

  /** The text `less` is matched on the `and`/`unless` level and always reaches the panic arm. */
  lemma LessPanics(s: string)
    requires "less" <= SkipWs(s)
    ensures ParseBinaryOpAndUnless(s) == Panic
  {
    LessToken(SkipWs(s));
    LessStep(s);
  }

  lemma LessToken(u: string)
    requires "less" <= u
    ensures FirstTag(Tokens(AndUnlessLevel), u).Ok? && FirstTag(Tokens(AndUnlessLevel), u).val == "less"
  {
    var ts := Tokens(AndUnlessLevel);
    assert !(ts[0] <= u) by { assert u[0] == 'l'; }
    FirstTagAt(ts, 1, u);
  }

  lemma LessStep(s: string)
    requires OpToken(AndUnlessLevel, s).Ok? && OpToken(AndUnlessLevel, s).val == "less"
    ensures ParseBinaryOp(AndUnlessLevel, s) == Panic
  {
    var tok := OpToken(AndUnlessLevel, s);
    var m := ParseBinaryModifier(tok.rest);
    assert m.Ok? || m.Panic?;
    if m.Ok? {
      assert TokenOp(AndUnlessLevel, "less", m.val.0, m.val.1) == None;
    }
  }

  /** The text `unless` is not an operator: the level reports a recoverable error. */
  lemma UnlessNotAnOperator(t: string)
    ensures ParseBinaryOpAndUnless("unless" + t).Err?
  {
    var s := "unless" + t;
    assert s[0] == 'u';
    SkipWsNoSpace(s);
  }

  /** The two-character comparisons win over `>` and `<`. */
  lemma LongestComparison(t: string)
    ensures ParseBinaryOpCompare(">=" + t).Ok? ==> ParseBinaryOpCompare(">=" + t).val.GreaterEqual?
    ensures ParseBinaryOpCompare("<=" + t).Ok? ==> ParseBinaryOpCompare("<=" + t).val.LessEqual?
  {
    CompareToken(">=", t);
    CompareToken("<=", t);
    CompareStep(">=" + t, ">=");
    CompareStep("<=" + t, "<=");
  }

  lemma CompareToken(op: string, t: string)
    requires op == ">=" || op == "<="
    ensures OpToken(CompareLevel, op + t).Ok? && OpToken(CompareLevel, op + t).val == op
  {
    var s := op + t;
    assert SkipWs(s) == s by { assert s[0] == op[0]; SkipWsNoSpace(s); }
    var ts := Tokens(CompareLevel);
    if op == ">=" {
      assert ts[0] <= s;
    } else {
      assert !(ts[0] <= s) by { assert s[0] == '<'; }
      FirstTagAt(ts, 1, s);
    }
  }

  lemma CompareStep(s: string, op: string)
    requires op == ">=" || op == "<="
    requires OpToken(CompareLevel, s).Ok? && OpToken(CompareLevel, s).val == op
    ensures ParseBinaryOpCompare(s).Ok? ==> (if op == ">=" then ParseBinaryOpCompare(s).val.GreaterEqual? else ParseBinaryOpCompare(s).val.LessEqual?)
  {
  }
}
