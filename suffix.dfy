/**
 * The remainder invariant: every parser that succeeds hands back a suffix of the input it was
 * given, so parsing only ever moves forward through the query text and never invents or
 * rearranges input. One lemma per parser, leaves first; the lemmas for the recursive grammar
 * follow its mutual recursion on the same measure.
 */
module Suffix {
  import opened Wrappers
  import Errors
  import opened Ast
  import opened Combinators
  import opened Lexical
  import opened Literal
  import opened Selector
  import opened Grouping
  import opened Modifiers
  import opened Ops
  import opened Calls
  import opened Grammar

  /** A success leaves a suffix of the input. */
  predicate Advances<T>(r: PResult<T>, s: string) {
    r.Ok? ==> IsSuffix(r.rest, s)
  }

  // ----- Suffixes -----

  lemma SuffixTrans(u: string, t: string, s: string)
    requires IsSuffix(u, t) && IsSuffix(t, s)
    ensures IsSuffix(u, s)
  {
    assert s[|s| - |t|..][|t| - |u|..] == s[|s| - |u|..];
  }

  lemma DropSuffix(s: string, k: nat)
    requires k <= |s|
    ensures IsSuffix(s[k..], s)
  {
  }

  lemma SkipWsSuffix(s: string)
    ensures IsSuffix(SkipWs(s), s)
  {
    SkipWsDropsSpaces(s);
  }

  // ----- Combinators -----

  /** `ws(f)`: `f` run after the leading whitespace, then the trailing whitespace dropped. */
  lemma WsAdvances<T>(r: PResult<T>, s: string)
    requires Advances(r, SkipWs(s))
    ensures Advances(Ws(r), s)
  {
    if r.Ok? {
      SkipWsSuffix(s);
      SkipWsSuffix(r.rest);
      SuffixTrans(r.rest, SkipWs(s), s);
      SuffixTrans(SkipWs(r.rest), r.rest, s);
    }
  }

  lemma TagAdvances(t: string, s: string)
    ensures Advances(Tag(t, s), s)
  {
  }

  lemma TagNoCaseAdvances(t: string, s: string)
    ensures Advances(TagNoCase(t, s), s)
  {
    var r := TagNoCase(t, s);
    if r.Ok? {
      assert r.rest == s[|t|..];
    }
  }

  /** `ws(tag(t))`. */
  lemma WsTag(t: string, s: string)
    ensures Advances(Ws(Tag(t, SkipWs(s))), s)
  {
    TagAdvances(t, SkipWs(s));
    WsAdvances(Tag(t, SkipWs(s)), s);
  }

  /** `ws(tag_no_case(t))`. */
  lemma WsTagNoCase(t: string, s: string)
    ensures Advances(Ws(TagNoCase(t, SkipWs(s))), s)
  {
    TagNoCaseAdvances(t, SkipWs(s));
    WsAdvances(TagNoCase(t, SkipWs(s)), s);
  }

  lemma AltAdvances<T>(a: PResult<T>, b: PResult<T>, s: string)
    requires Advances(a, s) && Advances(b, s)
    ensures Advances(Alt(a, b, s), s)
  {
  }

  lemma OptAdvances<T>(r: PResult<T>, s: string)
    requires Advances(r, s)
    ensures Advances(Opt(r, s), s)
  {
  }

  /** Two parsers in sequence: the second runs on what the first left. */
  lemma SeqAdvances<T, U>(a: PResult<T>, b: PResult<U>, s: string)
    requires Advances(a, s) && a.Ok? && Advances(b, a.rest)
    ensures Advances(b, s)
  {
    if b.Ok? {
      SuffixTrans(b.rest, a.rest, s);
    }
  }

  // ----- Names and literals -----

  lemma RecognizeNameAdvances(s: string, punct: set<char>)
    ensures Advances(RecognizeName(s, punct), s)
  {
    if |s| > 0 && NameStart(s[0], punct) {
      NameLengthMaximal(s, punct);
      DropSuffix(s, NameLength(s, punct));
    }
  }

  lemma ParseQuotedAdvances(s: string, d: char)
    ensures Advances(ParseQuoted(s, d), s)
  {
    var open := Ws(Tag([d], SkipWs(s)));
    WsTag([d], s);
    if open.Ok? {
      var body := Escaped(open.rest, d, 0);
      if body.Ok? {
        DropSuffix(open.rest, |body.val|);
        SeqAdvances(open, body, s);
        var close := Ws(Tag([d], SkipWs(body.rest)));
        WsTag([d], body.rest);
        SeqAdvances(body, close, s);
      }
    }
  }

  lemma ParseStringLiteralAdvances(s: string)
    ensures Advances(ParseStringLiteral(s), s)
  {
    ParseQuotedAdvances(s, '"');
    ParseQuotedAdvances(s, '\'');
    ParseQuotedAdvances(s, '`');
    AltAdvances(ParseQuoted(s, '\''), ParseQuoted(s, '`'), s);
    AltAdvances(ParseQuoted(s, '"'), Alt(ParseQuoted(s, '\''), ParseQuoted(s, '`'), s), s);
  }

  lemma ParseNumberLiteralAdvances(s: string)
    ensures Advances(ParseNumberLiteral(s), s)
  {
    var t := RecognizeNumber(s);
    if t.Ok? {
      DropSuffix(s, |t.val|);
    }
  }

  // ----- Selectors -----

  lemma ParseDurationAdvances(dec: Errors.Decoder, s: string)
    ensures Advances(ParseDuration(dec, s), s)
  {
    DropSuffix(s, |DurationToken(s)|);
  }

  lemma ParseLabelMatcherOpAdvances(s: string)
    ensures Advances(ParseLabelMatcherOp(s), s)
  {
    var r := ParseLabelMatcherOp(s);
    if r.Ok? {
      var t := SkipWs(s);
      var k := |MatcherOpText(r.val)|;
      SkipWsSuffix(s);
      DropSuffix(t, k);
      SkipWsSuffix(t[k..]);
      SuffixTrans(t[k..], t, s);
      SuffixTrans(r.rest, t[k..], s);
    }
  }

  lemma ParseLabelMatcherAdvances(s: string)
    ensures Advances(ParseLabelMatcher(s), s)
  {
    var name := Ws(ParseLabelName(SkipWs(s)));
    RecognizeNameAdvances(SkipWs(s), LabelPunct);
    WsAdvances(ParseLabelName(SkipWs(s)), s);
    if name.Ok? {
      var op := ParseLabelMatcherOp(name.rest);
      ParseLabelMatcherOpAdvances(name.rest);
      if op.Ok? {
        SeqAdvances(name, op, s);
        ParseStringLiteralAdvances(op.rest);
        SeqAdvances(op, ParseStringLiteral(op.rest), s);
      }
    }
  }

  lemma {:induction false} MatcherListRestAdvances(s: string)
    ensures Advances(MatcherListRest(s), s)
    decreases |s|
  {
    var sep := Tag(",", s);
    if sep.Ok? {
      var m := ParseLabelMatcher(sep.rest);
      if m.Ok? {
        ParseLabelMatcherAdvances(sep.rest);
        SeqAdvances(sep, m, s);
        MatcherListRestAdvances(m.rest);
        SeqAdvances(m, MatcherListRest(m.rest), s);
      }
    }
  }

  lemma MatcherListAdvances(s: string)
    ensures Advances(MatcherList(s), s)
  {
    var m := ParseLabelMatcher(s);
    if m.Ok? {
      ParseLabelMatcherAdvances(s);
      MatcherListRestAdvances(m.rest);
      SeqAdvances(m, MatcherListRest(m.rest), s);
    }
  }

  lemma ParseLabelMatchersAdvances(s: string)
    ensures Advances(ParseLabelMatchers(s), s)
  {
    var open := Ws(Tag("{", SkipWs(s)));
    WsTag("{", s);
    if open.Ok? {
      var ms := MatcherList(open.rest);
      MatcherListAdvances(open.rest);
      SeqAdvances(open, ms, s);
      WsTag("}", ms.rest);
      SeqAdvances(ms, Ws(Tag("}", SkipWs(ms.rest))), s);
    }
  }

  lemma ParseInstantVecAdvances(s: string)
    ensures Advances(ParseInstantVec(s), s)
  {
    RecognizeNameAdvances(SkipWs(s), MetricPunct);
    WsAdvances(ParseMetricName(SkipWs(s)), s);
    OptAdvances(Ws(ParseMetricName(SkipWs(s))), s);
    var id := Opt(Ws(ParseMetricName(SkipWs(s))), s);
    ParseLabelMatchersAdvances(SkipWs(id.rest));
    WsAdvances(ParseLabelMatchers(SkipWs(id.rest)), id.rest);
    OptAdvances(Ws(ParseLabelMatchers(SkipWs(id.rest))), id.rest);
    SeqAdvances(id, Opt(Ws(ParseLabelMatchers(SkipWs(id.rest))), id.rest), s);
  }

  lemma RangeSuffixAdvances(dec: Errors.Decoder, s: string)
    ensures Advances(RangeSuffix(dec, s), s)
  {
    var open := Tag("[", s);
    if open.Ok? {
      var d := ParseDuration(dec, open.rest);
      ParseDurationAdvances(dec, open.rest);
      if d.Ok? {
        SeqAdvances(open, d, s);
        SeqAdvances(d, Tag("]", d.rest), s);
      }
    }
  }

  lemma OffsetSuffixAdvances(dec: Errors.Decoder, s: string)
    ensures Advances(OffsetSuffix(dec, s), s)
  {
    var kw := Ws(TagNoCase("offset", SkipWs(s)));
    WsTagNoCase("offset", s);
    if kw.Ok? {
      ParseDurationAdvances(dec, kw.rest);
      SeqAdvances(kw, ParseDuration(dec, kw.rest), s);
    }
  }

  lemma ParseVectorAdvances(dec: Errors.Decoder, s: string)
    ensures Advances(ParseVector(dec, s), s)
  {
    var v := ParseInstantVec(s);
    ParseInstantVecAdvances(s);
    RangeSuffixAdvances(dec, v.rest);
    OptAdvances(RangeSuffix(dec, v.rest), v.rest);
    var range := Opt(RangeSuffix(dec, v.rest), v.rest);
    if range.Ok? {
      SeqAdvances(v, range, s);
      OffsetSuffixAdvances(dec, range.rest);
      OptAdvances(OffsetSuffix(dec, range.rest), range.rest);
      SeqAdvances(range, Opt(OffsetSuffix(dec, range.rest), range.rest), s);
    }
  }

  // ----- Label lists and modifiers -----

  lemma ParseGroupingLabelAdvances(s: string)
    ensures Advances(ParseGroupingLabel(s), s)
  {
    RecognizeNameAdvances(SkipWs(s), LabelPunct);
    WsAdvances(Context(ParseLabelName(SkipWs(s)), SkipWs(s), "grouping_label"), s);
  }

  lemma {:induction false} GroupingLabelListRestAdvances(s: string)
    ensures Advances(GroupingLabelListRest(s), s)
    decreases |s|
  {
    var sep := Tag(",", s);
    if sep.Ok? {
      var l := ParseGroupingLabel(sep.rest);
      if l.Ok? {
        ParseGroupingLabelAdvances(sep.rest);
        SeqAdvances(sep, l, s);
        GroupingLabelListRestAdvances(l.rest);
        SeqAdvances(l, GroupingLabelListRest(l.rest), s);
      }
    }
  }

  lemma ParseGroupingLabelListAdvances(s: string)
    ensures Advances(ParseGroupingLabelList(s), s)
  {
    var l := ParseGroupingLabel(s);
    if l.Ok? {
      ParseGroupingLabelAdvances(s);
      GroupingLabelListRestAdvances(l.rest);
      SeqAdvances(l, GroupingLabelListRest(l.rest), s);
    }
  }

  lemma ParseGroupingLabelsAdvances(s: string)
    ensures Advances(ParseGroupingLabels(s), s)
  {
    var open := Tag("(", s);
    if open.Ok? {
      var ls := ParseGroupingLabelList(open.rest);
      ParseGroupingLabelListAdvances(open.rest);
      SeqAdvances(open, ls, s);
      SeqAdvances(ls, Tag(")", ls.rest), s);
    }
  }

  lemma KeywordLabelsAdvances(kw: string, s: string)
    ensures Advances(KeywordLabels(kw, s), s)
  {
    var k := Ws(TagNoCase(kw, SkipWs(s)));
    WsTagNoCase(kw, s);
    if k.Ok? {
      ParseGroupingLabelsAdvances(SkipWs(k.rest));
      WsAdvances(ParseGroupingLabels(SkipWs(k.rest)), k.rest);
      SeqAdvances(k, Ws(ParseGroupingLabels(SkipWs(k.rest))), s);
    }
  }

  lemma ParseOnOrIgnoringAdvances(s: string)
    ensures Advances(ParseOnOrIgnoring(s), s)
  {
    KeywordLabelsAdvances("ignoring", s);
    KeywordLabelsAdvances("on", s);
    AltAdvances(WithAction(KeywordLabels("ignoring", s), Ignore), WithAction(KeywordLabels("on", s), On), s);
  }

  lemma GroupClauseAdvances(s: string)
    ensures Advances(GroupClause(s), s)
  {
    var t := SkipWs(s);
    TagNoCaseAdvances("group_left", t);
    TagNoCaseAdvances("group_right", t);
    AltAdvances(TagNoCase("group_left", t), TagNoCase("group_right", t), t);
    WsAdvances(Alt(TagNoCase("group_left", t), TagNoCase("group_right", t), t), s);
    var g := GroupKeyword(s);
    if g.Ok? {
      ParseGroupingLabelsAdvances(g.rest);
      SeqAdvances(g, ParseGroupingLabels(g.rest), s);
    }
  }

  lemma ParseGroupModifiersAdvances(s: string)
    ensures Advances(ParseGroupModifiers(s), s)
  {
    var a := ParseOnOrIgnoring(s);
    ParseOnOrIgnoringAdvances(s);
    if a.Ok? {
      var g := Opt(GroupClause(a.rest), a.rest);
      GroupClauseAdvances(a.rest);
      OptAdvances(GroupClause(a.rest), a.rest);
      if g.Ok? {
        SeqAdvances(a, g, s);
        GroupModifiersRest(s, a, g);
      }
    }
  }

  /** Whatever the grouping clause holds, the modifier ends where the optional clause ended. */
  lemma GroupModifiersRest(s: string, a: PResult<BinaryModifier>, g: PResult<Option<(string, seq<string>)>>)
    requires a == ParseOnOrIgnoring(s) && a.Ok?
    requires g == Opt(GroupClause(a.rest), a.rest) && g.Ok?
    ensures ParseGroupModifiers(s).Ok? ==> ParseGroupModifiers(s).rest == g.rest
  {
    var r := ParseGroupModifiers(s);
    if g.val.None? {
      assert r == Ok(g.rest, a.val);
    } else {
      var side := SideOf(g.val.value.0);
      if side == Some(Left) {
        assert r == Ok(g.rest, a.val.(group := Some(GroupLeft(g.val.value.1))));
      } else if side == Some(Right) {
        assert r == Ok(g.rest, a.val.(group := Some(GroupRight(g.val.value.1))));
      } else {
        assert r == Panic;
      }
    }
  }

  lemma ParseBinaryModifierAdvances(s: string)
    ensures Advances(ParseBinaryModifier(s), s)
  {
    WsTagNoCase("bool", s);
    OptAdvances(Ws(TagNoCase("bool", SkipWs(s))), s);
    var b := Opt(Ws(TagNoCase("bool", SkipWs(s))), s);
    if b.Ok? {
      ParseGroupModifiersAdvances(b.rest);
      OptAdvances(ParseGroupModifiers(b.rest), b.rest);
      SeqAdvances(b, Opt(ParseGroupModifiers(b.rest), b.rest), s);
    }
  }

  lemma ParseBinaryOpAdvances(l: Level, s: string)
    ensures Advances(ParseBinaryOp(l, s), s)
  {
    var tok := OpToken(l, s);
    OpTokenAdvances(l, s);
    if tok.Ok? {
      var m := Opt(ParseBinaryModifier(tok.rest), tok.rest);
      ParseBinaryModifierAdvances(tok.rest);
      OptAdvances(ParseBinaryModifier(tok.rest), tok.rest);
      if m.Ok? {
        SeqAdvances(tok, m, s);
        BinaryOpRest(l, s, tok, m);
      }
    }
  }

  lemma OpTokenAdvances(l: Level, s: string)
    ensures Advances(OpToken(l, s), s)
  {
    var t := SkipWs(s);
    var f := FirstTag(Tokens(l), t);
    if f.Ok? {
      DropSuffix(t, |f.val|);
    }
    WsAdvances(f, s);
  }

  /** Whatever operator the token maps to, it ends where the optional modifier ended. */
  lemma BinaryOpRest(l: Level, s: string, tok: PResult<string>, m: PResult<Option<(bool, Option<BinaryModifier>)>>)
    requires tok == OpToken(l, s) && tok.Ok?
    requires m == Opt(ParseBinaryModifier(tok.rest), tok.rest) && m.Ok?
    ensures ParseBinaryOp(l, s).Ok? ==> ParseBinaryOp(l, s).rest == m.rest
  {
  }

  lemma ParseAggregationModifierAdvances(s: string)
    ensures Advances(ParseAggregationModifier(s), s)
  {
    var t := SkipWs(s);
    WsTagNoCase("by", s);
    WsTagNoCase("without", s);
    AltAdvances(Ws(TagNoCase("by", t)), Ws(TagNoCase("without", t)), s);
    var kw := AggregationKeyword(s);
    if kw.Ok? {
      ParseGroupingLabelsAdvances(SkipWs(kw.rest));
      WsAdvances(ParseGroupingLabels(SkipWs(kw.rest)), kw.rest);
      SeqAdvances(kw, Ws(ParseGroupingLabels(SkipWs(kw.rest))), s);
    }
  }

  // ----- The expression grammar -----

  lemma SubquerySuffixAdvances(dec: Errors.Decoder, s: string)
    ensures Advances(SubquerySuffix(dec, s), s)
  {
    var open := Ws(Tag("[", SkipWs(s)));
    WsTag("[", s);
    if open.Ok? {
      var range := ParseDuration(dec, open.rest);
      ParseDurationAdvances(dec, open.rest);
      if range.Ok? {
        SeqAdvances(open, range, s);
        var colon := Ws(Tag(":", SkipWs(range.rest)));
        WsTag(":", range.rest);
        if colon.Ok? {
          SeqAdvances(range, colon, s);
          ParseDurationAdvances(dec, colon.rest);
          OptAdvances(ParseDuration(dec, colon.rest), colon.rest);
          var resolution := Opt(ParseDuration(dec, colon.rest), colon.rest);
          if resolution.Ok? {
            SeqAdvances(colon, resolution, s);
            WsTag("]", resolution.rest);
            SeqAdvances(resolution, Ws(Tag("]", SkipWs(resolution.rest))), s);
          }
        }
      }
    }
  }

  /** A successful parse of a query leaves a suffix of the query: the text after the expression. */
  lemma {:induction false} ParseExprAdvances(dec: Errors.Decoder, s: string)
    ensures Advances(ParseExpr(dec, s), s)
    decreases |s|, 10, 0
  {
    var e := ParseLevel(dec, OrLevel, s);
    ParseLevelAdvances(dec, OrLevel, s);
    if e.Ok? {
      SubquerySuffixAdvances(dec, e.rest);
      OptAdvances(SubquerySuffix(dec, e.rest), e.rest);
      SeqAdvances(e, Opt(SubquerySuffix(dec, e.rest), e.rest), s);
    }
  }

  lemma {:induction false} ParseLevelAdvances(dec: Errors.Decoder, l: Level, s: string)
    requires l != PowerLevel
    ensures Advances(ParseLevel(dec, l, s), s)
    decreases |s|, Rank(l), 2
  {
    var a := ParseOperand(dec, l, s);
    ParseOperandAdvances(dec, l, s);
    if a.Ok? {
      LevelTailAdvances(dec, l, a.rest);
      SeqAdvances(a, LevelTail(dec, l, a.rest), s);
    }
  }

  lemma {:induction false} ParseOperandAdvances(dec: Errors.Decoder, l: Level, s: string)
    requires l != PowerLevel
    ensures Advances(ParseOperand(dec, l, s), s)
    decreases |s|, Rank(l), 1
  {
    match l
    case MulDivModLevel => ParsePowerAdvances(dec, s);
    case PlusMinusLevel => ParseLevelAdvances(dec, MulDivModLevel, s);
    case CompareLevel => ParseLevelAdvances(dec, PlusMinusLevel, s);
    case AndUnlessLevel => ParseLevelAdvances(dec, CompareLevel, s);
    case OrLevel => ParseLevelAdvances(dec, AndUnlessLevel, s);
  }

  lemma LevelOpAdvances(l: Level, s: string)
    ensures Advances(LevelOp(l, s), s)
  {
    ParseBinaryOpAdvances(l, SkipWs(s));
    SkipWsSuffix(s);
    var op := ParseBinaryOp(l, SkipWs(s));
    if op.Ok? {
      SuffixTrans(op.rest, SkipWs(s), s);
      SkipWsSuffix(op.rest);
      SuffixTrans(SkipWs(op.rest), op.rest, s);
    }
  }

  lemma {:induction false} LevelTailAdvances(dec: Errors.Decoder, l: Level, s: string)
    requires l != PowerLevel
    ensures Advances(LevelTail(dec, l, s), s)
    decreases |s|, Rank(l), 0
  {
    var op := LevelOp(l, s);
    if op.Ok? {
      LevelOpAdvances(l, s);
      var c := ParseOperand(dec, l, op.rest);
      ParseOperandAdvances(dec, l, op.rest);
      if c.Ok? {
        SeqAdvances(op, c, s);
        LevelTailAdvances(dec, l, c.rest);
        SeqAdvances(c, LevelTail(dec, l, c.rest), s);
      }
    }
  }

  lemma {:induction false} ParsePowerAdvances(dec: Errors.Decoder, s: string)
    ensures Advances(ParsePower(dec, s), s)
    decreases |s|, 4, 0
  {
    var a := ParseAtom(dec, s);
    ParseAtomAdvances(dec, s);
    if a.Ok? {
      PowerTailAdvances(dec, a.rest);
      SeqAdvances(a, PowerTail(dec, a.rest), s);
    }
  }

  lemma {:induction false} PowerTailAdvances(dec: Errors.Decoder, s: string)
    ensures Advances(PowerTail(dec, s), s)
    decreases |s|, 0, 0
  {
    var op := LevelOp(PowerLevel, s);
    if op.Ok? {
      LevelOpAdvances(PowerLevel, s);
      ParsePowerAdvances(dec, op.rest);
      SeqAdvances(op, ParsePower(dec, op.rest), s);
    }
  }

  lemma {:induction false} ParseAtomAdvances(dec: Errors.Decoder, s: string)
    ensures Advances(ParseAtom(dec, s), s)
    decreases |s|, 3, 0
  {
    if !ParenAtom(dec, s).Err? {
      ParenAtomAdvances(dec, s);
    } else if !NumberAtom(s).Err? {
      NumberAtomAdvances(s);
    } else if !PlusAtom(dec, s).Err? {
      PlusAtomAdvances(dec, s);
    } else if !MinusAtom(dec, s).Err? {
      MinusAtomAdvances(dec, s);
    } else if !CallAtom(dec, s).Err? {
      CallAtomAdvances(dec, s);
    } else {
      VectorAtomAdvances(dec, s);
    }
  }

  lemma NumberAtomAdvances(s: string)
    ensures Advances(NumberAtom(s), s)
  {
    var n := ParseNumberLiteral(SkipWs(s));
    ParseNumberLiteralAdvances(SkipWs(s));
    WsAdvances(n, s);
  }

  lemma {:induction false} PlusAtomAdvances(dec: Errors.Decoder, s: string)
    ensures Advances(PlusAtom(dec, s), s)
    decreases |s|, 0, 0
  {
    var plus := Tag("+", s);
    if plus.Ok? {
      ParseAtomAdvances(dec, plus.rest);
      SeqAdvances(plus, ParseAtom(dec, plus.rest), s);
    }
  }

  lemma {:induction false} MinusAtomAdvances(dec: Errors.Decoder, s: string)
    ensures Advances(MinusAtom(dec, s), s)
    decreases |s|, 0, 0
  {
    var minus := Tag("-", s);
    if minus.Ok? {
      ParseAtomAdvances(dec, minus.rest);
      SeqAdvances(minus, ParseAtom(dec, minus.rest), s);
    }
  }

  lemma {:induction false} CallAtomAdvances(dec: Errors.Decoder, s: string)
    ensures Advances(CallAtom(dec, s), s)
    decreases |s|, 2, 1
  {
    ParseFunctionCallAdvances(dec, s);
  }

  lemma VectorAtomAdvances(dec: Errors.Decoder, s: string)
    ensures Advances(VectorAtom(dec, s), s)
  {
    ParseVectorAdvances(dec, s);
  }

  lemma {:induction false} ParenAtomAdvances(dec: Errors.Decoder, s: string)
    ensures Advances(ParenAtom(dec, s), s)
    decreases |s|, 0, 0
  {
    var open := Tag("(", s);
    if open.Ok? {
      var e := ParseExpr(dec, open.rest);
      ParseExprAdvances(dec, open.rest);
      if e.Ok? {
        SeqAdvances(open, e, s);
        SeqAdvances(e, Tag(")", e.rest), s);
      }
    }
  }

  lemma {:induction false} ParseFunctionCallAdvances(dec: Errors.Decoder, s: string)
    ensures Advances(ParseFunctionCall(dec, s), s)
    decreases |s|, 2, 0
  {
    var name := ParseMetricName(s);
    RecognizeNameAdvances(s, MetricPunct);
    if name.Ok? {
      CallTailAdvances(dec, name.rest);
      SeqAdvances(name, CallTail(dec, name.rest), s);
    }
  }

  lemma {:induction false} CallTailAdvances(dec: Errors.Decoder, s: string)
    ensures Advances(CallTail(dec, s), s)
    decreases |s|, 1, 2
  {
    BodyThenAggregationAdvances(dec, s);
    AggregationThenBodyAdvances(dec, s);
    AltAdvances(BodyThenAggregation(dec, s), AggregationThenBody(dec, s), s);
  }

  lemma {:induction false} BodyThenAggregationAdvances(dec: Errors.Decoder, s: string)
    ensures Advances(BodyThenAggregation(dec, s), s)
    decreases |s|, 1, 1
  {
    var body := ParseFunctionCallBody(dec, s);
    ParseFunctionCallBodyAdvances(dec, s);
    if body.Ok? {
      ParseAggregationModifierAdvances(body.rest);
      OptAdvances(ParseAggregationModifier(body.rest), body.rest);
      SeqAdvances(body, Opt(ParseAggregationModifier(body.rest), body.rest), s);
    }
  }

  lemma {:induction false} AggregationThenBodyAdvances(dec: Errors.Decoder, s: string)
    ensures Advances(AggregationThenBody(dec, s), s)
    decreases |s|, 1, 1
  {
    ParseAggregationModifierAdvances(s);
    OptAdvances(ParseAggregationModifier(s), s);
    var aggregation := Opt(ParseAggregationModifier(s), s);
    if aggregation.Ok? {
      ParseFunctionCallBodyAdvances(dec, aggregation.rest);
      SeqAdvances(aggregation, ParseFunctionCallBody(dec, aggregation.rest), s);
    }
  }

  lemma {:induction false} ParseFunctionCallBodyAdvances(dec: Errors.Decoder, s: string)
    ensures Advances(ParseFunctionCallBody(dec, s), s)
    decreases |s|, 1, 0
  {
    var open := Ws(Tag("(", SkipWs(s)));
    WsTag("(", s);
    if open.Ok? {
      var args := ParseFunctionCallArgs(dec, open.rest);
      ParseFunctionCallArgsAdvances(dec, open.rest);
      if args.Ok? {
        SeqAdvances(open, args, s);
        WsTag(")", args.rest);
        SeqAdvances(args, Ws(Tag(")", SkipWs(args.rest))), s);
      }
    }
  }

  lemma {:induction false} ParseFunctionCallArgsAdvances(dec: Errors.Decoder, s: string)
    ensures Advances(ParseFunctionCallArgs(dec, s), s)
    decreases |s|, 12, 0
  {
    var first := ParseArg(dec, s);
    ParseArgAdvances(dec, s);
    if first.Ok? {
      ArgsTailAdvances(dec, first.rest);
      SeqAdvances(first, ArgsTail(dec, first.rest), s);
    }
  }

  lemma {:induction false} ArgsTailAdvances(dec: Errors.Decoder, s: string)
    ensures Advances(ArgsTail(dec, s), s)
    decreases |s|, 0, 0
  {
    var sep := Tag(",", s);
    if sep.Ok? {
      var a := ParseArg(dec, sep.rest);
      ParseArgAdvances(dec, sep.rest);
      if a.Ok? {
        SeqAdvances(sep, a, s);
        ArgsTailAdvances(dec, a.rest);
        SeqAdvances(a, ArgsTail(dec, a.rest), s);
      }
    }
  }

  lemma {:induction false} ParseArgAdvances(dec: Errors.Decoder, s: string)
    ensures Advances(ParseArg(dec, s), s)
    decreases |s|, 11, 0
  {
    ParseStringLiteralAdvances(s);
    if ParseStringLiteral(s).Err? {
      ParseExprAdvances(dec, s);
    }
  }
}
