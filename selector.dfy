/**
 * Vector selectors: a metric name, label matchers in braces, an optional range in brackets and
 * an optional `offset` clause, each duration being decoded by the external decoder.
 */
module Selector {
  import opened Wrappers
  import Errors
  import opened Ast
  import opened Combinators
  import opened Lexical
  import opened Literal

  // ----- Durations -----

  /** The token a duration is read from: the longest run of characters whose low byte is ASCII alphanumeric. */
  function DurationToken(s: string): (tok: string)
    ensures tok <= s
  {
    s[..Span(s, LowByteAlphanumericClass)]
  }

  /**
   * `parse_duration`: the token, decoded. A token the decoder rejects, including the empty
   * token, is a fatal `InvalidDuration` failure carrying the decoder's reason; this parser never
   * fails recoverably.
   */
  function ParseDuration(dec: Errors.Decoder, s: string): (r: PResult<Duration>)
    ensures r.Ok? || r.Fail?
    ensures r.Ok? <==> dec(DurationToken(s)).Success?
    ensures r.Ok? ==> r.val == dec(DurationToken(s)).value && r.rest == s[|DurationToken(s)|..]
    ensures r.Fail? ==> r.err == Errors.Parser(Errors.InvalidDuration(dec(DurationToken(s)).error))
  {
    var n := Span(s, LowByteAlphanumericClass);
    match dec(s[..n])
    case Success(d) => Ok(s[n..], d)
    case Failure(e) => Fail(Errors.Parser(Errors.InvalidDuration(e)))
  }

  // ----- Label matchers -----

  /** The operator text of each matcher operator. */
  function MatcherOpText(op: LabelMatcherOp): string {
    match op
    case Unset => ""
    case Equal => "="
    case NotEqual => "!="
    case Regexp => "=~"
    case NotRegexp => "!~"
  }

  /** The operator a matched text denotes, once lower-cased; `None` is the unreachable panic arm. */
  function MatcherOpOf(text: string): (op: Option<LabelMatcherOp>)
    ensures op.Some? ==> op.value != Unset && MatcherOpText(op.value) == text
  {
    if text == "=" then Some(LabelMatcherOp.Equal)
    else if text == "!=" then Some(LabelMatcherOp.NotEqual)
    else if text == "=~" then Some(Regexp)
    else if text == "!~" then Some(NotRegexp)
    else None
  }

  /**
   * `parse_label_matcher_op`: `!~`, `!=`, `=~` or `=`, each surrounded by optional whitespace
   * and tried in that order.
   */
  function ParseLabelMatcherOp(s: string): (r: PResult<LabelMatcherOp>)
    ensures r.Ok? || r.Err?
    ensures r.Ok? ==> r.val != Unset && MatcherOpText(r.val) <= SkipWs(s)
    ensures r.Ok? ==> r.rest == SkipWs(SkipWs(s)[|MatcherOpText(r.val)|..])
    ensures r.Err? ==> r.err == Errors.FromErrorKind(SkipWs(s), Errors.Tag)
  {
    var op := Ws(FirstTag(["!~", "!=", "=~", "="], SkipWs(s)));
    if !op.Ok? then Propagate(op)
    else
      match MatcherOpOf(op.val)
      case Some(m) => Ok(op.rest, m)
      case None => Panic
  }

  /** The matcher operator parser written out alternative by alternative. */
  lemma LabelMatcherOpCases(s: string)
    ensures var t := SkipWs(s);
      ParseLabelMatcherOp(s) ==
        if "!~" <= t then Ok(SkipWs(t[2..]), NotRegexp)
        else if "!=" <= t then Ok(SkipWs(t[2..]), LabelMatcherOp.NotEqual)
        else if "=~" <= t then Ok(SkipWs(t[2..]), Regexp)
        else if "=" <= t then Ok(SkipWs(t[1..]), LabelMatcherOp.Equal)
        else Err(Errors.FromErrorKind(t, Errors.Tag))
  {
    var t := SkipWs(s);
    var ts := ["!~", "!=", "=~", "="];
    if !("!~" <= t) {
      FirstTagSkip(ts, t);
      assert ts[1..] == ["!=", "=~", "="];
      if !("!=" <= t) {
        FirstTagSkip(ts[1..], t);
        assert ts[1..][1..] == ["=~", "="];
        if !("=~" <= t) {
          FirstTagSkip(ts[1..][1..], t);
          assert ts[1..][1..][1..] == ["="];
        }
      }
    }
  }

  /**
   * The operator found is the longest one at the input, so a two-character operator wins over
   * `=`; the parser succeeds exactly when the input starts with `=`, `!~` or `!=`.
   */
  lemma LabelMatcherOpLongest(s: string)
    ensures var r := ParseLabelMatcherOp(s);
      r.Ok? <==> |SkipWs(s)| > 0 && (SkipWs(s)[0] == '=' || "!~" <= SkipWs(s) || "!=" <= SkipWs(s))
    ensures var r := ParseLabelMatcherOp(s);
      r.Ok? ==> forall op :: op != Unset && MatcherOpText(op) <= SkipWs(s) ==> |MatcherOpText(op)| <= |MatcherOpText(r.val)|
  {
    LabelMatcherOpCases(s);
    var t := SkipWs(s);
    if |t| > 0 && t[0] == '=' {
      assert "=" <= t;
    }
  }

  /** `parse_label_matcher`: a label name, an operator and a string literal. */
  function ParseLabelMatcher(s: string): (r: PResult<LabelMatcher>)
    ensures r.Ok? || r.Err?
    ensures r.Ok? ==> |r.rest| < |s|
    ensures r.Ok? ==> r.val.op != Unset && IsName(r.val.name, LabelPunct) && |r.val.value| > 0
    ensures r.Ok? <==>
      var name := ParseLabelName(SkipWs(s));
      name.Ok? && ParseLabelMatcherOp(SkipWs(name.rest)).Ok? &&
      ParseStringLiteral(ParseLabelMatcherOp(SkipWs(name.rest)).rest).Ok?
    ensures r.Ok? ==>
      var name := ParseLabelName(SkipWs(s));
      var op := ParseLabelMatcherOp(SkipWs(name.rest));
      var value := ParseStringLiteral(op.rest);
      r == Ok(value.rest, LabelMatcher(op.val, name.val, value.val.value))
  {
    var name := Ws(ParseLabelName(SkipWs(s)));
    if !name.Ok? then Propagate(name)
    else
      RecognizeNameIsName(SkipWs(s), LabelPunct);
      var op := ParseLabelMatcherOp(name.rest);
      if !op.Ok? then Propagate(op)
      else
        var value := ParseStringLiteral(op.rest);
        if !value.Ok? then Propagate(value)
        else Ok(value.rest, LabelMatcher(op.val, name.val, value.val.value))
  }

  /** The matchers after the first: `(',' matcher)*`, stopping before a `,` not followed by a matcher. */
  function MatcherListRest(s: string): (r: PResult<seq<LabelMatcher>>)
    ensures r.Ok? && |r.rest| <= |s|
    ensures OperatorsSet(r.val)
    ensures r.val != [] <==> "," <= s && ParseLabelMatcher(s[1..]).Ok?
    ensures r.val == [] ==> r.rest == s
    ensures r.val != [] ==> r.val[0] == ParseLabelMatcher(s[1..]).val
    decreases |s|
  {
    var sep := Tag(",", s);
    if !sep.Ok? then Ok(s, [])
    else
      var m := ParseLabelMatcher(sep.rest);
      if !m.Ok? then Ok(s, [])
      else
        var more := MatcherListRest(m.rest);
        OperatorsSetCons(m.val, more.val);
        Ok(more.rest, [m.val] + more.val)
  }

  /** `separated_list0(tag(","), parse_label_matcher)`. */
  function MatcherList(s: string): (r: PResult<seq<LabelMatcher>>)
    ensures r.Ok? && |r.rest| <= |s|
    ensures OperatorsSet(r.val)
    ensures r.val != [] <==> ParseLabelMatcher(s).Ok?
    ensures r.val == [] ==> r.rest == s
    ensures r.val != [] ==> r.val[0] == ParseLabelMatcher(s).val
  {
    var m := ParseLabelMatcher(s);
    if !m.Ok? then Ok(s, [])
    else
      var more := MatcherListRest(m.rest);
      OperatorsSetCons(m.val, more.val);
      Ok(more.rest, [m.val] + more.val)
  }

  /** `parse_label_matchers`: matchers between braces. */
  function ParseLabelMatchers(s: string): (r: PResult<seq<LabelMatcher>>)
    ensures r.Ok? || r.Err?
    ensures r.Ok? ==> |r.rest| < |s|
    ensures r.Ok? ==> OperatorsSet(r.val)
    ensures r.Ok? ==> "{" <= SkipWs(s) && r.val == MatcherList(SkipWs(SkipWs(s)[1..])).val
  {
    var open := Ws(Tag("{", SkipWs(s)));
    if !open.Ok? then Propagate(open)
    else
      var ms := MatcherList(open.rest);
      var close := Ws(Tag("}", SkipWs(ms.rest)));
      if !close.Ok? then Propagate(close)
      else Ok(close.rest, ms.val)
  }

  // ----- Selectors -----

  /**
   * `parse_instant_vec`: an optional metric name and optional matchers; a missing part is
   * empty, so this parser always succeeds.
   */
  function ParseInstantVec(s: string): (r: PResult<Vector>)
    ensures r.Ok? && |r.rest| <= |s|
    ensures r.val.range.None? && r.val.offset.None?
    ensures OperatorsSet(r.val.labelMatchers)
    ensures (|SkipWs(s)| > 0 && NameStart(SkipWs(s)[0], MetricPunct)) <==> r.val.name != []
    ensures var id := ParseMetricName(SkipWs(s));
      r.val.name == if id.Ok? then id.val else ""
    ensures var id := ParseMetricName(SkipWs(s));
      var ms := ParseLabelMatchers(SkipWs(if id.Ok? then SkipWs(id.rest) else s));
      r.val.labelMatchers == (if ms.Ok? then ms.val else []) &&
      r.rest == (if ms.Ok? then SkipWs(ms.rest) else if id.Ok? then SkipWs(id.rest) else s)
  {
    var id := Opt(Ws(ParseMetricName(SkipWs(s))), s);
    var matchers := Opt(Ws(ParseLabelMatchers(SkipWs(id.rest))), id.rest);
    Ok(matchers.rest, DefaultVector().(
      name := if id.val.Some? then id.val.value else "",
      labelMatchers := if matchers.val.Some? then matchers.val.value else []))
  }

  /** `delimited(tag("["), parse_duration, tag("]"))`. */
  function RangeSuffix(dec: Errors.Decoder, s: string): (r: PResult<Duration>)
    ensures !r.Panic?
    ensures r.Ok? ==> |r.rest| < |s|
    ensures r.Fail? ==> r.err.Parser? && r.err.parserError.InvalidDuration?
  {
    var open := Tag("[", s);
    if !open.Ok? then Propagate(open)
    else
      var d := ParseDuration(dec, open.rest);
      if !d.Ok? then Propagate(d)
      else
        var close := Tag("]", d.rest);
        if !close.Ok? then Propagate(close)
        else Ok(close.rest, d.val)
  }

  /** `preceded(ws(tag_no_case("offset")), parse_duration)`. */
  function OffsetSuffix(dec: Errors.Decoder, s: string): (r: PResult<Duration>)
    ensures !r.Panic?
    ensures r.Ok? ==> |r.rest| < |s|
    ensures r.Fail? ==> r.err.Parser? && r.err.parserError.InvalidDuration?
  {
    var kw := Ws(TagNoCase("offset", SkipWs(s)));
    if !kw.Ok? then Propagate(kw) else ParseDuration(dec, kw.rest)
  }

  /**
   * `parse_vector`: an instant selector, then an optional range and an optional offset. It never
   * fails recoverably (it matches the empty selector at worst); its only fatal failure is an
   * invalid duration after `[` or after the `offset` keyword.
   */
  function ParseVector(dec: Errors.Decoder, s: string): (r: PResult<Vector>)
    ensures r.Ok? || r.Fail?
    ensures r.Ok? ==> |r.rest| <= |s|
    ensures r.Ok? ==> r.val.name == ParseInstantVec(s).val.name && r.val.labelMatchers == ParseInstantVec(s).val.labelMatchers
    ensures r.Ok? ==> OperatorsSet(r.val.labelMatchers)
    ensures r.Fail? ==> r.err.Parser? && r.err.parserError.InvalidDuration?
  {
    var v := ParseInstantVec(s);
    var range := Opt(RangeSuffix(dec, v.rest), v.rest);
    if !range.Ok? then Propagate(range)
    else
      var offset := Opt(OffsetSuffix(dec, range.rest), range.rest);
      if !offset.Ok? then Propagate(offset)
      else Ok(offset.rest, v.val.(range := range.val, offset := offset.val))
  }
}
