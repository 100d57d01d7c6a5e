/**
 * The modifiers that may follow a binary operator: the `bool` flag of comparisons, the label
 * matching clause `on (…)` / `ignoring (…)` and the grouping clause `group_left (…)` /
 * `group_right (…)`. Keywords are matched without regard to case.
 */
module Modifiers {
  import opened Wrappers
  import opened Ast
  import opened Combinators
  import opened Lexical
  import opened Grouping
  import Literal

  /** `ws(tag_no_case(kw))` followed by `ws(parse_grouping_labels)`. */
  function KeywordLabels(kw: string, s: string): (r: PResult<seq<string>>)
    ensures r.Ok? || r.Err?
    ensures r.Ok? ==> |r.rest| < |s| && AllLabelNames(r.val)
    ensures r.Ok? ==> r.rest == [] || !IsSpace(r.rest[0])
  {
    var k := Ws(TagNoCase(kw, SkipWs(s)));
    if !k.Ok? then Propagate(k)
    else Ws(ParseGroupingLabels(SkipWs(k.rest)))
  }

  /** The clause starts with its keyword, in any case. */
  lemma KeywordLabelsKeyword(kw: string, s: string)
    ensures KeywordLabels(kw, s).Ok? ==> CiPrefix(kw, SkipWs(s))
  {
  }

  /** The label list of a matching clause, with the clause's action and no grouping. */
  function WithAction(r: PResult<seq<string>>, action: ModifierAction): (q: PResult<BinaryModifier>)
    requires r.Ok? || r.Err?
    ensures q.Ok? <==> r.Ok?
    ensures r.Ok? ==> q.rest == r.rest && q.val == BinaryModifierOf(action, r.val)
    ensures r.Err? ==> q == Err(r.err)
  {
    if r.Ok? then Ok(r.rest, BinaryModifierOf(action, r.val)) else Propagate(r)
  }

  /**
   * `parse_on_or_ignoring`: `ignoring` is tried first, then `on`. The keyword may be written in
   * any case.
   */
  function ParseOnOrIgnoring(s: string): (r: PResult<BinaryModifier>)
    ensures r.Ok? || r.Err?
    ensures r.Ok? <==> KeywordLabels("ignoring", s).Ok? || KeywordLabels("on", s).Ok?
    ensures r.Ok? ==> |r.rest| < |s| && AllLabelNames(r.val.labels) && r.val.group.None?
    ensures r.Ok? ==> (r.val.action == Ignore <==> KeywordLabels("ignoring", s).Ok?)
  {
    Alt(WithAction(KeywordLabels("ignoring", s), Ignore), WithAction(KeywordLabels("on", s), On), s)
  }

  /** `ws(alt((tag_no_case("group_left"), tag_no_case("group_right"))))`. */
  function GroupKeyword(s: string): (r: PResult<string>)
    ensures r.Ok? || r.Err?
    ensures r.Ok? <==> CiPrefix("group_left", SkipWs(s)) || CiPrefix("group_right", SkipWs(s))
    ensures r.Ok? ==> |r.rest| < |s|
  {
    var t := SkipWs(s);
    Ws(Alt(TagNoCase("group_left", t), TagNoCase("group_right", t), t))
  }

  /** The keyword is returned as written: `group_left` is preferred when both could match. */
  lemma GroupKeywordText(s: string)
    requires GroupKeyword(s).Ok?
    ensures CiPrefix("group_left", SkipWs(s)) ==> GroupKeyword(s).val == SkipWs(s)[..10]
    ensures !CiPrefix("group_left", SkipWs(s)) ==> GroupKeyword(s).val == SkipWs(s)[..11]
  {
  }

  /** The grouping clause: its keyword as written and its label list (no whitespace skipped after it). */
  function GroupClause(s: string): (r: PResult<(string, seq<string>)>)
    ensures r.Ok? || r.Err?
    ensures r.Ok? ==> |r.rest| < |s| && AllLabelNames(r.val.1)
    ensures r.Ok? ==> GroupKeyword(s).Ok? && r.val.0 == GroupKeyword(s).val
  {
    var g := GroupKeyword(s);
    if !g.Ok? then Propagate(g)
    else
      var ls := ParseGroupingLabels(g.rest);
      if !ls.Ok? then Propagate(ls)
      else Ok(ls.rest, (g.val, ls.val))
  }

  /** The side a grouping keyword names; only the lower-case spellings are recognised. */
  function SideOf(keyword: string): Option<GroupSide> {
    if keyword == "group_left" then Some(Left)
    else if keyword == "group_right" then Some(Right)
    else None
  }

  /**
   * `parse_group_modifiers`: a matching clause and an optional grouping clause. A grouping
   * keyword in any other case than lower case is accepted by the keyword parser and then
   * panics.
   */
  function ParseGroupModifiers(s: string): (r: PResult<BinaryModifier>)
    ensures r.Ok? || r.Err? || r.Panic?
    ensures r.Err? <==> ParseOnOrIgnoring(s).Err?
    ensures r.Ok? ==> |r.rest| < |s| && AllLabelNames(r.val.labels)
    ensures r.Ok? ==> r.val.action == ParseOnOrIgnoring(s).val.action
    ensures r.Ok? ==> r.val.labels == ParseOnOrIgnoring(s).val.labels
    ensures r.Ok? && r.val.group.Some? ==> AllLabelNames(r.val.group.value.labels)
    ensures r.Panic? ==> var g := GroupClause(ParseOnOrIgnoring(s).rest);
      g.Ok? && SideOf(g.val.0).None?
  {
    var a := ParseOnOrIgnoring(s);
    if !a.Ok? then Propagate(a)
    else
      match Opt(GroupClause(a.rest), a.rest)
      case Ok(rest, None) => Ok(rest, a.val)
      case Ok(rest, Some(clause)) =>
        (match SideOf(clause.0)
         case Some(Left) => Ok(rest, a.val.(group := Some(GroupLeft(clause.1))))
         case Some(Right) => Ok(rest, a.val.(group := Some(GroupRight(clause.1))))
         case None => Panic)
      case Err(e) => Err(e)
      case Fail(e) => Fail(e)
      case Panic => Panic
  }

  /**
   * `parse_binary_modifier`: an optional `bool` and optional matching and grouping clauses.
   * It never fails: whatever does not parse is left in the input.
   */
  function ParseBinaryModifier(s: string): (r: PResult<(bool, Option<BinaryModifier>)>)
    ensures r.Ok? || r.Panic?
    ensures r.Ok? ==> |r.rest| <= |s|
    ensures r.Ok? ==> (r.val.0 <==> CiPrefix("bool", SkipWs(s)))
    ensures r.Ok? && !r.val.0 && r.val.1.None? ==> r.rest == s
    ensures r.Ok? && r.val.1.Some? ==> AllLabelNames(r.val.1.value.labels)
    ensures r.Panic? <==> ParseGroupModifiers(BoolRest(s)).Panic?
  {
    var b := Opt(Ws(TagNoCase("bool", SkipWs(s))), s);
    match b
    case Ok(rest, flag) =>
      (match Opt(ParseGroupModifiers(rest), rest)
       case Ok(rest', m) => Ok(rest', (flag.Some?, m))
       case Err(e) => Err(e)
       case Fail(e) => Fail(e)
       case Panic => Panic)
    case Err(e) => Err(e)
    case Fail(e) => Fail(e)
    case Panic => Panic
  }

  /** The input left after the optional `bool` keyword. */
  function BoolRest(s: string): (t: string)
    ensures |t| <= |s|
    ensures CiPrefix("bool", SkipWs(s)) ==> t == SkipWs(SkipWs(s)[4..])
    ensures !CiPrefix("bool", SkipWs(s)) ==> t == s
  {
    var b := Ws(TagNoCase("bool", SkipWs(s)));
    if b.Ok? then b.rest else s
  }

  // ----- Printing and the round trips -----

  function ActionText(a: ModifierAction): string {
    match a
    case On => "on"
    case Ignore => "ignoring"
  }

  function SideText(side: GroupSide): string {
    match side
    case Left => "group_left"
    case Right => "group_right"
  }

  /**
   * The text of a modifier with the whitespace `sp` after each comma of its label lists and the
   * whitespace `gap` before its grouping keyword: `on(a,<sp>b)<gap>group_left(c)`.
   */
  function SpacedModifierText(m: BinaryModifier, sp: string, gap: string): string {
    ActionText(m.action) + SpacedGroupingText(m.labels, sp) +
      (if m.group.Some? then gap + SideText(m.group.value.side) + SpacedGroupingText(m.group.value.labels, sp) else "")
  }

  /** The canonical text of a modifier: `on(a,b)group_left(c)`. */
  function ModifierText(m: BinaryModifier): string {
    SpacedModifierText(m, "", "")
  }

  /** The input after a modifier has no grouping keyword. */
  predicate NoGroupKeyword(t: string) {
    !CiPrefix("group_left", SkipWs(t)) && !CiPrefix("group_right", SkipWs(t))
  }

  /** `w` is a spelling of the keyword `kw` in some mix of cases. */
  predicate Spelling(kw: string, w: string) {
    |w| == |kw| && CiPrefix(kw, w)
  }

  lemma SpellingSelf(kw: string)
    ensures Spelling(kw, kw)
  {
    CiPrefixSelf(kw, "");
    assert kw + "" == kw;
  }

  /** A spelling of a keyword that starts with a letter starts with a letter too. */
  lemma SpellingStart(kw: string, w: string)
    requires |kw| > 0 && IsAlpha(kw[0]) && Spelling(kw, w)
    ensures !IsSpace(w[0])
  {
    assert Lower(w[0]) == Lower(kw[0]);
  }

  /**
   * A keyword in any spelling `w`, the whitespace `gap`, then a label list with the whitespace
   * `sp` after each comma: the labels are read back.
   */
  lemma KeywordLabelsRoundTrip(kw: string, w: string, gap: string, ls: seq<string>, sp: string, t: string)
    requires |kw| > 0 && IsAlpha(kw[0]) && Spelling(kw, w)
    requires Spaces(gap) && Spaces(sp) && AllLabelNames(ls)
    ensures KeywordLabels(kw, w + (gap + (SpacedGroupingText(ls, sp) + t))) == Ok(SkipWs(t), ls)
  {
    var x := SpacedGroupingText(ls, sp) + t;
    var y := gap + x;
    var s := w + y;
    assert SkipWs(s) == s by {
      SpellingStart(kw, w);
      assert s[0] == w[0];
      SkipWsNoSpace(s);
    }
    assert TagNoCase(kw, s) == Ok(y, w) by {
      SpellingPrefix(kw, w, y);
    }
    assert SkipWs(y) == x && SkipWs(x) == x by {
      SpacedGroupingTextStart(ls, sp, t);
      Literal.SkipWsPrefix(gap, x);
      SkipWsNoSpace(x);
    }
    assert ParseGroupingLabels(x) == Ok(t, ls) by {
      GroupingRoundTrip(ls, sp, t);
    }
  }

  /** A keyword spelled `w` is matched, whatever follows it. */
  lemma SpellingPrefix(kw: string, w: string, y: string)
    requires Spelling(kw, w)
    ensures TagNoCase(kw, w + y) == Ok(y, w)
  {
    var s := w + y;
    assert forall i :: 0 <= i < |w| ==> s[i] == w[i];
    assert s[..|kw|] == w && s[|kw|..] == y;
  }

  /** A clause whose keyword is a spelling of `on` is not read by the `ignoring` alternative. */
  lemma IgnoringNotOn(w: string, x: string)
    requires Spelling("on", w)
    ensures KeywordLabels("ignoring", w + x).Err?
  {
    var s := w + x;
    assert SkipWs(s) == s by {
      SpellingStart("on", w);
      assert s[0] == w[0];
      SkipWsNoSpace(s);
    }
    assert TagNoCase("ignoring", s).Err? by {
      assert Lower(s[0]) == Lower(w[0]) == 'o';
      assert Lower(s[0]) != Lower("ignoring"[0]);
    }
  }

  /**
   * Round trip of the matching clause: the action in any spelling, whitespace before the list
   * and after each comma of it.
   */
  lemma OnOrIgnoringRoundTrip(a: ModifierAction, w: string, gap: string, ls: seq<string>, sp: string, t: string)
    requires Spelling(ActionText(a), w) && Spaces(gap) && Spaces(sp) && AllLabelNames(ls)
    ensures ParseOnOrIgnoring(w + (gap + (SpacedGroupingText(ls, sp) + t))) == Ok(SkipWs(t), BinaryModifierOf(a, ls))
  {
    var x := gap + (SpacedGroupingText(ls, sp) + t);
    KeywordLabelsRoundTrip(ActionText(a), w, gap, ls, sp, t);
    if a == On {
      IgnoringNotOn(w, x);
    }
  }

  /** The matching clause written canonically, as `on(…)` or `ignoring(…)` with no whitespace. */
  lemma CanonicalOnOrIgnoring(a: ModifierAction, ls: seq<string>, sp: string, t: string)
    requires Spaces(sp) && AllLabelNames(ls)
    ensures ParseOnOrIgnoring(ActionText(a) + (SpacedGroupingText(ls, sp) + t)) == Ok(SkipWs(t), BinaryModifierOf(a, ls))
  {
    SpellingSelf(ActionText(a));
    OnOrIgnoringRoundTrip(a, ActionText(a), "", ls, sp, t);
    assert "" + (SpacedGroupingText(ls, sp) + t) == SpacedGroupingText(ls, sp) + t;
  }

  lemma GroupKeywordOf(side: GroupSide, x: string)
    requires |x| > 0 && !IsSpace(x[0])
    ensures GroupKeyword(SideText(side) + x) == Ok(x, SideText(side))
  {
    var kw := SideText(side);
    var s := kw + x;
    assert SkipWs(s) == s by {
      SkipWsNoSpace(s);
    }
    assert TagNoCase(kw, s) == Ok(x, kw) by {
      CiPrefixSelf(kw, x);
      assert s[..|kw|] == kw && s[|kw|..] == x;
    }
    if side == Right {
      assert !CiPrefix("group_left", s) by {
        assert s[6] == 'r';
      }
    }
    SkipWsNoSpace(x);
  }

  /** Round trip of the grouping clause; no whitespace is skipped after its label list. */
  lemma GroupClauseRoundTrip(side: GroupSide, gs: seq<string>, sp: string, t: string)
    requires AllLabelNames(gs) && Spaces(sp)
    ensures GroupClause(SideText(side) + (SpacedGroupingText(gs, sp) + t)) == Ok(t, (SideText(side), gs))
  {
    var x := SpacedGroupingText(gs, sp) + t;
    assert GroupKeyword(SideText(side) + x) == Ok(x, SideText(side)) by {
      SpacedGroupingTextStart(gs, sp, t);
      GroupKeywordOf(side, x);
    }
    assert ParseGroupingLabels(x) == Ok(t, gs) by {
      GroupingRoundTrip(gs, sp, t);
    }
  }

  lemma NoGroupClause(t: string)
    requires NoGroupKeyword(t)
    ensures GroupClause(SkipWs(t)).Err?
  {
    SkipWsIdempotent(t);
  }

  /**
   * Round trip of the whole modifier, with the whitespace `sp` after each comma and `gap` before
   * the grouping keyword. Whitespace after the label list of the matching clause is consumed,
   * whitespace after the label list of the grouping clause is not.
   */
  lemma GroupModifiersRoundTrip(m: BinaryModifier, sp: string, gap: string, t: string)
    requires AllLabelNames(m.labels) && Spaces(sp) && Spaces(gap)
    requires m.group.Some? ==> AllLabelNames(m.group.value.labels)
    requires m.group.None? ==> NoGroupKeyword(t)
    ensures ParseGroupModifiers(SpacedModifierText(m, sp, gap) + t) == Ok(if m.group.Some? then t else SkipWs(t), m)
  {
    var b := BinaryModifierOf(m.action, m.labels);
    if m.group.None? {
      var s := ActionText(m.action) + (SpacedGroupingText(m.labels, sp) + t);
      ModifierTextPlain(m, sp, gap, t);
      CanonicalOnOrIgnoring(m.action, m.labels, sp, t);
      NoGroupClause(t);
      NoGroupStep(s, SkipWs(t), b);
    } else {
      var g := m.group.value;
      var y := SideText(g.side) + (SpacedGroupingText(g.labels, sp) + t);
      var s := ActionText(m.action) + (SpacedGroupingText(m.labels, sp) + (gap + y));
      ModifierTextGrouped(m, sp, gap, t);
      CanonicalOnOrIgnoring(m.action, m.labels, sp, gap + y);
      assert SkipWs(gap + y) == y by {
        Literal.SkipWsPrefix(gap, y);
      }
      GroupClauseRoundTrip(g.side, g.labels, sp, t);
      GroupStep(s, y, b, t, SideText(g.side), g);
    }
  }

  lemma ModifierTextPlain(m: BinaryModifier, sp: string, gap: string, t: string)
    requires m.group.None?
    ensures SpacedModifierText(m, sp, gap) + t == ActionText(m.action) + (SpacedGroupingText(m.labels, sp) + t)
  {
  }

  lemma ModifierTextGrouped(m: BinaryModifier, sp: string, gap: string, t: string)
    requires m.group.Some?
    ensures SpacedModifierText(m, sp, gap) + t == ActionText(m.action) + (SpacedGroupingText(m.labels, sp) +
      (gap + (SideText(m.group.value.side) + (SpacedGroupingText(m.group.value.labels, sp) + t))))
  {
  }

  lemma NoGroupStep(s: string, y: string, b: BinaryModifier)
    requires ParseOnOrIgnoring(s) == Ok(y, b)
    requires GroupClause(y).Err?
    ensures ParseGroupModifiers(s) == Ok(y, b)
  {
  }

  lemma GroupStep(s: string, y: string, b: BinaryModifier, t: string, kw: string, g: ModifierGroup)
    requires ParseOnOrIgnoring(s) == Ok(y, b)
    requires GroupClause(y) == Ok(t, (kw, g.labels))
    requires kw == SideText(g.side)
    ensures ParseGroupModifiers(s) == Ok(t, b.(group := Some(g)))
  {
    if g.side == Left {
      GroupLeftStep(s, y, b, t, g);
    } else {
      GroupRightStep(s, y, b, t, g);
    }
  }

  lemma GroupLeftStep(s: string, y: string, b: BinaryModifier, t: string, g: ModifierGroup)
    requires ParseOnOrIgnoring(s) == Ok(y, b)
    requires GroupClause(y) == Ok(t, ("group_left", g.labels))
    requires g.side == Left
    ensures ParseGroupModifiers(s) == Ok(t, b.(group := Some(g)))
  {
  }

  lemma GroupRightStep(s: string, y: string, b: BinaryModifier, t: string, g: ModifierGroup)
    requires ParseOnOrIgnoring(s) == Ok(y, b)
    requires GroupClause(y) == Ok(t, ("group_right", g.labels))
    requires g.side == Right
    ensures ParseGroupModifiers(s) == Ok(t, b.(group := Some(g)))
  {
  }

  lemma PanicStep(s: string, y: string, b: BinaryModifier, t: string, kw: string, gs: seq<string>)
    requires ParseOnOrIgnoring(s) == Ok(y, b)
    requires GroupClause(y) == Ok(t, (kw, gs))
    requires SideOf(kw).None?
    ensures ParseGroupModifiers(s) == Panic
  {
  }

  lemma UpperSide()
    ensures SideOf("GROUP_LEFT").None?
  {
    assert "GROUP_LEFT"[0] != "group_left"[0];
    assert "GROUP_LEFT"[0] != "group_right"[0];
  }

  lemma GroupClauseOf(y: string, x: string, kw: string, t: string, gs: seq<string>)
    requires GroupKeyword(y) == Ok(x, kw)
    requires ParseGroupingLabels(x) == Ok(t, gs)
    ensures GroupClause(y) == Ok(t, (kw, gs))
  {
  }

  /** A grouping keyword that is not in lower case is accepted and then panics. */
  lemma UpperCaseGroupPanics(a: ModifierAction, ls: seq<string>, gs: seq<string>, t: string)
    requires AllLabelNames(ls) && AllLabelNames(gs)
    ensures ParseGroupModifiers(ActionText(a) + (GroupingText(ls) + ("GROUP_LEFT" + (GroupingText(gs) + t)))) == Panic
  {
    var x := GroupingText(gs) + t;
    var y := "GROUP_LEFT" + x;
    var s := ActionText(a) + (GroupingText(ls) + y);
    assert ParseOnOrIgnoring(s) == Ok(y, BinaryModifierOf(a, ls)) by {
      CanonicalOnOrIgnoring(a, ls, "", y);
      SkipWsNoSpace(y);
    }
    assert GroupClause(y) == Ok(t, ("GROUP_LEFT", gs)) by {
      GroupingTextStart(gs, t);
      UpperGroupKeyword(x);
      GroupingRoundTrip(gs, "", t);
      GroupClauseOf(y, x, "GROUP_LEFT", t, gs);
    }
    assert SideOf("GROUP_LEFT").None? by {
      UpperSide();
    }
    PanicStep(s, y, BinaryModifierOf(a, ls), t, "GROUP_LEFT", gs);
  }

  lemma UpperGroupKeyword(x: string)
    requires |x| > 0 && x[0] == '('
    ensures GroupKeyword("GROUP_LEFT" + x) == Ok(x, "GROUP_LEFT")
  {
    SkipWsNoSpace("GROUP_LEFT" + x);
    SkipWsNoSpace(x);
    UpperKeywordTag(x);
    GroupKeywordFirst("GROUP_LEFT" + x, "GROUP_LEFT", x);
  }

  lemma UpperKeywordTag(x: string)
    ensures TagNoCase("group_left", "GROUP_LEFT" + x) == Ok(x, "GROUP_LEFT")
  {
    var s := "GROUP_LEFT" + x;
    UpperCiPrefix(x);
    assert s[..10] == "GROUP_LEFT" && s[10..] == x;
  }

  lemma GroupKeywordFirst(s: string, v: string, x: string)
    requires SkipWs(s) == s && SkipWs(x) == x
    requires TagNoCase("group_left", s) == Ok(x, v)
    ensures GroupKeyword(s) == Ok(x, v)
  {
  }

  lemma UpperCiPrefix(x: string)
    ensures CiPrefix("group_left", "GROUP_LEFT" + x)
  {
    var s := "GROUP_LEFT" + x;
    assert s[..10] == "GROUP_LEFT";
    assert forall i :: 0 <= i < 10 ==> s[i] == "GROUP_LEFT"[i];
  }

  function BoolText(flag: bool): string {
    if flag then "bool " else ""
  }

  /** Round trip of an operator's modifiers: the optional `bool` and the clauses. */
  lemma BinaryModifierRoundTrip(flag: bool, m: BinaryModifier, sp: string, gap: string, t: string)
    requires AllLabelNames(m.labels) && Spaces(sp) && Spaces(gap)
    requires m.group.Some? ==> AllLabelNames(m.group.value.labels)
    requires m.group.None? ==> NoGroupKeyword(t)
    ensures ParseBinaryModifier(BoolText(flag) + (SpacedModifierText(m, sp, gap) + t)) ==
      Ok(if m.group.Some? then t else SkipWs(t), (flag, Some(m)))
  {
    GroupModifiersRoundTrip(m, sp, gap, t);
    ModifierTextStart(m, sp, gap, t);
    OptionalBool(flag, SpacedModifierText(m, sp, gap) + t, if m.group.Some? then t else SkipWs(t), m);
  }

  lemma ModifierTextStart(m: BinaryModifier, sp: string, gap: string, t: string)
    ensures |SpacedModifierText(m, sp, gap) + t| > 0
    ensures (SpacedModifierText(m, sp, gap) + t)[0] == 'o' || (SpacedModifierText(m, sp, gap) + t)[0] == 'i'
  {
  }

  lemma OptionalBool(flag: bool, z: string, rest: string, m: BinaryModifier)
    requires |z| > 0 && (z[0] == 'o' || z[0] == 'i')
    requires ParseGroupModifiers(z) == Ok(rest, m)
    ensures ParseBinaryModifier(BoolText(flag) + z) == Ok(rest, (flag, Some(m)))
  {
    if flag {
      assert BoolText(flag) + z == "bool " + z;
      WithBool(z, rest, m);
    } else {
      assert BoolText(flag) + z == z;
      WithoutBool(z, rest, m);
    }
  }

  lemma WithBool(z: string, rest: string, m: BinaryModifier)
    requires |z| > 0 && (z[0] == 'o' || z[0] == 'i')
    requires ParseGroupModifiers(z) == Ok(rest, m)
    ensures ParseBinaryModifier("bool " + z) == Ok(rest, (true, Some(m)))
  {
    BoolTagged(z);
    BinaryModifierStep("bool " + z, z, Some("bool"), rest, m);
  }

  lemma WithoutBool(z: string, rest: string, m: BinaryModifier)
    requires |z| > 0 && (z[0] == 'o' || z[0] == 'i')
    requires ParseGroupModifiers(z) == Ok(rest, m)
    ensures ParseBinaryModifier(z) == Ok(rest, (false, Some(m)))
  {
    NoBoolTag(z);
    BinaryModifierStep(z, z, None, rest, m);
  }

  lemma BoolTagged(z: string)
    requires z == [] || !IsSpace(z[0])
    ensures Opt(Ws(TagNoCase("bool", SkipWs("bool " + z))), "bool " + z) == Ok(z, Some("bool"))
  {
    SkipWsNoSpace("bool " + z);
    BoolTag(z);
    SkipWsSpace(z);
    SkipWsNoSpace(z);
  }

  lemma BoolTag(z: string)
    ensures TagNoCase("bool", "bool " + z) == Ok(" " + z, "bool")
  {
    var s := "bool " + z;
    CiPrefixSelf("bool", " " + z);
    assert s == "bool" + (" " + z);
    assert s[..4] == "bool" && s[4..] == " " + z;
  }

  lemma NoBoolTag(z: string)
    requires |z| > 0 && (z[0] == 'o' || z[0] == 'i')
    ensures Opt(Ws(TagNoCase("bool", SkipWs(z))), z) == Ok(z, None)
  {
    SkipWsNoSpace(z);
    assert !CiPrefix("bool", z) by {
      assert Lower(z[0]) != Lower('b');
    }
  }

  lemma BinaryModifierStep(s: string, z: string, flag: Option<string>, rest: string, m: BinaryModifier)
    requires Opt(Ws(TagNoCase("bool", SkipWs(s))), s) == Ok(z, flag)
    requires ParseGroupModifiers(z) == Ok(rest, m)
    ensures ParseBinaryModifier(s) == Ok(rest, (flag.Some?, Some(m)))
  {
  }

  /** Input that starts with neither a letter nor whitespace holds no modifier clause. */
  predicate PlainStart(u: string) {
    u == [] || !(IsAlpha(u[0]) || IsSpace(u[0]))
  }

  lemma NoModifierAt(u: string)
    requires PlainStart(u)
    ensures ParseGroupModifiers(u).Err?
  {
    SkipWsNoSpace(u);
    KeywordLabelsKeyword("ignoring", u);
    KeywordLabelsKeyword("on", u);
    if u != [] {
      assert !CiPrefix("on", u) by { assert Lower(u[0]) != Lower('o'); }
      assert !CiPrefix("ignoring", u) by { assert Lower(u[0]) != Lower('i'); }
    }
  }

  /** An optional `bool` and no clauses: the modifier is absent and nothing else is consumed. */
  lemma BareModifierRoundTrip(flag: bool, u: string)
    requires PlainStart(u)
    ensures ParseBinaryModifier(BoolText(flag) + u) == Ok(u, (flag, None))
  {
    NoModifierAt(u);
    if flag {
      assert BoolText(flag) + u == "bool " + u;
      BoolTagged(u);
      BareStep("bool " + u, u, Some("bool"));
    } else {
      assert BoolText(flag) + u == u;
      SkipWsNoSpace(u);
      if u != [] {
        assert !CiPrefix("bool", u) by { assert Lower(u[0]) != Lower('b'); }
      }
      BareStep(u, u, None);
    }
  }

  lemma BareStep(s: string, z: string, flag: Option<string>)
    requires Opt(Ws(TagNoCase("bool", SkipWs(s))), s) == Ok(z, flag)
    requires ParseGroupModifiers(z).Err?
    ensures ParseBinaryModifier(s) == Ok(z, (flag.Some?, None))
  {
  }

  /** Plain input carries no grouping keyword. */
  lemma PlainNoGroupKeyword(u: string)
    requires PlainStart(u)
    ensures NoGroupKeyword(u)
  {
    SkipWsNoSpace(u);
    if u != [] {
      assert Lower(u[0]) != Lower('g');
    }
  }

  // ----- The source's own examples -----

  /** `ignoring (a, b, c)`: whitespace before the list and after each comma. */
  lemma IgnoringSpacedExample()
    ensures ParseOnOrIgnoring("ignoring (a, b, c)") == Ok("", BinaryModifierOf(Ignore, ["a", "b", "c"]))
  {
    var ls := ["a", "b", "c"];
    ABCText();
    SpellingSelf("ignoring");
    assert "ignoring" + (" " + (SpacedGroupingText(ls, " ") + "")) == "ignoring (a, b, c)";
    OnOrIgnoringRoundTrip(Ignore, "ignoring", " ", ls, " ", "");
  }

  /** `ON (a, b, c)`: the keyword in upper case. */
  lemma UpperOnExample()
    ensures ParseOnOrIgnoring("ON (a, b, c)") == Ok("", BinaryModifierOf(On, ["a", "b", "c"]))
  {
    var ls := ["a", "b", "c"];
    ABCText();
    assert Spelling("on", "ON") by {
      assert Lower('O') == 'o' && Lower('N') == 'n';
    }
    assert "ON" + (" " + (SpacedGroupingText(ls, " ") + "")) == "ON (a, b, c)";
    OnOrIgnoringRoundTrip(On, "ON", " ", ls, " ", "");
  }

  /** `ignoring(a, b, c) group_left(d, e, g)`: a matching clause and a grouping clause. */
  lemma IgnoringGroupLeftExample()
    ensures ParseBinaryModifier("ignoring(a, b, c) group_left(d, e, g)") ==
      Ok("", (false, Some(BinaryGroupModifier(Ignore, ["a", "b", "c"], GroupLeft(["d", "e", "g"])))))
  {
    var m := BinaryModifier(Ignore, ["a", "b", "c"], Some(ModifierGroup(Left, ["d", "e", "g"])));
    assert AllLabelNames(m.labels) && AllLabelNames(m.group.value.labels) by {
      ABCText();
      DEGText();
    }
    assert BoolText(false) + (SpacedModifierText(m, " ", " ") + "") == "ignoring(a, b, c) group_left(d, e, g)" by {
      IgnoringGroupLeftText(m);
    }
    BinaryModifierRoundTrip(false, m, " ", " ", "");
  }

  lemma IgnoringGroupLeftText(m: BinaryModifier)
    requires m == BinaryModifier(Ignore, ["a", "b", "c"], Some(ModifierGroup(Left, ["d", "e", "g"])))
    ensures BoolText(false) + (SpacedModifierText(m, " ", " ") + "") == "ignoring(a, b, c) group_left(d, e, g)"
  {
    GroupedModifierParts(m, " ", " ", SpacedGroupingText(m.labels, " "), SpacedGroupingText(m.group.value.labels, " "));
    assert SpacedGroupingText(m.labels, " ") == "(a, b, c)" by {
      ABCText();
    }
    assert SpacedGroupingText(m.group.value.labels, " ") == "(d, e, g)" by {
      DEGText();
    }
    assert "ignoring" + "(a, b, c)" == "ignoring(a, b, c)" by { MatchingClauseLiteral(); }
    assert " " + "group_left" + "(d, e, g)" == " group_left(d, e, g)" by { GroupClauseLiteral(); }
    assert "ignoring(a, b, c)" + " group_left(d, e, g)" == "ignoring(a, b, c) group_left(d, e, g)" by {
      ClausesLiteral();
    }
  }

  lemma MatchingClauseLiteral()
    ensures "ignoring" + "(a, b, c)" == "ignoring(a, b, c)"
  {
  }

  lemma GroupClauseLiteral()
    ensures " " + "group_left" + "(d, e, g)" == " group_left(d, e, g)"
  {
  }

  lemma ClausesLiteral()
    ensures "ignoring(a, b, c)" + " group_left(d, e, g)" == "ignoring(a, b, c) group_left(d, e, g)"
  {
  }

  lemma GroupedModifierParts(m: BinaryModifier, sp: string, gap: string, ls: string, gs: string)
    requires m.group.Some?
    requires ls == SpacedGroupingText(m.labels, sp) && gs == SpacedGroupingText(m.group.value.labels, sp)
    ensures BoolText(false) + (SpacedModifierText(m, sp, gap) + "") ==
      ActionText(m.action) + ls + (gap + SideText(m.group.value.side) + gs)
  {
  }
}
