/** Grouping label lists: `(label, label, …)`, used by `by`/`without` and `on`/`ignoring`/`group_*`. */
module Grouping {
  import opened Combinators
  import opened Lexical
  import Literal

  /** Every entry is a label name. */
  predicate AllLabelNames(ls: seq<string>) {
    forall i :: 0 <= i < |ls| ==> IsName(ls[i], LabelPunct)
  }

  lemma AllLabelNamesCons(l: string, ls: seq<string>)
    requires IsName(l, LabelPunct) && AllLabelNames(ls)
    ensures AllLabelNames([l] + ls)
  {
  }

  /**
   * The list element `ws(parse_grouping_label)`: `context("grouping_label", parse_label_name)`
   * with the whitespace before and after it skipped.
   */
  function ParseGroupingLabel(s: string): (r: PResult<string>)
    ensures r.Ok? || r.Err?
    ensures r.Ok? ==> |r.rest| < |s| && IsName(r.val, LabelPunct)
  {
    RecognizeNameIsName(SkipWs(s), LabelPunct);
    Ws(Context(ParseLabelName(SkipWs(s)), SkipWs(s), "grouping_label"))
  }

  /** The labels after the first: `(',' label)*`, stopping before a `,` not followed by a label. */
  function GroupingLabelListRest(s: string): (r: PResult<seq<string>>)
    ensures r.Ok? && |r.rest| <= |s| && AllLabelNames(r.val)
    decreases |s|
  {
    var sep := Tag(",", s);
    if !sep.Ok? then Ok(s, [])
    else
      var l := ParseGroupingLabel(sep.rest);
      if !l.Ok? then Ok(s, [])
      else
        var more := GroupingLabelListRest(l.rest);
        AllLabelNamesCons(l.val, more.val);
        Ok(more.rest, [l.val] + more.val)
  }

  /** `parse_grouping_label_list`: `separated_list0(tag(","), ws(parse_grouping_label))`. */
  function ParseGroupingLabelList(s: string): (r: PResult<seq<string>>)
    ensures r.Ok? && |r.rest| <= |s| && AllLabelNames(r.val)
  {
    var l := ParseGroupingLabel(s);
    if !l.Ok? then Ok(s, [])
    else
      var more := GroupingLabelListRest(l.rest);
      AllLabelNamesCons(l.val, more.val);
      Ok(more.rest, [l.val] + more.val)
  }

  /**
   * `parse_grouping_labels`: the list between parentheses, with no whitespace skipped before
   * `(` or after `)`. A trailing comma is not accepted: the list stops before it and `)` is then
   * missing.
   */
  function ParseGroupingLabels(s: string): (r: PResult<seq<string>>)
    ensures r.Ok? || r.Err?
    ensures r.Ok? ==> |r.rest| < |s| && AllLabelNames(r.val)
  {
    var open := Tag("(", s);
    if !open.Ok? then Propagate(open)
    else
      var ls := ParseGroupingLabelList(open.rest);
      var close := Tag(")", ls.rest);
      if !close.Ok? then Propagate(close)
      else Ok(close.rest, ls.val)
  }

  // ----- Printing and the round trip -----

  /** Every character of `sp` is whitespace; `sp` may be empty. */
  predicate Spaces(sp: string) {
    forall i :: 0 <= i < |sp| ==> IsSpace(sp[i])
  }

  /** `,<sp>l1,<sp>l2,…`: every label after the first follows a comma and the whitespace `sp`. */
  function CommaLabels(ls: seq<string>, sp: string): string {
    if ls == [] then "" else "," + sp + ls[0] + CommaLabels(ls[1..], sp)
  }

  /** A label list as text, with the whitespace `sp` after each comma: `(l0,<sp>l1,…)`. */
  function SpacedGroupingText(ls: seq<string>, sp: string): string {
    if ls == [] then "()" else "(" + ls[0] + CommaLabels(ls[1..], sp) + ")"
  }

  /** The canonical text of a label list: `(l0,l1,…)`, with no whitespace. */
  function GroupingText(ls: seq<string>): string {
    SpacedGroupingText(ls, "")
  }

  lemma GroupingTextStart(ls: seq<string>, t: string)
    ensures |GroupingText(ls) + t| > 1 && (GroupingText(ls) + t)[0] == '('
  {
  }

  lemma SpacedGroupingTextStart(ls: seq<string>, sp: string, t: string)
    ensures |SpacedGroupingText(ls, sp) + t| > 1 && (SpacedGroupingText(ls, sp) + t)[0] == '('
  {
  }

  /** The labels after the first, each after a comma and the whitespace `sp`, are read back up to the `)`. */
  lemma {:induction false} ListRestRoundTrip(ls: seq<string>, sp: string, t: string)
    requires AllLabelNames(ls) && Spaces(sp)
    requires |t| > 0 && t[0] == ')'
    ensures GroupingLabelListRest(CommaLabels(ls, sp) + t) == Ok(t, ls)
    decreases |ls|
  {
    if ls == [] {
      assert CommaLabels(ls, sp) + t == t;
    } else {
      var u := CommaLabels(ls[1..], sp) + t;
      CommaLabelsCons(ls, sp, t);
      HeadTail(ls);
      assert IsName(ls[0], LabelPunct) && AllLabelNames(ls[1..]);
      CommaLabelsStart(ls[1..], sp, t);
      SpacedLabel(sp, ls[0], u);
      ListRestRoundTrip(ls[1..], sp, t);
      ListRestStep(sp + (ls[0] + u), ls[0], u, t, ls[1..]);
    }
  }

  lemma CommaLabelsCons(ls: seq<string>, sp: string, t: string)
    requires |ls| > 0
    ensures CommaLabels(ls, sp) + t == "," + (sp + (ls[0] + (CommaLabels(ls[1..], sp) + t)))
  {
  }

  lemma HeadTail(ls: seq<string>)
    requires |ls| > 0
    ensures [ls[0]] + ls[1..] == ls
  {
  }

  /** What follows a label in the text of a list starts with `,` or `)`. */
  lemma CommaLabelsStart(ls: seq<string>, sp: string, t: string)
    requires |t| > 0 && t[0] == ')'
    ensures var u := CommaLabels(ls, sp) + t; |u| > 0 && (u[0] == ',' || u[0] == ')')
  {
    if ls == [] {
      assert CommaLabels(ls, sp) + t == t;
    }
  }

  /** One step of the list: `,` and a label, then the rest of the list. */
  lemma ListRestStep(x: string, l: string, u: string, t: string, more: seq<string>)
    requires ParseGroupingLabel(x) == Ok(u, l)
    requires GroupingLabelListRest(u) == Ok(t, more)
    ensures GroupingLabelListRest("," + x) == Ok(t, [l] + more)
  {
    var s := "," + x;
    assert s[1..] == x;
    assert Tag(",", s) == Ok(x, ",");
  }

  /** Whitespace before a label is skipped by the `ws` around it. */
  lemma SpacedLabel(sp: string, l: string, u: string)
    requires Spaces(sp) && IsName(l, LabelPunct)
    requires |u| > 0 && (u[0] == ',' || u[0] == ')')
    ensures ParseGroupingLabel(sp + (l + u)) == Ok(u, l)
  {
    assert SkipWs(sp + (l + u)) == l + u by {
      assert (l + u)[0] == l[0];
      Literal.SkipWsPrefix(sp, l + u);
    }
    assert SkipWs(l + u) == l + u by { LabelStartsText(l, u); }
    LabelThenDelimiter(l, u);
    GroupingLabelSkips(sp + (l + u), l + u);
  }

  /** The grouping label parser sees only the input after leading whitespace. */
  lemma GroupingLabelSkips(s: string, x: string)
    requires SkipWs(s) == x && SkipWs(x) == x
    ensures ParseGroupingLabel(s) == ParseGroupingLabel(x)
  {
  }

  /** A label followed by `,` or `)` is read by the grouping label parser exactly. */
  lemma LabelThenDelimiter(l: string, u: string)
    requires IsName(l, LabelPunct)
    requires |u| > 0 && (u[0] == ',' || u[0] == ')')
    ensures ParseGroupingLabel(l + u) == Ok(u, l)
  {
    assert SkipWs(u) == u by { SkipWsNoSpace(u); }
    assert SkipWs(l + u) == l + u by { LabelStartsText(l, u); }
    assert ParseLabelName(l + u) == Ok(u, l) by { LabelNameOf(l, u); }
    GroupingLabelOf(l + u, l, u);
  }

  lemma LabelStartsText(l: string, u: string)
    requires IsName(l, LabelPunct)
    ensures SkipWs(l + u) == l + u
  {
    assert (l + u)[0] == l[0];
    SkipWsNoSpace(l + u);
  }

  lemma LabelNameOf(l: string, u: string)
    requires IsName(l, LabelPunct)
    requires |u| > 0 && (u[0] == ',' || u[0] == ')')
    ensures ParseLabelName(l + u) == Ok(u, l)
  {
    RecognizeNameRoundTrip(l, u, LabelPunct);
  }

  lemma GroupingLabelOf(s: string, l: string, u: string)
    requires SkipWs(s) == s && SkipWs(u) == u
    requires ParseLabelName(s) == Ok(u, l)
    ensures ParseGroupingLabel(s) == Ok(u, l)
  {
  }

  /**
   * Round trip: a list of label names, written with any whitespace `sp` after each comma (none
   * in the canonical text), parses back to the list.
   */
  lemma GroupingRoundTrip(ls: seq<string>, sp: string, t: string)
    requires AllLabelNames(ls) && Spaces(sp)
    ensures ParseGroupingLabels(SpacedGroupingText(ls, sp) + t) == Ok(t, ls)
  {
    if ls == [] {
      assert SpacedGroupingText(ls, sp) == GroupingText([]);
      EmptyGroupingRoundTrip(t);
    } else {
      var u := CommaLabels(ls[1..], sp) + (")" + t);
      GroupingTextCons(ls, sp, t);
      HeadTail(ls);
      assert IsName(ls[0], LabelPunct) && AllLabelNames(ls[1..]);
      CommaLabelsStart(ls[1..], sp, ")" + t);
      LabelThenDelimiter(ls[0], u);
      ListRestRoundTrip(ls[1..], sp, ")" + t);
      GroupingStep(ls[0], u, t, ls[1..]);
    }
  }

  lemma EmptyGroupingRoundTrip(t: string)
    ensures ParseGroupingLabels(GroupingText([]) + t) == Ok(t, [])
  {
    var s := GroupingText([]) + t;
    assert s == "(" + (")" + t);
    assert s[1..] == ")" + t;
    NoLabelAtClose(t);
    assert (")" + t)[1..] == t;
  }

  lemma NoLabelAtClose(t: string)
    ensures ParseGroupingLabelList(")" + t) == Ok(")" + t, [])
  {
    SkipWsNoSpace(")" + t);
    assert !NameStart((")" + t)[0], LabelPunct);
  }

  lemma GroupingTextCons(ls: seq<string>, sp: string, t: string)
    requires |ls| > 0
    ensures SpacedGroupingText(ls, sp) + t == "(" + (ls[0] + (CommaLabels(ls[1..], sp) + (")" + t)))
  {
  }

  /** The parenthesised list: `(`, a first label, the rest of the list, then `)`. */
  lemma GroupingStep(l: string, u: string, t: string, more: seq<string>)
    requires ParseGroupingLabel(l + u) == Ok(u, l)
    requires GroupingLabelListRest(u) == Ok(")" + t, more)
    ensures ParseGroupingLabels("(" + (l + u)) == Ok(t, [l] + more)
  {
    var s := "(" + (l + u);
    assert s[1..] == l + u;
    assert Tag("(", s) == Ok(l + u, "(");
    assert ParseGroupingLabelList(l + u) == Ok(")" + t, [l] + more);
    assert (")" + t)[1..] == t;
    assert Tag(")", ")" + t) == Ok(t, ")");
  }

  /**
   * A trailing comma is rejected, although the grammar the parser follows allows it: the list
   * stops before the comma and the closing parenthesis is then missing.
   */
  lemma TrailingCommaRejected(l: string, t: string)
    requires IsName(l, LabelPunct)
    ensures ParseGroupingLabels("(" + l + ",)" + t).Err?
  {
    var u := ",)" + t;
    assert "(" + l + ",)" + t == "(" + (l + u);
    assert ParseGroupingLabelList(l + u) == Ok(u, [l] + []) by {
      TrailingCommaList(l, t);
    }
    assert Tag(")", u).Err? by {
      assert u[0] == ',';
    }
    UnclosedStep("(" + (l + u), l + u, u, [l] + []);
  }

  lemma TrailingCommaList(l: string, t: string)
    requires IsName(l, LabelPunct)
    ensures ParseGroupingLabelList(l + (",)" + t)) == Ok(",)" + t, [l] + [])
  {
    LabelThenDelimiter(l, ",)" + t);
    CommaThenClose(t);
    ListStep(l + (",)" + t), l, ",)" + t, ",)" + t, []);
  }

  lemma CommaThenClose(t: string)
    ensures GroupingLabelListRest(",)" + t) == Ok(",)" + t, [])
  {
    assert (",)" + t)[1..] == ")" + t;
    NoLabelAtClose(t);
  }

  /** A label, then the rest of the list. */
  lemma ListStep(x: string, l: string, u: string, v: string, more: seq<string>)
    requires ParseGroupingLabel(x) == Ok(u, l)
    requires GroupingLabelListRest(u) == Ok(v, more)
    ensures ParseGroupingLabelList(x) == Ok(v, [l] + more)
  {
  }

  /** The list is read but no `)` follows it. */
  lemma UnclosedStep(s: string, x: string, rest: string, ls: seq<string>)
    requires s == "(" + x
    requires ParseGroupingLabelList(x) == Ok(rest, ls)
    requires Tag(")", rest).Err?
    ensures ParseGroupingLabels(s).Err?
  {
    assert s[1..] == x;
  }

  /** Whitespace is not skipped inside empty parentheses: `( )` is rejected. */
  lemma SpacedEmptyRejected(t: string)
    ensures ParseGroupingLabels("( )" + t).Err?
  {
    var s := "( )" + t;
    assert s[1..] == " )" + t;
    assert SkipWs(" )" + t) == ")" + t by {
      assert (" )" + t)[1..] == ")" + t;
      SkipWsNoSpace(")" + t);
    }
    assert !NameStart((")" + t)[0], LabelPunct);
    assert ParseGroupingLabelList(" )" + t) == Ok(" )" + t, []);
  }

  lemma ThreeLabelsText(a: string, b: string, c: string, sp: string)
    ensures SpacedGroupingText([a, b, c], sp) == "(" + a + ("," + sp + b) + ("," + sp + c) + ")"
  {
    assert [a, b, c][1..] == [b, c] && [b, c][1..] == [c] && [c][1..] == [];
    assert CommaLabels([c], sp) == "," + sp + c;
    assert CommaLabels([b, c], sp) == ("," + sp + b) + ("," + sp + c);
  }

  /** The labels `a`, `b`, `c` written with a space after each comma. */
  lemma ABCText()
    ensures SpacedGroupingText(["a", "b", "c"], " ") == "(a, b, c)"
    ensures AllLabelNames(["a", "b", "c"])
  {
    ThreeLabelsText("a", "b", "c", " ");
    assert IsName("a", LabelPunct) && IsName("b", LabelPunct) && IsName("c", LabelPunct);
  }

  /** The labels `d`, `e`, `g` written with a space after each comma. */
  lemma DEGText()
    ensures SpacedGroupingText(["d", "e", "g"], " ") == "(d, e, g)"
    ensures AllLabelNames(["d", "e", "g"])
  {
    ThreeLabelsText("d", "e", "g", " ");
    assert IsName("d", LabelPunct) && IsName("e", LabelPunct) && IsName("g", LabelPunct);
  }
}
