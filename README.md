# promql-rs parser core in Dafny

This project models `promql-rs`, a PromQL parser built from nom parser combinators. It covers
four things:

- the syntax tree (`Expr` and its parts) and the builders that construct it;
- the parser, which turns query text into that tree;
- the parser's error type;
- the default `Visitor` and `Transformer` traversals.

**How the parser is modelled.** Each nom parser is a first-order Dafny function from the
remaining input (`string`) to a `PResult`:

- `Ok(rest, value)` is success.
- `Err(e)` is a recoverable error, the kind `alt`, `opt`, `many0` and `separated_list0` fall
  back on.
- `Fail(e)` is a fatal failure, which no combinator recovers from.
- `Panic` is a `panic!("never happened")` arm in the source.

The combinators (`ws`, `tag`, `tag_no_case`, `alt`, `opt`, `recognize`) are functions over
`PResult` values. The functions of the recursive grammar terminate on the measure: length of
the input, then precedence rank.

**Module layout** follows the source files:

| module | models |
|---|---|
| `Ast` | the syntax tree |
| `Errors` | the error type |
| `Combinators` | the nom primitives used by the parser |
| `Lexical` | metric and label names, `ws` |
| `Literal` | number and string literals |
| `Selector` | vector selectors and durations |
| `Grouping` | label lists |
| `Modifiers` | binary-operator modifiers |
| `Ops` | operator tokens |
| `Fold` | the left-folding loops of the precedence levels |
| `Calls` | function calls and aggregations |
| `Grammar` | the recursive expression grammar |
| `Visitor` | the default visitor |
| `Transformer` | the default transformer |

Proved properties live in `GrammarSteps` (single parsing steps), `GrammarProps`, `Precedence`,
`Subquery`, `Matchers` (label matchers, matcher lists and selectors printed as text parse
back to themselves), `Suffix` (every parser that succeeds leaves a suffix of its input, so the parser
only ever consumes a prefix of the query) and `Ranges` (the values of a selector's range and
offset, and how a duration the decoder rejects fails the whole query).

**Duration decoding.** `humantime::parse_duration` is a library call outside this code. It is
the parameter `dec: Errors.Decoder`, a function from the duration token to either a duration
or a decoding error. Lemmas that need a particular answer from it say so in their `requires`.

**Two loops become methods.** The fold loop of each precedence level (`src/parser/binary.rs`)
becomes the method `Fold.FoldChain`. The loop that drops empty selectors from call arguments
(`src/parser/func.rs`) becomes `Calls.FilterArgs`. Each is proved equal to the function the
grammar uses. The counting visitor of `src/visitor/mod.rs` is the class
`Visitor.VectorCounter`, whose field its methods increment.

**Where the source's own grammar comment and its code disagree, the model follows the code.**
The comment above `parse_grouping_labels` (`src/parser/group.rs:10-13`) allows a trailing
comma in a label list. The code (`src/parser/group.rs:23-28`) rejects one: `separated_list0`
stops before the comma, and the closing `)` is then missing (`Grouping.TrailingCommaRejected`).

**Behaviours of the code worth knowing:**

- The whitespace that `ws` skips is nom's `multispace0`, which includes `'\r'`.
- The and/unless level accepts the tokens `and` and `less`. It never accepts `unless`, and
  `less` reaches a panic (`Ops.UnlessNotAnOperator`, `Ops.LessPanics`).
- The resolution of a subquery is written as `opt(parse_duration)`. But an empty duration token
  is passed to the decoder, and its error is fatal. So `e[5m:]` fails instead of producing a
  subquery with no resolution (`Subquery.MissingResolution`).
- An empty selector parses successfully wherever an atom is expected, so an empty query parses
  to it (`GrammarProps.EmptyQuery`).

## Model

| member | source | states |
|---|---|---|
| Ast.DefaultExpr | src/ast/mod.rs:41-45 | the default expression is the number literal 0 |
| Ast.SubqueryExprOf | src/ast/mod.rs:47-53 | a subquery node holding exactly the given expression, range and resolution, either of which may be absent |
| Ast.FunCallExprOf | src/ast/mod.rs:55-57 | the call variant holding exactly the given call |
| Ast.BinaryExprOf | src/ast/mod.rs:59-61 | a binary node whose operator, left and right operands are the arguments |
| Ast.NumberLiteralExprOf | src/ast/mod.rs:63-65 | the number variant holding the given finite value |
| Ast.VectorExprOf | src/ast/mod.rs:67-69 | the selector variant holding exactly the given selector |
| Ast.DefaultBinaryOp | src/ast/op.rs:24-28 | the default operator is `+` with no modifier |
| Ast.DefaultBinaryModifier | src/ast/modifier.rs:1-10 | the default modifier has action `on` (lines 52-56), no labels and no group |
| Ast.DefaultModifierGroup | src/ast/modifier.rs:64-75 | the default group is on the left side with no labels |
| Ast.BinaryModifierOf | src/ast/modifier.rs:12-18 | the default modifier with only action and labels replaced, so it has no group |
| Ast.BinaryGroupModifier | src/ast/modifier.rs:20-30 | the plain modifier of the same action and labels, with the given group |
| Ast.GroupRight | src/ast/modifier.rs:32-37 | the default group with the side set to right and the labels given |
| Ast.GroupLeft | src/ast/modifier.rs:39-44 | the default group (left side) with the labels given |
| Ast.DefaultLabelMatcher | src/ast/selector.rs:12-25 | the default matcher has no operator, an empty name and an empty value |
| Ast.DefaultVector | src/ast/selector.rs:27-36 | the default selector has no name, no matchers, no offset and no range |
| Ast.V | src/ast/selector.rs:38-43 | the default selector with only the name set |
| Ast.VR | src/ast/selector.rs:45-51 | the named selector with the range set and nothing else |
| Ast.VectorLabels | src/ast/vector.rs:4-10 | the named selector with the matchers set and nothing else |
| Ast.VectorLabelsRange | src/ast/vector.rs:12-23 | the selector with name and matchers, the given range and no offset |
| Ast.NamedVector | src/ast/vector.rs:25-30 | `vector(name)` is the same selector as `v(name)` and as `vector_labels(name, [])` |
| Ast.DefaultAggregationModifier | src/ast/aggregator.rs:7-17 | the default aggregation modifier is `without` with no labels |
| Ast.DefaultFunCall | src/ast/funcall.rs:4-9 | the default call has no name, no arguments and no aggregation |
| Ast.FunCallOf | src/ast/funcall.rs:11-18 | the default call with only name and arguments set, so it has no aggregation |
| Ast.FunCallAgg | src/ast/funcall.rs:20-31 | `fun_call` of the same name and arguments with the aggregation given |
| Ast.StringLiteralOf | src/ast/literal.rs:31-36 | the literal holds the given text |
| Ast.NumberLiteralOf | src/ast/literal.rs:38-40 | the literal holds the given finite value |
| Errors.FromErrorKind | src/parser/error.rs:11-13 | a nom error that records the input position and the kind |
| Errors.Append | src/parser/error.rs:15-17 | appending a frame leaves the earlier error unchanged |
| Errors.AddContext | src/parser/error.rs:21-23 | adding a context leaves the error unchanged |
| Combinators.SkipWs | src/parser/helper.rs:30 | the skipped text is no longer than the input and does not start with whitespace |
| Combinators.SkipWsDropsSpaces | src/parser/helper.rs:30 | the skipped text is a suffix of the input, and everything dropped is whitespace |
| Combinators.SkipWsIdempotent | src/parser/helper.rs:30 | skipping whitespace twice is the same as once |
| Combinators.Ws | src/parser/helper.rs:27-31 | `ws(f)` succeeds exactly when `f` does, with `f`'s value, and skips the whitespace after it; errors pass through unchanged |
| Combinators.Tag | src/parser/mod.rs:54 | `tag(t)` succeeds iff the input starts with `t`, returning `t` and the text after it; otherwise it fails recoverably with kind `Tag` |
| Combinators.TagNoCase | src/parser/modifier.rs:17 | `tag_no_case(t)` succeeds iff the input starts with `t` up to ASCII case; it returns the input's own spelling, which equals `t` only when the case matches |
| Combinators.FirstTag | src/parser/op.rs:82-89 | `alt` of tags: the result is one of the tokens and a prefix of the input, the first token wins when it matches, and it fails only if no token is a prefix |
| Combinators.FirstTagAt | src/parser/op.rs:82-89 | the token that matches first in the listed order is the one returned |
| Combinators.Alt | src/parser/mod.rs:53-62 | the first alternative that does not fail recoverably decides; if both fail recoverably, the second one's error is reported |
| Combinators.Opt | src/parser/mod.rs:31-37 | a recoverable error becomes `None` at the same input; success becomes `Some`; a fatal failure passes through |
| Combinators.Run1 | src/parser/helper.rs:14-15 | `alpha1` / `alphanumeric1` / `is_a`: succeeds iff the first character is in the class, and consumes the longest run of class characters |
| Combinators.Span | src/parser/vector.rs:81 | `take_while`: the length of the longest prefix of class characters |
| Combinators.Context | src/parser/func.rs:64-65 | `context` does not change the result, because this error type ignores contexts |
| Lexical.NameHead | src/parser/helper.rs:14 | succeeds iff the input starts with a letter or a punctuation character, consuming only name characters |
| Lexical.NameRest | src/parser/helper.rs:15 | `many0` of name pieces never fails and stops exactly at the first non-name character |
| Lexical.RecognizeName | src/parser/helper.rs:12-25 | the name parsers succeed iff the first character may start a name, and return the longest prefix of name characters |
| Lexical.NameLengthMaximal | src/parser/helper.rs:12-25 | the longest run of name characters is a valid name and is followed by a non-name character or the end |
| Lexical.RecognizeNameIsName | src/parser/helper.rs:12-25 | whatever the name parser returns is a valid name (`[a-zA-Z_:][a-zA-Z0-9_:]*`, or the label alphabet) and the next character cannot continue it |
| Lexical.RecognizeNameRoundTrip | src/parser/helper.rs:12-25 | a valid name followed by a non-name character is read back exactly |
| Lexical.NameSplit | src/parser/helper.rs:12-25 | for either alphabet, the name parser succeeds iff the input starts with a letter or a punctuation character of it, and then splits the input into a valid name and a rest that cannot continue it |
| Lexical.MetricNameSplit | src/parser/helper.rs:11-17 | `parse_metric_name` succeeds iff the input starts with `[a-zA-Z_:]`, and returns the longest prefix matching `[a-zA-Z_:][a-zA-Z0-9_:]*`, the input being that name followed by the rest |
| Lexical.LabelNameSplit | src/parser/helper.rs:19-25 | `parse_label_name` succeeds iff the input starts with `[a-zA-Z_]`, and returns the longest prefix matching `[a-zA-Z_][a-zA-Z0-9_]*`, the input being that name followed by the rest |
| Literal.Escaped | src/parser/literal.rs:23 | `escaped` consumes a prefix of the content, stopping only at the end or at the delimiter after a non-empty content |
| Literal.EscapedSound | src/parser/literal.rs:23 | what `escaped` consumes is well escaped: no bare delimiter, every backslash followed by the delimiter or a backslash |
| Literal.EscapedComplete | src/parser/literal.rs:23 | well-escaped non-empty content followed by the delimiter is consumed whole |
| Literal.ParseQuoted | src/parser/literal.rs:21-25 | a quoted literal consumes input and yields non-empty, well-escaped content |
| Literal.ParseStringLiteral | src/parser/literal.rs:17-45 | a string literal consumes input and its value is non-empty and well escaped for one of the three delimiters |
| Literal.QuotedRoundTrip | src/parser/literal.rs:21-25 | whitespace, a delimiter, well-escaped content, the same delimiter: the content is read back and the trailing whitespace skipped |
| Literal.QuotedOtherDelimiter | src/parser/literal.rs:20-35 | a literal opened with one delimiter is not read by the alternative for another |
| Literal.StringLiteralRoundTrip | src/parser/literal.rs:17-45 | a quoted literal with any of `"`, `'`, `` ` `` parses to exactly its content |
| Literal.RecognizeFloat | src/parser/literal.rs:14 | `recognize_float` fails recoverably iff no digits follow the optional sign; otherwise it returns a non-empty prefix; a bad exponent is fatal |
| Literal.FloatKeyword | src/parser/literal.rs:14 | the `nan`/`inf`/`infinity` words match up to ASCII case and are returned in the input's own spelling |
| Literal.RecognizeNumber | src/parser/literal.rs:14 | `double` prefers the numeral, falls back to the words, and fails fatally exactly when the numeral does |
| Literal.ParseNumberLiteral | src/parser/literal.rs:12-15 | the number parser succeeds exactly when a numeral or word is recognized, consuming input; its fatal failures are those of `recognize_float` |
| Selector.DurationToken | src/parser/vector.rs:81 | the duration token is a prefix of the input |
| Selector.ParseDuration | src/parser/vector.rs:80-88 | a duration succeeds iff the decoder accepts the token, returning its value and the text after the token; otherwise it fails fatally with `InvalidDuration` |
| Selector.MatcherOpOf | src/parser/vector.rs:69-77 | the operator mapped from a token is a real operator whose text is that token |
| Selector.ParseLabelMatcherOp | src/parser/vector.rs:68-78 | the matcher operator is never unset; its text starts the input after whitespace; the whitespace after it is skipped |
| Selector.LabelMatcherOpCases | src/parser/vector.rs:69-77 | each of `=`, `!=`, `=~`, `!~` at the head of the input yields its own operator, and nothing else matches |
| Selector.LabelMatcherOpLongest | src/parser/vector.rs:69 | succeeds iff the input (after whitespace) starts with `=`, `!~` or `!=`, and the operator read is the longest one whose text starts the input, so `=~` is not read as `=` |
| Selector.ParseLabelMatcher | src/parser/vector.rs:50-66 | succeeds exactly when a label name (after whitespace), an operator and a string literal follow one another, and then returns the matcher built from exactly those three values and the text after the literal; the matcher has an operator, a valid label name and a non-empty value |
| Selector.MatcherListRest | src/parser/vector.rs:44 | never fails; it finds a matcher exactly when the input is `,` followed by a matcher, the first one returned is that matcher, and when it finds none it consumes nothing; every matcher has an operator |
| Selector.MatcherList | src/parser/vector.rs:44 | `separated_list0` never fails; the list is non-empty exactly when a matcher starts the input, its head is that matcher, and an empty list consumes nothing; every matcher has an operator |
| Selector.ParseLabelMatchers | src/parser/vector.rs:41-48 | succeeds only on input that starts with `{` after whitespace, and returns exactly the matcher list read after the `{`; it consumes input and every matcher has an operator |
| Selector.ParseInstantVec | src/parser/vector.rs:29-39 | never fails and has no range or offset; its name is the metric name read at the input (empty when there is none, and non-empty iff a name starts the input); its matchers are the braced list read after the name (empty when there is none); the text left is what follows the last part read |
| Matchers.MatcherRoundTrip | src/parser/vector.rs:50-66 | the canonical text `name op "value"` of a matcher with a label name, an operator and a non-empty escaped value parses back to exactly that matcher, whatever follows, and the whitespace after the literal is skipped |
| Matchers.MatcherThenDelimiter | src/parser/vector.rs:50-66 | a printed matcher followed by `,` or `}` is read exactly and the delimiter is left in place |
| Matchers.OpOf | src/parser/vector.rs:68-78 | each operator's own text, followed by an opening quote, is read as that operator with nothing skipped |
| Matchers.ListRestRoundTrip | src/parser/vector.rs:44 | `,m1,m2,…` followed by `}` reads back as exactly the matchers `m1, m2, …`, stopping at the `}` |
| Matchers.LabelMatchersRoundTrip | src/parser/vector.rs:41-48 | the braced text `{m0,m1,…}` of any list of printable matchers, the empty list `{}` included, parses back to exactly that list, and the whitespace after `}` is skipped |
| Matchers.InstantVecRoundTrip | src/parser/vector.rs:29-39 | `name{m0,…}` parses back to the selector with that name and exactly those matchers and nothing else set |
| Matchers.UnnamedVecRoundTrip | src/parser/vector.rs:29-39 | `{m0,…}` with no name parses back to the unnamed selector with exactly those matchers |
| Matchers.JobMethodExample | src/parser/vector.rs:203-219 | `{job=~".*",method="get"}` parses to the two matchers `job =~ ".*"` and `method = "get"`, with nothing left over |
| Selector.RangeSuffix | src/parser/vector.rs:19 | a range suffix consumes input when present; its only fatal failure is an invalid duration |
| Selector.OffsetSuffix | src/parser/vector.rs:20 | an offset suffix consumes input when present; its only fatal failure is an invalid duration |
| Selector.ParseVector | src/parser/vector.rs:16-27 | a selector keeps the name and matchers of the instant selector; it fails only fatally, on an invalid duration |
| Grouping.ParseGroupingLabel | src/parser/group.rs:28-42 | the list element `ws(parse_grouping_label)` consumes input and is a valid label name |
| Grouping.GroupingLabelListRest | src/parser/group.rs:28 | the rest of a label list never fails, and returns only valid label names |
| Grouping.ParseGroupingLabelList | src/parser/group.rs:26-37 | a label list never fails, and returns only valid label names |
| Grouping.ParseGroupingLabels | src/parser/group.rs:21-24 | a parenthesised label list consumes input, and returns only valid label names |
| Grouping.ListRestRoundTrip | src/parser/group.rs:28 | `,l1,l2…` before `)`, with any whitespace after each comma, reads back exactly the labels |
| Grouping.SpacedLabel | src/parser/group.rs:28 | whitespace before a label is skipped by the `ws` around the element |
| Grouping.GroupingRoundTrip | src/parser/group.rs:21-37 | `(l1,…,ln)`, with any whitespace after each comma, reads back exactly the labels, for any list of valid names |
| Grouping.EmptyGroupingRoundTrip | src/parser/group.rs:62 | `()` is the empty label list |
| Grouping.NoLabelAtClose | src/parser/group.rs:28 | at `)` the list is empty and nothing is consumed |
| Grouping.TrailingCommaRejected | src/parser/group.rs:23-28 | `(l,)` is rejected, although the grammar comment allows a trailing comma |
| Grouping.SpacedEmptyRejected | src/parser/group.rs:23-28 | `( )` is rejected: no whitespace is skipped before a missing first label |
| Modifiers.KeywordLabels | src/parser/modifier.rs:44 | keyword then labels consumes input, returns valid label names and leaves no leading whitespace |
| Modifiers.KeywordLabelsKeyword | src/parser/modifier.rs:44 | success requires the keyword, in any case, after whitespace |
| Modifiers.WithAction | src/parser/modifier.rs:43-58 | a parsed label list becomes the plain modifier of that action and those labels |
| Modifiers.ParseOnOrIgnoring | src/parser/modifier.rs:41-60 | succeeds iff `ignoring(…)` or `on(…)` is present; the action is `ignoring` iff that alternative matched; no group |
| Modifiers.GroupKeyword | src/parser/modifier.rs:17 | succeeds iff `group_left` or `group_right` (any case) follows whitespace |
| Modifiers.GroupKeywordText | src/parser/modifier.rs:17 | the keyword is returned in the input's own spelling, 10 or 11 characters |
| Modifiers.GroupClause | src/parser/modifier.rs:16-19 | a group clause consumes input and returns the keyword as read and valid labels |
| Modifiers.ParseGroupModifiers | src/parser/modifier.rs:13-39 | fails recoverably iff `on`/`ignoring` does; keeps that modifier's action and labels; panics only on a group keyword that is not spelled in lower case |
| Modifiers.ParseBinaryModifier | src/parser/modifier.rs:62-67 | never fails; the flag is true iff `bool` (any case) comes first; with neither `bool` nor a modifier nothing is consumed; panics exactly when the group modifiers do |
| Modifiers.BoolRest | src/parser/modifier.rs:65 | the input after an optional `bool` and its whitespace |
| Modifiers.KeywordLabelsRoundTrip | src/parser/modifier.rs:44 | the keyword in any mix of cases, whitespace, then `(labels)` with any whitespace after the commas reads back the labels |
| Modifiers.IgnoringNotOn | src/parser/modifier.rs:42-52 | `on…`, in any case, is not read by the `ignoring` alternative |
| Modifiers.OnOrIgnoringRoundTrip | src/parser/modifier.rs:41-60 | `on (ls)` / `ignoring (ls)`, the keyword in any case and with any whitespace before the list and after its commas, reads back the action and labels |
| Modifiers.CanonicalOnOrIgnoring | src/parser/modifier.rs:41-60 | the lower-case keyword directly before the list reads back the action and labels |
| Modifiers.GroupKeywordOf | src/parser/modifier.rs:17 | `group_left` / `group_right` is read as itself |
| Modifiers.GroupClauseRoundTrip | src/parser/modifier.rs:16-19 | `group_x(ls)`, with any whitespace after the commas, reads back the keyword and the labels |
| Modifiers.NoGroupClause | src/parser/modifier.rs:16-19 | without a group keyword there is no group clause |
| Modifiers.GroupModifiersRoundTrip | src/parser/modifier.rs:13-39 | the text of any modifier, with or without a group, with any whitespace after the commas and before the group keyword, parses back to that modifier |
| Modifiers.UpperCaseGroupPanics | src/parser/modifier.rs:17-32 | `GROUP_LEFT` is accepted by `tag_no_case`, but the match is case-sensitive, so the parser panics |
| Modifiers.UpperSide | src/parser/modifier.rs:23-32 | the upper-case keyword is neither side |
| Modifiers.BinaryModifierRoundTrip | src/parser/modifier.rs:62-67 | optional `bool` then a modifier's text, with any whitespace after the commas and before the group keyword, parses back to the flag and the modifier |
| Modifiers.BareModifierRoundTrip | src/parser/modifier.rs:62-67 | optional `bool` with no modifier after it gives the flag and `None` |
| Modifiers.WithBool | src/parser/modifier.rs:65-66 | `bool` before a modifier sets the flag |
| Modifiers.WithoutBool | src/parser/modifier.rs:65-66 | a modifier without `bool` leaves the flag false |
| Modifiers.NoModifierAt | src/parser/modifier.rs:13-20 | text that cannot start `on`/`ignoring` has no group modifiers |
| Modifiers.IgnoringGroupLeftExample | src/parser/modifier.rs:77-96 | `ignoring(a, b, c) group_left(d, e, g)` is read in full as no `bool`, `ignoring` `a`,`b`,`c` and `group_left` `d`,`e`,`g` |
| Modifiers.IgnoringSpacedExample | src/parser/modifier.rs:99-109 | `ignoring (a, b, c)` is read in full as `ignoring` `a`,`b`,`c` |
| Modifiers.UpperOnExample | src/parser/modifier.rs:111-120 | `ON (a, b, c)` is read in full as `on` `a`,`b`,`c` |
| Ops.TokenOp | src/parser/op.rs:11-162 | the operator of a token belongs to the level, carries the parsed modifier, and only comparisons carry the `bool` flag |
| Ops.TokenOpOfTokens | src/parser/op.rs:11-162 | every token of a level maps to an operator, except `less` on the and/unless level, which maps to none (the panic arm) |
| Ops.OpToken | src/parser/op.rs:11-162 | an operator token is one of the level's tokens; it fails recoverably iff none starts the input after whitespace |
| Ops.ParseBinaryOp | src/parser/op.rs:11-162 | an operator of the level, consuming input; recoverable failure iff no token of the level starts the input; the and/unless level only yields `and`; a panic comes only from the modifier or from `less` |
| Ops.ParseBinaryOpPower | src/parser/op.rs:11-28 | `^` and nothing else gives the power operator |
| Ops.ParseBinaryOpMulDivMod | src/parser/op.rs:30-55 | `*`, `/` or `%` and nothing else gives the multiplicative operators |
| Ops.ParseBinaryOpPlusMinus | src/parser/op.rs:57-78 | `+` or `-` and nothing else gives the additive operators |
| Ops.ParseBinaryOpCompare | src/parser/op.rs:80-118 | `==`, `!=`, `>`, `<` (and thus `>=`, `<=`) and nothing else gives the comparisons |
| Ops.ParseBinaryOpAndUnless | src/parser/op.rs:120-143 | `and` or `less` is accepted, and only `and` is ever returned |
| Ops.ParseBinaryOpOr | src/parser/op.rs:145-162 | `or` and nothing else gives `or` |
| Ops.TokenOpText | src/parser/op.rs:11-162 | the operator of a token has that token as its text, belongs to that level, and carries the `bool` flag only if it is a comparison |
| Ops.OpTextTokenOp | src/parser/op.rs:11-162 | every operator except `unless` is what its own text maps back to |
| Ops.OperatorRoundTrip | src/parser/op.rs:11-162 | the text of any operator except `unless`, with any `bool` flag and modifier, parses back to that operator |
| Ops.ModifiersOf | src/parser/modifier.rs:62-67 | an optional `bool` and an optional modifier parse back to the flag and the modifier |
| Ops.LessPanics | src/parser/op.rs:120-143 | `less` is accepted by the tag but panics when mapped to an operator |
| Ops.UnlessNotAnOperator | src/parser/op.rs:122 | `unless` is not an operator |
| Ops.LongestComparison | src/parser/op.rs:82-89 | `>=` and `<=` are read whole, not as `>` / `<` |
| Fold.FoldChain | src/parser/binary.rs:38-43 | the loop builds the left-nested tree of the operand and the (operator, operand) pairs |
| Fold.ChainAppend | src/parser/binary.rs:38-41 | folding a concatenation is folding the second part onto the fold of the first |
| Fold.ChainTwo | src/parser/binary.rs:38-41 | `a op1 b op2 c` folds to `(a op1 b) op2 c` |
| Fold.UnchainChain | src/parser/binary.rs:38-41 | the fold loses nothing: the operand and pairs can be recovered from its tree |
| Calls.DropPhantoms | src/parser/func.rs:84-95 | the kept arguments are exactly the arguments that are not empty selectors |
| Calls.DropPhantomsAppend | src/parser/func.rs:84-95 | the filter works argument by argument, so it distributes over concatenation |
| Calls.DropPhantomsNone | src/parser/func.rs:84-95 | without empty selectors nothing is dropped |
| Calls.DropPhantomsIdempotent | src/parser/func.rs:84-95 | filtering twice is filtering once |
| Calls.FilterArgs | src/parser/func.rs:83-97 | the loop keeps the arguments the filter keeps, in order |
| Calls.AggregationActionOf | src/parser/func.rs:51-57 | exactly `by` and `without` map to an action, `by` to `By` |
| Calls.AggregationKeyword | src/parser/func.rs:47 | succeeds iff `by` or `without` (any case) follows whitespace; a lower-case value means the lower-case text was there |
| Calls.ParseAggregationModifier | src/parser/func.rs:44-60 | labels are valid names; `by`/`without` only when written so; recoverable failure without either keyword; panic only on a keyword in another case |
| Calls.AggregationRoundTrip | src/parser/func.rs:44-60 | `by (ls)` / `without (ls)` reads back the action and labels |
| Calls.KeywordThenSpace | src/parser/func.rs:47 | the lower-case keyword is read as itself and the whitespace after it skipped |
| Calls.UpperByPanics | src/parser/func.rs:47-56 | `BY(…)` is accepted by `tag_no_case` but panics in the case-sensitive match |
| Grammar.SubquerySuffix | src/parser/mod.rs:31-37 | the suffix consumes input and always has a resolution; its fatal failures are invalid durations |
| Grammar.ParseExpr | src/parser/mod.rs:28-50 | never fails recoverably: it succeeds, panics, or fails fatally on an invalid duration or a bad exponent; a success is a well-formed tree and the rest is no longer than the input |
| Grammar.ParseLevel | src/parser/binary.rs:28-118 | each left-folding level never fails recoverably and returns a well-formed tree |
| Grammar.ParseOperand | src/parser/binary.rs:29-31 | an operand of a level is the next tighter level: never a recoverable failure, a well-formed tree |
| Grammar.LevelOp | src/parser/binary.rs:31 | `ws(operator)` of a level returns an operator of that level and consumes input |
| Grammar.LevelTail | src/parser/binary.rs:31 | `many0` of operator-operand pairs returns pairs of the level's operators and well-formed operands |
| Grammar.ParsePower | src/parser/binary.rs:14-26 | never fails recoverably and returns a well-formed tree |
| Grammar.PowerTail | src/parser/binary.rs:17 | the optional `^ power` pair carries the power operator and a well-formed operand |
| Grammar.ParseAtom | src/parser/mod.rs:52-63 | never fails recoverably (a selector always parses) and returns a well-formed tree |
| Grammar.NumberAtom | src/parser/mod.rs:55 | a number atom consumes input and is well formed; its only fatal failure is a bad exponent |
| Grammar.PlusAtom | src/parser/mod.rs:56 | `+atom` consumes input and is well formed |
| Grammar.MinusAtom | src/parser/mod.rs:57-59 | `-atom` consumes input and is well formed |
| Grammar.CallAtom | src/parser/mod.rs:60 | a call atom consumes input and is well formed |
| Grammar.VectorAtom | src/parser/mod.rs:61 | a selector atom never fails recoverably and is well formed |
| Grammar.ParenAtom | src/parser/mod.rs:54 | a parenthesised expression consumes input and is well formed |
| Grammar.ParseFunctionCall | src/parser/func.rs:18-42 | a call consumes input, its name is the metric name that starts the input, and its arguments are well formed: no empty selectors, strings only as arguments |
| Grammar.CallTail | src/parser/func.rs:21-30 | either order of body and modifier consumes input and gives well-formed arguments |
| Grammar.BodyThenAggregation | src/parser/func.rs:22-25 | body then optional modifier consumes input and gives well-formed arguments |
| Grammar.AggregationThenBody | src/parser/func.rs:26-29 | optional modifier then body consumes input and gives well-formed arguments |
| Grammar.ParseFunctionCallBody | src/parser/func.rs:62-72 | a parenthesised argument list consumes input and gives well-formed arguments |
| Grammar.ParseFunctionCallArgs | src/parser/func.rs:74-98 | the argument list never fails recoverably; its arguments are well formed (no empty selectors) |
| Grammar.ArgsTail | src/parser/func.rs:76-77 | the `, arg` repetitions never fail recoverably and yield strings or well-formed expressions |
| Grammar.ParseArg | src/parser/func.rs:78-81 | an argument is a string literal or a well-formed expression |
| GrammarSteps.AtomOrder | src/parser/mod.rs:52-63 | the atom is the first alternative that does not fail recoverably, in the source's order |
| GrammarProps.EmptySelector | src/parser/vector.rs:29-39 | the selector read from text with no name and no braces is empty |
| GrammarProps.NoNumberAtClose | src/parser/literal.rs:12-15 | no number starts at `)`, `,` or the end |
| GrammarProps.NoStringAtClose | src/parser/literal.rs:17-45 | no string literal starts at `)`, `,` or the end |
| GrammarProps.NoOperatorAtClose | src/parser/op.rs:11-162 | no operator starts at `)`, `,` or the end |
| GrammarProps.NoSubqueryAtClose | src/parser/mod.rs:31-37 | no subquery suffix starts at `)`, `,` or the end |
| GrammarProps.InstantVecAtClose | src/parser/vector.rs:29-39 | at `)`, `,` or the end the instant selector is the default one, consuming nothing |
| GrammarProps.VectorAtClose | src/parser/vector.rs:16-27 | at `)`, `,` or the end the selector is the default one, consuming nothing |
| GrammarProps.InstantVecOfName | src/parser/vector.rs:29-39 | a name followed by `(` is a selector of that name only |
| GrammarProps.NameSelector | src/parser/vector.rs:16-39 | a name followed by `(` is read by the selector parser as `v(name)`, stopping at `(` |
| GrammarProps.AtomAtClose | src/parser/mod.rs:52-63 | at `)`, `,` or the end an atom is the empty selector, consuming nothing |
| GrammarProps.PowerAtClose | src/parser/binary.rs:14-26 | the same for the power level |
| GrammarProps.LevelAtClose | src/parser/binary.rs:28-118 | the same for every left-folding level |
| GrammarProps.OperandAtClose | src/parser/binary.rs:28-118 | the same for the operand of every left-folding level |
| GrammarProps.ExprAtClose | src/parser/mod.rs:28-50 | the same for a whole expression |
| GrammarProps.EmptyQuery | src/parser/mod.rs:28-63 | the empty query parses to the empty selector |
| GrammarProps.ArgsAtClose | src/parser/func.rs:74-98 | at `)` or the end the argument list is empty: the empty selector read there is filtered out |
| GrammarProps.DropEmptySelector | src/parser/func.rs:86-89 | the empty selector is dropped from an argument list |
| GrammarProps.EmptyBody | src/parser/func.rs:62-72 | `()` is the empty argument list |
| GrammarProps.NoAggregation | src/parser/func.rs:44-49 | without `by`/`without` there is no aggregation modifier |
| GrammarProps.EmptyCallParse | src/parser/func.rs:18-42 | `name()` with no modifier after it is a call of that name with no arguments and no aggregation |
| GrammarProps.AtomIsCall | src/parser/mod.rs:60 | an input that is not a number and parses as a call is an atom holding that call |
| GrammarProps.EmptyCall | src/parser/mod.rs:52-63 | `name()` at atom position is the call, not the selector `name` |
| GrammarProps.SpaceThenName | src/parser/mod.rs:54-61 | with whitespace before it, `name(` is not a call but the selector `name` |
| GrammarProps.SignedNumber | src/parser/mod.rs:55-57 | a signed number is a number literal, not a negation |
| GrammarProps.UnaryMinus | src/parser/mod.rs:57-59 | `-atom` that is not a number is the negation of the atom |
| GrammarProps.UnaryPlus | src/parser/mod.rs:56 | `+atom` that is not a number is the atom itself |
| GrammarProps.Parenthesised | src/parser/mod.rs:54 | `(e)` is `e`, with no node for the parentheses |
| Precedence.LeftFold | src/parser/binary.rs:28-118 | `a op1 b op2 c` on a left-folding level is `(a op1 b) op2 c` |
| Precedence.PowerRight | src/parser/binary.rs:14-26 | `a ^ b ^ c` is `a ^ (b ^ c)` |
| Precedence.LoneOperand | src/parser/binary.rs:33-36 | an operand with no operator after it is the level's result unchanged |
| Precedence.SingleOperator | src/parser/binary.rs:38-41 | `a op b` with nothing of the level after it is one binary node |
| Precedence.TighterInside | src/parser/binary.rs:47-64 | `a + b * c` is `a + (b * c)` |
| Precedence.ModifierAfterBody | src/parser/func.rs:22-25 | `f() by (ls)` is the call with that aggregation |
| Precedence.ModifierBeforeBody | src/parser/func.rs:26-29 | `f by (ls) ()` is the same call as `f() by (ls)` |
| Subquery.DurationThen | src/parser/vector.rs:81 | the duration token is the run of alphanumeric characters up to the first other character |
| Subquery.SuffixRoundTrip | src/parser/mod.rs:31-37 | `[r:q]` yields the decoded range and resolution and skips the whitespace after `]` |
| Subquery.EmptyResolutionFails | src/parser/mod.rs:35 | `[r:]` fails fatally with the decoder's error for the empty token |
| Subquery.NoSuffix | src/parser/mod.rs:32 | without `[` there is no suffix |
| Subquery.SubqueryOf | src/parser/mod.rs:39-48 | `e[r:q]` is a subquery over `e` with both durations |
| Subquery.PlainExpr | src/parser/mod.rs:40 | without `[` after it, the `or` level's result is the expression unchanged |
| Subquery.MissingResolution | src/parser/mod.rs:35 | `e[r:]` fails the whole parse when the decoder rejects the empty token |
| Suffix.WsAdvances | src/parser/helper.rs:27-31 | `ws(f)` leaves a suffix of its input whenever `f` leaves a suffix of the input after the leading whitespace |
| Suffix.RecognizeNameAdvances | src/parser/helper.rs:12-25 | a name parser that succeeds leaves a suffix of its input |
| Suffix.ParseStringLiteralAdvances | src/parser/literal.rs:17-45 | a string literal that succeeds leaves a suffix of its input |
| Suffix.ParseNumberLiteralAdvances | src/parser/literal.rs:12-15 | a number literal that succeeds leaves a suffix of its input |
| Suffix.ParseDurationAdvances | src/parser/vector.rs:80-88 | a duration that succeeds leaves a suffix of its input |
| Suffix.ParseLabelMatcherOpAdvances | src/parser/vector.rs:68-78 | a matcher operator that succeeds leaves a suffix of its input |
| Suffix.ParseLabelMatcherAdvances | src/parser/vector.rs:50-66 | a label matcher that succeeds leaves a suffix of its input |
| Suffix.MatcherListRestAdvances | src/parser/vector.rs:44 | the `, matcher` repetitions leave a suffix of their input (by induction on the list) |
| Suffix.MatcherListAdvances | src/parser/vector.rs:44 | `separated_list0` of matchers leaves a suffix of its input |
| Suffix.ParseLabelMatchersAdvances | src/parser/vector.rs:41-48 | a braced matcher list leaves a suffix of its input |
| Suffix.ParseInstantVecAdvances | src/parser/vector.rs:29-39 | the instant selector leaves a suffix of its input |
| Suffix.RangeSuffixAdvances | src/parser/vector.rs:19 | a range clause that succeeds leaves a suffix of its input |
| Suffix.OffsetSuffixAdvances | src/parser/vector.rs:20 | an offset clause that succeeds leaves a suffix of its input |
| Suffix.ParseVectorAdvances | src/parser/vector.rs:16-27 | a selector that succeeds leaves a suffix of its input |
| Suffix.ParseGroupingLabelAdvances | src/parser/group.rs:39-42 | a grouping label that succeeds leaves a suffix of its input |
| Suffix.GroupingLabelListRestAdvances | src/parser/group.rs:28 | the `, label` repetitions leave a suffix of their input (by induction on the list) |
| Suffix.ParseGroupingLabelListAdvances | src/parser/group.rs:26-37 | a label list leaves a suffix of its input |
| Suffix.ParseGroupingLabelsAdvances | src/parser/group.rs:21-24 | a parenthesised label list that succeeds leaves a suffix of its input |
| Suffix.KeywordLabelsAdvances | src/parser/modifier.rs:44 | keyword then labels, when it succeeds, leaves a suffix of its input |
| Suffix.ParseOnOrIgnoringAdvances | src/parser/modifier.rs:41-60 | `on(…)` / `ignoring(…)` that succeeds leaves a suffix of its input |
| Suffix.GroupClauseAdvances | src/parser/modifier.rs:16-19 | a group clause that succeeds leaves a suffix of its input |
| Suffix.ParseGroupModifiersAdvances | src/parser/modifier.rs:13-39 | the group modifiers, when they succeed, leave a suffix of their input |
| Suffix.ParseBinaryModifierAdvances | src/parser/modifier.rs:62-67 | the optional `bool` and modifier leave a suffix of their input |
| Suffix.ParseBinaryOpAdvances | src/parser/op.rs:11-162 | an operator of any level that succeeds leaves a suffix of its input |
| Suffix.ParseAggregationModifierAdvances | src/parser/func.rs:44-60 | an aggregation modifier that succeeds leaves a suffix of its input |
| Suffix.SubquerySuffixAdvances | src/parser/mod.rs:31-37 | a subquery suffix that succeeds leaves a suffix of its input |
| Suffix.ParseExprAdvances | src/parser/mod.rs:28-50 | every successful parse of an expression leaves a suffix of the query: the parser only ever consumes a prefix |
| Suffix.ParseLevelAdvances | src/parser/binary.rs:28-118 | each left-folding level that succeeds leaves a suffix of its input |
| Suffix.ParseOperandAdvances | src/parser/binary.rs:29-31 | an operand of a level that succeeds leaves a suffix of its input |
| Suffix.LevelOpAdvances | src/parser/binary.rs:31 | `ws(operator)` of a level that succeeds leaves a suffix of its input |
| Suffix.LevelTailAdvances | src/parser/binary.rs:31 | `many0` of operator-operand pairs leaves a suffix of its input |
| Suffix.ParsePowerAdvances | src/parser/binary.rs:14-26 | the power level that succeeds leaves a suffix of its input |
| Suffix.PowerTailAdvances | src/parser/binary.rs:17 | the optional `^ power` pair leaves a suffix of its input |
| Suffix.ParseAtomAdvances | src/parser/mod.rs:52-63 | an atom, whichever alternative reads it, leaves a suffix of its input |
| Suffix.NumberAtomAdvances | src/parser/mod.rs:55 | a number atom that succeeds leaves a suffix of its input |
| Suffix.PlusAtomAdvances | src/parser/mod.rs:56 | `+atom` that succeeds leaves a suffix of its input |
| Suffix.MinusAtomAdvances | src/parser/mod.rs:57-59 | `-atom` that succeeds leaves a suffix of its input |
| Suffix.CallAtomAdvances | src/parser/mod.rs:60 | a call atom that succeeds leaves a suffix of its input |
| Suffix.VectorAtomAdvances | src/parser/mod.rs:61 | a selector atom that succeeds leaves a suffix of its input |
| Suffix.ParenAtomAdvances | src/parser/mod.rs:54 | a parenthesised expression that succeeds leaves a suffix of its input |
| Suffix.ParseFunctionCallAdvances | src/parser/func.rs:18-42 | a call that succeeds leaves a suffix of its input |
| Suffix.CallTailAdvances | src/parser/func.rs:21-30 | either order of body and modifier, when it succeeds, leaves a suffix of its input |
| Suffix.BodyThenAggregationAdvances | src/parser/func.rs:22-25 | body then optional modifier leaves a suffix of its input |
| Suffix.AggregationThenBodyAdvances | src/parser/func.rs:26-29 | optional modifier then body leaves a suffix of its input |
| Suffix.ParseFunctionCallBodyAdvances | src/parser/func.rs:62-72 | a parenthesised argument list that succeeds leaves a suffix of its input |
| Suffix.ParseFunctionCallArgsAdvances | src/parser/func.rs:74-98 | the argument list that succeeds leaves a suffix of its input |
| Suffix.ArgsTailAdvances | src/parser/func.rs:76-77 | the `, arg` repetitions leave a suffix of their input |
| Suffix.ParseArgAdvances | src/parser/func.rs:78-81 | an argument that succeeds leaves a suffix of its input |
| Ranges.TokenThen | src/parser/vector.rs:81 | the duration token of `r + t` is exactly `r` when `r` is made of token characters and `t` does not continue it, even when `t` is empty |
| Ranges.DurationOf | src/parser/vector.rs:80-88 | the duration parser on `r + t` gives the decoded `r` with `t` left, or the decoder's error as a fatal failure |
| Ranges.RangeOf | src/parser/vector.rs:19 | `[r]` gives the decoded `r` and leaves the text after `]` unskipped; a rejected token, the empty one included, fails fatally with the decoder's reason |
| Ranges.RangeFatalIff | src/parser/vector.rs:19 | after `[` the range clause fails fatally iff the decoder rejects the token there |
| Ranges.OffsetOf | src/parser/vector.rs:20 | ` offset o` gives the decoded `o`, or the decoder's error as a fatal failure |
| Ranges.InstantName | src/parser/vector.rs:29-39 | a name followed by punctuation that does not open matchers is the plain selector of that name, with the punctuation left |
| Ranges.SelectorRange | src/parser/vector.rs:16-27 | `n[r]` with no offset after it is the selector `n` whose range is the decoded `r` and whose offset is absent |
| Ranges.SelectorBadRange | src/parser/vector.rs:16-27 | `n[r]` with a token the decoder rejects fails fatally with the decoder's reason, instead of falling back to no range |
| Ranges.SelectorRangeOffset | src/parser/vector.rs:16-27 | `n[r] offset o` is the selector `n` with both the decoded range and the decoded offset |
| Ranges.PowerFatal | src/parser/binary.rs:14-26 | a fatal failure of the first atom is the power level's result |
| Ranges.LevelFatal | src/parser/binary.rs:28-118 | every level passes a fatal failure of its first atom on unchanged |
| Ranges.ExprFatal | src/parser/mod.rs:28-50 | a fatal failure of the first atom of a query is the result of the whole parse, with the same error |
| Ranges.NoCallTailAtBracket | src/parser/func.rs:21-30 | at `[` neither order of body and aggregation modifier succeeds; both fail recoverably |
| Ranges.NoCallBeforeBracket | src/parser/mod.rs:60 | a name followed by `[` is no function call |
| Ranges.BadRangeFailsQuery | src/parser/mod.rs:52-63 | a query starting `n[r]` where the decoder rejects `r` fails as a whole with the decoder's reason: the atom's alternatives do not skip a fatal failure |
| Visitor.Dispatch | src/visitor/mod.rs:6-16 | each node goes to the callback of its own variant, and to no other |
| Visitor.NoDescent | src/visitor/mod.rs:18-21 | the default binary, subquery and negation callbacks do not look inside their node, so they reach no selector |
| Visitor.VisitsAllCons | src/visitor/mod.rs:24 | arguments are visited left to right: the first argument's callbacks come first |
| Visitor.DefaultVisitSucceeds | src/visitor/mod.rs:6-56 | with no callback overridden, visiting any tree succeeds |
| Visitor.DefaultVisitAllSucceeds | src/visitor/mod.rs:23-26 | with no callback overridden, visiting any argument list succeeds |
| Visitor.VectorCounter.constructor | src/visitor/mod.rs:80 | a new counter starts at zero |
| Visitor.VectorCounter.VisitExpr | src/visitor/mod.rs:6-16 | visiting a node succeeds and adds the number of selectors the traversal reaches |
| Visitor.VectorCounter.VisitVectorExpr | src/visitor/mod.rs:72-76 | the overridden selector callback adds one |
| Visitor.VectorCounter.VisitFunCall | src/visitor/mod.rs:23-26 | visiting a call's arguments adds the selectors reached in all of them |
| Visitor.Visit | src/visitor/mod.rs:54-56 | `visit` succeeds and adds the number of selectors reached |
| Visitor.CountAliasSelectors | src/visitor/mod.rs:63-83 | on `alias(sum(a) by (b), "c")` a fresh counter ends at exactly one |
| Transformer.TransformExpr | src/transformer/mod.rs:6-44 | the default transformer succeeds and returns the node unchanged, so the variant is kept |

## Left out

- Number values: `f64` is kept as an exact real with `NaN` and an unsigned `Infinity`. Rounding, `-inf` as its own value and the epsilon comparison of `NumberLiteral` (`src/ast/literal.rs:6-10`) are not modelled.
- Duration decoding: `humantime::parse_duration` is a foreign library. It is the parameter `dec`, and duration values are left abstract.
- Logging: the `debug!` calls and error messages are output only.
- nom internals: `Incomplete` and streaming input do not arise in complete-input parsing. The `many0` and `separated_list0` guard against an element that consumes nothing is not modelled, because it never fires here.
- `src/ast/value.rs`, `src/ast/binary.rs`, `src/ast/subquery.rs` and `src/lib.rs` add only type declarations and re-exports. The expression variants are modelled directly.
- Visitors and transformers: a user's own overrides are not modelled beyond the counting visitor of the test. The `Err` type of the other callbacks is a type parameter.
- Input: the character classes are ASCII, and `is_alphanumeric(x as u8)` is the low byte of the character (`LowByte`). Stack depth is not modelled.
- In-place updates: the record updates `v.range = range; v.offset = offset` (`src/parser/vector.rs:22-25`) and `a.group = Some(group)` (`src/parser/modifier.rs:34`) are datatype updates on values, because the value is owned by the parser.
- Visitor.CountAliasSelectors: takes the tree of the test string as given. Parsing `alias(sum(a) by (b), "c")` to that tree is not proved.
- Grammar.ParseFunctionCall: its contract states well-formed arguments and the name, not the full result. Particular inputs are covered by the lemmas in `Precedence` and `GrammarProps`.
- Selector.ParseVector: its own contract relates the result to `ParseInstantVec` only; the values of the range and offset are pinned down by the lemmas in `Ranges` for a name followed by `[r]` and ` offset o`, not for every spelling (matchers before the range, other whitespace).
- Literal.ParseNumberLiteral: its contract says when it succeeds or fails, not which value it returns. The value is computed by `FloatValue` from the recognized token, and no round trip from a number to its text is proved.
- Modifiers.GroupModifiersRoundTrip: the action keyword is written in lower case directly before its list and the group keyword directly before its list. Other spellings of the action and whitespace before `(` are covered by `Modifiers.OnOrIgnoringRoundTrip`; a group keyword not in lower case panics (`Modifiers.UpperCaseGroupPanics`).
- Modifiers.BinaryModifierRoundTrip: the same spelling as `Modifiers.GroupModifiersRoundTrip`, for the same reason.
- Matchers.LabelMatchersRoundTrip: the round trip covers the canonical text, with no whitespace between the parts and values in double quotes. Other spellings (the spaces in `{a="1", b="2"}`, single quotes or backticks) are covered only by the parsers' own contracts, which hold for every input.
