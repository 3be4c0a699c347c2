# go-extended core, modelled in Dafny

This project models the small sequential pieces of logic in the Go utility library
`github.com/VirtusLab/go-extended` and proves their properties. Each Go package is one Dafny module:

- **IgnoreRules** (`ignore_rules.dfy`): the gitignore-like *simple* rules of `pkg/ignore/rules/simple`.
  - `parseRule` records the root prefix, directory suffix and path depth of a pattern.
  - `Parse`'s line loop sorts `!` lines into the accepted set and the other rule lines into the ignored set, and stops at the first invalid rule.
  - `cutLastN`, `rule.match`, `ruleSet.match` and `rules.Match` decide whether a relative path is ignored.
  - The glob engine (`filepath.Match`) is a parameter. The concrete examples use a simplified `*`/`?` matcher.
- **JsonPathNode** (`jsonpath_node.dfy`): the parse-tree nodes of `pkg/jsonpath`.
  - It covers the twelve type codes and their names, one variant per node kind, the constructors and the `String` renderings.
  - `ListNode` is a class whose `Append` grows its children in place.
- **Errors** (`errors_format.dfy`): the traced error of `pkg/errors`.
  - It covers the composition of `Error()`, the nil behaviour of `Wrap`/`Wrapf`, and `New` and `Errorf`.
  - The `Cause` loop follows cause links to the innermost error.
- **Strings** (`strings_ellipsis.dfy`): `Ellipsis`.
- **Files** (`files.dfy`): `FileEntry` and the `TrimExtension` loop.
- **Check** (`check.dfy`): the JavaScript identifier check. Its regular expression is read as character classes and also as a three-state automaton.
- **Reflect** (`reflect.dfy`): `Len`/`CheckEmpty` over a tagged dynamic value, and the three error messages.
- **Renderer** (`renderer.dfy`): the template renderer's configuration.
  - It covers the defaults, configurators applied in order, `Validate`, and the validation gate of `NamedRender`/`Render`.
  - The renderer is a class with a mutable `config` field.
- **StringOps** (`string_ops.dfy`): the Go library calls these packages make, each specified by what it computes.
  - `strings.Split`, `Join`, `Count`, `HasPrefix`, `HasSuffix`, `TrimPrefix`, `TrimSuffix`, `Trim` and `TrimSpace`.
  - `filepath.Ext`.
- **Wrappers** (`wrappers.dfy`): `Option` and `Result`. A Go `error` that may be nil is an `Option`.

## Model

| member | source | states |
|---|---|---|
| IgnoreRules.ParseRule | pkg/ignore/rules/simple/simple.go:29-46 | parseRule: the flags, the depth and the trimmed pattern, paired with the glob engine's verdict on the trimmed pattern (properties in ParseRuleFields) |
| IgnoreRules.ValidateMatch | pkg/ignore/rules/simple/simple.go:136-139 | validateMatch: `syntax error in pattern` exactly when the glob engine does not take the pattern |
| IgnoreRules.CutLastN | pkg/ignore/rules/simple/simple.go:115-126 | cutLastN: with a negative n read as 0, the join of the last n pieces of the split when there are more than n, otherwise the path (properties in CutLastNSegments) |
| IgnoreRules.ParseRuleFields | pkg/ignore/rules/simple/simple.go:29-46 | the root flag holds iff the pattern starts with `/`, the directory flag iff it ends with `/`; a relative pattern's depth is its number of `/` (segments minus one), a rooted one's 0; the stored pattern is the original with its leading and trailing `/` run cut off; the error is the glob engine's verdict on the stored pattern |
| IgnoreRules.CutLastNSegments | pkg/ignore/rules/simple/simple.go:115-126 | `""` for n <= 0 (negative counts as 0); the whole path once n reaches the segment count; otherwise the result splits into exactly the last n segments, is a suffix of the path and is joined to the dropped head by one `/` |
| IgnoreRules.CutLastNTail | pkg/ignore/rules/simple/simple.go:115-126 | when segments are dropped, the result splits back into exactly the last n segments of the path |
| IgnoreRules.CutLastNSuffix | pkg/ignore/rules/simple/simple.go:115-126 | when segments are dropped, the path ends with `/` followed by the result |
| IgnoreRules.DeepPathCut | pkg/ignore/rules/simple/simple.go:115-126 | cutting `dir1/dir2/a.txt` to 2 segments gives `dir2/a.txt` |
| IgnoreRules.Target | pkg/ignore/rules/simple/simple.go:105-109 | the path a rule's glob is compared with: the whole path for a rooted rule, its last pathDepth+1 segments otherwise |
| IgnoreRules.RuleMatches | pkg/ignore/rules/simple/simple.go:99-113 | rule.match: false for a directory rule on a non-directory, otherwise the glob engine's verdict on the target (properties in RuleTarget) |
| IgnoreRules.RuleTarget | pkg/ignore/rules/simple/simple.go:99-113 | a directory rule never matches a non-directory; a rooted rule compares the whole path; a relative rule compares the suffix of the path made of its last k segments, where k is the pattern's segment count (the whole path when the path has at most k segments) |
| IgnoreRules.AnyMatches | pkg/ignore/rules/simple/simple.go:88-97 | what ruleSet.match answers: some rule of the set matches (RuleSetMatch is proved equal to it) |
| IgnoreRules.RuleSetMatch | pkg/ignore/rules/simple/simple.go:88-97 | the early-return scan answers true iff some rule of the set matches |
| IgnoreRules.Ignores | pkg/ignore/rules/simple/simple.go:81-86 | what rules.Match answers: no accepted rule matches and some ignored rule does |
| IgnoreRules.Match | pkg/ignore/rules/simple/simple.go:81-86 | a path is ignored iff no accepted rule matches and some ignored rule does; any matching accepted rule makes the answer false whatever the ignored rules say |
| IgnoreRules.Classify | pkg/ignore/rules/simple/simple.go:54-61 | a line is skipped iff it is empty or a `#` comment after TrimSpace; a `!` line accepts what follows the `!`; any other line ignores the whole trimmed line |
| IgnoreRules.InvalidRule | pkg/ignore/rules/simple/simple.go:64 | the error text `rule '<line>' is invalid: <cause>` |
| IgnoreRules.AddLine | pkg/ignore/rules/simple/simple.go:54-73 | one pass of Parse's loop body: a skipped line changes nothing; a rule line appends its rule to its set, or fails with the invalid-rule error (properties in AddLineOk) |
| IgnoreRules.ParseLines | pkg/ignore/rules/simple/simple.go:48-79 | the lines parsed in order, stopping at the first invalid rule, starting from two empty sets (properties in ParseLinesOk, ParseLinesSets, ParseLinesFirstError) |
| IgnoreRules.Parse | pkg/ignore/rules/simple/simple.go:48-79 | the result is the line-by-line parse of the content split at newlines |
| IgnoreRules.ParseScanned | pkg/ignore/rules/simple/simple.go:52-74 | the loop that appends to `accepted`/`ignored` and returns at the first invalid rule computes ParseLines of the scanned lines |
| IgnoreRules.ParseLinesErrSticks | pkg/ignore/rules/simple/simple.go:62-71 | once a prefix of the lines fails, the whole parse fails with that same error |
| IgnoreRules.AddLineOk | pkg/ignore/rules/simple/simple.go:57-73 | adding a line succeeds iff the line is skipped or its pattern is well formed, whatever was parsed before |
| IgnoreRules.ParseLinesOk | pkg/ignore/rules/simple/simple.go:48-79 | parsing succeeds iff every line is valid (both directions) |
| IgnoreRules.OkLinesValid | pkg/ignore/rules/simple/simple.go:53-74 | a successful parse had only valid lines |
| IgnoreRules.ValidLinesOk | pkg/ignore/rules/simple/simple.go:53-74 | lines that are all valid parse successfully |
| IgnoreRules.ParseLinesSets | pkg/ignore/rules/simple/simple.go:61-73 | after success, `accepted` holds the rules of the `!` lines and `ignored` those of the other rule lines, each exactly once and in line order |
| IgnoreRules.ParseLinesFirstError | pkg/ignore/rules/simple/simple.go:62-71 | a failed parse names the first invalid line: all earlier lines are valid and the error reads `rule '<trimmed line>' is invalid: syntax error in pattern` |
| IgnoreRules.RootRuleExample | pkg/ignore/rules/simple/simple_test.go:67 | `/a.txt` does not match `dir/a.txt` |
| IgnoreRules.RelativeRuleExample | pkg/ignore/rules/simple/simple_test.go:54 | `dir2/a.txt` matches `dir1/dir2/a.txt` through its last two segments |
| IgnoreRules.AcceptOverridesExample | pkg/ignore/rules/simple/simple_test.go:69 | with `*.txt` ignoring and `!b.txt` accepting, `dir/b.txt` is not ignored |
| IgnoreRules.NestedDirRuleMissed | pkg/ignore/rules/simple/simple.go:33-36 | as written, `dir/` gets depth 1, so it does not match the directory `a/dir` |
| IgnoreRules.ParseRuleIntended | pkg/ignore/rules/simple/simple.go:29-46 | a corrected parseRule: the same pattern, flags and verdict, with the depth counted on the stored pattern |
| IgnoreRules.IntendedDepth | pkg/ignore/rules/simple/simple.go:33-36 | under the corrected parse, a relative rule compares as many segments as its stored pattern has |
| IgnoreRules.IntendedAgreesWithoutDirSuffix | pkg/ignore/rules/simple/simple.go:33-38 | for a pattern without a trailing `/`, the corrected parse is the parse the code makes |
| IgnoreRules.NestedDirRuleIntended | pkg/ignore/rules/simple/doc.go:8 | under the corrected parse, `dir/` matches the nested directory `a/dir` |
| JsonPathNode.TypeString | pkg/jsonpath/node.go:29-31 | NodeType.String: the code's entry in NodeTypeName, `""` for a code outside it (properties in NodeTypeNames) |
| JsonPathNode.NodeTypeNames | pkg/jsonpath/node.go:29-74 | the codes with a name are exactly 0..11; every name starts with `Node`; no name is a prefix of another, so all twelve are distinct; any other code reads as `""` |
| JsonPathNode.NamePrefix | pkg/jsonpath/node.go:61-74 | for two different codes, one name is never a prefix of the other |
| JsonPathNode.ListNode.constructor | pkg/jsonpath/node.go:88-90 | a new list has no children (with NewList, this models newList's empty `&ListNode{NodeType: NodeList}`) |
| JsonPathNode.ListNode.Append | pkg/jsonpath/node.go:92-94 | the node is added at the end: the length grows by one and the earlier children are unchanged and in order |
| JsonPathNode.NewList | pkg/jsonpath/node.go:88-90 | the node carries the NodeList tag and the list given; the empty list newList starts from is made by ListNode.constructor |
| JsonPathNode.NewText | pkg/jsonpath/node.go:106-108 | the NodeText tag and the text, unchanged |
| JsonPathNode.NewField | pkg/jsonpath/node.go:120-122 | the NodeField tag and the value, unchanged |
| JsonPathNode.NewIdentifier | pkg/jsonpath/node.go:134-139 | the NodeIdentifier tag and the name, unchanged |
| JsonPathNode.NewArray | pkg/jsonpath/node.go:145-163 | the NodeArray tag and the three parameters start, end, step, each with its value, known and derived flags |
| JsonPathNode.NewFilter | pkg/jsonpath/node.go:177-184 | the NodeFilter tag with the left list, right list and operator as given |
| JsonPathNode.NewInt | pkg/jsonpath/node.go:196-198 | the NodeInt tag and the number |
| JsonPathNode.NewFloat | pkg/jsonpath/node.go:210-212 | the NodeFloat tag and the number |
| JsonPathNode.NewWildcard | pkg/jsonpath/node.go:223-225 | the NodeWildcard tag |
| JsonPathNode.NewRecursive | pkg/jsonpath/node.go:236-238 | the NodeRecursive tag |
| JsonPathNode.NewUnion | pkg/jsonpath/node.go:250-252 | the NodeUnion tag and the lists given |
| JsonPathNode.NewBool | pkg/jsonpath/node.go:264-266 | the NodeBool tag and the value |
| JsonPathNode.NatToString | pkg/jsonpath/node.go:200-202 | the `%d` rendering is a non-empty string of decimal digits with no leading zero |
| JsonPathNode.NatToStringValue | pkg/jsonpath/node.go:200-202 | the `%d` digits read back as the same number |
| JsonPathNode.Node.Type | pkg/jsonpath/node.go:25-27 | Type: the tag embedded in each node kind (each constructor's contract states it) |
| JsonPathNode.Node.String | pkg/jsonpath/node.go:96-269 | the String method of each non-float node kind (properties in StringStartsWithName, StringDeterminesType, BareNames, PayloadRendering) |
| JsonPathNode.StringStartsWithName | pkg/jsonpath/node.go:96-269 | every node's rendering starts with the name of its type |
| JsonPathNode.StringDeterminesType | pkg/jsonpath/node.go:96-269 | two nodes rendered alike have the same type |
| JsonPathNode.BareNames | pkg/jsonpath/node.go:96-98 | List, Wildcard, Recursive and Union nodes render as the bare type name |
| JsonPathNode.PayloadRendering | pkg/jsonpath/node.go:110-143 | Text, Field and Identifier render as `<type name>: <payload>` in a way that gives back the node: equal renderings mean equal nodes |
| Errors.Error.Error | pkg/errors/format.go:75-86 | tracedError.Error: `message: cause` when both are there, the message alone, the cause's text alone, or `""` (properties in Wrapf, Wrap, New, WrapChain) |
| Errors.Error.Cause | pkg/errors/format.go:88-90 | tracedError.Cause: the stored cause; for another package's error, what its Cause method returns |
| Errors.Wrapf | pkg/errors/format.go:30-39 | nil gives nil and only nil does; the wrapper's cause is the wrapped error; its text is `message: cause` for a non-empty message and the cause's text for an empty one |
| Errors.Wrap | pkg/errors/format.go:44-53 | nil gives nil and only nil does; the cause is the wrapped error and the text is unchanged |
| Errors.New | pkg/errors/format.go:57-63 | no cause, and the text is the message |
| Errors.Errorf | pkg/errors/format.go:67-73 | a traced error with an empty message whose cause is the formatted error, which has the formatted text and no cause of its own; so the text is the formatted text |
| Errors.Innermost | pkg/errors/format.go:133-145 | the end of a cause chain reports no cause |
| Errors.Cause | pkg/errors/format.go:133-145 | nil gives nil and only nil does; the result has no cause and is the innermost error of the chain; an error without a cause comes back unchanged |
| Errors.WrapChain | pkg/errors/format.go:75-86 | a chain of Wrapf calls with non-empty messages reads outermost message first, each followed by `: `, down to the wrapped error's own text |
| Errors.WrapChainInnermost | pkg/errors/format.go:30-39 | wrapping never changes the innermost error of the chain |
| Errors.WrapExample | pkg/errors/example_test.go:122-136 | outer(middle(inner(New("error")))) reads `outer: middle: inner: error` and its innermost error is the `New("error")` |
| Strings.Ellipsis | pkg/strings/strings.go:4-12 | the result has length min(len(s), max); a string that fits is unchanged; up to max 4 it is the first max characters; otherwise the first max-3 characters of `s` followed by `...` |
| Strings.EllipsisIdempotent | pkg/strings/strings.go:4-12 | abbreviating an abbreviation with the same maximum changes nothing |
| Strings.EllipsisExamples | pkg/strings/strings_test.go:13-91 | all eight cases of the package's tests, normal+1 to normal+4 included |
| Strings.EllipsisAsWritten | pkg/strings/strings.go:4-12 | Ellipsis with Go's panic made explicit: it fails exactly when max <= 4 and `s[:max]` is out of range |
| Strings.ShortStringPanics | pkg/strings/strings.go:5-6 | `Ellipsis("ab", 3)` panics, although `"ab"` already fits within 3 characters |
| Strings.EllipsisFixed | pkg/strings/strings.go:4-12 | a corrected Ellipsis: a string that fits is returned unchanged, a longer one is cut to exactly max characters, ending in `...` above 4 |
| Strings.EllipsisFixedAgrees | pkg/strings/strings.go:4-12 | the corrected function agrees with Go wherever Go does not panic, and returns the string where Go panics |
| Files.Trimmed | pkg/files/files.go:133-142 | the entry TrimExtension returns: one trim of the original entry when its extension is listed, otherwise the entry (properties in TrimmedFields) |
| Files.TrimExtension | pkg/files/files.go:133-142 | the loop returns Trimmed(file, extensions): each listed extension is compared with and trimmed from the original entry |
| Files.TrimmedFields | pkg/files/files.go:133-142 | the path never changes; without a listed extension the entry is unchanged; with one, the name loses that suffix only when it has it, and the extension is that of the new name |
| Files.TrimmedWellFormed | pkg/files/files.go:114-121 | on an entry built as DirTree builds it, a matching trim removes exactly the extension and the result is again such an entry |
| Files.NoStackingExample | pkg/files/files.go:135-139 | with `.gz` and `.tar` both listed, `archive.tar.gz` becomes `archive.tar` with extension `.tar`: trims do not stack |
| Check.MatchesPattern | pkg/check/check.go:10 | the value matches `^[a-zA-Z_$][a-zA-Z0-9_$]*$`: non-empty, first character in the start class, the rest in the part class (cross-checked in CheckIsAutomaton) |
| Check.InvalidJavaScriptIdentifier.Error | pkg/check/check.go:18-21 | the error text naming the value and the pattern (written out in ErrorText) |
| Check.IsValidJavaScriptIdentifier | pkg/check/check.go:24-29 | an error is reported for exactly the values not matching the pattern, and it carries the value |
| Check.RunInside | pkg/check/check.go:10 | after the first character, the automaton stays inside an identifier iff every remaining character is in `[a-zA-Z0-9_$]` |
| Check.CheckIsAutomaton | pkg/check/check.go:10-29 | the check passes a value iff the automaton for `^[a-zA-Z_$][a-zA-Z0-9_$]*$` accepts it |
| Check.AcceptedExamples | pkg/check/check_test.go:13-59 | the accepted values of the tests pass |
| Check.RejectedExamples | pkg/check/check_test.go:60-86 | the empty value, `invalid-with-dash` and `123notSoGood` are rejected with an error naming them |
| Check.ErrorText | pkg/check/check.go:18-21 | the error reads `must be a valid JavaScript identifier, '<value>' does not match pattern '^[a-zA-Z_$][a-zA-Z0-9_$]*$'` |
| Check.RejectsDashAndLeadingDigit | pkg/check/check_test.go:69-85 | every value containing `-` and every value starting with a digit is rejected |
| Reflect.ReflectError.Error | pkg/experimental/reflect/reflect.go:11-29 | the three error texts (stated in ErrorMessages) |
| Reflect.Len | pkg/experimental/reflect/reflect.go:50-75 | no error iff the value is non-nil and of kind Array, Chan, Map, Slice or String, and then the length is the value's length (never negative); nil gives 0 and UnexpectedNilValue; any other kind gives -1 and UnsupportedValueType holding the value |
| Reflect.CheckEmpty | pkg/experimental/reflect/reflect.go:34-45 | Len's error is passed on unchanged; otherwise UnexpectedEmptyValue iff the length is 0, and no error for a positive length |
| Reflect.CheckEmptyPasses | pkg/experimental/reflect/reflect.go:34-75 | CheckEmpty passes exactly the non-nil values of a kind with a length whose length is positive |
| Reflect.ErrorMessages | pkg/experimental/reflect/reflect.go:11-29 | the texts `nil value` and `empty value`, and `unsupported type of '<type>' with value '<value>'` for any kind without a length |
| Renderer.Apply | pkg/renderer/render.go:57-76 | WithParameters, WithOptions and WithDelim each overwrite their own fields and leave the others alone; any other configurator makes its own change (the definition of each setter; properties in ApplyAllKeeps, LastSetterWins) |
| Renderer.ApplyAll | pkg/renderer/render.go:45-49 | the configurators applied one after the other in argument order (properties in ApplyAllAppend, ApplyAllKeeps, LastSetterWins) |
| Renderer.FirstBadOption | pkg/renderer/render.go:121-131 | the complaint about the first option that is neither `missingkey=error` nor `missingkey=invalid` (properties in FirstBadOptionNone, FirstBadOptionNames) |
| Renderer.Validation | pkg/renderer/render.go:109-133 | Validate's verdict: nil parameters, then an empty left delimiter, then an empty right one, then the options (properties in ValidationRules) |
| Renderer.Renderer.constructor | pkg/renderer/render.go:30-42 | the configuration is the defaults with the configurators applied in order |
| Renderer.Renderer.Reconfigure | pkg/renderer/render.go:45-49 | the configuration becomes the old one with the configurators applied in argument order |
| Renderer.Renderer.Validate | pkg/renderer/render.go:109-133 | the checking loop reports exactly Validation(config) |
| Renderer.Renderer.NamedRender | pkg/renderer/render.go:92-106 | an invalid configuration yields `""` and the validation error before the template engine is consulted; otherwise the engine's output, or `""` and the engine's error |
| Renderer.Renderer.Render | pkg/renderer/render.go:87-89 | NamedRender under the name `nameless` |
| Renderer.ApplyAllAppend | pkg/renderer/render.go:45-49 | configuring in two steps is configuring once with both lists, in order |
| Renderer.ApplyAllKeeps | pkg/renderer/render.go:57-76 | a field that neither a setter nor a custom configurator in the list sets keeps its value |
| Renderer.LastSetterWins | pkg/renderer/render.go:45-76 | for each field, the last setter that sets it decides its value, provided no custom configurator follows it |
| Renderer.FirstBadOptionNone | pkg/renderer/render.go:121-131 | the options pass iff each is `missingkey=error` or `missingkey=invalid` |
| Renderer.FirstBadOptionNames | pkg/renderer/render.go:121-131 | a failing option check names the first option that is not a known one |
| Renderer.ValidationRules | pkg/renderer/render.go:109-133 | validation passes iff the parameters are there, both delimiters are non-empty and every option is known; nil parameters are reported first, then an empty left delimiter, then an empty right one |
| Renderer.UnexpectedOptionText | pkg/renderer/render.go:126-129 | the complaint reads `unexpected option: '<o>', option must be in: 'missingkey=invalid, missingkey=error'` |
| Renderer.ZeroOptionRejected | pkg/renderer/config/config.go:11 | `missingkey=zero`, an option text/template knows, is the option reported after a known one |
| Renderer.DefaultsValidate | pkg/renderer/render_test.go:63-69 | the default configuration (empty parameters, `missingkey=error`, `{{` and `}}`) passes validation |
| StringOps.HasPrefix | pkg/ignore/rules/simple/simple.go:30 | strings.HasPrefix: `s` begins with the prefix (a one-character prefix is tested in HasPrefixChar) |
| StringOps.HasSuffix | pkg/ignore/rules/simple/simple.go:31 | strings.HasSuffix: `s` ends with the suffix (HasSuffixChar for one character) |
| StringOps.HasPrefixChar | pkg/ignore/rules/simple/simple.go:30 | a one-character prefix test is a test of the first character |
| StringOps.HasSuffixChar | pkg/ignore/rules/simple/simple.go:31 | a one-character suffix test is a test of the last character |
| StringOps.Count | pkg/ignore/rules/simple/simple.go:35 | strings.Count for a one-character separator (related to Split in CountSplit) |
| StringOps.CountSplit | pkg/ignore/rules/simple/simple.go:35 | a string has one more piece than it has separators |
| StringOps.Trim | pkg/ignore/rules/simple/simple.go:38 | strings.Trim with a one-character cutset (properties in TrimFrames) |
| StringOps.TrimFrames | pkg/ignore/rules/simple/simple.go:38 | Trim keeps a slice of `s` with only copies of the cut character around it and none at its ends |
| StringOps.TrimSpace | pkg/ignore/rules/simple/simple.go:54 | strings.TrimSpace (properties in TrimSpaceFrames) |
| StringOps.TrimSpaceFrames | pkg/ignore/rules/simple/simple.go:54 | TrimSpace keeps a slice of `s` with only white space around it and none at its ends |
| StringOps.TrimPrefix | pkg/ignore/rules/simple/simple.go:62 | strings.TrimPrefix: the prefix is removed once when present, otherwise `s` is unchanged |
| StringOps.TrimSuffix | pkg/files/files.go:137 | strings.TrimSuffix: the suffix is removed once when present, otherwise `s` is unchanged |
| StringOps.Split | pkg/ignore/rules/simple/simple.go:116 | strings.Split with a one-character separator: never an empty list |
| StringOps.SplitPieces | pkg/ignore/rules/simple/simple.go:116 | no piece of a split holds the separator |
| StringOps.Join | pkg/ignore/rules/simple/simple.go:122 | strings.Join with a one-character separator (the inverse of Split in JoinSplit and SplitJoin) |
| StringOps.JoinSplit | pkg/ignore/rules/simple/simple.go:116-122 | joining the pieces of a split gives the string back |
| StringOps.SplitJoin | pkg/ignore/rules/simple/simple.go:116-122 | splitting a join of separator-free pieces gives the pieces back |
| StringOps.Ext | pkg/files/files.go:138 | filepath.Ext: a suffix of the path that starts at a `.` and holds no other `.` nor any `/`, and is empty only when the final element has no `.` |

## Left out

- Strings are sequences of Unicode code points, not UTF-8 bytes. Go's `len`, `s[:max]` and the reflect length of a string count bytes, so Ellipsis, Len and the trimming functions agree with Go only on ASCII text.
- `filepath.Match` (used by `mustMatch` and `validateMatch`) is not modelled. The glob engine is a parameter: a match predicate and a well-formedness predicate. Its only error is taken to be `ErrBadPattern`. `GlobMatch` is a simplified `*`/`?` stand-in, without character classes or escapes, used only by the concrete examples.
- The glob parameter carries an assumption: `wellFormed(p)` means that matching `p` against any name reports no error. `validateMatch` tries the pattern only against `""`, and before Go 1.16 `filepath.Match` could stop on an empty name without reading the rest of the pattern. Under such a Go, Parse accepts a pattern like `[`, and `mustMatch` then panics when the rule is matched.
- IgnoreRules.RuleMatches: the panic of `mustMatch` on a glob error is not modelled; the match predicate always gives an answer.
- The `log.Printf` calls in `ruleSet.match` and `rule.match` are output only and are left out.
- IgnoreRules.Parse: the model splits the reader's content at `\n` and does not model `bufio.Scanner` itself.
  - The scanner also drops a trailing `\r` and does not report the empty text after a final newline. Both are removed or skipped by TrimSpace and the empty-line test, so the rules Parse returns are the same.
  - The scanner's 64 KiB token limit and read errors are not modelled. Parse never asks the scanner for its error, so in Go an over-long line or a read error just ends the loop: Parse returns the rules read so far and no error. The model always reads the whole content.
- `pkg/ignore/ignore.go` (the `filepath.Rel` wrapper that makes paths relative) is not part of this model. The rules are matched on already-relative paths.
- `FloatNode.String` uses Go's `%f` float formatting and is left out. The `String` of a float node is not defined in the model, and float64 values are modelled as `real`.
- The JSONPath lexer, parser and evaluator are not part of this model.
- `ArrayNode.String` formats its params with `%v` (node.go:166), which the model writes out as Go prints a `[3]ParamsEntry`. `FilterNode.String` formats its operands with `%s` (node.go:187), which calls `ListNode.String` and so prints the bare name `NodeList` for each operand. Only the property that a rendering starts with its type name is proved about these two kinds.
- Stack capture and formatting in `pkg/errors` are not modelled: `Callers`, `StackTrace`, `Format` and the `%+v` output.
- `fmt.Sprintf`/`fmt.Errorf` formatting is taken as already applied: Wrapf and Errorf receive the formatted text.
- An error of another package is modelled by its text and its optional Cause method (the `Foreign` variant).
- The `%s`/`%+v` renderings of a reflect value's type and contents are given strings in the model (`typeName`, `rendered`).
- Renderer.Apply: a configurator is applied to a `Config` value. Go's `WithParameters` and `WithOptions` store the caller's map and slice by reference, so a later change the caller makes to them reaches the renderer. The model copies values, so that aliasing is not captured. Arbitrary configurators are the `Custom` variant, which the model applies as a function from the old configuration to the new one.
- Template parsing and execution (`Parse`, `Execute` of text/template) in `render.go` are modelled only as the `Engine` parameter of NamedRender.
  - This covers the extra template functions, `WithFunctions` and the `ExtraFunctions` field.
  - Template parameter values are modelled as strings.
- `Configuration()` is a getter of the `config` field; the model reads the field directly.
- `ReadInput`, `WriteOutput`, `CheckNotEmptyAndExists`, `Pwd` and `DirTree` in `pkg/files/files.go` do file-system or process I/O and are not modelled. Only the shape of the entries DirTree builds is used, in `WellFormed`.
- `ToAbsPath` is not modelled. It is a pure path helper over `filepath.IsAbs` and `filepath.Join`, and modelling it would need `filepath.Clean`, which Join applies to its result.
- `filepath.Ext` is modelled for Unix paths (separator `/`).
- `strings.TrimSpace` follows the Unicode White_Space code points, without decoding invalid UTF-8.
- Check.IsValidJavaScriptIdentifier: the regular expression engine behind `matcher.Must` is not modelled. The pattern is read as character classes and cross-checked against an automaton.
- Strings.Ellipsis: its requires excludes the inputs on which Go panics: max <= 4 with max negative or larger than the string, for example `Ellipsis("ab", 3)`. EllipsisAsWritten makes that panic explicit (see Findings).
- Errors.Cause: a Dafny datatype cannot hold a cyclic chain, so the model's loop always ends. The Go loop runs forever on an error whose `Cause()` returns itself or an earlier link of its chain.

## Findings

| source | as written | input that shows it | evidently intended | confidence | as-written member | corrected member |
|---|---|---|---|---|---|---|
| pkg/strings/strings.go:5-6 | for max <= 4 the string is cut with `s[:max]` before its length is compared with max | `Ellipsis("ab", 3)` panics with an out-of-range slice | a string that already fits is returned unchanged, whatever max is | medium, not executed | Strings.ShortStringPanics | Strings.EllipsisFixed |
| pkg/ignore/rules/simple/simple.go:33-36 | a relative pattern's depth counts every `/` of the untrimmed pattern, including the trailing one that marks a directory rule | the rule `dir/` does not match the directory `a/dir`, because its target is the last two segments `a/dir`, not `dir` | the trailing `/` only restricts the rule to directories (directory patterns, doc.go line 8) and adds no segment | medium, not executed | IgnoreRules.NestedDirRuleMissed | IgnoreRules.ParseRuleIntended |

