# dedent: a verified model

The modelled program is a VS Code extension that turns JSON into Pydantic model
classes. The code generator itself lives in the external npm package
`json-to-pydantic-code-generator` (imported at `src/extension.ts:1-4`), so its
source is not part of this repository. The one piece of self-contained logic
here is the `dedent` template tag in `src/utils/utils.ts`. The tests use it
to write multi-line expected output inline.

`dedent` takes a tagged template call and does five things:

1. It assembles the template: piece 0, value 0, piece 1, value 1, and so on.
   A nullish value contributes nothing.
2. It splits the text on `"\n"`.
3. It finds the least leading-whitespace width over the non-blank lines.
   Width is measured with `\s`, so a tab counts.
4. It removes that many characters from each line that starts with that many
   literal spaces. Every other line is kept as it is.
5. It joins the lines again and trims the result.

The model has three modules:

- `Wrappers` (`wrappers.dfy`): `Option`, used for interpolated values that may
  be nullish.
- `JsText` (`js_text.dfy`): the JavaScript string built-ins that `dedent`
  uses. These are the `\s` class (`IsWs`, the ECMAScript WhiteSpace and
  LineTerminator set) and the width of a `^\s*` match (`LeadingWs`). They
  are also `trim`, `split("\n")`, `join("\n")`, `" ".repeat(n)` and
  `startsWith`. Split and join come with lemmas that make them mutual
  inverses; trim, trimStart and trimEnd with lemmas that say they remove
  exactly the surrounding whitespace; the `^\s*` width with ensures that
  characterise the match. `startsWith`, `join` and `" ".repeat(n)` carry
  only their own ensures.
- `Utils` (`utils.dfy`): `dedent` itself, step by step, and the properties
  proved about it.

A template call is modelled as a sequence of string pieces and a sequence of
`Option<string>` values. `None` stands for `null` or `undefined`; `Some(s)`
stands for a value whose string form is `s`. No length relation is required:
a missing value at position `i` reads as `""`, exactly as `values[i] ?? ""`
does. A real template call has one value fewer than pieces, and
`TemplateEndsWithPiece` states what that means.

## Model

| member | source | states |
|---|---|---|
| `Utils.ValueText` | src/utils/utils.ts:3 | the i-th value is its string when present and `""` when nullish or absent |
| `Utils.Assemble` | src/utils/utils.ts:2-4 | the `reduce` from `""`: no pieces give `""`, the text begins with the first piece, and every partial fold is a prefix of the whole (the fold only appends) |
| `Utils.AssembleIsChunks` | src/utils/utils.ts:2-4 | the left fold over pieces equals the front-to-back reading piece 0, value 0, piece 1, value 1, … |
| `Utils.TemplateEndsWithPiece` | src/utils/utils.ts:2-4 | with one value fewer than pieces, the last piece is followed by nothing |
| `Utils.AssembleSingle` | src/utils/utils.ts:2-4 | a template without interpolations assembles to its one piece |
| `JsText.LeadingWs` | src/utils/utils.ts:16 | the `^\s*` match length: the prefix is all whitespace and is followed by a non-whitespace character or the end |
| `JsText.IsWs` | src/utils/utils.ts:16 | the `\s` class, which is also the set `trim` removes (lines 7 and 24): ECMAScript WhiteSpace and LineTerminator code points |
| `JsText.Split` | src/utils/utils.ts:6 | splitting on `"\n"` gives at least one piece and no piece holds a line break |
| `JsText.Join` | src/utils/utils.ts:23 | `join("\n")`: no lines give `""`, one line gives itself |
| `JsText.JoinEnds` | src/utils/utils.ts:23 | a join of one or more lines starts with the first line, ends with the last, and a separator follows the first line when there is a second |
| `JsText.SplitJoin` | src/utils/utils.ts:6 | splitting the join of one or more line-break-free lines gives back those lines |
| `JsText.JoinSplit` | src/utils/utils.ts:23 | joining the pieces of a split with `"\n"` gives back the string |
| `JsText.AllWsJoin` | src/utils/utils.ts:23 | a join is all whitespace exactly when every line is |
| `JsText.Spaces` | src/utils/utils.ts:21 | `" ".repeat(n)` is n space characters |
| `JsText.TrimStart` | src/utils/utils.ts:24 | `trimStart`: the result is a suffix of the input, everything removed is whitespace, and the result does not start with whitespace |
| `JsText.TrimEnd` | src/utils/utils.ts:24 | `trimEnd`: the result is a prefix of the input, everything removed is whitespace, and the result does not end with whitespace |
| `JsText.TrimStartOfPrefix` | src/utils/utils.ts:24 | a whitespace run in front of text that does not start with whitespace is exactly what `trimStart` removes |
| `JsText.TrimEndOfSuffix` | src/utils/utils.ts:24 | a whitespace run behind text that does not end with whitespace is exactly what `trimEnd` removes |
| `JsText.Trim` | src/utils/utils.ts:24 | `trim`, that is `trimEnd` after `trimStart`: the result is empty exactly when the input is all whitespace, and otherwise starts and ends with non-whitespace |
| `JsText.TrimSurrounded` | src/utils/utils.ts:24 | trimming whitespace + m + whitespace, where m has no surrounding whitespace, gives m |
| `JsText.TrimOfTrimmed` | src/utils/utils.ts:24 | a string without surrounding whitespace is its own trim |
| `JsText.TrimIdempotent` | src/utils/utils.ts:24 | trimming twice is trimming once |
| `Utils.IsBlank` | src/utils/utils.ts:7 | `line.trim() === ""`: a line's trim is empty exactly when the line is all whitespace |
| `Utils.NonBlank` | src/utils/utils.ts:7 | the kept lines are exactly the lines that are not all whitespace, that is whose trim is non-empty, and no line is added |
| `Utils.IndentSize` | src/utils/utils.ts:13-17 | the minimum of the leading-whitespace widths: no line has less, and some line has exactly that |
| `JsText.StartsWith` | src/utils/utils.ts:21 | `startsWith`: the string is at least as long as the prefix, and its leading characters, as many as the prefix has, are those of the prefix |
| `Utils.StripLine` | src/utils/utils.ts:19-21 | a line that starts with n literal spaces loses exactly those spaces; any other line (tab-indented, or shorter than n) is unchanged |
| `Utils.StripAll` | src/utils/utils.ts:19-22 | one output line per split line, each stripped by the per-line rule |
| `Utils.StripKeepsDeeperIndent` | src/utils/utils.ts:21 | a stripped line is the rest after n characters, and its own leading whitespace is exactly n narrower |
| `Utils.StripKeepsContent` | src/utils/utils.ts:21 | stripping never turns a line with content into a blank line |
| `Utils.StripAllZero` | src/utils/utils.ts:19-22 | an indent of zero leaves every line unchanged |
| `Utils.DedentText` | src/utils/utils.ts:6-24 | the result has no leading or trailing whitespace |
| `Utils.Dedent` | src/utils/utils.ts:1-25 | the result of `dedent(strings, ...values)` has no leading or trailing whitespace |
| `Utils.DedentAllBlank` | src/utils/utils.ts:6-11 | when every split line is empty or whitespace only, the result is `""` |
| `Utils.DedentEmptyIff` | src/utils/utils.ts:6-24 | the result is `""` exactly when the assembled text is whitespace only (both directions) |
| `Utils.DedentIndentIsMinimum` | src/utils/utils.ts:13-17 | a non-blank line exists, the stripped width is at most its leading whitespace, and some non-blank line has exactly that width |
| `Utils.DedentUnindented` | src/utils/utils.ts:13-24 | with a non-blank line that starts in column one, the result is exactly the trim of the assembled text |
| `Utils.DedentTextOfTrimmed` | src/utils/utils.ts:6-24 | a text without leading or trailing whitespace is its own dedent |
| `Utils.DedentIdempotent` | src/utils/utils.ts:1-25 | dedenting the output of dedent, as a one-piece template, returns it unchanged |
| `Utils.DedentKeepsTabAfterCommonSpaces` | src/utils/utils.ts:19-24 | a header line and a tab-nested field line behind n common spaces dedent to `head + "\n\t" + field`: the spaces go, the tab stays (a two-line instance of the shape of the tab-indentation test, src/test/extension.test.ts:136-145) |

## Left out

- `src/extension.ts` is left out. It is VS Code glue: command registration, clipboard and selection reading, configuration lookup, editor edits and error notifications. It wraps a call into the external code generator.
- The JSON-to-Pydantic code generator is not part of this model. It is an external npm package whose source is not in this repository. The schema inference, class deduplication, optionality and alias policies and code emission belong to it.
- `src/test/extension.test.ts` drives the extension through the VS Code API. It is used only as evidence of what `dedent` must produce.
- Interpolated values are taken as already converted to strings (`Option<string>`). JavaScript's string conversion of arbitrary values is left out.
- Template pieces are taken as strings. In a tagged template, a piece with an invalid escape sequence has no cooked string. The fold would then insert the text `undefined`, and that case is not modelled.
- Characters are Unicode scalar values, not UTF-16 code units. Every character in the `\s` set is in the Basic Multilingual Plane, so the two views agree, except that lone surrogates cannot be written here.
- `Math.min(...list)` can throw a `RangeError` in some engines when the spread list is extremely long, since there is a limit on the argument count. The model takes the minimum of any number of lines.
