# The autocomplete prompt of solid-cli, in Dafny

This project models the interactive multi-select prompt of solid-cli. The user browses a list of
labelled options, switches to a filter mode with `/`, types a fuzzy query (or a `group/word` query),
jumps to an option with `:<number>`, toggles options with tab, and sees a frame that is redrawn after
each event. Three source files make up the modelled core:

- `autocomplete.ts`. The matcher (`buildRegex`, `search`) and the group sort (`sortByGroup`) live in
  module `Matching` (matching.dfy). The prompt object `AutocompleteText` and its event handlers live in
  module `Prompt` (prompt.dfy). The object is a class whose fields the handlers update.
- `render.ts`. One frame is modelled in module `Render` (render.dfy): `opt`, `selected`,
  `generateOptions` and the frame layout of `render`. `generateOptions` is a loop that carries the set of
  groups seen so far.
- `builder.ts`. The string helpers `s`, `b`, `t`, `when`, `x` and `ct` are modelled in module `Builder`
  (builder.dfy). The chained builder returned by `t` is a class with one text field.

Two more files hold shared vocabulary. seqs.dfy has subsequences, `filter` and `join`; wrappers.dfy has
`Option`.

Terminal text is a sequence of glyphs. A glyph is a character, a symbol from the prompt's symbol table,
or an opening or closing colour tag. A picocolors colour function wraps its argument in a tag pair.
`Strip` removes the tags, leaving what the user reads. Most contracts about the frame are statements
about `Strip`.

## Model

| member | source | states |
|---|---|---|
| Builder.Paint | packages/core/src/components/builder.ts:99-103 | applying a colour function never changes what the text reads |
| Builder.X | packages/core/src/components/builder.ts:93-95 | `x()` is empty, `x(a)` is `a`, and `x(a, b)` is `a` followed by `b` |
| Builder.XAppend | packages/core/src/components/builder.ts:93-95 | `x` of two argument lists put together is `x` of the first followed by `x` of the second |
| Builder.Ct | packages/core/src/components/builder.ts:97-105 | `ct` reads as its arguments joined; with a name that is not a colour function it returns the joined string unchanged |
| Builder.CtJoinsFirst | packages/core/src/components/builder.ts:98-104 | `ct` joins its arguments before colouring: colouring the arguments equals colouring their join, once |
| Builder.S | packages/core/src/components/builder.ts:10-18 | `s` reads as its string followed by one newline exactly when `nl` is set |
| Builder.SNewline | packages/core/src/components/builder.ts:17 | `s` with `nl` is `s` without it plus one newline; without a colour and `nl` it returns the string unchanged |
| Builder.B | packages/core/src/components/builder.ts:22-39 | `b` (corrected form) reads as the joined pieces followed by a newline exactly when the flag in force is set; with a boolean second argument it returns the joined pieces and that newline |
| Builder.BAsWritten | packages/core/src/components/builder.ts:22-39 | as written, `b` gives what the corrected form gives in every case but one: an array with a boolean second argument gives the pieces joined by commas, then a newline exactly when the flag is set |
| Builder.BAsWrittenJoinsWithCommas | packages/core/src/components/builder.ts:27-31 | as written, `b(["a","b"], true)` gives `a,b` and a newline, where the corrected form gives `ab` and a newline |
| Builder.When | packages/core/src/components/builder.ts:84-91 | `when` gives the fallback for a falsy condition, the value when given a value, and the function applied to the condition when given a function |
| Builder.Pick | packages/core/src/components/builder.ts:84-91 | `when` on a boolean with plain values chooses the first value exactly when the condition holds |
| Builder.Spaces | packages/core/src/components/builder.ts:59-62 | `" ".repeat(n)`, which the builder's `.space(n)` appends and render.ts:34 also uses, is n characters, all spaces |
| Builder.TextBuilder.constructor | packages/core/src/components/builder.ts:41-42 | `t(str)` starts from `str`, or from the empty string when `str` is absent |
| Builder.TextBuilder.P | packages/core/src/components/builder.ts:47-54 | `.p(color)` colours the accumulated text when the name is a colour function, leaves it otherwise, keeps what it reads and returns the same builder |
| Builder.TextBuilder.Nl | packages/core/src/components/builder.ts:55-58 | `.nl()` appends exactly one newline and returns the same builder |
| Builder.TextBuilder.Space | packages/core/src/components/builder.ts:59-62 | `.space(n)` appends exactly n spaces (one by default) |
| Builder.TextBuilder.C | packages/core/src/components/builder.ts:63-73 | `.c` appends `whenTrue` exactly when the condition holds and `fallback` otherwise |
| Builder.TextBuilder.T | packages/core/src/components/builder.ts:74-77 | `.t(s)` appends `s` |
| Builder.TextBuilder.Print | packages/core/src/components/builder.ts:78-80 | `.print()` returns the accumulated text and changes nothing |
| Builder.BuilderChain | packages/core/src/components/builder.ts:41-82 | a chain of builder calls accumulates its pieces in call order |
| Matching.Lower | packages/core/src/components/autocomplete/autocomplete.ts:33 | lowercasing keeps the length and lowercases each character |
| Matching.BuildRegex | packages/core/src/components/autocomplete/autocomplete.ts:10-20 | the loop builds `.*` followed by each query character and `.*` |
| Matching.ScatterSnoc | packages/core/src/components/autocomplete/autocomplete.ts:13-15 | one more loop step appends the next character and `.*` to the pattern |
| Matching.TokenizeScatter | packages/core/src/components/autocomplete/autocomplete.ts:14-19 | the built pattern reads as a leading `.*`, then each query character's token followed by `.*` |
| Matching.MatchAtScatter | packages/core/src/components/autocomplete/autocomplete.ts:32-33 | anchored at the start, the scatter pattern of a query of ordinary characters (no regular-expression metacharacter) matches a one-line text exactly when the query is a subsequence of it |
| Matching.MatchesIsSubsequence | packages/core/src/components/autocomplete/autocomplete.ts:36-38 | `buildRegex(q).test(s)` holds exactly when `q` is an ordered subsequence of `s`, for a query of ordinary characters (no regular-expression metacharacter) and a one-line text |
| Matching.MatchesEmpty | packages/core/src/components/autocomplete/autocomplete.ts:17-19 | the pattern of the empty query matches every text |
| Matching.MatchesStopsAtLineBreak | packages/core/src/components/autocomplete/autocomplete.ts:14 | `.` does not cross a line break: "ab" is a subsequence of "a\nb" but does not match it |
| Matching.WordRun | packages/core/src/components/autocomplete/autocomplete.ts:23 | `\w+` takes the longest run of word characters |
| Matching.ParseGroupFrom | packages/core/src/components/autocomplete/autocomplete.ts:23 | the leftmost match: it starts at the first position from which a word run reaching a `/` begins, and no earlier position starts one; the first capture is that whole run of word characters; the second is the longest run of word characters right after the `/`, or absent when none follows; there is no match exactly when no position starts one; both captures are non-empty runs of word characters |
| Matching.ParseGroupFromFinds | packages/core/src/components/autocomplete/autocomplete.ts:23 | the group pattern matches from a position exactly when a `/` after it follows a word character |
| Matching.ParseGroupIffSlashAfterWord | packages/core/src/components/autocomplete/autocomplete.ts:23-25 | a query is a group query exactly when it has a `/` right after a word character |
| Matching.ParseGroupExamples | packages/core/src/components/autocomplete/autocomplete.ts:23-30 | "g1/" is group g1 with no word, "g1/b" is group g1 with word b, and "/x" is no group query |
| Matching.Search | packages/core/src/components/autocomplete/autocomplete.ts:22-39 | the result of `search` is always a subsequence of its input (some of the options, in input order), and the empty query returns the input unchanged |
| Matching.SearchPlainQuery | packages/core/src/components/autocomplete/autocomplete.ts:36-38 | without group syntax, an option is kept exactly when the pattern matches its lowercased label, or its value when it has no label |
| Matching.SearchLiteralQuery | packages/core/src/components/autocomplete/autocomplete.ts:32-38 | for a query of ordinary characters without group syntax, an option with one-line text is kept exactly when the query is an ordered subsequence of its lowercased text |
| Matching.SearchGroupQuery | packages/core/src/components/autocomplete/autocomplete.ts:25-33 | with `word/` an option is kept exactly when its group contains `word`; with `word/sub`, also when `sub` matches its lowercased text |
| Matching.SearchGroupSubIsSubsequence | packages/core/src/components/autocomplete/autocomplete.ts:28-33 | with `word/sub`, an option with one-line text is kept exactly when its group contains `word` and `sub` is a subsequence of its lowercased text |
| Matching.SortByGroup | packages/core/src/components/autocomplete/autocomplete.ts:41-49 | `sortByGroup` returns the same options (as a multiset) with every ungrouped option before every grouped one |
| Prompt.CursorUp | packages/core/src/components/autocomplete/autocomplete.ts:172-175 | on a non-empty list, up/left stays in range and is undone by one step forward (it wraps from 0 to the last index) |
| Prompt.CursorDown | packages/core/src/components/autocomplete/autocomplete.ts:176-179 | on a non-empty list, down/right stays in range and is one step forward modulo the length |
| Prompt.CursorMovesUndo | packages/core/src/components/autocomplete/autocomplete.ts:171-179 | in range, a step down undoes a step up and the other way round |
| Prompt.CursorOnEmptyList | packages/core/src/components/autocomplete/autocomplete.ts:174-178 | on an empty list the moves are unguarded: up from 0 gives -1 and down gives 1 |
| Prompt.MoveCursor | packages/core/src/components/autocomplete/autocomplete.ts:169-179 | from an in-range cursor, every key leaves the cursor in range; down/right is one step forward modulo the length, and up/left is undone by that step; any other key keeps the cursor |
| Prompt.Toggle | packages/core/src/components/autocomplete/autocomplete.ts:79-86 | toggling flips whether some entry has the option's value; an entry of another value stays, with as many copies as before; an absent value is appended at the end; removal keeps the remaining order |
| Prompt.ToggleTwice | packages/core/src/components/autocomplete/autocomplete.ts:79-86 | toggling an unselected value twice restores the selection |
| Prompt.TabToggle | packages/core/src/components/autocomplete/autocomplete.ts:192-199 | tab (corrected form) leaves the selection alone when no option is focused; otherwise it flips whether some entry has the focused value, keeps every entry of another value with all its copies, appends an absent focused option at the end and keeps the order on removal |
| Prompt.TabToggleTwice | packages/core/src/components/autocomplete/autocomplete.ts:192-199 | tab twice on an unselected focused option restores the selection |
| Prompt.FindByValueFinds | packages/core/src/components/autocomplete/autocomplete.ts:194 | `find` by value succeeds exactly when some entry (possibly `undefined`) has the value sought, and the entry it returns has that value |
| Prompt.TabAsWritten | packages/core/src/components/autocomplete/autocomplete.ts:192-199 | as written: with the cursor outside a non-empty list tab appends `undefined`; a focused option whose value no entry has is appended; otherwise exactly the entries that are not the focused object itself remain, in order and with all their copies |
| Prompt.TabAsWrittenKeepsEqualValuedEntry | packages/core/src/components/autocomplete/autocomplete.ts:194-196 | as written, a selected object with the focused option's value but another identity is found and not removed |
| Prompt.TabAsWrittenAppendsUndefined | packages/core/src/components/autocomplete/autocomplete.ts:193-198 | as written, a cursor past the end of a one-option list makes tab append `undefined` |
| Prompt.TabAsWrittenEmptyList | packages/core/src/components/autocomplete/autocomplete.ts:198 | as written, tab on an empty list keeps every selection as it is, including one that holds `undefined` |
| Prompt.CursorViewReads | packages/core/src/components/autocomplete/autocomplete.ts:126-132 | the text with its cursor (corrected form) reads as the text, plus an underscore when the cursor is at the end |
| Prompt.CursorViewAsWritten | packages/core/src/components/autocomplete/autocomplete.ts:126-132 | as written, the text reads as itself and an underscore when the cursor is at the end, and otherwise as itself followed once more by everything after the character under the cursor |
| Prompt.CursorViewAsWrittenRepeats | packages/core/src/components/autocomplete/autocomplete.ts:129-131 | with the cursor on "b" of "abc", the code as written shows "abcc" and the corrected form shows "abc" |
| Prompt.DigitRun | packages/core/src/components/autocomplete/autocomplete.ts:134 | `\d+` takes the longest run of digits: every character taken is a digit, and the run ends at the end of the text or at a non-digit |
| Prompt.IndexSelectorFromFinds | packages/core/src/components/autocomplete/autocomplete.ts:134 | `:(\d+)` matches from a position exactly when a later `:` is followed by a digit |
| Prompt.IndexSelector | packages/core/src/components/autocomplete/autocomplete.ts:134 | `value.match(/:(\d+)/)` succeeds exactly when some `:` is followed by a digit |
| Prompt.IndexSelectorValue | packages/core/src/components/autocomplete/autocomplete.ts:134-151 | the index jumped to is the decimal value of the whole digit run after the first `:` that is followed by a digit |
| Prompt.JumpDigits | packages/core/src/components/autocomplete/autocomplete.ts:134-151 | ":3" jumps to 3 and ":9" to 9 |
| Prompt.StagingIsSearch | packages/core/src/components/autocomplete/autocomplete.ts:138-145 | the trailing-`:` view is the search by the text before the colon, sorted; it holds only options of the list |
| Prompt.FindStrictOutcome | packages/core/src/components/autocomplete/autocomplete.ts:81 | `find` with a callback reading `.value` throws on any non-empty selection when the option under the cursor is `undefined`; with a defined option it never throws on a selection without `undefined`, and it finds an entry exactly when one has the value; it misses only on a selection without `undefined` |
| Prompt.ToggleAsWritten | packages/core/src/components/autocomplete/autocomplete.ts:79-86 | as written, on a selection that may hold `undefined`: `toggleValue` throws exactly when the cursor is outside the list and the selection is not empty, or the cursor is inside and some entry is `undefined`, and the selection then stays; an empty selection with the cursor outside becomes exactly [undefined]; otherwise it toggles the focused option |
| Prompt.ToggleAsWrittenAppendsUndefined | packages/core/src/components/autocomplete/autocomplete.ts:79-85 | as written, tab with nothing selected on an empty list, or past the end of a one-option list, gives the selection [undefined] and no error; a toggle on an option of the list then throws |
| Prompt.AutocompleteText.constructor | packages/core/src/components/autocomplete/autocomplete.ts:88-95 | the initial fields: the first call of the options thunk as the options and the value, the second call as the filtered list, no selection, cursor 0, explore mode |
| Prompt.AutocompleteText.Refresh | packages/core/src/components/autocomplete/autocomplete.ts:97-104 | the effect stores one call of the options thunk and filters another by the lowercased text, sorted by group; the filtered list holds only options of that call |
| Prompt.AutocompleteText.OnValue | packages/core/src/components/autocomplete/autocomplete.ts:116-168 | in explore mode a trailing `/` clears the text and enters search mode and any other text changes nothing else; in search mode the text is stored with its cursor view and the list, cursor and state follow the search handler |
| Prompt.AutocompleteText.OnSearchValue | packages/core/src/components/autocomplete/autocomplete.ts:125-167 | a trailing `:` shows the staging view and keeps cursor and state; an index past the end of a list of two or more sets the error state and keeps the cursor, any other index moves the cursor there; other text re-filters and resets the cursor to 0 exactly when the list length changes |
| Prompt.AutocompleteText.ToggleValue | packages/core/src/components/autocomplete/autocomplete.ts:79-86 | toggles the option under the cursor; a cursor outside the list throws exactly when the selection is not empty (the outcome the code as written gives) and leaves the selection as it is |
| Prompt.AutocompleteText.OnCursor | packages/core/src/components/autocomplete/autocomplete.ts:169-184 | up/left and down/right wrap and keep an in-range cursor in range, `/` in explore mode is ignored, tab toggles (and throws for a cursor outside the list only when something is selected), other keys change nothing |
| Prompt.AutocompleteText.CustomKeyPress | packages/core/src/components/autocomplete/autocomplete.ts:188-208 | k/j/h/l move the cursor in explore mode only, tab toggles the focused option, escape returns to explore mode |
| Prompt.AutocompleteText.Finalize | packages/core/src/components/autocomplete/autocomplete.ts:108-114 | an empty text falls back to the default; the text moves to `valueWithCursor` and the value becomes the selection |
| Prompt.QueryHidesOther | packages/core/src/components/autocomplete/autocomplete.ts:162 | the query "a" hides the option "b" |
| Render.BarLine | packages/core/src/components/autocomplete/render.ts:109-116 | a new line, the cyan bar, then the text |
| Render.HintText | packages/core/src/components/autocomplete/render.ts:12 | the hint reads in parentheses when present and not empty, and is nothing otherwise |
| Render.OptText | packages/core/src/components/autocomplete/render.ts:6-23 | `opt` reads as the checkbox of the state and the label (the value without one), with a space and the hint only in the two active states, and the label alone when submitted or cancelled |
| Render.Marked | packages/core/src/components/autocomplete/render.ts:12-22 | a coloured checkbox, a space, the label and what follows read in that order |
| Render.HintOnlyWhenActive | packages/core/src/components/autocomplete/render.ts:13-22 | outside the two active states, the hint does not change what an option reads |
| Render.VisualStateOf | packages/core/src/components/autocomplete/render.ts:69-70 | selected wins over active, active over inactive; no other state is produced |
| Render.SelectedText | packages/core/src/components/autocomplete/render.ts:48-51 | "Nothing Selected" for an empty selection, otherwise the labels (or "") in selection order joined by single spaces |
| Render.Show | packages/core/src/components/autocomplete/render.ts:82 | `String(i)` is the decimal digits of `i` with no leading zero (a single `0` for 0, and a first digit other than `0` otherwise), and reading them back gives `i` |
| Render.ShownIndexJumps | packages/core/src/components/autocomplete/render.ts:82 | typing `:` and the number shown in front of an option selects that index |
| Render.SpacingAligns | packages/core/src/components/autocomplete/render.ts:72 | below 100, the number and the gap after it take three columns |
| Render.WindowStart | packages/core/src/components/autocomplete/render.ts:55 | the window starts at 0 up to cursor 11, and ends at the cursor after that |
| Render.GroupView | packages/core/src/components/autocomplete/render.ts:74-77 | nothing for a seen group or no group; the group name on its own line and an indent line for a new non-empty group; only the indent line for the empty group |
| Render.HeaderReads | packages/core/src/components/autocomplete/render.ts:75 | the group header reads as a new line, the bar and the group name |
| Render.IndentReads | packages/core/src/components/autocomplete/render.ts:76 | the indent line reads as a new line, the bar and two spaces |
| Render.SeenGroupsMembers | packages/core/src/components/autocomplete/render.ts:62-65 | after walking `i` options, the set holds exactly the non-empty groups of the earlier options inside the window |
| Render.HasIffEarlier | packages/core/src/components/autocomplete/render.ts:62 | inside the window, `has` holds exactly when an earlier option of the window has the same non-empty group |
| Render.OptionLine | packages/core/src/components/autocomplete/render.ts:79-84 | an option's line reads as its group view, its index, a colon, the gap and the option in its state |
| Render.Window | packages/core/src/components/autocomplete/render.ts:59 | the window of the first `i` entries holds as many entries as indices of the window below `i` |
| Render.WindowSlice | packages/core/src/components/autocomplete/render.ts:57-59 | the entries that the window test (index from `start` to `start + 11`) keeps are the slice from `start` of at most twelve entries, in order |
| Render.GenerateOptions | packages/core/src/components/autocomplete/render.ts:53-87 | the loop over the list with the seen-group set yields exactly the lines of the options in the window, in list order |
| Render.WindowHoldsCursor | packages/core/src/components/autocomplete/render.ts:55-59 | the lines returned are exactly the lines of the consecutive options from the window start, at most twelve, in list order; the line of the option under an in-range cursor is among them, at its offset from the window start |
| Render.HeaderOncePerGroup | packages/core/src/components/autocomplete/render.ts:62-77 | inside the window, a grouped option has a group view exactly when no earlier option of the window has its group |
| Render.Placeholder | packages/core/src/components/autocomplete/render.ts:101-105 | the placeholder (corrected form) reads as itself, or as an underscore when there is none |
| Render.PlaceholderAsWrittenRepeats | packages/core/src/components/autocomplete/render.ts:102 | as written, the placeholder "ab" reads "abb"; the corrected form reads "ab" |
| Render.PlaceholderAsWritten | packages/core/src/components/autocomplete/render.ts:101-105 | as written, a placeholder reads as itself followed by itself without its first character; with none, an underscore |
| Render.FilterEchoesLine | packages/core/src/components/autocomplete/render.ts:107 | in search mode the filter line echoes the typed text (with the end-of-text mark), and shows the placeholder while the text is empty |
| Render.FilterValue | packages/core/src/components/autocomplete/render.ts:107 | nothing when the value is not a string; the placeholder, or an underscore, for the empty string; otherwise the drawn text with its cursor |
| Render.PromptReads | packages/core/src/components/autocomplete/render.ts:113 | the cyan prompt and its caption read one after the other |
| Render.FilterLine | packages/core/src/components/autocomplete/render.ts:113 | the filter line reads `? Filter: `, the value and a new line |
| Render.FilterSection | packages/core/src/components/autocomplete/render.ts:113 | the filter line appears in search mode only |
| Render.ListSection | packages/core/src/components/autocomplete/render.ts:114 | "No Results" for an empty list; otherwise the lines of the window joined by a new line, the bar and an indent |
| Render.Instructions | packages/core/src/components/autocomplete/render.ts:117 | the search help in search mode and the browse help otherwise |
| Render.SelectedLine | packages/core/src/components/autocomplete/render.ts:111 | the first line reads the selected checkbox, " Selected Packages: " and the selection |
| Render.ListLine | packages/core/src/components/autocomplete/render.ts:114 | the list line reads an indent followed by the list |
| Render.Frame | packages/core/src/components/autocomplete/render.ts:109-118 | the frame reads six bar lines (selection, a blank, the filter, the list, two empty ones) and then the key help between new lines |
| Render.Render | packages/core/src/components/autocomplete/render.ts:98-119 | the frame reads: a new line, the bar, the selected checkbox, " Selected Packages: " and the selection; a bar and a space; a bar and the filter section; a bar, an indent and the list; two bars; the key help of the mode between new lines |

## Left out

- The base prompt class of `@clack/core` is not part of this model. It stores the typed line in `value`
  and tracks the text cursor before each value event, so both are parameters of `OnValue`. Its event
  emission, its own key handling (arrow keys reach `OnCursor` through it), `rl.clearLine`, rendering and
  promise resolution are left out.
- The reactive effect runs its body on creation and on every change it tracks. `Refresh` models one run
  of the body. Scheduling and the call to `render` are left out.
- `autocomplete` (autocomplete.ts:211-223) builds and runs the prompt, which is I/O. The scenario methods
  start from a prompt in a given state.
- The order in which listeners see a tab key is left out. `CustomKeyPress` models the raw listener alone.
- `getTerminalSize` reads the terminal and is never used. The module-level `call` cache binds to the
  first prompt it sees. The symbol table (utils.ts) is not part of this model. Its symbols are opaque
  glyphs.
- picocolors' escape codes are not modelled. A colour is an opaque tag pair; `Palette` lists the colour
  functions picocolors exports.
- `join` and `w` are imported from builder.ts but not defined there. The model takes `join` to be
  concatenation and `w` to call its thunk.
- Matching.Tokenize: only `.` and `.*` are read as regular-expression syntax. Any other metacharacter in a
  query (`*`, `(`, `+`, ...) is read as a literal, so a query that would change meaning or throw in
  JavaScript is not modelled faithfully. The subsequence lemmas are proved for every query without `.`,
  but they describe JavaScript only for queries of ordinary characters, with none of `.*+?()[]{}|^$\`.
- Matching.Lower: lowercases ASCII letters only. JavaScript's `toLowerCase` also maps other Unicode
  letters. Strings are sequences of characters, not UTF-16 code units.
- Matching.SortByGroup: the comparator answers -1 for two ungrouped options in either order, so their
  final order depends on the engine's sort. The model keeps input order, and the contract promises only
  the same options with every ungrouped one first.
- Prompt.DigitsValue: `Number` of a long digit run loses precision beyond 2^53; the model keeps the
  exact value.
- Option values are strings. The source allows any value but lowercases it and compares it with `===`.
- `opt` takes `String(option.value)` as the label. With string values this is the value itself.
- Render.FilterValue shows nothing once `value` is no longer a string. That holds for the option list set
  by the constructor and for `undefined`.
- Render.VisualStateOf: `generateOptions` never produces `active-selected`, `submitted` or `cancelled`.
  `OptText` still models all six states of `opt`.
- OnSearchValue: draws the text with its cursor through the corrected `CursorView` (see "## Findings",
  autocomplete.ts:131), so a cursor inside the text reads as the text once. `CursorViewAsWritten` models
  the code as written.
- OnValue: goes through `OnSearchValue` in search mode and uses the same corrected cursor view.
- CustomKeyPress: tab uses the corrected `TabToggle` (see "## Findings", autocomplete.ts:193-198 and
  194-196). It toggles by value and leaves the selection alone when no option is focused. `TabAsWritten`
  models the code as written, which removes by reference and can append `undefined`. The class's
  selection holds options only.
- ToggleValue: with nothing selected and no option under the cursor, the code appends `undefined` (see
  "## Findings", autocomplete.ts:79-86). The model gives the same outcome, no error, but keeps the
  selection empty. `ToggleAsWritten` models the code as written.
- OnCursor: its tab path is `ToggleValue`, with the same gap.
- FilterValue: draws the placeholder through the corrected `Placeholder` (see "## Findings",
  render.ts:102). `PlaceholderAsWritten` models the code as written.
- FilterEchoesLine: states the echo for the corrected cursor view and placeholder, the ones the class
  and `FilterValue` use.
- Render: reads the filter section through `FilterValue`, so it shows the corrected placeholder and
  cursor view.
- In four places the code differs from the documented behaviour. Here the model follows the code.
  - Only the first option of a group in the window gets the header and an indent line. Later members get
    nothing.
  - An option whose group is the empty string gets the indent line but no header.
  - On an empty list, up gives cursor -1 and down gives 1; the moves are not no-ops.
  - On a list of at most one option, any index jump moves the cursor, even past the end.

## Findings

| source | as written | input that shows it | evidently intended | confidence | as-written member | corrected member |
|---|---|---|---|---|---|---|
| packages/core/src/components/autocomplete/autocomplete.ts:131 | the text from the cursor on is drawn in reverse video, then drawn again without its first character | text "abc", cursor 1: reads "abcc" | only the character under the cursor in reverse video, so the text reads "abc" | high, not executed | Prompt.CursorViewAsWrittenRepeats | Prompt.CursorViewReads |
| packages/core/src/components/autocomplete/render.ts:102 | the whole placeholder in reverse video, then the placeholder without its first character, dimmed | placeholder "ab": reads "abb" | the first character in reverse video and the rest dimmed, so it reads "ab" | high, not executed | Render.PlaceholderAsWrittenRepeats | Render.Placeholder |
| packages/core/src/components/builder.ts:30 | with a boolean second argument `b` returns the original `str`, not the joined `_str` | `b(["a","b"], true)`: gives "a,b" and a newline | the joined pieces, "ab" and a newline | medium, not executed | Builder.BAsWrittenJoinsWithCommas | Builder.B |
| packages/core/src/components/autocomplete/autocomplete.ts:194-196 | tab finds a selected entry by value but removes entries by reference | selection [object 1 with value "x"], focused object 2 with value "x": the selection stays | remove the entries with that value, as `toggleValue` does | medium, not executed | Prompt.TabAsWrittenKeepsEqualValuedEntry | Prompt.TabToggle |
| packages/core/src/components/autocomplete/autocomplete.ts:193-198 | with the cursor outside a non-empty list, tab appends `undefined` to the selection | one option, `:5` in search mode (cursor 5), then tab: the selection gains `undefined` | leave the selection alone when no option is focused | medium, not executed | Prompt.TabAsWrittenAppendsUndefined | Prompt.TabToggle |
| packages/core/src/components/autocomplete/autocomplete.ts:79-86 | with nothing selected and no option under the cursor, `find` never calls its callback, so nothing throws and `undefined` is appended | empty list (cursor 0), nothing selected, tab: the selection becomes [undefined] | leave the selection alone when no option is focused, as the tab listener does on an empty list | medium, not executed | Prompt.ToggleAsWrittenAppendsUndefined | Prompt.AutocompleteText.ToggleValue |
