# monique viewer core in Dafny

This project models the core of the monique terminal viewer, a tool that reruns a command and shows its output. The core has four parts:

- the filter, search and highlight engine of the pager;
- its small integer and slice helpers;
- the listener hub that carries process events to the parts that care about them;
- both historical variants of the search engine, which live side by side in the repository.

Modules:

- `Oracles` (oracles.dfy)
  - Go's `regexp` package and lipgloss rendering, as function-valued records.
  - `Engine` is a regexp library whose `FindAllStringIndex` reports sorted, non-overlapping locations inside the searched string. `Compile` answers `None` for an invalid pattern.
  - `Render` draws a text in one of the two styles. `WideningRender` is a rendering that never shortens its text.
- `Lines` (lines.dfy): `strings.Split(s, "\n")` and `strings.Join(lines, "\n")`, with their round trips.
- `Utils` (utils.dfy)
  - `clamp`, `clampLoop` and `max`.
  - `pop` and `push` on a slice reached through a pointer. This is the class `SliceRef`, whose field `items` the methods update.
- `Viewport` (viewport.dfy): the all-in-one viewer of viewport/viewport.go.
  - The field transitions: `updateStrings`, `clearCurrentString`, `blur`, `accept`, `startFilter`, `startSearch`.
  - Navigation between results, through `boundLoop`.
  - `filterContent`.
  - `decorateSearch`, which collects results over every line and rewrites each one in place.
- `Search` (search.go's variant, search.dfy), with its own state record.
  - `search()` over the filtered lines, with numbered results.
  - `searchResultsAtLine` and `hasSearchResults`.
  - `decorateLine`, which shifts each match by the growth of the earlier ones through the `offsets` map.
  - Its navigation methods.
- `Mediator` (mediator.dfy): the class `Mediator`.
  - Its `listeners` field grows through `AddListener`.
  - Every `Send*` runs one loop over it.
  - A `delivered` field logs each callback made: the listener, the callback and the argument.

Go's `model` is a value type.

- A value-receiver method becomes a function from the record to its updated copy.
- A pointer-receiver method becomes a method that takes the record and returns the updated copy together with the method's result. Its loops are kept as loops, and each is proved against a specification function.

Where the code and its comments disagree, the model follows the code. Where the code leaves a value unrepaired, so does the model:

- `clamp`'s comment calls its bounds exclusive; the code treats them as inclusive.
- `search()` only repairs -1 and values that are too large, so a pointer below -1 survives (`Search.SearchActive`).
- `decorateLine` keeps an `offsets` map keyed by line, and the model keeps it (`Search.RenderMatch`).

## Model

| member | source | states |
|---|---|---|
| Utils.Clamp | viewport/utils.go:3-14 | in `[lo, hi]` when `lo <= hi`; an in-range value is unchanged; below goes to `lo`, above to `hi` (bounds inclusive) |
| Utils.ClampLoop | viewport/utils.go:16-27 | in `[lo, hi]` when `lo <= hi`; in-range unchanged; below always wraps to `hi`; a value not below `lo` but above `hi` wraps to `lo` |
| Utils.Max | viewport/utils.go:29-34 | at least both arguments and equal to one of them |
| Utils.SliceRef.Pop | viewport/utils.go:38-47 | empty slice: `None`, slice unchanged; otherwise the last element, and the slice loses exactly that element |
| Utils.SliceRef.Push | viewport/utils.go:50-52 | the items are appended in order; the old elements are an unchanged prefix |
| Utils.PushPop | viewport/utils.go:38-52 | popping right after pushing one item returns it and restores the slice |
| Lines.Split | viewport/viewport.go:477 | `strings.Split` on `"\n"`: at least one piece, none containing a newline |
| Lines.SplitCount | viewport/viewport.go:477 | one piece more than there are newlines |
| Lines.JoinSplit | viewport/viewport.go:540-546 | joining the pieces of a split gives back the string |
| Lines.SplitJoin | viewport/viewport.go:540-546 | splitting a join of newline-free lines gives back those lines |
| Lines.SplitAfterLine | viewport/viewport.go:540-546 | a newline-free head extends the first piece of what follows |
| Lines.SplitAtNewline | viewport/viewport.go:540-546 | a newline-free line followed by a newline is a piece of its own |
| Viewport.NewModel | viewport/viewport.go:96-110 | no content, no strings, no results, active match -1, the input focused in filter mode |
| Viewport.UpdateStrings | viewport/viewport.go:423-435 | filter mode copies the input into `filterString`; search mode copies it into `searchString` and resets the active match to -1 exactly when the value changed; the result is in sync, and the function is the identity exactly on in-sync models |
| Viewport.ClearCurrentString | viewport/viewport.go:410-421 | empties only the current field's string and the input's value; the result is in sync |
| Viewport.Blur | viewport/viewport.go:228-233 | clears the current field and unfocuses the input, nothing else changes |
| Viewport.Accept | viewport/viewport.go:235-239 | only unfocuses the input; keeps a model in sync |
| Viewport.StartFilter | viewport/viewport.go:241-248 | filter mode, the focused input holds `filterString`, the rest is unchanged |
| Viewport.StartSearch | viewport/viewport.go:250-257 | search mode, the focused input holds `searchString`, the rest is unchanged |
| Viewport.HasSearchResults | viewport/viewport.go:395-397 | true exactly when there are results and the active match is not -1 |
| Viewport.Max | viewport/viewport.go:452-457 | at least both arguments and equal to one of them |
| Viewport.BoundLoop | viewport/viewport.go:294-303 | below `lo` always wraps to `hi`; not below `lo` but above `hi` wraps to `lo`, in-range unchanged, in `[lo, hi]` when `lo <= hi` |
| Viewport.NextIndex | viewport/viewport.go:274-282 | one step down: `a - 1` for `0 < a < n`, 0 wraps to `n - 1`, a negative pointer starts from `n - 1`; always in `[0, n)` |
| Viewport.PreviousIndex | viewport/viewport.go:284-292 | one step up: `a + 1` below `n - 1`, `n - 1` and beyond wrap to 0, a negative pointer goes to 0; always in `[0, n)` |
| Viewport.NextPreviousInverse | viewport/viewport.go:274-292 | on an in-range pointer each step undoes the other |
| Viewport.NextIter | viewport/viewport.go:274-282 | any positive number of "next" steps stays in range |
| Viewport.PreviousIter | viewport/viewport.go:284-292 | any positive number of "previous" steps stays in range |
| Viewport.NextIterSplit | viewport/viewport.go:274-282 | `j + k` steps are `j` steps then `k` steps |
| Viewport.PreviousIterSplit | viewport/viewport.go:284-292 | `j + k` steps are `j` steps then `k` steps |
| Viewport.NextIterDown | viewport/viewport.go:274-282 | without wrapping, `k` steps move the pointer `k` places down |
| Viewport.PreviousIterUp | viewport/viewport.go:284-292 | without wrapping, `k` steps move the pointer `k` places up |
| Viewport.NavigationCycles | viewport/viewport.go:274-292 | `n` steps either way from an in-range pointer return to it |
| Viewport.GetActiveMatchLine | viewport/viewport.go:261-272 | -1 and no change without results; otherwise the pointer is clamped into range (negative to 0, too large to the last) and the answer is that result's line |
| Viewport.GetNextSearchMatchLine | viewport/viewport.go:274-282 | the pointer becomes `NextIndex` of the old one, and the answer is that result's line |
| Viewport.GetPreviousMatchLine | viewport/viewport.go:284-292 | the pointer becomes `PreviousIndex` of the old one, and the answer is that result's line |
| Viewport.MatchingIndices | viewport/viewport.go:540-544 | exactly the positions of the matching lines, strictly increasing |
| Viewport.KeepMatching | viewport/viewport.go:539-544 | the matching lines, in their original order (the lines at `MatchingIndices`) |
| Viewport.FilterContent | viewport/viewport.go:529-547 | empty or invalid filter: the content unchanged; otherwise the join of exactly the matching lines, in order |
| Viewport.SplitFiltered | viewport/viewport.go:546 | splitting the filtered content again gives back the kept lines (one empty line when none matched) |
| Viewport.LineMatches | viewport/viewport.go:486-495 | one result per location, in order, on line `l`, whose text is the slice between its bounds |
| Viewport.Collect | viewport/viewport.go:477-496 | every result names an existing line and holds the text between its bounds |
| Viewport.LineMatchesOrdered | viewport/viewport.go:486-495 | the results of one line come in column order without overlap |
| Viewport.ConcatOrdered | viewport/viewport.go:479-496 | ordered results of earlier lines followed by ordered results of a later line stay ordered |
| Viewport.CollectOrdered | viewport/viewport.go:477-496 | results are ordered by line, then by column |
| Viewport.CollectResults | viewport/viewport.go:475-496 | the nested gathering loop produces exactly `Collect` |
| Viewport.OldStyle | viewport/viewport.go:513-519 | result 0 (or any index `<= 0`) is always drawn plain; a later result is active exactly when it is the active one |
| Viewport.Rewrite | viewport/viewport.go:507-524 | the line count is kept and no line gets shorter |
| Viewport.RewriteUntouched | viewport/viewport.go:507-524 | a line without results is left as it was |
| Viewport.RewriteSingle | viewport/viewport.go:507-524 | a line with exactly one result becomes prefix, rendered text, suffix |
| Viewport.RewriteStep | viewport/viewport.go:508-523 | handling a result splices its rendering into its line at its original columns, inside the line's bounds |
| Viewport.HighlightLines | viewport/viewport.go:507-524 | the rewriting loop produces exactly `Rewrite` |
| Viewport.DecorateSearch | viewport/viewport.go:460-527 | empty search: results cleared, active -1, content unchanged; invalid pattern: nothing changes; otherwise the results are `Collect`, the active match is -1 without results, `n - 1` when it was -1, and kept otherwise; the output is the join of the rewritten lines |
| Viewport.TwoMatchLibSound | viewport/viewport.go:486 | a library reporting the locations `[0,1]` and `[1,2]` in `aa` is a valid engine |
| Viewport.TwoMatchResults | viewport/viewport.go:477-496 | searching `a` in `aa` gives the two results on line 0 at columns 0 and 1 |
| Viewport.SecondMatchMisplaced | viewport/viewport.go:507-524 | with active result 1, the rewritten line is `<{a}>a`: the second rendering lands inside the first |
| Viewport.SoleResultDrawnPlain | viewport/viewport.go:503-519 | a sole result becomes the active match (0) yet is drawn in the plain style |
| Search.LastIsGreatest | viewport/search.go:28-41 | helper of `CollectOrdered` and `AtLastLine`: in a strictly increasing index sequence every index before the last is below it |
| Search.LineMatches | viewport/search.go:30-39 | one match per location, numbered from `base`, on line `lineNr`, whose text is the slice between its bounds |
| Search.CollectFits | viewport/search.go:26-41 | every result's id is its position, its line is one of the filtered indices, and its text is the slice between its bounds |
| Search.SearchActive | viewport/search.go:43-46 | from -1 with matches: `n - 1`; too large: `n - 1`; in range: kept; for a pointer `>= -1` the result is -1 exactly when there are no matches |
| Search.Search | viewport/search.go:16-48 | empty or invalid search string: `([], -1)`; otherwise the results are `Collect` over the filtered lines and the next active match is `SearchActive` |
| Search.LineMatchesOrdered | viewport/search.go:30-39 | the matches of one line come in column order without overlap |
| Search.ConcatOrdered | viewport/search.go:28-41 | ordered matches of earlier lines followed by ordered matches of a later one stay ordered |
| Search.CollectBelow | viewport/search.go:28-41 | matches gathered from lines below a bound lie below it |
| Search.CollectOrdered | viewport/search.go:28-41 | with increasing filter indices, the results are in `filteredIndices` order, then column order |
| Search.OnLine | viewport/search.go:51-61 | the picked results are no more than the stored ones |
| Search.OnLineMembers | viewport/search.go:51-61 | a result is picked exactly when it is stored and lies on the line |
| Search.OnLineAppend | viewport/search.go:54-58 | picking by line distributes over concatenation |
| Search.OnLineNone | viewport/search.go:54-58 | results none of which lie on the line give nothing |
| Search.OnLineAll | viewport/search.go:54-58 | results all of which lie on the line are kept whole |
| Search.CollectLast | viewport/search.go:28-41 | the last filtered line adds its block of matches at the end |
| Search.AtLastLine | viewport/search.go:28-41 | on the last filtered line, the results are exactly its matches |
| Search.AtEarlierLine | viewport/search.go:28-41 | the last line's matches do not change the results on an earlier line |
| Search.CollectAtLine | viewport/search.go:28-41 | on any filtered line, the results are exactly the matches reported there, numbered consecutively |
| Search.DropLast | viewport/search.go:28-41 | helper of `CollectOrdered` and `CollectAtLine`: dropping the last index keeps the sequence valid and strictly increasing |
| Search.SearchResultsAtLine | viewport/search.go:51-61 | the loop returns `OnLine` of the stored results: exactly those on the line, in order |
| Search.HasSearchResults | viewport/search.go:63-65 | true exactly when there are results and the active match is not -1 |
| Search.StyleFor | viewport/search.go:78-84 | the active style exactly for the match whose id is the active one, and only when that is `>= 0` |
| Search.PrevEndBounds | viewport/search.go:75-76 | the end of the previous match lies inside the line and no later than the next match starts |
| Search.WovenLength | viewport/search.go:67-93 | the decorated prefix is as long as the text it covers plus the growth so far |
| Search.DecoratedLength | viewport/search.go:67-93 | the decorated line is the original length plus, for each match, its rendered length minus its original length |
| Search.DecoratedNone | viewport/search.go:67-93 | without matches the line is unchanged |
| Search.DecoratedSingle | viewport/search.go:67-93 | a single match becomes prefix, rendered text, suffix |
| Search.SpliceShift | viewport/search.go:71-85 | in a line decorated up to a column, the original columns shifted by the growth select the same text |
| Search.DecorateStep | viewport/search.go:71-89 | the shifted columns of the next match are inside the current line, and splicing its rendering there decorates one match further |
| Search.RenderMatch | viewport/search.go:70-89 | one iteration decorates one match further and records the line's new growth in `offsets` |
| Search.DecorateLine | viewport/search.go:67-93 | the result is the line with every match replaced by its rendering and the text between the matches kept |
| Search.AtLineFitsDecorate | viewport/search.go:51-61 | the results picked for one line share that line and lie sorted inside it, as `decorateLine` needs |
| Search.SecondMatchInPlace | viewport/search.go:67-93 | the two results of `a` in `aa`, active result 1, decorate to `<a>{a}` |
| Search.TwoMatchResults | viewport/search.go:28-41 | this variant finds the same two results, numbered 0 and 1 |
| Search.SoleResultDrawnActive | viewport/search.go:43-46 | a sole result, made active (0) by `search()`, is drawn in the active style |
| Search.GetActiveMatchLine | viewport/search.go:95-106 | -1 and no change without results; otherwise the pointer is clamped into range and the answer is that result's line |
| Search.NextActive | viewport/search.go:108-116 | with results: in range, one step down with wraparound, a negative pointer starting from `n - 1` |
| Search.PreviousActive | viewport/search.go:118-126 | with results: in range, one step up with wraparound, a negative pointer going to 0 |
| Search.GetNextActiveMatch | viewport/search.go:108-116 | the pointer and the answer are `NextActive` of the old pointer, the rest is unchanged |
| Search.GetPreviousActiveMatch | viewport/search.go:118-126 | the pointer and the answer are `PreviousActive` of the old pointer, the rest is unchanged |
| Search.StepsAgree | viewport/search.go:108-126 | with results, this variant's navigation agrees step for step with viewport.go's |
| Search.NavigationCycles | viewport/search.go:108-126 | `n` calls either way from an in-range pointer return to it |
| Search.NextPreviousInverse | viewport/search.go:108-126 | on an in-range pointer each step undoes the other |
| Mediator.Broadcast | mediator/mediator.go:34-68 | one notification per registration, in order, each with the sent event |
| Mediator.BroadcastAppend | mediator/mediator.go:34-68 | broadcasting to two groups is broadcasting to the first, then the second |
| Mediator.AddedListenerIsLast | mediator/mediator.go:30-32 | a listener registered last is notified last |
| Mediator.NotifiedOncePerRegistration | mediator/mediator.go:34-68 | each listener is notified once per registration |
| Mediator.Mediator.constructor | mediator/mediator.go:26-28 | no listeners, nothing delivered |
| Mediator.Mediator.AddListener | mediator/mediator.go:30-32 | the listener is appended; earlier ones keep their order; nothing is delivered |
| Mediator.Mediator.Notify | mediator/mediator.go:34-68 | the listener list is unchanged and the log grows by exactly the broadcast of the event |
| Mediator.Mediator.SendStart | mediator/mediator.go:34-38 | `OnStart(command)` on every listener in order, with the command unchanged |
| Mediator.Mediator.SendError | mediator/mediator.go:40-44 | `OnError(err)` on every listener in order |
| Mediator.Mediator.SendKill | mediator/mediator.go:46-50 | `OnKill()` on every listener in order |
| Mediator.Mediator.SendStop | mediator/mediator.go:52-56 | `OnStop()` on every listener in order |
| Mediator.Mediator.SendOutput | mediator/mediator.go:58-62 | `OnOutput(output)` on every listener in order, with the output unchanged |
| Mediator.Mediator.SendRequestRestart | mediator/mediator.go:64-68 | `OnRequestRestart()` on every listener in order |
| Oracles.Compile | viewport/viewport.go:470-473 | `Some` exactly when the pattern compiles, and it keeps the pattern |
| Oracles.FindAll | viewport/viewport.go:486 | the locations are sorted, non-overlapping and inside the string |

## Left out

- Regular-expression matching and lipgloss rendering are not modelled. They are oracles: `Engine` and `Render` are parameters, with only the facts stated in `Oracles`.
- Viewport.DecorateSearch: assumes a rendering that never shortens its text (`WideningRender`). lipgloss only adds escape sequences, but without this assumption the Go slices of the second and later results of a line could go out of bounds. The model does not capture that panic.
- Search.DecorateLine: requires the matches to share one line and to lie sorted inside it. `decorateLine` has no caller in the code; the model requires what `searchResultsAtLine` applied to a `search()` result provides (`Search.AtLineFitsDecorate`). For matches of several lines the Go offsets are kept per line, and that case is not modelled.
- Search.Search: requires every filtered index to name a line of `allLines`. With an out-of-range index, `m.allLines[lineNr]` at viewport/search.go:29 panics, and the model does not capture that panic. The code that builds `filteredIndices` is not part of this model. The result list is also proved sorted only when the filtered indices are strictly increasing.
- Viewport.GetNextSearchMatchLine and Viewport.GetPreviousMatchLine: require at least one result. With none, the Go code indexes an empty slice and panics. `Update` calls them only when `hasSearchResults` holds.
- Pointer receivers on `model` are modelled by passing the record in and returning the updated copy. Aliasing of the receiver is not captured. In viewport/viewport.go every caller uses the local copy inside `Update`; the pointer-receiver methods of viewport/search.go have no caller in the code.
- Strings are sequences with one element per byte of the Go string. UTF-8 decoding plays no part in the slicing.
- The error value passed to `SendError` is kept as its message.
- The listeners' own reactions to callbacks are left out. The hub is modelled by the log of the callbacks it makes.
- The following are left out because they are terminal UI plumbing of the Bubble Tea library: `Init`, `Update`'s dispatch, `View`, `resize`, `goToLine`, `goToTop`, `goToBottom`, `inputPrompt`, `footerView`, and the real textinput widget. The widget is reduced to its value and its focus.
- The process runner, the file watcher, the command line and the program wrapper are not part of this model. They involve processes, goroutines, channels and timers.

## Findings

| source | as written | input that shows it | evidently intended | confidence | as-written member | corrected member |
|---|---|---|---|---|---|---|
| viewport/viewport.go:507-524 | each result is spliced into its line at its original columns, even after earlier results on the same line have lengthened it | content `aa`, search `a`, active result 1, styles `<t>` and `{t}`: the line becomes `<{a}>a` | shift each result by the growth of the earlier ones, as `decorateLine` does: `<a>{a}` | high (proved; not executed) | Viewport.SecondMatchMisplaced | Search.DecorateLine |
| viewport/viewport.go:513 | `m.activeMatch > 0 && m.activeMatch == i` never draws result 0 as active | any content with exactly one match: `decorateSearch` sets the active match to 0, and that match is drawn plain | `>= 0`, as in search.go | high (proved; not executed) | Viewport.SoleResultDrawnPlain | Search.StyleFor |
