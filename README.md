# inquirer-path prompt, modelled in Dafny

This project models the core of `PathPrompt`, an Inquirer prompt that asks for a file-system path and offers zsh-style completion. The core has two parts.

- **The candidate window.** `slice` picks at most five candidates around the highlighted one, for display beneath the prompt.
- **The event state machine.** Key presses, line submissions and SIGINT update the prompt's state:
  - the cancel counter and the "candidate list open" flag (`selectionActive`);
  - the answer, which is a list in multi mode;
  - readline's line buffer and cursor;
  - the listener lists of the readline interface;
  - the completion engine's input path and selection.

Modules:

- `Wrappers` (wrappers.dfy): the `Option` type.
- `Window` (window.dfy): `slice` as pure functions. This includes `Array.prototype.slice` for integer arguments. It also gives a second, clamped-centre description of the window.
- `Listeners` (listeners.dfy): the readline listener lists. `removeListener` is modelled as removing the most recently added occurrence. The module also holds what `_run` and `cleanup` do to the lists.
- `Completion` (completion.dfy): the completion engine (`ShellPathAutocomplete`) as an abstract value. It has an input path, candidates, an optional selected index and an optional common path. `Engine.HasSelectedPath` and `Engine.HasCommonPotentialPath` are the engine's two query methods (src/PathPrompt.js:89, 100, 124, 142). The module also holds the cycling lemmas.
- `Prompt` (prompt.dfy): the class `PathPrompt`. Each handler is a method that states the handler's whole new state in terms of the old one.

src/ShellPathAutocomplete.js is not part of this model. The engine operations the prompt calls follow this reading:

- `setInputPath` replaces the input path and drops the selection. Otherwise the next Enter after accepting a candidate could never submit. Given a candidate (src/PathPrompt.js:104), it takes the candidate's `path`.
- `refresh` asks an opaque `complete` function for the candidates and the common path of the input path. It keeps a selection that is still in range.
- `selectNextPotentialPath` wraps around. From no selection it goes to the first candidate (forward) or the last (backward).
- `getInputPath(true)` and `getInputPathReference().getPath()` are both the input path.

Behaviour of the code worth noting:

- `cleanup` is not idempotent. A second call re-adds the recorded SIGINT listeners (`Listeners.CleanupTwiceDuplicates`).
- A rejected validation does not close the candidate list (`onError`, src/PathPrompt.js:167-172).
- The window holds the highlighted index whenever that index is in the list and the size is positive.

## Model

| member | source | states |
|---|---|---|
| `Window.SliceBounds` | src/PathPrompt.js:291-301 | for a positive size the bounds satisfy `0 <= min <= max <= length`; the window spans exactly `Min(size, length)` items; it contains every in-range `itemIndex` |
| `Window.ArraySlice` | src/PathPrompt.js:302 | `items.slice(start, end)` never yields more items than the array has, and is exactly `items[start..end]` when `0 <= start <= end <= length` |
| `Window.Slice` | src/PathPrompt.js:285-303 | the result has `Min(size, |items|)` items; it is a contiguous run of the list; it holds `items[itemIndex]` whenever that index is in the list, as the doc comment promises |
| `Window.SliceIsCentredThenClamped` | src/PathPrompt.js:293-301 | the window is the `Min(size, length)`-item run that starts `floor(size/2)` before the highlighted index, moved the least distance needed to lie inside `[0, length)` |
| `Window.NoHighlightShowsHead` | src/PathPrompt.js:271-273 | when nothing is selected, `indexOf` gives -1 and the window is the first `Min(size, |items|)` candidates |
| `Listeners.RemoveLast` | src/PathPrompt.js:315-317 | `removeListener` leaves a list without the listener unchanged; otherwise it removes exactly one occurrence (length and multiset) |
| `Listeners.RemoveLastCutsAtLast` | src/PathPrompt.js:315-317 | `removeListener` takes out the last occurrence of the listener and keeps every other listener in its order |
| `Listeners.RemoveLastBeforeTail` | src/PathPrompt.js:310-316 | when the listeners re-added by `cleanup` do not include the handler, removing the handler affects only the part before them |
| `Listeners.RemoveLastOfSingle` | src/PathPrompt.js:315-317 | a handler registered at most once is gone after `removeListener` |
| `Listeners.Attach` | src/PathPrompt.js:68-70 | `_run` adds the three handlers so that removing each once gives back the previous lists |
| `Listeners.Detach` | src/PathPrompt.js:309-318 | after `cleanup`, none of the prompt's three handlers remains; the SIGINT list is the old list minus the cancel handler, followed by the recorded listeners |
| `Listeners.RunThenCleanupRestores` | src/PathPrompt.js:309-318 | removing and recording all SIGINT listeners, then `_run`, then `cleanup`, gives back exactly the listener lists from before the prompt |
| `Listeners.CleanupTwiceDuplicates` | src/PathPrompt.js:309-318 | a second `cleanup` removes nothing and adds the recorded SIGINT listeners once more, so `cleanup` is not idempotent |
| `Completion.Engine.SelectedPath` | src/PathPrompt.js:104 | the selected path is one of the current candidates |
| `Completion.Engine.SetInputPath` | src/PathPrompt.js:91 | the input path becomes the given text and no candidate stays selected |
| `Completion.Engine.Refresh` | src/PathPrompt.js:88 | candidates and common path are those found for the current input path; the input path is unchanged and an in-range selection is kept |
| `Completion.Engine.SelectNext` | src/PathPrompt.js:95 | the selection moves by one candidate in the given direction, there is a selection exactly when there are candidates, and nothing else changes |
| `Completion.Engine.ResetSelect` | src/PathPrompt.js:145 | the selection is dropped and nothing else changes |
| `Completion.NextIndex` | src/PathPrompt.js:95 | the next index exists exactly when the list is non-empty and is always in range |
| `Completion.Cycled` | src/PathPrompt.js:92-96 | repeated cycling keeps the input path, candidates and common path |
| `Completion.CycledIndex` | src/PathPrompt.js:92-96 | after `k` cycling presses from candidate `i`, candidate `(i + k) mod n` (or `(i - k) mod n` with Shift) is selected |
| `Completion.RefreshAfterCycle` | src/PathPrompt.js:88-95 | the refresh that every Tab press runs before cycling leaves an already refreshed and cycled engine unchanged |
| `Completion.CycleReturns` | src/PathPrompt.js:92-96 | `n` presses over `n` candidates bring the engine back to exactly where it started |
| `Completion.CycleVisitsAll` | src/PathPrompt.js:92-96 | every candidate is reached in fewer than `n` forward presses |
| `Prompt.PathPrompt.constructor` | src/PathPrompt.js:35-55 | `cancelCount` is 0, the selection is closed, the answer is `[]` in multi mode and `null` otherwise, and the SIGINT listeners are recorded and removed; the prompt's handlers, bound afresh, are on no list yet |
| `Prompt.PathPrompt.Run` | src/PathPrompt.js:64-74 | the three handlers are registered and nothing else changes |
| `Prompt.Utf16Length` | src/PathPrompt.js:244 | a string's JavaScript `length` counts UTF-16 code units: between one and two per character, and exactly one per character when none lies outside the Basic Multilingual Plane |
| `Prompt.PathPrompt.ResetCursor` | src/PathPrompt.js:238-245 | the cursor is the input path's JavaScript length (UTF-16 code units) plus one; every handler that resets the cursor states it this way |
| `Prompt.PathPrompt.OnKeyPress` | src/PathPrompt.js:81-116 | a Ctrl key changes nothing; any other key zeroes `cancelCount`; Tab adopts the common path and closes the list, or opens the list without moving the selection, or cycles it (backward with Shift); Enter with a selection takes that candidate as input path and closes the list, without one it leaves everything else as it was; any other key closes the list and hands the line to the engine; after every handled key the line equals the input path |
| `Prompt.PathPrompt.OnError` | src/PathPrompt.js:167-172 | the line is set back to the unchanged input path, the cursor goes to its end, and nothing else changes |
| `Prompt.PathPrompt.Cleanup` | src/PathPrompt.js:309-318 | the listener lists become `Detach` of the old ones; the prompt's own state is untouched |
| `Prompt.PathPrompt.OnFinish` | src/PathPrompt.js:212-216 | cleans up and hands the current answer to the host |
| `Prompt.PathPrompt.OnSuccess` | src/PathPrompt.js:178-207 | in multi mode the filtered value is appended to the answer in entry order, the input path becomes `''`, and the selection and list are reset; in single mode the filtered value is the answer, handed over after cleanup |
| `Prompt.PathPrompt.OnSubmit` | src/PathPrompt.js:122-136 | ignored while a candidate is selected; otherwise `cancelCount` is 0 and the resolved input path is validated; a rejection leaves the input path as it was and restores the line to it; an acceptance has the effect of `OnSuccess` on the resolved path, and in both modes the line and cursor stay |
| `Prompt.PathPrompt.OnCancel` | src/PathPrompt.js:141-161 | priority order: a selected candidate is deselected and the list closed, with no exit; else in multi mode with `cancelCount < 1` the collected list is validated, and acceptance finishes while rejection increments `cancelCount`; else the prompt cleans up and the signal is forwarded to exactly the recorded listeners |
| `Prompt.PathPrompt.Bottom` | src/PathPrompt.js:265-273 | the window is empty unless the list is open; then it has `Min(5, |candidates|)` candidates and includes the selected one |
| `Prompt.TabPresses` | src/PathPrompt.js:86-98 | with the list open and no common path, `k` Tab presses leave the engine as the refreshed engine cycled `k` times (backward with Shift), so by `Completion.CycleReturns` one press per candidate brings the selection back |
| `Prompt.AcceptedAnswerDetaches` | src/PathPrompt.js:122-136 | a single-mode prompt whose first submission is accepted hands over the filtered path, leaves the listener lists exactly as it found them and has no handler left registered |
| `Prompt.InterruptDetaches` | src/PathPrompt.js:141-161 | a single-mode prompt interrupted with nothing selected forwards the signal to exactly the recorded listeners, leaves the listener lists as it found them and has no handler left registered |
| `Prompt.SecondInterruptAborts` | src/PathPrompt.js:141-161 | in multi mode with nothing selected and a still-failing list validator, the first interrupt is consumed and the second is forwarded to the recorded listeners after cleanup |

## Left out

- Rendering is not modelled: `render`, `renderMessage`, `renderError`, the styling in `renderBottom`, `screen.render` and `screen.done`, the colours, `readline.cursorTo` and muting the output. Only the window that `renderBottom` draws is modelled (`Prompt.PathPrompt.Bottom`). It works on the selected index rather than on `indexOf` by object identity.
- `path.resolve`, `validate`, `validateMulti` and `filter` are function parameters. `path.resolve` depends on the process's working directory. The others are caller code.
- The host's `this.answers`, which is passed to the validators, is not modelled.
- `runAsync` is not modelled. A verdict is applied within the same call, so the race with keystrokes typed during validation is left out.
- How ShellPathAutocomplete matches candidates and computes the common path is not modelled (see the reading above). `complete` stands for this matching, and `getInputPath(true)` is taken to be the input path.
- Readline's own editing of `rl.line` is not modelled. This includes clearing the line when a line is submitted. The line is a field that any key may already have changed.
- Inquirer plumbing is not modelled: option defaulting, the `cwd` and `default` fallbacks, `when` and `registerPrompt` (src/PathPrompt.js:22-32, 43-45, 321). The engine starts with `cwd` as its input path and no candidates.
- JavaScript numbers are modelled as integers. `slice` is only ever called with the integer size 5.
- `Prompt.PathPrompt.Cleanup` is stated for a single call, as the prompt uses it. A repeated call is described by `Listeners.CleanupTwiceDuplicates`.
