# ARC task editor core, modelled in Dafny

This project models the core of a web experiment in which participants solve
tasks of the Abstraction and Reasoning Corpus (ARC). Each participant edits an
output grid of coloured cells (symbols 0 to 9) until it reproduces the hidden
answer of a test pair, then describes the rule in words. The model covers:

- **the grid utilities** of `arcUtils.js`:
  - the `Grid` constructor
  - the grid's text signature (rows of digits joined by bars)
  - the queue-based flood fill
  - solution verification
  - log-entry creation
- **the text helpers** of `uiUtils.js`:
  - `parseSizeTuple`, with JavaScript's `parseInt` as it uses it
  - the Fisher-Yates `shuffleArray`
- **the output-grid editing engine** of `useGridManipulation.js`:
  - resize, reset, copy of the input, bounded undo
  - drawing and filling
  - selection, recolouring, copy and paste
  - auto-solve
- **the task composable** `useArcTaskLogic.js`: one task's attempts, verdict, descriptions, numbered action log and saved record, around the engine.
- **the earlier self-contained task composable** `useARCTaskLogic.js`. Its editing code is the engine's, so it reuses the engine and states where it differs.
- **the whole-experiment composable** `useArcExperiment.js`. It covers the phases and per-task state:
  - the tutorial slides, tutorial task and quiz
  - up to five shuffled experiment tasks
  - the feedback
  - its own variants of drawing, filling, recolouring and pasting

Where the source mutates a grid in place (`currentOutputGrid.value.grid`), the model keeps an `array2<int>`. Every in-place loop is a method proved against a function on grid values:

- `Recolor`
- `Pasted`
- `IsFill`, the 4-connected region of the start cell's symbol

The composables are classes whose methods update their fields. Each method states the whole new state, including the exact entries it appends to the log: their actions, numbers, contexts and details.

Some behaviour of the code is easy to miss; the model follows the code as written:

- `useArcTaskLogic.js` takes three members from the engine that the engine does not return. `loadTask` therefore throws at `selectedInputCells.value.clear()` before it fetches (see Findings).
- The two text-signature comparisons confuse grids only when a symbol has two digits. That cannot happen with the editor's palette.
- `useArcExperiment.js` pushes an undo snapshot on every click with the edit or fill tool, even when nothing changes. It logs every recolouring and every paste, even when they change no cell.

Each module has its own file:

| File | Module |
|---|---|
| `arc_constants.dfy` | `ArcConstants` |
| `arc_utils.dfy` | `ArcUtils` |
| `ui_utils.dfy` | `UiUtils` |
| `undo_stack.dfy` | `UndoStack` |
| `flood_fill.dfy` | `RegionFill` |
| `grid_editing.dfy` | `GridEditing` |
| `grid_manipulation.dfy` | `GridEngine` |
| `arc_task_logic.dfy` | `TaskSession` |
| `legacy_task_logic.dfy` | `LegacyTaskLogic` |
| `arc_experiment.dfy` | `ArcExperiment` |

## Model

| member | source | states |
|---|---|---|
| ArcUtils.BuildGrid | src/user/utils/arcUtils.js:4-21 | the built grid has exactly h rows of w cells |
| ArcUtils.BuildGridAt | src/user/utils/arcUtils.js:4-21 | cell (i, j) is the source value where the source has one, otherwise 0 |
| ArcUtils.ResizeKeepsOverlap | src/user/utils/arcUtils.js:4-21 | rebuilding at new dimensions keeps the overlapping top-left block and zero-fills the rest |
| ArcUtils.BuildGridClones | src/user/utils/arcUtils.js:4-21 | building from a grid of the same dimensions reproduces it exactly (clone, undo restore) |
| ArcUtils.Contents | src/user/utils/arcUtils.js:4-21 | the value of an in-place grid has its dimensions and its cells |
| ArcUtils.NewGrid | src/user/utils/arcUtils.js:4-21 | `new Grid` allocates a fresh h-by-w array holding the built grid |
| ArcUtils.SetCell | src/user/composables/useGridManipulation.js:77-98 | writing a cell changes that cell only and keeps the shape |
| ArcUtils.WriteCell | src/user/composables/useGridManipulation.js:77-98 | the in-place write leaves the array equal to the value-level write |
| ArcUtils.SetCellSame | src/user/composables/useGridManipulation.js:91-98 | writing the symbol a cell already holds changes nothing |
| ArcUtils.NatString | src/user/utils/arcUtils.js:23-26 | `String(n)` is a non-empty run of decimal digits |
| ArcUtils.Split | src/user/utils/uiUtils.js:52 | `split` yields at least one part |
| ArcUtils.SplitJoin | src/user/utils/arcUtils.js:23-26 | splitting the rows joined with a bar gives them back when no row contains a bar |
| ArcUtils.DigitRowParse | src/user/utils/arcUtils.js:23-26 | a row of one-digit symbols is read back from its text unchanged |
| ArcUtils.SignatureRoundTrip | src/user/utils/arcUtils.js:23-26 | on digit grids the row signature reads back to the grid |
| ArcUtils.SignatureInjective | src/user/utils/arcUtils.js:23-26 | equal signatures of digit grids mean equal grids |
| ArcUtils.SignatureCollidesBeyondDigits | src/user/utils/arcUtils.js:23-26 | with two-digit symbols, different grids share a signature ("123") |
| ArcUtils.MatchesIffEqual | src/user/utils/arcUtils.js:74-90 | on well-formed grids the verifier accepts exactly when the grids are equal, both directions |
| ArcUtils.OneDifferentCellFails | src/user/utils/arcUtils.js:81-87 | one differing cell makes verification fail |
| ArcUtils.VerifySolution | src/user/utils/arcUtils.js:74-90 | true exactly when reference and grid exist and match; false on a missing one or a dimension mismatch |
| ArcUtils.CreateLogEntry | src/user/utils/arcUtils.js:92-98 | the entry holds `action` plus every detail, and a detail wins a clash on `action` |
| UiUtils.TrimStart | src/user/utils/uiUtils.js:57-58 | the result is a suffix of the text that starts with no white space |
| UiUtils.DigitRun | src/user/utils/uiUtils.js:57-58 | the prefix read is the longest run of digits of the radix |
| UiUtils.ParseIntReadsDigits | src/user/utils/uiUtils.js:57-58 | decimal `parseInt` reads the leading digit run and ignores what follows a non-digit |
| UiUtils.ParseIntReadsNegative | src/user/utils/uiUtils.js:57-58 | a leading minus negates the number read |
| UiUtils.ParseIntReadsNatString | src/user/utils/uiUtils.js:57-58 | decimal `parseInt` reads a number's decimal text back |
| UiUtils.ParseIntNoDigits | src/user/utils/uiUtils.js:60-63 | text with no digit after sign and white space is NaN |
| UiUtils.ParseIntHexPrefix | src/user/composables/useArcExperiment.js:196-198 | without a radix a `0x` prefix reads hexadecimal; with radix 10 the same text reads 0 |
| UiUtils.ParseSizeTuple | src/user/utils/uiUtils.js:51-73 | accepted sizes lie in 1..30 and are the `parseInt` values of the two parts; the format error occurs exactly when there are not two parts |
| UiUtils.SizeTextParts | src/user/utils/uiUtils.js:51-58 | "HxW" splits at its `x` into the two decimal texts, each read back |
| UiUtils.ParseSizeTupleRoundTrip | src/user/utils/uiUtils.js:51-73 | every size in 1..30 written as "HxW" is accepted back as that size |
| UiUtils.ParseSizeTupleRejects | src/user/utils/uiUtils.js:65-72 | sizes below 1 get the too-small message; sizes above 30 get the too-large message |
| UiUtils.ShuffleArray | src/user/utils/uiUtils.js:34-47 | returns the same array, holding a permutation of its elements, after one swap round per element |
| UndoStack.Push | src/user/composables/useGridManipulation.js:19-24 | the stack grows by one up to 20 and is the newest 20 of the old stack plus the snapshot |
| UndoStack.Pop | src/user/composables/useGridManipulation.js:59-66 | the popped stack plus the newest snapshot is the old stack |
| UndoStack.PushedOnTop | src/user/composables/useGridManipulation.js:19-24 | the pushed snapshot is on top and the stack stays within 20 |
| UndoStack.PopUndoesPush | src/user/composables/useGridManipulation.js:19-24 | below the limit, a pop right after a push restores the stack |
| UndoStack.PopAfterFullPushLosesOldest | src/user/composables/useGridManipulation.js:19-24 | on a full stack, a push then a pop loses the oldest snapshot |
| RegionFill.ReachableHoldsTarget | src/user/utils/arcUtils.js:41-72 | every reachable cell is in the grid and holds the old symbol |
| RegionFill.ClosedHoldsReachable | src/user/utils/arcUtils.js:41-72 | a closed region holding the start holds every reachable cell |
| RegionFill.RegionIsComponent | src/user/utils/arcUtils.js:41-72 | a closed region of reachable cells holding the start is exactly the reachable set, both directions |
| RegionFill.BoxSize | src/user/utils/arcUtils.js:41-72 | there are exactly rows * cols in-grid cells, which bounds the queue |
| RegionFill.FillLeavesNoTargetNeighbour | src/user/utils/arcUtils.js:41-72 | after a fill no cell next to the region still holds the old symbol |
| RegionFill.FillTwiceIsFillOnce | src/user/utils/arcUtils.js:41-72 | filling again from the same cell with the same symbol changes nothing |
| RegionFill.FillNoOpWhenSameSymbol | src/user/utils/arcUtils.js:44-46 | filling with the start cell's own symbol changes nothing |
| RegionFill.PaintedIsFill | src/user/utils/arcUtils.js:41-72 | a painted closed component is the specified fill |
| RegionFill.Fill | src/user/utils/arcUtils.js:41-72 | returns false and changes nothing when the start already holds the symbol; otherwise the array becomes the fill of the 4-connected region; the queue holds at most rows * cols entries |
| RegionFill.BreadthFirst | src/user/utils/arcUtils.js:48-69 | the queue loop paints a closed set of reachable cells that holds the start, enqueuing each exactly once |
| RegionFill.Expand | src/user/utils/arcUtils.js:54-68 | the direction loop paints and enqueues each unseen neighbour holding the old symbol |
| RegionFill.StackFill | src/user/composables/useArcExperiment.js:420-438 | the stack-based fill changes nothing when the start holds the symbol, and otherwise yields the same fill |
| RegionFill.DepthFirst | src/user/composables/useArcExperiment.js:427-437 | the stack loop paints a closed set of reachable cells that holds the start |
| RegionFill.FilledCopy | src/user/composables/useArcExperiment.js:454-456 | the fill runs on a deep copy: a fresh array holding the fill, with the grid left as it was |
| GridEditing.Recolor | src/user/composables/useGridManipulation.js:109-129 | recolouring keeps the grid's shape |
| GridEditing.RecolorChangesIff | src/user/composables/useGridManipulation.js:113-127 | the grid changes exactly when a selected in-grid cell held another symbol |
| GridEditing.RecolorTouchesOnlySelection | src/user/composables/useGridManipulation.js:113-122 | unselected cells keep their symbol and selected cells take the new one |
| GridEditing.RecolorIdempotent | src/user/composables/useGridManipulation.js:109-129 | recolouring twice equals recolouring once |
| GridEditing.RecolorCells | src/user/composables/useGridManipulation.js:112-122 | the in-place loop leaves the array recoloured; `changed` is true exactly when the grid changed |
| GridEditing.CopiedSize | src/user/composables/useGridManipulation.js:131-150 | the clipboard holds one entry per selected cell |
| GridEditing.CopiedSymbol | src/user/composables/useGridManipulation.js:140-143 | a selected cell inside the grid copies its symbol; a column past the end of its row copies the undefined value |
| GridEditing.CopyCells | src/user/composables/useGridManipulation.js:137-145 | the clipboard holds each selected cell once with the symbol it copies; the origin is the smallest row and column |
| GridEditing.Pasted | src/user/composables/useGridManipulation.js:152-187 | pasting keeps the grid's shape |
| GridEditing.PasteChangesIff | src/user/composables/useGridManipulation.js:166-185 | the paste changes the grid exactly when some entry lands in the grid on a different symbol |
| GridEditing.PasteTranslates | src/user/composables/useGridManipulation.js:168-177 | every copied cell that lands inside the grid shows, at target + (cell - origin), its copied symbol, or the undefined value when it was copied from past the end of its row |
| GridEditing.PasteLeavesOthers | src/user/composables/useGridManipulation.js:168-177 | a cell no copied cell lands on keeps its symbol (clipped, not shifted) |
| GridEditing.CopyPasteInPlace | src/user/composables/useGridManipulation.js:131-187 | copying a selection and pasting it onto its own origin changes nothing |
| GridEditing.PasteCells | src/user/composables/useGridManipulation.js:166-177 | the in-place loop leaves the array pasted; `pasted` is true exactly when the grid changed |
| GridEngine.PushKeepsSnapshots | src/user/composables/useGridManipulation.js:19-24 | the history holds only grid values, at most 20 |
| GridEngine.ContentsIsGrid | src/user/composables/useGridManipulation.js:7-17 | the output grid's contents are a grid value |
| GridEngine.EmptySourceIsZero | src/user/utils/arcUtils.js:4-21 | `new Grid(h, w)` is all zeros |
| GridEngine.Engine.constructor | src/user/composables/useGridManipulation.js:7-17 | a 3x3 zero grid, the edit tool, symbol 0, empty history, selection and clipboard |
| GridEngine.Engine.PushToUndoStack | src/user/composables/useGridManipulation.js:19-24 | a copy of the cells is pushed on the bounded history; nothing else changes |
| GridEngine.Engine.DiscardUndo | src/user/composables/useGridManipulation.js:126 | the push just made is popped when nothing changed; nothing else changes |
| GridEngine.Engine.ClearSelection | src/user/composables/useArcTaskLogic.js:116 | the selection empties; nothing else changes |
| GridEngine.Engine.UpdateOutputGridSize | src/user/composables/useGridManipulation.js:26-35 | same size: no change, no log; otherwise push, rebuild keeping the overlap, clear the selection, log the resize |
| GridEngine.Engine.ResetOutputGrid | src/user/composables/useGridManipulation.js:37-46 | push, a 3x3 zero grid, symbol 0, edit tool, empty selection; logged |
| GridEngine.Engine.CopyInputToOutput | src/user/composables/useGridManipulation.js:48-57 | with an input: push, the output becomes the input with its size, selection cleared, logged; without one: nothing |
| GridEngine.Engine.UndoLastAction | src/user/composables/useGridManipulation.js:59-70 | empty history: nothing; otherwise the newest snapshot is popped and becomes the grid with its size, selection cleared, logged |
| GridEngine.Engine.HandleCellInteraction | src/user/composables/useGridManipulation.js:72-102 | drawing events set the cell, pushing only when it changed; a fill click fills the region and keeps the push only if cells changed; other events change nothing; exactly the source's log entries |
| GridEngine.Engine.UpdateSelectedCells | src/user/composables/useGridManipulation.js:104-107 | the selection is replaced and logged with its size |
| GridEngine.Engine.ChangeColorOfSelectedCells | src/user/composables/useGridManipulation.js:109-129 | with the select tool and a selection: the cells are recoloured, the push kept and the change logged only when cells changed; otherwise nothing |
| GridEngine.Engine.CopySelectedCells | src/user/composables/useGridManipulation.js:131-150 | with the select tool and a selection: a selected row past the grid throws with no change; otherwise the clipboard holds the selected cells with what they copy and the minimum origin, logged; without a selection or the select tool, nothing |
| GridEngine.Engine.PasteCopiedCells | src/user/composables/useGridManipulation.js:152-187 | with a clipboard, the select tool and one selected cell: the paste at that cell, push kept and logged only on change, selection cleared; otherwise nothing |
| GridEngine.Engine.AutoSolve | src/user/composables/useGridManipulation.js:189-200 | with a reference: push, and the output becomes the reference with its size, logged; otherwise nothing |
| TaskSession.ContextProperties | src/user/composables/useArcTaskLogic.js:53-88 | the context never overwrites `action` and carries the entry's number |
| TaskSession.FlattenKeeps | src/user/composables/useArcTaskLogic.js:53-88 | a flattened entry names its action, carries its number and keeps every detail |
| TaskSession.SavedNumbering | src/user/composables/useArcTaskLogic.js:90-104 | the saved entries are numbered 1, 2, 3, ... in order |
| TaskSession.AttemptsKeepCounting | src/user/composables/useArcTaskLogic.js:173-200 | after n misses, the attempt has grown by n and the task is unsolved; the description is asked for once the attempt passes 3; nothing else changes |
| TaskSession.ThirdMissAsksForDescription | src/user/composables/useArcTaskLogic.js:189-196 | from attempt 1, the second miss does not yet ask for a description and the third does |
| TaskSession.CheckOutcome | src/user/composables/useArcTaskLogic.js:173-200 | the verdict decides `isSolved`; a correct answer keeps the attempt and a wrong one costs exactly one |
| TaskSession.VerdictOverwritten | src/user/composables/useArcTaskLogic.js:174 | the check sets the verdict whatever the task held before |
| TaskSession.RefusesOnlyTheSameGrid | src/user/composables/useARCTaskLogic.js:375-391 | with digit symbols, the text comparison refuses exactly the grid submitted last time, after the first attempt |
| TaskSession.RefusesADifferentWideGrid | src/user/composables/useARCTaskLogic.js:139-142 | with a two-digit symbol, a different grid is refused as a repeat |
| TaskSession.UndefinedEngineMembers | src/user/composables/useArcTaskLogic.js:30-50 | three of the members taken from the engine are not among those it returns |
| TaskSession.Session.constructor | src/user/composables/useArcTaskLogic.js:8-27 | a 3x3 input, attempt 1, nothing solved, described, logged or saved |
| TaskSession.Session.LogActionInternal | src/user/composables/useArcTaskLogic.js:53-88 | appends the next numbered entry with the current context; nothing else changes |
| TaskSession.Session.Restart | src/user/composables/useArcTaskLogic.js:108-116 | a fresh attempt, log and description state, and no output selection |
| TaskSession.Session.LoadTaskAsWritten | src/user/composables/useArcTaskLogic.js:107-118 | the reset happens, then the call throws before the fetch |
| TaskSession.Session.LoadTask | src/user/composables/useArcTaskLogic.js:107-133 | a missing file or no test pairs: input untouched and the log is exactly the numbered failure entry with its message; an empty first input throws after the pair is stored, unlogged; otherwise the first input is built as `new Grid` builds it, the output reset, and the log is exactly the reset entry then the success entry, numbered 1 and 2 |
| TaskSession.Session.Install | src/user/composables/useArcTaskLogic.js:127-132 | the first test pair is installed with its input built as `new Grid` builds it, the output reset, and exactly the reset entry and the success entry appended, in that order and numbered on |
| TaskSession.Session.CheckAndProcessSubmittedSolution | src/user/composables/useArcTaskLogic.js:173-200 | the task is updated by the verdict of verifySolution, and exactly one entry appended: the check, with the attempt it was made on, the verdict, and the context as it stood with the verdict set |
| TaskSession.Session.RecordVerdict | src/user/composables/useArcTaskLogic.js:174-199 | the verdict is stored and acted on as `AfterCheck` says, and exactly the check entry appended, carrying the attempt it was made on |
| TaskSession.Session.HandleSubmitAttempt | src/user/composables/useArcTaskLogic.js:136-151 | a repeat is refused with no change; the first non-tutorial submission is remembered, asks for a description and appends exactly the prompt entry; any other is remembered and checked, appending exactly the check entry |
| TaskSession.Session.PromptFirstDescription | src/user/composables/useArcTaskLogic.js:142-148 | the submission is remembered, the description asked for, and exactly the prompt entry appended |
| TaskSession.Session.SaveTaskData | src/user/composables/useArcTaskLogic.js:90-104 | the task's record and log copy are stored under its index when it has one |
| TaskSession.Session.OnFinish | src/user/composables/useArcTaskLogic.js:203-205 | the finish callback is registered |
| TaskSession.Session.FinishTask | src/user/composables/useArcTaskLogic.js:207-210 | the task is saved and the callback called once if registered |
| TaskSession.Session.SubmitTaskDescription | src/user/composables/useArcTaskLogic.js:153-171 | blank text: nothing; a first description is recorded and the pending submission checked, appending exactly the description entry and then the check entry; otherwise the final description is recorded, exactly its entry appended, and the task finished |
| TaskSession.Session.RecordFirstDescription | src/user/composables/useArcTaskLogic.js:159-164 | the first description is recorded and the pending submission checked; exactly the description entry, with the context before the check, then the check entry are appended |
| TaskSession.Session.HandleCellInteraction | src/user/composables/useArcTaskLogic.js:213-215 | the engine's draw or fill on the output grid with the engine's push-and-discard undo rules, and exactly the engine's report logged as the next entry |
| TaskSession.Session.UpdateOutputGridSize | src/user/composables/useArcTaskLogic.js:284-286 | same size: nothing; otherwise the engine's resize keeping the overlap, with the old cells pushed and the selection cleared, and its report logged |
| TaskSession.Session.ResetOutputGrid | src/user/composables/useArcTaskLogic.js:245-247 | the engine's reset to 3x3 zeros, symbol 0 and the edit tool, with the old cells pushed and no selection, and its report logged |
| TaskSession.Session.UndoLastAction | src/user/composables/useArcTaskLogic.js:284-289 | empty history: nothing; otherwise the newest snapshot comes back with its size, the history is popped, the selection cleared, and the undo logged |
| TaskSession.Session.UpdateSelectedCellsOnOutputGrid | src/user/composables/useArcTaskLogic.js:217-219 | the selection is replaced and the update logged with its size; nothing else changes |
| TaskSession.Session.UpdateSelectedCellsOnInputGrid | src/user/composables/useArcTaskLogic.js:221-223 | the call throws: the engine member it calls is undefined |
| TaskSession.Session.ChangeColorOfSelectedOutputCells | src/user/composables/useArcTaskLogic.js:233-235 | the engine's recolouring: the selection recoloured, the push kept and the change logged only when a cell changed |
| TaskSession.Session.CopyFromSelectedCells | src/user/composables/useArcTaskLogic.js:225-227 | the engine copies from the output grid (the input grid passed is ignored); a selected row past the grid throws with no change; otherwise the clipboard and origin, logged |
| TaskSession.Session.PasteToOutputCells | src/user/composables/useArcTaskLogic.js:229-231 | the engine's paste at the one selected cell, the push kept and the paste logged only on change, and the selection cleared |
| TaskSession.Session.CopyInputToOutput | src/user/composables/useArcTaskLogic.js:237-239 | the output becomes a copy of the input grid with its size, the old cells pushed, the selection cleared, logged |
| TaskSession.Session.AutoSolve | src/user/composables/useArcTaskLogic.js:241-243 | with an answer, the output becomes it and solves the task, the old cells pushed and the selection kept, logged; otherwise nothing changes |
| LegacyTaskLogic.SavedSnapshots | src/user/composables/useARCTaskLogic.js:105-136 | saved entries are numbered 1, 2, 3, ..., name their action and keep their details |
| LegacyTaskLogic.LegacyTask.constructor | src/user/composables/useARCTaskLogic.js:24-62 | 3x3 grids, attempt 1, no signature, nothing solved, described or logged |
| LegacyTaskLogic.LegacyTask.LogActionInternal | src/user/composables/useARCTaskLogic.js:105-120 | appends the next numbered entry, carrying the output grid's text |
| LegacyTaskLogic.LegacyTask.Restart | src/user/composables/useARCTaskLogic.js:64-75 | a fresh attempt, log, signature and description state, an empty history and clipboard, no selection |
| LegacyTaskLogic.LegacyTask.LoadTask | src/user/composables/useARCTaskLogic.js:63-102 | the reset also empties history and clipboard; a failed response, no test pairs, or an empty first input (caught, with the missing-row error) leaves the input and output alone and the log is exactly the failure entry with its message; otherwise the first pair is installed, the output reset, and the log is exactly the reset entry then the success entry |
| LegacyTaskLogic.LegacyTask.Install | src/user/composables/useARCTaskLogic.js:88-94 | the first test pair is installed with its input built as `new Grid` builds it, the output reset, and exactly the reset entry then the success entry appended, each with the new output grid's text |
| LegacyTaskLogic.LegacyTask.CheckAndProcessSubmittedSolution | src/user/composables/useARCTaskLogic.js:413-440 | the task is updated by the verdict on the output grid, and exactly the check entry appended, with the attempt it was made on and the verdict |
| LegacyTaskLogic.LegacyTask.RecordVerdict | src/user/composables/useARCTaskLogic.js:414-439 | the verdict is stored and acted on as `AfterCheck` says, and exactly the check entry appended |
| LegacyTaskLogic.LegacyTask.HandleSubmitAttempt | src/user/composables/useARCTaskLogic.js:375-391 | a grid with the previous text is refused with no change; otherwise its text is remembered, and the submission either asks for a description, appending exactly the prompt entry, or is checked, appending exactly the check entry |
| LegacyTaskLogic.LegacyTask.PromptFirstDescription | src/user/composables/useARCTaskLogic.js:381-388 | the text is remembered, the description asked for, and exactly the prompt entry appended |
| LegacyTaskLogic.LegacyTask.SaveTaskData | src/user/composables/useARCTaskLogic.js:122-136 | the record goes under the task's name unless the name is empty |
| LegacyTaskLogic.LegacyTask.OnFinish | src/user/composables/useARCTaskLogic.js:453-455 | the finish callback is registered |
| LegacyTaskLogic.LegacyTask.FinishTask | src/user/composables/useARCTaskLogic.js:442-450 | the task is saved and the callback called if registered |
| LegacyTaskLogic.LegacyTask.SubmitTaskDescription | src/user/composables/useARCTaskLogic.js:393-411 | blank text: nothing; a first description is recorded and checked, appending exactly the description entry then the check entry; otherwise the final one is recorded, exactly its entry appended, and the task finished |
| LegacyTaskLogic.LegacyTask.RecordFirstDescription | src/user/composables/useARCTaskLogic.js:398-403 | the first description is recorded and the pending submission checked; exactly the description entry, then the check entry, are appended |
| LegacyTaskLogic.LegacyTask.UpdateOutputGridSize | src/user/composables/useARCTaskLogic.js:150-158 | same size: nothing; otherwise resized as the engine does, and the resize logged with the new output grid's text |
| LegacyTaskLogic.LegacyTask.ResetOutputGrid | src/user/composables/useARCTaskLogic.js:160-169 | reset as the engine does, and the reset logged as the next entry |
| LegacyTaskLogic.LegacyTask.CopyInputToOutput | src/user/composables/useARCTaskLogic.js:171-183 | the output becomes the input grid with its size, the old cells pushed and the selection cleared, logged |
| LegacyTaskLogic.LegacyTask.UndoLastAction | src/user/composables/useARCTaskLogic.js:185-196 | empty history: nothing; otherwise the newest snapshot is restored with its size, the history popped, and the undo logged |
| LegacyTaskLogic.LegacyTask.HandleCellInteraction | src/user/composables/useARCTaskLogic.js:198-270 | drawing sets the cell, a fill click fills the region, anything else leaves the cells; the engine's undo rules; each entry logged under the name the source gives it |
| LegacyTaskLogic.LegacyTask.UpdateSelectedCellsOnOutputGrid | src/user/composables/useARCTaskLogic.js:272-275 | the selection is replaced and logged under its own action name |
| LegacyTaskLogic.LegacyTask.ChangeColorOfSelectedOutputCells | src/user/composables/useARCTaskLogic.js:277-301 | recoloured as the engine does, the push kept and the change logged only when a cell changed; the selection stays |
| LegacyTaskLogic.LegacyTask.CopyFromSelectedOutputCells | src/user/composables/useARCTaskLogic.js:303-320 | a selected row past the grid throws with no change; otherwise the clipboard holds the selected cells and their minimum corner, logged under its own action name |
| LegacyTaskLogic.LegacyTask.PasteToOutputCells | src/user/composables/useARCTaskLogic.js:322-354 | pasted as the engine does, but logged under its own action name, and the target stays selected |
| LegacyTaskLogic.LegacyTask.AutoSolve | src/user/composables/useARCTaskLogic.js:458-470 | with an answer, the output becomes it with the old cells pushed, logged; otherwise nothing |
| ArcExperiment.TraceProperties | src/user/composables/useArcExperiment.js:310-331 | the trace never overwrites `action` and carries the entry's number |
| ArcExperiment.SavedTraces | src/user/composables/useArcExperiment.js:310-352 | saved entries are numbered in order and name their action; trace properties win a clash and other details are kept |
| ArcExperiment.QuizIgnoresTrailingText | src/user/composables/useArcExperiment.js:191-209 | "no", 3, 5 and 1 pass, alone or followed by text that does not continue the number |
| ArcExperiment.ReadsLeadingDigits | src/user/composables/useArcExperiment.js:196-198 | radix-less `parseInt` reads a decimal number followed by other text as that number |
| ArcExperiment.SameWithoutRadix | src/user/composables/useArcExperiment.js:196-198 | without a `0x` prefix, an absent radix reads decimal |
| ArcExperiment.Checked | src/user/composables/useArcExperiment.js:618-660 | the task session's check, except that a tutorial solved at the first attempt also sets its final description |
| ArcExperiment.Experiment.constructor | src/user/composables/useArcExperiment.js:77-94 | up to five tasks drawn from the file names, in the tutorial-slides phase, with exactly the slides entry logged |
| ArcExperiment.Experiment.LogAction | src/user/composables/useArcExperiment.js:310-331 | appends the next numbered entry with the trace; nothing else changes |
| ArcExperiment.Experiment.PrepareTaskList | src/user/composables/useArcExperiment.js:131-149 | the task list is the first five of a permutation of the file names |
| ArcExperiment.Experiment.StartTutorialSlides | src/user/composables/useArcExperiment.js:152-155 | the tutorial-slides phase, logged |
| ArcExperiment.Experiment.LoadTaskIntoState | src/user/composables/useArcExperiment.js:246-272 | no test pairs: a 3x3 zero input and output; an empty first input throws with only the pair stored; otherwise the first input built as `new Grid` builds it, and a reset output |
| ArcExperiment.Experiment.InstallPair | src/user/composables/useArcExperiment.js:263-268 | the input is built from the pair as `new Grid` builds it, and the output reset and logged |
| ArcExperiment.LoadedInput | src/user/composables/useArcExperiment.js:250-264 | the installed input is a grid of the first input's dimensions, equal to it when it is a grid, and 3x3 zeros without test pairs |
| ArcExperiment.Experiment.StartTutorialTask | src/user/composables/useArcExperiment.js:157-176 | a fresh tutorial task and an empty history; without the file nothing more; an empty first input throws with only the pair stored; otherwise the file is loaded, the editor is `Loaded` from the emptied history (a reset when there are test pairs, 3x3 zeros otherwise), and the log is exactly the reset entry, when there are test pairs, then the start entry |
| ArcExperiment.Experiment.LoadTutorialFile | src/user/composables/useArcExperiment.js:168-171 | the tutorial file is kept and loaded; an empty first input throws before the log; otherwise the editor is `Loaded` and the log is exactly the reset entry, when there are test pairs, then the load entry with the file's name |
| ArcExperiment.Experiment.CompleteTutorialTaskPhase | src/user/composables/useArcExperiment.js:178-189 | the solved or exhausted outcome is logged, and the quiz follows |
| ArcExperiment.Experiment.SubmitTutorialQuiz | src/user/composables/useArcExperiment.js:191-209 | exactly the answers entry then the outcome entry are appended, with the tutorial trace; passing answers start the experiment at task 0; otherwise the quiz stays |
| ArcExperiment.Experiment.LogQuiz | src/user/composables/useArcExperiment.js:192-207 | exactly the answers entry then the correct or incorrect entry are appended; nothing else changes |
| ArcExperiment.Experiment.StartMainExperiment | src/user/composables/useArcExperiment.js:211-215 | the experiment phase at task 0, whose load comes next |
| ArcExperiment.Experiment.BeginTask | src/user/composables/useArcExperiment.js:223-234 | the task's name, attempt 1, no verdict, descriptions, signature, log or history |
| ArcExperiment.Experiment.LoadExperimentTask | src/user/composables/useArcExperiment.js:217-244 | past the list the experiment finishes; otherwise the task and history are reset and the file loaded, the editor `Loaded` and the log exactly the reset entry, when there are test pairs, then the load entry with the index and name; or, when its fetch failed, skipped with the end entry if it was the last; an empty first input throws before the log |
| ArcExperiment.Experiment.LoadTaskFile | src/user/composables/useArcExperiment.js:236-239 | the file is loaded; an empty first input throws before the log; otherwise the editor is `Loaded` and the log is exactly the reset entry, when there are test pairs, then the load entry with the task's index and name |
| ArcExperiment.Experiment.MoveToNextTaskOrFinish | src/user/composables/useArcExperiment.js:274-287 | the task is saved; the tutorial goes to the quiz, and an experiment task to the next task or to the end |
| ArcExperiment.Experiment.FinishExperimentPhase | src/user/composables/useArcExperiment.js:289-294 | the end is logged and the phase is finished |
| ArcExperiment.Experiment.SubmitFeedbackAndExit | src/user/composables/useArcExperiment.js:296-307 | the feedback is kept and logged, and the task saved |
| ArcExperiment.Experiment.SaveCurrentTaskData | src/user/composables/useArcExperiment.js:333-352 | the log copy goes under the task's name unless it is empty, and the task's summary is recorded |
| ArcExperiment.Experiment.CheckAndProcessSubmittedSolution | src/user/composables/useArcExperiment.js:618-660 | without a test pair or its answer, it throws with no change; otherwise exactly the `CheckEntries` are appended and the task becomes `Checked` |
| ArcExperiment.Experiment.ApplyVerdict | src/user/composables/useArcExperiment.js:620-659 | exactly the verdict entry, with its attempt, verdict and phase, and for a first-try tutorial the first-try entry, are appended, and the task becomes `Checked` |
| ArcExperiment.Experiment.SubmitSolutionAttempt | src/user/composables/useArcExperiment.js:573-589 | a repeat is refused with no change; the first experiment submission asks for a description, appending exactly the prompt entry; any other is remembered and checked, appending exactly its `CheckEntries` |
| ArcExperiment.Experiment.SignAndCheck | src/user/composables/useArcExperiment.js:579-588 | the grid's text is remembered and the submission checked, appending exactly its `CheckEntries` |
| ArcExperiment.Experiment.PromptFirstDescription | src/user/composables/useArcExperiment.js:581-586 | the description is asked for and the prompt logged |
| ArcExperiment.Experiment.SubmitWrittenDescription | src/user/composables/useArcExperiment.js:591-616 | blank text: nothing; the first description entry is appended and, in the tutorial or the experiment, the pending submission checked, appending exactly its `CheckEntries` after it; a later one is final, logged and saved, and the experiment moves on |
| ArcExperiment.Experiment.SubmitFirstDescription | src/user/composables/useArcExperiment.js:597-606 | the first description entry is appended with its trace; in the tutorial task or the experiment the check follows, throwing without an answer, and appends exactly its `CheckEntries` |
| ArcExperiment.Experiment.SubmitFinalDescription | src/user/composables/useArcExperiment.js:607-615 | the final description is logged and the log saved under the task's name; the tutorial then goes to the quiz with its outcome logged, an experiment task to the next task or to the logged end |
| ArcExperiment.Experiment.CheckPending | src/user/composables/useArcExperiment.js:602-606 | the held submission is checked: it throws without an answer, otherwise exactly its `CheckEntries` are appended and the task becomes `Checked` |
| ArcExperiment.Experiment.RecordDescription | src/user/composables/useArcExperiment.js:597-615 | the text becomes the first or final description, the prompt is closed, and the description logged |
| ArcExperiment.Experiment.UpdateOutputGridSize | src/user/composables/useArcExperiment.js:360-370 | resized as the engine does, and logged |
| ArcExperiment.Experiment.ResetOutputGrid | src/user/composables/useArcExperiment.js:372-382 | reset as the engine does, and logged |
| ArcExperiment.Experiment.CopyInputToOutput | src/user/composables/useArcExperiment.js:384-396 | the output becomes the input grid, logged |
| ArcExperiment.Experiment.UndoLastAction | src/user/composables/useArcExperiment.js:407-418 | the newest snapshot is restored, logged |
| ArcExperiment.Experiment.HandleCellInteraction | src/user/composables/useArcExperiment.js:441-482 | edit and fill clicks and edit presses push even without change; drawing writes the symbol and logs a changed cell; the fill replaces the cells by the depth-first fill of a copy and is always logged |
| ArcExperiment.Experiment.DrawAt | src/user/composables/useArcExperiment.js:445-468 | the cell takes the symbol; a change is logged |
| ArcExperiment.Experiment.StrokeAt | src/user/composables/useArcExperiment.js:445-479 | a press, click or held move with the edit tool writes the symbol; a release with it logs the end of a drag; other events change nothing |
| ArcExperiment.Experiment.FloodFillAt | src/user/composables/useArcExperiment.js:453-458 | the cells become the fill, logged whether or not it changed a cell |
| ArcExperiment.Experiment.UpdateSelectedCells | src/user/composables/useArcExperiment.js:484-488 | the selection is replaced and logged |
| ArcExperiment.Experiment.ChangeColorOfSelectedCells | src/user/composables/useArcExperiment.js:490-502 | with a selection, whatever the tool: push, recolour, always log, clear the selection |
| ArcExperiment.Experiment.CopySelectedOutputCells | src/user/composables/useArcExperiment.js:504-523 | a selected row past the grid throws with no change; otherwise the clipboard holds the selected cells and their minimum corner, logged |
| ArcExperiment.Experiment.PasteCopiedCells | src/user/composables/useArcExperiment.js:525-551 | with a clipboard, the select tool and one selected cell: push kept, paste, always logged, selection cleared |
| ArcExperiment.Experiment.AutoSolveCurrentTask | src/user/composables/useArcExperiment.js:663-675 | with a pair: push, and the output becomes its answer; a pair without an answer throws after the push; no pair: nothing |

## Left out

- Network fetches are parameters: the fetched task file, or None when the fetch failed. This covers `fetchTaskData`, the inline `fetch` of `useARCTaskLogic.js` and `_fetchTaskData`. URL building and JSON parsing are not modelled. A body that is not JSON counts as a failed fetch.
- `LegacyTaskLogic.LegacyTask.LoadTask`: when the fetch itself is rejected or the body is not JSON, the source logs the runtime's own `error.message` (`useARCTaskLogic.js` lines 95-100). The model does not know that text, so it logs "Failed to fetch task <name>" there, the message of a response that is not ok.
- `async` and `await`: a step that awaits the next task's load returns the index of the task to load instead. The caller hands that index to `LoadExperimentTask`. Interleavings of concurrent handlers are not modelled.
- Timestamps (`new Date().toISOString()`) are left out of every log entry, because the model has no clock.
- User notifications, `console` output and the `beforeunload` handler are left out, because they change no modelled state. This covers `successMsg`, `errorMsg` and `infoMsg`.
- `viewApi.goNextView` and `sleep` are left out for the same reason.
- `getExamplePairsForDisplay` and the display-only computed values are left out, because they only format data for the page.
- The persistent store `smileStore.data.arc` is a ghost map. `recordProperty` is kept as a ghost map of one `Recorded` record per task. The source makes its four `task_<name>_...` calls together, so a record holds all four.
- `_initializeExperimentState` reads earlier log entries from the store. The model starts from an empty log, because the store's earlier contents are outside the model.
- `Array.from` and `forEach` over a selection set follow insertion order. The model walks the set in an unspecified order, so the order of the clipboard's entries is not modelled. A paste does not depend on it, because the entries come from distinct cells.
- `TaskSession.ContextProperties`: logs the output selection as a set of positions. `logActionInternal` logs it as an array of `"x,y"` strings in insertion order (`useArcTaskLogic.js` lines 82-83), so the order and the text form of `selected_cells` are not modelled.
- `GridEditing.UndefinedSymbol`: a column past the end of its row copies JavaScript's `undefined`. The model writes it as the symbol -1, so how the page draws it and how JSON writes it (`null`) are not modelled. The text signature is affected too: `ArcUtils.GridToString` writes such a cell as "-1", where `join('')` writes `undefined` as the empty string.
- `TaskSession.Session.LoadTask`, `TaskSession.Session.Install`, `LegacyTaskLogic.LegacyTask.LoadTask` and `LegacyTaskLogic.LegacyTask.Install`: require the first test pair's answer, when there is one, to be a grid of at least one row with rows of equal length. The ARC task files hold such grids. The source stores the answer unchecked and reads it only when it checks or auto-solves.
- `ArcExperiment.Experiment.LoadTaskIntoState`, `ArcExperiment.Experiment.StartTutorialTask`, `ArcExperiment.Experiment.LoadExperimentTask` and their helpers: require the same of the first test pair's answer, for the same reason.
- `GridEngine.Engine.UpdateOutputGridSize`: requires a height of at least 1. A height of 0 would make a later undo read `prevState[0]` of an empty grid and throw; the size box never produces one.
- `TaskSession.Session.UpdateOutputGridSize`: requires a height of at least 1, for the same reason, because it calls the engine's resize.
- `LegacyTaskLogic.LegacyTask.UpdateOutputGridSize`: requires a height of at least 1, for the same reason.
- `ArcExperiment.Experiment.UpdateOutputGridSize`: requires a height of at least 1, for the same reason.
- `TaskSession.Plain` details: each session requires that a caller's details do not use the name `action` or the entry-number name. Every call site in the source passes fixed names.
- `useArcTaskLogic.js`'s `updateSelectedCellsOnInputGrid` and `copiedCellData` read members the engine does not return. The first is modelled as a call that throws. The second is never used in a way that changes state.
- `ArcExperiment.Experiment.LoadExperimentTask`: requires the experiment phase, which is the only phase in which the source calls it.
- `currentTestPairIndex` is always 0 in the source, so the first test pair is the one used.
- `UiUtils.ShuffleArray`: the random choice of each swap partner is nondeterministic. The contract states a permutation, not a uniform distribution.
- JavaScript's `-0` and `NaN` are not values of the model. `parseInt` returns an integer or None, and `-0` reads as 0.
- The tutorial slides' content and the page layout are not part of this model. `src/user/design.js` and `src/user/assets/arcEvalFileNames.js` are not part of this model either; the file names are a parameter.

## Findings

| source | as written | input that shows it | evidently intended | confidence | as-written member | corrected member |
|---|---|---|---|---|---|---|
| src/user/composables/useArcTaskLogic.js:117 | `loadTask` calls `selectedInputCells.value.clear()`. `selectedInputCells` is taken from the engine, which does not return it, so the call throws after the reset and before the fetch. | any call of `loadTask` | reset the output selection only, then fetch and install the task | not executed | TaskSession.Session.LoadTaskAsWritten | TaskSession.Session.LoadTask |
