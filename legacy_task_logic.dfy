/**
 * The earlier, self-contained task composable (useARCTaskLogic.js). It holds
 * the output-grid editing of useGridManipulation.js in the same closure as
 * the task's attempt, verdict and description state; its editing half is the
 * same code, so here it is the output-grid engine. Where the two differ this
 * module says so: each log entry carries the output grid's `row|row` text
 * instead of the editing state, the previous submission is remembered by that
 * text, the task is saved under its name, loading also empties the history
 * and the clipboard, a paste keeps the selection, and three actions are
 * logged under other names.
 */
module LegacyTaskLogic {
  import opened ArcConstants
  import opened ArcUtils
  import opened RegionFill
  import opened UiUtils
  import opened UndoStack
  import opened GridEditing
  import opened GridEngine
  import opened TaskSession

  /**
   * What `_logActionInternal` records besides the caller's details, its
   * timestamp left out; the output grid is written out as its text when the
   * entry is flattened.
   */
  datatype Snapshot = Snapshot(taskName: string, isTutorial: bool, attempt: int, solved: bool, grid: Cells)

  /** The snapshot of entry `number` as the properties written before the caller's details. */
  function SnapshotProperties(c: Snapshot, number: int): (e: Entry)
    ensures "action" !in e && NumberKey in e && e[NumberKey] == Num(number)
  {
    map[
      "task_name" := Text(c.taskName),
      "is_tutorial" := Flag(c.isTutorial),
      "attempt_for_task" := Num(c.attempt),
      "action_number_in_task" := Num(number),
      "task_is_solved" := Flag(c.solved),
      "current_output_grid_snapshot" := Text(GridToString(Some(c.grid)))
    ]
  }

  /** The object pushed on `arcLogEntries`: `{ action, ...snapshot, ...details }`. */
  function FlattenSnapshot(e: LogEntry<Snapshot>): Entry {
    CreateLogEntry(e.action, SnapshotProperties(e.context, e.number) + e.details)
  }

  /** `JSON.parse(JSON.stringify(arcLogEntries.value))`: the log as plain objects. */
  function FlattenedSnapshots(log: seq<LogEntry<Snapshot>>): (r: seq<Entry>)
    ensures |r| == |log| && forall k :: 0 <= k < |log| ==> r[k] == FlattenSnapshot(log[k])
  {
    seq(|log|, k requires 0 <= k < |log| => FlattenSnapshot(log[k]))
  }

  /**
   * The saved objects are numbered 1, 2, 3, ... in order, each names its
   * action and holds every detail of its entry unchanged.
   */
  lemma SavedSnapshots(log: seq<LogEntry<Snapshot>>, count: int)
    requires Numbered(log, count)
    ensures forall k :: 0 <= k < count ==>
      var e := FlattenedSnapshots(log)[k];
      && NumberKey in e && e[NumberKey] == Num(k + 1)
      && "action" in e && e["action"] == Text(log[k].action)
      && forall d :: d in log[k].details ==> d in e && e[d] == log[k].details[d]
  {
    forall k | 0 <= k < count
      ensures var e := FlattenedSnapshots(log)[k];
        && NumberKey in e && e[NumberKey] == Num(k + 1)
        && "action" in e && e["action"] == Text(log[k].action)
        && forall d :: d in log[k].details ==> d in e && e[d] == log[k].details[d]
    {
      var c := SnapshotProperties(log[k].context, log[k].number);
      forall d | d in log[k].details
        ensures d in FlattenSnapshot(log[k]) && FlattenSnapshot(log[k])[d] == log[k].details[d]
      {
        assert d in c + log[k].details && (c + log[k].details)[d] == log[k].details[d];
      }
    }
  }

  /**
   * The message of the TypeError that reading `.length` of a missing first
   * row throws, as V8 words it.
   */
  const MissingRowMessage: string := "Cannot read properties of undefined (reading 'length')"

  /** What `_saveTaskDataToSmileStore` stores under the task's name. */
  datatype LegacyRecord = LegacyRecord(
    isSolved: bool, attempts: int, firstDescription: string, finalDescription: string,
    actionLogs: seq<Entry>)

  class LegacyTask {
    const taskName: string
    const isTutorial: bool
    /** The output grid, its size, the history, the tool and symbol, the selection and the clipboard. */
    const editor: Engine
    /** The task's refs; the previous submission is its `row|row` text. */
    var state: SessionState<string>
    /** `numActionsInTask` and `arcLogEntries`. */
    var numActions: int
    var log: seq<LogEntry<Snapshot>>
    /** How often the registered finish callback was called. */
    ghost var finishCalls: nat
    /** `smilestore.data.arc`, keyed by task name. */
    ghost var store: map<string, LegacyRecord>

    ghost predicate Valid()
      reads this, editor
    {
      && editor.Valid()
      && Numbered(log, numActions)
      && IsGrid(state.inputGrid)
      && (state.testPair.Some? ==> AnswerIsGrid(state.testPair.value))
    }

    /** The entry `_logActionInternal` makes while the output grid holds `cells`, as entry number `number`. */
    function EntryFor(action: string, details: Entry, cells: Cells, number: int): LogEntry<Snapshot>
      reads this
    {
      EntryAt(state.attempt, state.isSolved, action, details, cells, number)
    }

    /** The entry made as entry number `number` on attempt `attempt`, with the verdict `solved`. */
    function EntryAt(attempt: int, solved: bool, action: string, details: Entry, cells: Cells, number: int): LogEntry<Snapshot>
      reads this
    {
      LogEntry(action, number, Snapshot(taskName, isTutorial, attempt, solved, cells), details)
    }

    /** The entry the check makes on attempt `attempt`: the verdict, with the attempt it was made on. */
    function CheckEntry(attempt: int, correct: bool, number: int): LogEntry<Snapshot>
      reads this, editor, editor.grid
    {
      EntryAt(attempt, correct, "submit_solution_check",
              map["attemptNumber" := Num(attempt), "isCorrect" := Flag(correct)], Contents(editor.grid), number)
    }

    /** What is saved for the task: its state and a copy of its log. */
    function Record(): LegacyRecord
      reads this
    {
      LegacyRecord(state.isSolved, state.attempt, state.firstDescription, state.finalDescription,
                   FlattenedSnapshots(log))
    }

    /** The store after saving: the record under the task's name, unless the name is empty. */
    ghost function SavedInto(before: map<string, LegacyRecord>): map<string, LegacyRecord>
      reads this
    {
      if taskName != "" then before[taskName := Record()] else before
    }

    /** The log after `before` when the engine's report, if any, is logged under `action`. */
    ghost predicate LogsAs(before: seq<LogEntry<Snapshot>>, reported: Option<Report>, action: string)
      reads this
    {
      log == before + if reported.Some? then
        [EntryFor(action, reported.value.details, reported.value.view.cells, |before| + 1)] else []
    }

    /** The log after `before` when the engine's report, if any, is logged under its own name. */
    ghost predicate LogsReport(before: seq<LogEntry<Snapshot>>, reported: Option<Report>)
      reads this
    {
      log == before + if reported.Some? then
        [EntryFor(reported.value.action, reported.value.details, reported.value.view.cells, |before| + 1)] else []
    }

    /** The state before loading: 3x3 grids, attempt 1, no signature, nothing solved, described or logged. */
    constructor (taskName: string, isTutorial: bool)
      ensures Valid() && fresh(editor) && fresh(editor.grid)
      ensures this.taskName == taskName && this.isTutorial == isTutorial
      ensures state == SessionState(None, BuildGrid(DefaultHeight, DefaultWidth, []), None, 1, false, "",
                                    false, true, "", "", false)
      ensures log == [] && store == map[] && finishCalls == 0
    {
      this.taskName, this.isTutorial := taskName, isTutorial;
      var e := new Engine();
      editor := e;
      state := SessionState(None, BuildGrid(DefaultHeight, DefaultWidth, []), None, 1, false, "",
                            false, true, "", "", false);
      numActions, log := 0, [];
      finishCalls, store := 0, map[];
    }

    /** `_logActionInternal(action, details)`: the next numbered entry, with the text of `cells`. */
    method LogActionInternal(action: string, details: Entry, cells: Cells)
      requires Valid() && Plain(details)
      modifies this
      ensures Valid() && state == old(state) && store == old(store) && finishCalls == old(finishCalls)
      ensures log == old(log) + [EntryFor(action, details, cells, old(numActions) + 1)]
    {
      numActions := numActions + 1;
      log := log + [EntryFor(action, details, cells, numActions)];
    }

    /** Logs the engine's report, if any, under `action`. */
    method ForwardAs(reported: Option<Report>, action: string)
      requires Valid() && (reported.Some? ==> Plain(reported.value.details))
      modifies this
      ensures Valid() && state == old(state) && store == old(store) && finishCalls == old(finishCalls)
      ensures LogsAs(old(log), reported, action)
    {
      if reported.Some? {
        LogActionInternal(action, reported.value.details, reported.value.view.cells);
      }
    }

    /** Logs the engine's report, if any, under its own name. */
    method Forward(reported: Option<Report>)
      requires Valid() && (reported.Some? ==> Plain(reported.value.details))
      modifies this
      ensures Valid() && state == old(state) && store == old(store) && finishCalls == old(finishCalls)
      ensures LogsReport(old(log), reported)
    {
      if reported.Some? {
        LogActionInternal(reported.value.action, reported.value.details, reported.value.view.cells);
      }
    }

    /**
     * The reset at the start of `loadTask`: a fresh attempt, log, signature
     * and description state, an empty history and clipboard, no selection.
     */
    method Restart()
      requires Valid()
      modifies this, editor
      ensures Valid() && log == [] && store == old(store) && finishCalls == old(finishCalls)
      ensures state == Restarted(old(state)).(previousSignature := "")
      ensures editor.grid == old(editor.grid)
      ensures editor.State() == old(editor.State()).(undo := [], selection := {}, clipboard := [], origin := (0, 0))
    {
      numActions, log := 0, [];
      state := Restarted(state).(previousSignature := "");
      editor.undo, editor.selection, editor.clipboard, editor.origin := [], {}, [], (0, 0);
    }

    /**
     * `loadTask` once the fetch has answered (`responseOk`, and the parsed
     * body or None). Every failure is caught and logged with its error
     * message, leaving the input alone: a failed response, a body without
     * test pairs, and a first test input without rows, which throws at
     * `inputData[0].length` after the test pair is taken. Otherwise the
     * first test input is built into the input grid and the output grid
     * reset. Either way the log restarts at entry 1.
     */
    method LoadTask(responseOk: bool, body: Option<TaskData>)
      requires Valid()
      requires responseOk && body.Some? && |body.value.test| > 0 ==> AnswerIsGrid(body.value.test[0])
      modifies this, editor
      ensures Valid() && store == old(store) && finishCalls == old(finishCalls)
      ensures !responseOk ==>
        && state == Restarted(old(state)).(previousSignature := "")
        && editor.grid == old(editor.grid)
        && editor.State() == old(editor.State()).(undo := [], selection := {}, clipboard := [], origin := (0, 0))
        && log == [EntryFor("load_task_failed", map["name" := Text(taskName), "error" := Text("Failed to fetch task " + taskName)],
                            Contents(editor.grid), 1)]
      ensures responseOk && (body.None? || |body.value.test| == 0) ==>
        && state == Restarted(old(state)).(previousSignature := "", taskData := body)
        && editor.grid == old(editor.grid)
        && editor.State() == old(editor.State()).(undo := [], selection := {}, clipboard := [], origin := (0, 0))
        && log == [EntryFor("load_task_failed", map["name" := Text(taskName), "error" := Text("Task JSON is invalid or has no test pairs.")],
                            Contents(editor.grid), 1)]
      ensures responseOk && body.Some? && EmptyFirstInput(body.value) ==>
        && state == Restarted(old(state)).(previousSignature := "", taskData := body, testPair := Some(body.value.test[0]))
        && editor.grid == old(editor.grid)
        && editor.State() == old(editor.State()).(undo := [], selection := {}, clipboard := [], origin := (0, 0))
        && log == [EntryFor("load_task_failed", map["name" := Text(taskName), "error" := Text(MissingRowMessage)],
                            Contents(editor.grid), 1)]
      ensures responseOk && body.Some? && |body.value.test| > 0 && |body.value.test[0].input| > 0 ==>
        var input := body.value.test[0].input;
        && state == Restarted(old(state)).(previousSignature := "", taskData := body,
                                           testPair := Some(body.value.test[0]),
                                           inputGrid := BuildGrid(|input|, |input[0]|, input))
        && editor.State() == old(editor.State()).(cells := BuildGrid(DefaultHeight, DefaultWidth, []),
                                                  height := DefaultHeight, width := DefaultWidth,
                                                  undo := [old(Contents(editor.grid))], selection := {},
                                                  symbol := DefaultSymbol, tool := Edit, clipboard := [], origin := (0, 0))
        && log == [EntryFor("reset_output_grid", map[], Contents(editor.grid), 1),
                   EntryFor("load_task_success", map["name" := Text(taskName)], Contents(editor.grid), 2)]
    {
      Restart();
      if !responseOk {
        LogActionInternal("load_task_failed",
                          map["name" := Text(taskName), "error" := Text("Failed to fetch task " + taskName)],
                          Contents(editor.grid));
      } else if body.None? || |body.value.test| == 0 {
        state := state.(taskData := body);
        LogActionInternal("load_task_failed",
                          map["name" := Text(taskName), "error" := Text("Task JSON is invalid or has no test pairs.")],
                          Contents(editor.grid));
      } else if EmptyFirstInput(body.value) {
        state := state.(taskData := body, testPair := Some(body.value.test[0]));
        LogActionInternal("load_task_failed", map["name" := Text(taskName), "error" := Text(MissingRowMessage)],
                          Contents(editor.grid));
      } else {
        Install(body.value);
      }
    }

    /**
     * The successful end of `loadTask`: the first test input is built into
     * the input grid (`new Grid` takes its height and its first row's
     * width), the output grid is reset and success logged.
     */
    method Install(data: TaskData)
      requires Valid() && |data.test| > 0 && |data.test[0].input| > 0 && AnswerIsGrid(data.test[0])
      modifies this, editor
      ensures Valid() && store == old(store) && finishCalls == old(finishCalls)
      ensures var input := data.test[0].input;
        state == old(state).(taskData := Some(data), testPair := Some(data.test[0]),
                             inputGrid := BuildGrid(|input|, |input[0]|, input))
      ensures editor.State() == old(editor.State()).(cells := BuildGrid(DefaultHeight, DefaultWidth, []),
                                                     height := DefaultHeight, width := DefaultWidth,
                                                     undo := Push(old(editor.undo), old(Contents(editor.grid))),
                                                     selection := {}, symbol := DefaultSymbol, tool := Edit)
      ensures log == old(log) + [EntryFor("reset_output_grid", map[], Contents(editor.grid), |old(log)| + 1),
                                 EntryFor("load_task_success", map["name" := Text(taskName)], Contents(editor.grid),
                                          |old(log)| + 2)]
    {
      var pair := data.test[0];
      state := state.(taskData := Some(data), testPair := Some(pair),
                      inputGrid := BuildGrid(|pair.input|, |pair.input[0]|, pair.input));
      var reported := editor.ResetOutputGrid();
      ForwardAs(reported, "reset_output_grid");
      LogActionInternal("load_task_success", map["name" := Text(taskName)], Contents(editor.grid));
    }

    /**
     * `_checkAndProcessSubmittedSolution`: the verdict on the output grid is
     * logged with the attempt it was made on; a correct one asks for the
     * description, an incorrect one costs an attempt and asks for the
     * description once more than three attempts have been used.
     */
    method CheckAndProcessSubmittedSolution()
      requires Valid()
      modifies this
      ensures Valid() && store == old(store) && finishCalls == old(finishCalls)
      ensures state == AfterCheck(old(state), Solves(old(state.testPair), Contents(editor.grid)))
      ensures log == old(log) + [CheckEntry(old(state.attempt), Solves(old(state.testPair), Contents(editor.grid)), |old(log)| + 1)]
    {
      var reference := if state.testPair.Some? then state.testPair.value.output else None;
      var ok := VerifySolution(reference, editor.grid);
      ContentsIsGrid(editor.grid);
      if reference.Some? {
        MatchesIffEqual(reference.value, Contents(editor.grid));
      }
      RecordVerdict(ok);
    }

    /** The verdict is stored and logged with the attempt it was made on, then acted on. */
    method RecordVerdict(ok: bool)
      requires Valid()
      modifies this
      ensures Valid() && store == old(store) && finishCalls == old(finishCalls)
      ensures state == AfterCheck(old(state), ok)
      ensures log == old(log) + [CheckEntry(old(state.attempt), ok, |old(log)| + 1)]
    {
      ghost var before := state;
      state := state.(isSolved := ok);
      LogActionInternal("submit_solution_check", map["attemptNumber" := Num(state.attempt), "isCorrect" := Flag(ok)],
                        Contents(editor.grid));
      VerdictOverwritten(before, ok);
      state := AfterCheck(state, ok);
    }

    /**
     * `handleSubmitAttempt`: after the first attempt, a grid with the text
     * of the previous submission is refused without any change; otherwise
     * the text is remembered, and the first non-tutorial submission asks for
     * the first description instead of being checked.
     */
    method HandleSubmitAttempt()
      requires Valid()
      modifies this
      ensures Valid() && store == old(store) && finishCalls == old(finishCalls)
      ensures old(RefusedAsRepeat(state, Contents(editor.grid))) ==> state == old(state) && log == old(log)
      ensures !old(RefusedAsRepeat(state, Contents(editor.grid))) && old(state.isFirstDescription) && !isTutorial ==>
        && state == old(state).(previousSignature := GridToString(Some(Contents(editor.grid))),
                                isWritingDescription := true)
        && log == old(log) + [EntryFor("prompt_first_description", map[], Contents(editor.grid), |old(log)| + 1)]
      ensures !old(RefusedAsRepeat(state, Contents(editor.grid))) && !(old(state.isFirstDescription) && !isTutorial) ==>
        && state == AfterCheck(old(state).(previousSignature := GridToString(Some(Contents(editor.grid)))),
                               Solves(old(state.testPair), Contents(editor.grid)))
        && log == old(log) + [CheckEntry(old(state.attempt), Solves(old(state.testPair), Contents(editor.grid)), |old(log)| + 1)]
    {
      if RefusedAsRepeat(state, Contents(editor.grid)) {
        return;
      }
      var text := GridToString(Some(Contents(editor.grid)));
      if state.isFirstDescription && !isTutorial {
        PromptFirstDescription(text);
        return;
      }
      state := state.(previousSignature := text);
      CheckAndProcessSubmittedSolution();
    }

    /** The first submission of a non-tutorial task: its text is remembered and the first description asked for. */
    method PromptFirstDescription(text: string)
      requires Valid()
      modifies this
      ensures Valid() && store == old(store) && finishCalls == old(finishCalls)
      ensures state == old(state).(previousSignature := text, isWritingDescription := true)
      ensures log == old(log) + [EntryFor("prompt_first_description", map[], Contents(editor.grid), |old(log)| + 1)]
    {
      state := state.(previousSignature := text, isWritingDescription := true);
      LogActionInternal("prompt_first_description", map[], Contents(editor.grid));
    }

    /** `_saveTaskDataToSmileStore`: the task's record goes under its name, unless the name is empty. */
    method SaveTaskData()
      requires Valid()
      modifies this
      ensures Valid() && state == old(state) && log == old(log) && finishCalls == old(finishCalls)
      ensures store == SavedInto(old(store))
    {
      if taskName != "" {
        store := store[taskName := Record()];
      }
    }

    /** `onFinish(cb)`: registers the callback `_finishTask` calls. */
    method OnFinish()
      requires Valid()
      modifies this
      ensures Valid() && state == old(state).(hasFinishCallback := true)
      ensures log == old(log) && store == old(store) && finishCalls == old(finishCalls)
    {
      state := state.(hasFinishCallback := true);
    }

    /** `_finishTask`: saves the task, then calls the registered callback if there is one. */
    method FinishTask()
      requires Valid()
      modifies this
      ensures Valid() && state == old(state) && log == old(log)
      ensures store == SavedInto(old(store))
      ensures finishCalls == old(finishCalls) + if state.hasFinishCallback then 1 else 0
    {
      SaveTaskData();
      if state.hasFinishCallback {
        finishCalls := finishCalls + 1;
      }
    }

    /**
     * `submitTaskDescription(text)`: blank text is refused; the first
     * description of a non-tutorial task is recorded and the pending
     * submission is checked; any other description, and every description in
     * a tutorial, is the final one and finishes the task, solved or not.
     */
    method SubmitTaskDescription(text: string)
      requires Valid()
      modifies this
      ensures Valid()
      ensures IsBlank(text) ==>
        state == old(state) && log == old(log) && store == old(store) && finishCalls == old(finishCalls)
      ensures !IsBlank(text) && old(state.isFirstDescription) && !isTutorial ==>
        && state == AfterCheck(old(state).(firstDescription := text, isFirstDescription := false,
                                           isWritingDescription := false),
                               Solves(old(state.testPair), Contents(editor.grid)))
        && log == old(log) + [EntryAt(old(state.attempt), old(state.isSolved), "submit_first_description", map["description" := Text(text)],
                                      Contents(editor.grid), |old(log)| + 1),
                              CheckEntry(old(state.attempt), Solves(old(state.testPair), Contents(editor.grid)), |old(log)| + 2)]
        && store == old(store) && finishCalls == old(finishCalls)
      ensures !IsBlank(text) && !(old(state.isFirstDescription) && !isTutorial) ==>
        && state == old(state).(finalDescription := text, isWritingDescription := false)
        && log == old(log) + [EntryFor("submit_final_description", map["description" := Text(text)],
                                      Contents(editor.grid), |old(log)| + 1)]
        && store == SavedInto(old(store))
        && finishCalls == old(finishCalls) + if state.hasFinishCallback then 1 else 0
    {
      if IsBlank(text) {
        return;
      }
      if state.isFirstDescription && !isTutorial {
        RecordFirstDescription(text);
      } else {
        state := state.(finalDescription := text, isWritingDescription := false);
        LogActionInternal("submit_final_description", map["description" := Text(text)], Contents(editor.grid));
        FinishTask();
      }
    }

    /** The first-description branch of `submitTaskDescription`: the text is recorded, then the pending submission checked. */
    method RecordFirstDescription(text: string)
      requires Valid()
      modifies this
      ensures Valid() && store == old(store) && finishCalls == old(finishCalls)
      ensures state == AfterCheck(old(state).(firstDescription := text, isFirstDescription := false,
                                              isWritingDescription := false),
                                  Solves(old(state.testPair), Contents(editor.grid)))
      ensures log == old(log) + [EntryAt(old(state.attempt), old(state.isSolved), "submit_first_description", map["description" := Text(text)],
                                         Contents(editor.grid), |old(log)| + 1),
                                 CheckEntry(old(state.attempt), Solves(old(state.testPair), Contents(editor.grid)), |old(log)| + 2)]
    {
      // The flags are cleared after the entry is made; the entry does not show them.
      state := state.(firstDescription := text, isFirstDescription := false, isWritingDescription := false);
      LogActionInternal("submit_first_description", map["description" := Text(text)], Contents(editor.grid));
      CheckAndProcessSubmittedSolution();
    }

    // The editing operations: the engine's, each report logged as the next entry.

    /** `updateOutputGridSize(h, w)`: as the engine resizes; a change of size is logged with the new grid. */
    method UpdateOutputGridSize(h: nat, w: nat)
      requires Valid() && h >= 1
      modifies this, editor
      ensures Valid() && state == old(state) && store == old(store) && finishCalls == old(finishCalls)
      ensures h == old(editor.height) && w == old(editor.width) ==> editor.State() == old(editor.State()) && log == old(log)
      ensures !(h == old(editor.height) && w == old(editor.width)) ==>
        && editor.State() == old(editor.State()).(cells := BuildGrid(h, w, old(Contents(editor.grid))), height := h, width := w,
                                                  undo := Push(old(editor.undo), old(Contents(editor.grid))), selection := {})
        && log == old(log) + [EntryFor("resize_output_grid", map["newHeight" := Num(h), "newWidth" := Num(w)],
                                       Contents(editor.grid), |old(log)| + 1)]
    {
      var reported := editor.UpdateOutputGridSize(h, w);
      Forward(reported);
    }

    /** `resetOutputGrid`: a 3x3 zero grid, symbol 0, the edit tool, no selection; the reset is logged. */
    method ResetOutputGrid()
      requires Valid()
      modifies this, editor
      ensures Valid() && state == old(state) && store == old(store) && finishCalls == old(finishCalls)
      ensures editor.State() == old(editor.State()).(cells := BuildGrid(DefaultHeight, DefaultWidth, []),
                                                     height := DefaultHeight, width := DefaultWidth,
                                                     undo := Push(old(editor.undo), old(Contents(editor.grid))),
                                                     selection := {}, symbol := DefaultSymbol, tool := Edit)
      ensures log == old(log) + [EntryFor("reset_output_grid", map[], Contents(editor.grid), |old(log)| + 1)]
    {
      var reported := editor.ResetOutputGrid();
      Forward(reported);
    }

    /** `copyInputToOutput`: the output becomes a copy of the task's input grid, which is always present. */
    method CopyInputToOutput()
      requires Valid()
      modifies this, editor
      ensures Valid() && state == old(state) && store == old(store) && finishCalls == old(finishCalls)
      ensures editor.State() == old(editor.State()).(cells := state.inputGrid, height := |state.inputGrid|,
                                                     width := |state.inputGrid[0]|,
                                                     undo := Push(old(editor.undo), old(Contents(editor.grid))),
                                                     selection := {})
      ensures log == old(log) + [EntryFor("copy_input_to_output", map[], state.inputGrid, |old(log)| + 1)]
    {
      var reported := editor.CopyInputToOutput(Some(state.inputGrid));
      Forward(reported);
    }

    /** `undoLastAction`: the newest snapshot comes back with its size; the undo is logged. */
    method UndoLastAction()
      requires Valid()
      modifies this, editor
      ensures Valid() && state == old(state) && store == old(store) && finishCalls == old(finishCalls)
      ensures old(editor.undo) == [] ==> editor.State() == old(editor.State()) && log == old(log)
      ensures old(editor.undo) != [] ==>
        var prev := old(editor.undo)[|old(editor.undo)| - 1];
        && editor.State() == old(editor.State()).(cells := prev, height := |prev|, width := |prev[0]|,
                                                  undo := Pop(old(editor.undo)), selection := {})
        && log == old(log) + [EntryFor("undo", map[], prev, |old(log)| + 1)]
    {
      var reported := editor.UndoLastAction();
      Forward(reported);
    }

    /**
     * `handleCellInteraction`: drawing with the edit tool sets the cell, a
     * click with the fill tool fills its region (`_floodfill` is the same
     * breadth-first fill as the engine's), anything else leaves the cells.
     * A click or a primary-button mousedown pushes the old cells only when
     * the cell differed; a click logs only when something changed.
     */
    method HandleCellInteraction(ev: PointerEvent, x: int, y: int)
      requires Valid() && 0 <= x < editor.height && 0 <= y < editor.width
      modifies this, editor, editor.grid
      ensures Valid() && state == old(state) && store == old(store) && finishCalls == old(finishCalls)
      ensures editor.grid == old(editor.grid)
      ensures editor.State() == old(editor.State()).(cells := Contents(editor.grid), undo := editor.undo)
      ensures editor.Draws(ev) ==> Contents(editor.grid) == SetCell(old(Contents(editor.grid)), x, y, editor.symbol)
      ensures ev == Click && editor.tool == FloodFill ==>
        IsFill(old(Contents(editor.grid)), Contents(editor.grid), x, y, editor.symbol)
      ensures !editor.Draws(ev) && !(ev == Click && editor.tool == FloodFill) ==>
        Contents(editor.grid) == old(Contents(editor.grid))
      ensures (ev == Click || (ev.MouseDown? && ev.buttons == 1)) && editor.tool == Edit ==>
        editor.undo == if old(editor.grid[x, y]) != editor.symbol
                       then Push(old(editor.undo), old(Contents(editor.grid))) else old(editor.undo)
      ensures ev == Click && editor.tool == FloodFill ==>
        editor.undo == if old(editor.grid[x, y]) != editor.symbol then Push(old(editor.undo), old(Contents(editor.grid)))
                       else Pop(Push(old(editor.undo), old(Contents(editor.grid))))
      ensures !(ev == Click && editor.tool != Select) && !(ev.MouseDown? && ev.buttons == 1 && editor.tool == Edit) ==>
        editor.undo == old(editor.undo)
      ensures log == old(log) +
        if ev == Click && editor.tool == Edit && old(editor.grid[x, y]) != editor.symbol then
          [EntryFor("draw_cell_click", map["x" := Num(x), "y" := Num(y), "symbol" := Num(editor.symbol)],
                    Contents(editor.grid), |old(log)| + 1)]
        else if ev == Click && editor.tool == FloodFill && old(editor.grid[x, y]) != editor.symbol then
          [EntryFor("floodfill_cell", map["x" := Num(x), "y" := Num(y), "symbol" := Num(editor.symbol)],
                    Contents(editor.grid), |old(log)| + 1)]
        else if ev == MouseUp && editor.tool == Edit then
          [EntryFor("draw_cell_drag_end", map["final_x" := Num(x), "final_y" := Num(y), "symbol" := Num(editor.symbol)],
                    Contents(editor.grid), |old(log)| + 1)]
        else []
    {
      var reported := editor.HandleCellInteraction(ev, x, y);
      Forward(reported);
    }

    /** `updateSelectedCellsOnOutputGrid`: the selection is replaced and logged as `output_grid_selection_updated`. */
    method UpdateSelectedCellsOnOutputGrid(newSelection: set<Pos>)
      requires Valid()
      modifies this, editor
      ensures Valid() && state == old(state) && store == old(store) && finishCalls == old(finishCalls)
      ensures editor.State() == old(editor.State()).(selection := newSelection)
      ensures log == old(log) + [EntryFor("output_grid_selection_updated", map["count" := Num(|newSelection|)],
                                          Contents(editor.grid), |old(log)| + 1)]
    {
      var reported := editor.UpdateSelectedCells(newSelection);
      ForwardAs(reported, "output_grid_selection_updated");
    }

    /**
     * `changeColorOfSelectedOutputCells`: as the engine recolours, logged
     * with the new grid when a cell changed; the selection stays.
     */
    method ChangeColorOfSelectedOutputCells()
      requires Valid()
      modifies this, editor, editor.grid
      ensures Valid() && state == old(state) && store == old(store) && finishCalls == old(finishCalls)
      ensures editor.grid == old(editor.grid)
      ensures |old(editor.selection)| > 0 && old(editor.tool) == Select ==>
        var recoloured := Recolor(old(Contents(editor.grid)), editor.selection, editor.symbol);
        var pushed := Push(old(editor.undo), old(Contents(editor.grid)));
        var changed := recoloured != old(Contents(editor.grid));
        && editor.State() == old(editor.State()).(cells := recoloured, undo := if changed then pushed else Pop(pushed))
        && log == old(log) + if changed then
             [EntryFor("change_color_selected_cells",
                       map["symbol" := Num(editor.symbol), "count" := Num(|editor.selection|)],
                       recoloured, |old(log)| + 1)]
           else []
      ensures !(|old(editor.selection)| > 0 && old(editor.tool) == Select) ==>
        editor.State() == old(editor.State()) && log == old(log)
    {
      var reported := editor.ChangeColorOfSelectedCells();
      Forward(reported);
    }

    /**
     * `copyFromSelectedOutputCells`: with the select tool and a non-empty
     * selection, the clipboard holds the selected cells and their smallest
     * corner, logged as `copy_output_cells_to_clipboard`; a selected row
     * the grid lacks makes the copy throw before anything is stored.
     */
    method CopyFromSelectedOutputCells() returns (crashed: bool)
      requires Valid()
      modifies this, editor
      ensures Valid() && state == old(state) && store == old(store) && finishCalls == old(finishCalls)
      ensures crashed <==>
        |old(editor.selection)| > 0 && old(editor.tool) == Select && !RowsExist(old(editor.selection), old(editor.height))
      ensures |old(editor.selection)| == 0 || old(editor.tool) != Select || crashed ==>
        editor.State() == old(editor.State()) && log == old(log)
      ensures |old(editor.selection)| > 0 && old(editor.tool) == Select && !crashed ==>
        && editor.State() == old(editor.State()).(clipboard := editor.clipboard, origin := editor.origin)
        && CopiedFrom(editor.clipboard, Contents(editor.grid), editor.selection)
        && IsMinCorner(editor.selection, editor.origin)
        && log == old(log) + [EntryFor("copy_output_cells_to_clipboard", map["count" := Num(|editor.clipboard|)],
                                       Contents(editor.grid), |old(log)| + 1)]
    {
      var reported;
      reported, crashed := editor.CopySelectedCells();
      ForwardAs(reported, "copy_output_cells_to_clipboard");
    }

    /**
     * `pasteToOutputCells`: as the engine pastes, but logged as
     * `paste_cells_to_output_grid`, and the target stays selected.
     */
    method PasteToOutputCells()
      requires Valid()
      modifies this, editor, editor.grid
      ensures Valid() && state == old(state) && store == old(store) && finishCalls == old(finishCalls)
      ensures editor.grid == old(editor.grid)
      ensures !(|old(editor.clipboard)| > 0 && |old(editor.selection)| == 1 && old(editor.tool) == Select) ==>
        editor.State() == old(editor.State()) && log == old(log)
      ensures |old(editor.clipboard)| > 0 && |old(editor.selection)| == 1 && old(editor.tool) == Select ==>
        exists target :: old(editor.selection) == {target} &&
          var pasted := Pasted(old(Contents(editor.grid)), editor.clipboard, editor.origin, target);
          var pushed := Push(old(editor.undo), old(Contents(editor.grid)));
          && editor.State() == old(editor.State()).(cells := pasted,
                                                    undo := if pasted != old(Contents(editor.grid)) then pushed else Pop(pushed))
          && log == old(log) + if pasted != old(Contents(editor.grid)) then
               [EntryFor("paste_cells_to_output_grid",
                         map["targetX" := Num(target.0), "targetY" := Num(target.1), "count" := Num(|editor.clipboard|)],
                         pasted, |old(log)| + 1)]
             else []
    {
      if |editor.clipboard| == 0 || |editor.selection| != 1 || editor.tool != Select {
        return;
      }
      editor.PushToUndoStack();
      var target :| target in editor.selection;
      OnlyElement(editor.selection, target);
      var pasted := PasteCells(editor.grid, editor.clipboard, editor.origin, target);
      if pasted {
        LogActionInternal("paste_cells_to_output_grid",
                          map["targetX" := Num(target.0), "targetY" := Num(target.1), "count" := Num(|editor.clipboard|)],
                          Contents(editor.grid));
      } else {
        editor.DiscardUndo();
      }
    }

    /**
     * `autoSolve`: when the task has an answer, the output becomes a copy of
     * it with the old cells pushed and the selection kept, logged with the
     * answer's text; otherwise nothing changes.
     */
    method AutoSolve()
      requires Valid()
      modifies this, editor
      ensures Valid() && state == old(state) && store == old(store) && finishCalls == old(finishCalls)
      ensures state.testPair.Some? && state.testPair.value.output.Some? ==>
        var answer := state.testPair.value.output.value;
        && Solves(state.testPair, Contents(editor.grid))
        && editor.State() == old(editor.State()).(cells := answer, height := |answer|, width := |answer[0]|,
                                                  undo := Push(old(editor.undo), old(Contents(editor.grid))))
        && log == old(log) + [EntryFor("auto_solve_task", map[], answer, |old(log)| + 1)]
      ensures !(state.testPair.Some? && state.testPair.value.output.Some?) ==>
        editor.State() == old(editor.State()) && log == old(log)
    {
      var reported := editor.AutoSolve(if state.testPair.Some? then state.testPair.value.output else None);
      Forward(reported);
    }
  }
}
