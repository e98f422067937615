/**
 * One task of the experiment (useArcTaskLogic.js): the task's input grid and
 * test pair, the attempt counter, the solved flag, the description flags and
 * texts, the signature of the previous submission and the task's log, around
 * the output-grid engine. Every engine report becomes a numbered log entry.
 * Fetching the task file is a parameter (the fetched data, or None), and the
 * persistent store is a ghost map.
 */
module TaskSession {
  import opened ArcConstants
  import opened ArcUtils
  import opened RegionFill
  import opened UiUtils
  import opened UndoStack
  import opened GridEditing
  import opened GridEngine

  /** A test pair of the task file; `output` is absent for a hidden answer. */
  datatype TestPair = TestPair(input: Cells, output: Option<Cells>)

  /** The fetched task file; only its test pairs are used here. */
  datatype TaskData = TaskData(test: seq<TestPair>)

  /** What `saveTaskDataToSmileStore` stores under the task's index. */
  datatype SavedRecord = SavedRecord(
    taskName: string, datasetType: string, isSolved: bool, attempts: int,
    firstDescription: string, finalDescription: string, actionLogs: seq<Entry>)

  const NumberKey: string := "action_number_in_task"

  /** The test pair's answer, when it has one, is a grid the editor can install and compare against. */
  predicate AnswerIsGrid(pair: TestPair) {
    pair.output.Some? ==> IsGrid(pair.output.value)
  }

  /** The task file's first test input has no row, so reading `inputData[0].length` throws. */
  predicate EmptyFirstInput(data: TaskData) {
    |data.test| > 0 && |data.test[0].input| == 0
  }

  /** Details that do not overwrite the entry's action name or number. */
  predicate Plain(details: Entry) {
    "action" !in details && NumberKey !in details
  }

  /**
   * What `logActionInternal` records besides the caller's details: the task,
   * the attempt, the entry's number, the solved flag, both grids and the
   * editing state at the time of the entry.
   */
  datatype Context = Context(
    taskName: string, taskIndex: Option<int>, datasetType: string, isTutorial: bool,
    attempt: int, solved: bool, view: View, input: Cells)

  /** A log entry before it is flattened into one object: its action, its number in the task, its context and details. */
  datatype LogEntry<C> = LogEntry(action: string, number: int, context: C, details: Entry)

  /** The context of entry `number` as the properties `logActionInternal` writes before the caller's details. */
  function ContextProperties(c: Context, number: int): (e: Entry)
    ensures "action" !in e && NumberKey in e && e[NumberKey] == Num(number)
  {
    map[
      "task_name" := Text(c.taskName),
      "task_index" := (if c.taskIndex.Some? then Num(c.taskIndex.value) else Undefined),
      "dataset_type" := Text(c.datasetType),
      "is_tutorial" := Flag(c.isTutorial),
      "attempt_for_task" := Num(c.attempt),
      "action_number_in_task" := Num(number),
      "task_is_solved" := Flag(c.solved),
      "test_output_grid" := Matrix(c.view.cells),
      "test_output_size" := Nums([c.view.height, c.view.width]),
      "test_input_grid" := Matrix(c.input),
      "test_input_size" := Nums([|c.input|, Width(c.input)]),
      "selected_tool" := Text(ToolName(c.view.tool)),
      "selected_symbol" := Num(c.view.symbol),
      "selected_cells" := Coords(c.view.selection)
    ]
  }

  /** The object pushed on `arcLogEntries`: `createLogEntry(action, { ...context, ...details })`. */
  function Flatten(e: LogEntry<Context>): Entry {
    CreateLogEntry(e.action, ContextProperties(e.context, e.number) + e.details)
  }

  /**
   * With plain details, the flattened entry names its action, carries its
   * number and holds every detail unchanged.
   */
  lemma FlattenKeeps(e: LogEntry<Context>)
    requires Plain(e.details)
    ensures "action" in Flatten(e) && Flatten(e)["action"] == Text(e.action)
    ensures NumberKey in Flatten(e) && Flatten(e)[NumberKey] == Num(e.number)
    ensures forall k :: k in e.details ==> k in Flatten(e) && Flatten(e)[k] == e.details[k]
  {
    var c := ContextProperties(e.context, e.number);
    forall k | k in e.details
      ensures k in Flatten(e) && Flatten(e)[k] == e.details[k]
    {
      assert k in c + e.details && (c + e.details)[k] == e.details[k];
    }
  }

  /** `JSON.parse(JSON.stringify(arcLogEntries))`: the log as plain objects. */
  function Flattened(log: seq<LogEntry<Context>>): (r: seq<Entry>)
    ensures |r| == |log| && forall k :: 0 <= k < |log| ==> r[k] == Flatten(log[k])
  {
    seq(|log|, k requires 0 <= k < |log| => Flatten(log[k]))
  }

  /** Entry k carries number k + 1, the counter is the number of entries, and no details clash. */
  ghost predicate Numbered<C>(log: seq<LogEntry<C>>, count: int) {
    && count == |log|
    && forall k :: 0 <= k < |log| ==> log[k].number == k + 1 && Plain(log[k].details)
  }

  /** The saved objects are numbered 1, 2, 3, ... in order. */
  lemma SavedNumbering(log: seq<LogEntry<Context>>, count: int)
    requires Numbered(log, count)
    ensures forall k :: 0 <= k < count ==> NumberKey in Flattened(log)[k] && Flattened(log)[k][NumberKey] == Num(k + 1)
  {
    forall k | 0 <= k < count
      ensures NumberKey in Flattened(log)[k] && Flattened(log)[k][NumberKey] == Num(k + 1)
    {
      FlattenKeeps(log[k]);
    }
  }

  /**
   * Everything the session holds apart from the engine, the log and the
   * action counter; `Sig` is how the previous submission is remembered.
   */
  datatype SessionState<Sig> = SessionState(
    taskData: Option<TaskData>, inputGrid: Cells, testPair: Option<TestPair>,
    attempt: int, isSolved: bool, previousSignature: Sig,
    isWritingDescription: bool, isFirstDescription: bool,
    firstDescription: string, finalDescription: string, hasFinishCallback: bool)

  /** Whether `cells` is the test pair's answer (`verifySolution` on well-formed grids). */
  predicate Solves(pair: Option<TestPair>, cells: Cells) {
    pair.Some? && pair.value.output.Some? && pair.value.output.value == cells
  }

  /**
   * The session after `checkAndProcessSubmittedSolution` with the given
   * verdict: a correct answer is solved and asks for a description with the
   * attempt unchanged; a wrong one uses up an attempt, and the description is
   * asked for once the attempt passes the maximum.
   */
  function AfterCheck<S>(s: SessionState<S>, correct: bool): SessionState<S> {
    if correct then s.(isSolved := true, isWritingDescription := true)
    else s.(isSolved := false, attempt := s.attempt + 1,
            isWritingDescription := s.isWritingDescription || s.attempt + 1 > MaxAttemptsPerTask)
  }

  /** The check sets the verdict itself, whatever the state held before. */
  lemma VerdictOverwritten<S>(s: SessionState<S>, correct: bool)
    ensures AfterCheck(s.(isSolved := correct), correct) == AfterCheck(s, correct)
  {
  }

  /** The session after `n` wrong answers in a row. */
  function Misses<S>(s: SessionState<S>, n: nat): SessionState<S> {
    if n == 0 then s else AfterCheck(Misses(s, n - 1), false)
  }

  /**
   * Nothing stops wrong answers once the attempts are used up: after `n`
   * misses the attempt has grown by exactly `n`, the task is unsolved, the
   * descriptions and the input are untouched, and the description is asked
   * for as soon as the attempt passes the maximum.
   */
  lemma {:induction false} AttemptsKeepCounting<S>(s: SessionState<S>, n: nat)
    ensures Misses(s, n).attempt == s.attempt + n
    ensures n > 0 ==> !Misses(s, n).isSolved
    ensures Misses(s, n).isWritingDescription <==>
              s.isWritingDescription || (n > 0 && s.attempt + n > MaxAttemptsPerTask)
    ensures Misses(s, n).(attempt := s.attempt, isSolved := s.isSolved, isWritingDescription := s.isWritingDescription) == s
  {
    if n > 0 {
      var m := Misses(s, n - 1);
      AttemptsKeepCounting(s, n - 1);
      assert Misses(s, n).(attempt := s.attempt, isSolved := s.isSolved, isWritingDescription := s.isWritingDescription)
          == m.(attempt := s.attempt, isSolved := s.isSolved, isWritingDescription := s.isWritingDescription);
    }
  }

  /** From a fresh task, the third wrong answer leaves attempt 4 and asks for the description. */
  lemma ThirdMissAsksForDescription<S>(s: SessionState<S>)
    requires s.attempt == 1
    ensures Misses(s, 3).attempt == MaxAttemptsPerTask + 1 && Misses(s, 3).isWritingDescription
    ensures Misses(s, 2).attempt == MaxAttemptsPerTask && Misses(s, 2).isWritingDescription == s.isWritingDescription
  {
    AttemptsKeepCounting(s, 3);
    AttemptsKeepCounting(s, 2);
  }

  /** A correct answer keeps the attempt; a wrong one costs exactly one: the verdict decides `isSolved`. */
  lemma CheckOutcome<S>(s: SessionState<S>, correct: bool)
    ensures AfterCheck(s, correct).isSolved == correct
    ensures AfterCheck(s, correct).attempt == if correct then s.attempt else s.attempt + 1
    ensures AfterCheck(s, correct).isWritingDescription <==>
              correct || s.isWritingDescription || s.attempt >= MaxAttemptsPerTask
  {
  }

  /** The reset at the start of `loadTask`; the signature, data, input and test pair are cleared or set later. */
  function Restarted<S>(s: SessionState<S>): SessionState<S> {
    s.(attempt := 1, isSolved := false, isWritingDescription := false, isFirstDescription := true,
       firstDescription := "", finalDescription := "")
  }

  /**
   * useARCTaskLogic.js and useArcExperiment.js remember the previous
   * submission as its `row|row` text: after the first attempt, a grid whose
   * text equals the previous submission's is refused.
   */
  predicate RefusedAsRepeat(s: SessionState<string>, g: Cells) {
    s.attempt > 1 && s.previousSignature == GridToString(Some(g))
  }

  /** With one-digit symbols, comparing texts refuses exactly the grid submitted last time. */
  lemma RefusesOnlyTheSameGrid(s: SessionState<string>, previous: Cells, g: Cells)
    requires s.previousSignature == GridToString(Some(previous))
    requires |previous| >= 1 && DigitGrid(previous) && |g| >= 1 && DigitGrid(g)
    ensures RefusedAsRepeat(s, g) <==> s.attempt > 1 && g == previous
  {
    if RefusedAsRepeat(s, g) {
      SignatureInjective(g, previous);
    }
  }

  /** With a two-digit symbol, a different grid is refused as a repeat. */
  lemma RefusesADifferentWideGrid(s: SessionState<string>)
    requires s.attempt > 1 && s.previousSignature == GridToString(Some([[1, 23]]))
    ensures RefusedAsRepeat(s, [[12, 3]]) && [[12, 3]] != [[1, 23]]
  {
    SignatureCollidesBeyondDigits();
  }

  /** The engine members useGridManipulation.js returns. */
  const EngineMembers: set<string> := {
    "currentOutputGrid", "outputGridHeight", "outputGridWidth", "selectedTool", "selectedSymbol",
    "selectedCells", "undoStack", "updateOutputGridSize", "resetOutputGrid", "copyInputToOutput",
    "undoLastAction", "handleCellInteraction", "updateSelectedCells", "changeColorOfSelectedCells",
    "copySelectedCells", "pasteCopiedCells", "autoSolve", "pushToUndoStack"}

  /** The members useArcTaskLogic.js takes from the engine. */
  const UsedMembers: set<string> := {
    "currentOutputGrid", "outputGridHeight", "outputGridWidth", "selectedTool", "selectedSymbol",
    "selectedCells", "selectedInputCells", "updateOutputGridSize", "resetOutputGrid", "copyInputToOutput",
    "undoLastAction", "handleCellInteraction", "updateSelectedCells", "updateSelectedInputCells",
    "changeColorOfSelectedCells", "copySelectedCells", "pasteCopiedCells", "autoSolve", "copiedCellData"}

  /** Three of the members the session takes are not there: they are undefined. */
  lemma UndefinedEngineMembers()
    ensures UsedMembers - EngineMembers == {"selectedInputCells", "updateSelectedInputCells", "copiedCellData"}
    ensures "selectedInputCells" !in EngineMembers && "updateSelectedInputCells" !in EngineMembers
  {
  }

  class Session {
    const taskName: string
    /** `taskIndex`, which may be undefined (None). */
    const taskIndex: Option<int>
    const datasetType: string
    const isTutorial: bool
    const engine: Engine
    /** The task's refs: its data, input grid, test pair, attempt, verdict, signature and description state. */
    var state: SessionState<Option<Cells>>
    /** `numActionsInTask` and `arcLogEntries`. */
    var numActions: int
    var log: seq<LogEntry<Context>>
    /** How often the registered finish callback was called. */
    ghost var finishCalls: nat
    /** `smilestore.data.arc`. */
    ghost var store: map<int, SavedRecord>

    ghost predicate Valid()
      reads this, engine
    {
      && engine.Valid()
      && Numbered(log, numActions)
      && IsGrid(state.inputGrid)
      && (state.testPair.Some? ==> AnswerIsGrid(state.testPair.value))
    }

    /** The entry made as entry number `number` on attempt `attempt`, with the verdict `solved` and the current input grid. */
    function EntryAt(attempt: int, solved: bool, action: string, details: Entry, view: View, number: int): LogEntry<Context>
      reads this
    {
      LogEntry(action, number, Context(taskName, taskIndex, datasetType, isTutorial, attempt,
                                       solved, view, state.inputGrid), details)
    }

    /** The entry `logActionInternal` makes now, as entry number `number`. */
    function EntryFor(action: string, details: Entry, view: View, number: int): LogEntry<Context>
      reads this
    {
      EntryAt(state.attempt, state.isSolved, action, details, view, number)
    }

    /** The entry the check makes on attempt `attempt`: the verdict, with the attempt it was made on. */
    function CheckEntry(attempt: int, correct: bool, number: int): LogEntry<Context>
      reads this, engine, engine.grid
    {
      EntryAt(attempt, correct, "submit_solution_check",
              map["attemptNumber" := Num(attempt), "isCorrect" := Flag(correct)], engine.Now(), number)
    }

    /** What is saved for the task: its state and a copy of its log. */
    function Record(): SavedRecord
      reads this
    {
      SavedRecord(taskName, datasetType, state.isSolved, state.attempt,
                  state.firstDescription, state.finalDescription, Flattened(log))
    }

    /** The store after saving the task: the record under the task's index, when there is one. */
    ghost function SavedInto(before: map<int, SavedRecord>): map<int, SavedRecord>
      reads this
    {
      if taskIndex.Some? then before[taskIndex.value := Record()] else before
    }

    /** The log after `before` when the engine's report, if any, is logged as the next entry. */
    ghost predicate LogsReport(before: seq<LogEntry<Context>>, reported: Option<Report>)
      reads this
    {
      log == before + if reported.Some? then
        [EntryFor(reported.value.action, reported.value.details, reported.value.view, |before| + 1)] else []
    }

    /** The state before loading: a 3x3 input, attempt 1, nothing solved, described or logged. */
    constructor (taskName: string, taskIndex: Option<int>, datasetType: string, isTutorial: bool)
      ensures Valid() && fresh(engine) && fresh(engine.grid)
      ensures this.taskName == taskName && this.taskIndex == taskIndex
      ensures this.datasetType == datasetType && this.isTutorial == isTutorial
      ensures state == SessionState(None, BuildGrid(DefaultHeight, DefaultWidth, []), None, 1, false, None,
                                    false, true, "", "", false)
      ensures log == [] && store == map[] && finishCalls == 0
    {
      this.taskName, this.taskIndex := taskName, taskIndex;
      this.datasetType, this.isTutorial := datasetType, isTutorial;
      var e := new Engine();
      engine := e;
      state := SessionState(None, BuildGrid(DefaultHeight, DefaultWidth, []), None, 1, false, None,
                            false, true, "", "", false);
      numActions, log := 0, [];
      finishCalls, store := 0, map[];
    }

    /** `logActionInternal(action, details)`: the next numbered entry, with the state of `view`. */
    method LogActionInternal(action: string, details: Entry, view: View)
      requires Valid() && Plain(details)
      modifies this
      ensures Valid() && state == old(state) && store == old(store) && finishCalls == old(finishCalls)
      ensures log == old(log) + [EntryFor(action, details, view, old(numActions) + 1)]
    {
      numActions := numActions + 1;
      log := log + [EntryFor(action, details, view, numActions)];
    }

    /** The `logAction` callback the engine is given: its report, if any, becomes the next entry. */
    method Forward(reported: Option<Report>)
      requires Valid() && (reported.Some? ==> Plain(reported.value.details))
      modifies this
      ensures Valid() && state == old(state) && store == old(store) && finishCalls == old(finishCalls)
      ensures LogsReport(old(log), reported)
    {
      if reported.Some? {
        LogActionInternal(reported.value.action, reported.value.details, reported.value.view);
      }
    }

    /** The reset at the start of `loadTask`: a fresh attempt, log and description state, and no output selection. */
    method Restart()
      requires Valid()
      modifies this, engine
      ensures Valid() && log == [] && store == old(store) && finishCalls == old(finishCalls)
      ensures state == Restarted(old(state))
      ensures engine.grid == old(engine.grid) && engine.State() == old(engine.State()).(selection := {})
    {
      numActions, log := 0, [];
      state := Restarted(state);
      engine.ClearSelection();
    }

    /**
     * `loadTask` as written: after the reset it reads `.value` of the input
     * selection, which the engine never returns, and throws before the
     * previous signature is cleared or the task is fetched.
     */
    method LoadTaskAsWritten() returns (crashed: bool)
      requires Valid()
      modifies this, engine
      ensures crashed
      ensures Valid() && log == [] && store == old(store) && finishCalls == old(finishCalls)
      ensures state == Restarted(old(state))
      ensures engine.grid == old(engine.grid) && engine.State() == old(engine.State()).(selection := {})
    {
      Restart();
      UndefinedEngineMembers();
      crashed := "selectedInputCells" !in EngineMembers;
    }

    /**
     * `loadTask` once the fetch has answered, without the input-selection
     * reset: a missing file or one without test pairs is logged as a
     * failure and leaves the input alone; an empty first input throws at
     * `inputData[0].length`, after the pair is stored; otherwise the input
     * is built from the first test input and the output grid is reset. The
     * log restarts either way.
     */
    method LoadTask(fetched: Option<TaskData>) returns (crashed: bool)
      requires Valid()
      requires fetched.Some? && |fetched.value.test| > 0 ==> AnswerIsGrid(fetched.value.test[0])
      modifies this, engine
      ensures Valid() && store == old(store) && finishCalls == old(finishCalls)
      ensures crashed <==> fetched.Some? && EmptyFirstInput(fetched.value)
      ensures fetched.None? || |fetched.value.test| == 0 ==>
        && state == Restarted(old(state)).(previousSignature := None, taskData := fetched)
        && engine.grid == old(engine.grid) && engine.State() == old(engine.State()).(selection := {})
        && log == [EntryFor("load_task_failed", map["name" := Text(taskName), "error" := Text("Invalid task JSON")],
                            engine.Now(), 1)]
      ensures crashed ==>
        && state == Restarted(old(state)).(previousSignature := None, taskData := fetched,
                                           testPair := Some(fetched.value.test[0]))
        && engine.grid == old(engine.grid) && engine.State() == old(engine.State()).(selection := {})
        && log == []
      ensures fetched.Some? && |fetched.value.test| > 0 && !crashed ==>
        var input := fetched.value.test[0].input;
        && state == Restarted(old(state)).(previousSignature := None, taskData := fetched,
                                           testPair := Some(fetched.value.test[0]),
                                           inputGrid := BuildGrid(|input|, |input[0]|, input))
        && engine.State() == old(engine.State()).(cells := BuildGrid(DefaultHeight, DefaultWidth, []),
                                                  height := DefaultHeight, width := DefaultWidth,
                                                  undo := Push(old(engine.undo), old(Contents(engine.grid))),
                                                  selection := {}, symbol := DefaultSymbol, tool := Edit)
        && log == [EntryFor("reset_output_grid", map[], engine.Now(), 1),
                   EntryFor("load_task_success", map["name" := Text(taskName)], engine.Now(), 2)]
    {
      Restart();
      crashed := false;
      if fetched.None? || |fetched.value.test| == 0 {
        state := state.(previousSignature := None, taskData := fetched);
        LogActionInternal("load_task_failed", map["name" := Text(taskName), "error" := Text("Invalid task JSON")], engine.Now());
      } else if EmptyFirstInput(fetched.value) {
        state := state.(previousSignature := None, taskData := fetched, testPair := Some(fetched.value.test[0]));
        crashed := true;
      } else {
        Install(fetched.value);
      }
    }

    /**
     * The successful end of `loadTask`: the first test pair is installed with
     * its input built as `new Grid` builds it, the output grid reset and
     * success logged.
     */
    method Install(data: TaskData)
      requires Valid() && |data.test| > 0 && |data.test[0].input| > 0 && AnswerIsGrid(data.test[0])
      modifies this, engine
      ensures Valid() && store == old(store) && finishCalls == old(finishCalls)
      ensures var input := data.test[0].input;
        state == old(state).(previousSignature := None, taskData := Some(data), testPair := Some(data.test[0]),
                             inputGrid := BuildGrid(|input|, |input[0]|, input))
      ensures engine.State() == old(engine.State()).(cells := BuildGrid(DefaultHeight, DefaultWidth, []),
                                                     height := DefaultHeight, width := DefaultWidth,
                                                     undo := Push(old(engine.undo), old(Contents(engine.grid))),
                                                     selection := {}, symbol := DefaultSymbol, tool := Edit)
      ensures log == old(log) + [EntryFor("reset_output_grid", map[], engine.Now(), |old(log)| + 1),
                                 EntryFor("load_task_success", map["name" := Text(taskName)], engine.Now(), |old(log)| + 2)]
    {
      var pair := data.test[0];
      state := state.(previousSignature := None, taskData := Some(data),
                      testPair := Some(pair), inputGrid := BuildGrid(|pair.input|, |pair.input[0]|, pair.input));
      var reported := engine.ResetOutputGrid();
      Forward(reported);
      LogActionInternal("load_task_success", map["name" := Text(taskName)], engine.Now());
    }

    /**
     * `checkAndProcessSubmittedSolution`: the verdict on the output grid is
     * logged with the attempt it was made on; a correct one asks for the
     * description, an incorrect one costs an attempt and asks for the
     * description once more than three attempts have been used.
     */
    method CheckAndProcessSubmittedSolution()
      requires Valid()
      modifies this
      ensures Valid() && store == old(store) && finishCalls == old(finishCalls)
      ensures state == AfterCheck(old(state), Solves(old(state.testPair), Contents(engine.grid)))
      ensures log == old(log) + [CheckEntry(old(state.attempt), Solves(old(state.testPair), Contents(engine.grid)), |old(log)| + 1)]
    {
      var reference := if state.testPair.Some? then state.testPair.value.output else None;
      var ok := VerifySolution(reference, engine.grid);
      ContentsIsGrid(engine.grid);
      if reference.Some? {
        MatchesIffEqual(reference.value, Contents(engine.grid));
      }
      RecordVerdict(ok);
    }

    /** The verdict is stored and logged with the attempt it was made on, then acted on. */
    method RecordVerdict(ok: bool)
      requires Valid()
      modifies this
      ensures Valid() && store == old(store) && finishCalls == old(finishCalls)
      ensures state == AfterCheck(old(state), ok)
      ensures log == old(log) + [CheckEntry(old(state.attempt), ok, |old(log)| + 1)]
    {
      ghost var before := state;
      state := state.(isSolved := ok);
      LogActionInternal("submit_solution_check", map["attemptNumber" := Num(state.attempt), "isCorrect" := Flag(ok)], engine.Now());
      VerdictOverwritten(before, ok);
      state := AfterCheck(state, ok);
    }

    /** The grid is the one submitted last time, after the first attempt: submitting it again is refused. */
    predicate Repeats(g: Cells)
      reads this
    {
      state.attempt > 1 && state.previousSignature == Some(g)
    }

    /**
     * `handleSubmitAttempt`: after the first attempt, the grid submitted
     * last time is refused without any change; otherwise the grid is
     * remembered, and the first non-tutorial submission asks for the first
     * description instead of being checked.
     */
    method HandleSubmitAttempt()
      requires Valid()
      modifies this
      ensures Valid() && store == old(store) && finishCalls == old(finishCalls)
      ensures old(Repeats(Contents(engine.grid))) ==> state == old(state) && log == old(log)
      ensures !old(Repeats(Contents(engine.grid))) && old(state.isFirstDescription) && !isTutorial ==>
        && state == old(state).(previousSignature := Some(Contents(engine.grid)), isWritingDescription := true)
        && log == old(log) + [EntryFor("prompt_first_description", map[], engine.Now(), |old(log)| + 1)]
      ensures !old(Repeats(Contents(engine.grid))) && !(old(state.isFirstDescription) && !isTutorial) ==>
        && state == AfterCheck(old(state).(previousSignature := Some(Contents(engine.grid))),
                               Solves(old(state.testPair), Contents(engine.grid)))
        && log == old(log) + [CheckEntry(old(state.attempt), Solves(old(state.testPair), Contents(engine.grid)), |old(log)| + 1)]
    {
      var signature := Contents(engine.grid);
      if Repeats(signature) {
        return;
      }
      if state.isFirstDescription && !isTutorial {
        PromptFirstDescription(signature);
        return;
      }
      state := state.(previousSignature := Some(signature));
      CheckAndProcessSubmittedSolution();
    }

    /** The first submission of a non-tutorial task: it is remembered and the first description asked for. */
    method PromptFirstDescription(signature: Cells)
      requires Valid()
      modifies this
      ensures Valid() && store == old(store) && finishCalls == old(finishCalls)
      ensures state == old(state).(previousSignature := Some(signature), isWritingDescription := true)
      ensures log == old(log) + [EntryFor("prompt_first_description", map[], engine.Now(), |old(log)| + 1)]
    {
      state := state.(previousSignature := Some(signature), isWritingDescription := true);
      LogActionInternal("prompt_first_description", map[], engine.Now());
    }

    /** `saveTaskDataToSmileStore`: the task's record goes under its index, when the index is defined. */
    method SaveTaskData()
      requires Valid()
      modifies this
      ensures Valid() && state == old(state) && log == old(log) && finishCalls == old(finishCalls)
      ensures store == SavedInto(old(store))
    {
      if taskIndex.Some? {
        store := store[taskIndex.value := Record()];
      }
    }

    /** `onFinish(cb)`: registers the callback `finishTask` calls. */
    method OnFinish()
      requires Valid()
      modifies this
      ensures Valid() && state == old(state).(hasFinishCallback := true)
      ensures log == old(log) && store == old(store) && finishCalls == old(finishCalls)
    {
      state := state.(hasFinishCallback := true);
    }

    /** `finishTask`: saves the task, then calls the registered callback if there is one. */
    method FinishTask()
      requires Valid()
      modifies this
      ensures Valid() && state == old(state) && log == old(log)
      ensures store == SavedInto(old(store))
      ensures finishCalls == old(finishCalls) + if state.hasFinishCallback then 1 else 0
    {
      SaveTaskData();
      if state.hasFinishCallback {
        finishCalls := finishCalls + 1;
      }
    }

    /**
     * `submitTaskDescription(text)`: blank text is refused; the first
     * description of a non-tutorial task is recorded and the pending
     * submission is checked; any other description, and every description in
     * a tutorial, is the final one and finishes the task, solved or not.
     */
    method SubmitTaskDescription(text: string)
      requires Valid()
      modifies this
      ensures Valid()
      ensures IsBlank(text) ==>
        state == old(state) && log == old(log) && store == old(store) && finishCalls == old(finishCalls)
      ensures !IsBlank(text) && old(state.isFirstDescription) && !isTutorial ==>
        && state == AfterCheck(old(state).(firstDescription := text, isFirstDescription := false,
                                           isWritingDescription := false),
                               Solves(old(state.testPair), Contents(engine.grid)))
        && log == old(log) + [EntryAt(old(state.attempt), old(state.isSolved), "submit_first_description", map["description" := Text(text)],
                                      engine.Now(), |old(log)| + 1),
                              CheckEntry(old(state.attempt), Solves(old(state.testPair), Contents(engine.grid)), |old(log)| + 2)]
        && store == old(store) && finishCalls == old(finishCalls)
      ensures !IsBlank(text) && !(old(state.isFirstDescription) && !isTutorial) ==>
        && state == old(state).(finalDescription := text, isWritingDescription := false)
        && log == old(log) + [EntryFor("submit_final_description", map["description" := Text(text)],
                                      engine.Now(), |old(log)| + 1)]
        && store == SavedInto(old(store))
        && finishCalls == old(finishCalls) + if state.hasFinishCallback then 1 else 0
    {
      if IsBlank(text) {
        return;
      }
      if state.isFirstDescription && !isTutorial {
        RecordFirstDescription(text);
      } else {
        state := state.(finalDescription := text, isWritingDescription := false);
        LogActionInternal("submit_final_description", map["description" := Text(text)], engine.Now());
        FinishTask();
      }
    }

    /** The first-description branch of `submitTaskDescription`: the text is recorded, then the pending submission checked. */
    method RecordFirstDescription(text: string)
      requires Valid()
      modifies this
      ensures Valid() && store == old(store) && finishCalls == old(finishCalls)
      ensures state == AfterCheck(old(state).(firstDescription := text, isFirstDescription := false,
                                              isWritingDescription := false),
                                  Solves(old(state.testPair), Contents(engine.grid)))
      ensures log == old(log) + [EntryAt(old(state.attempt), old(state.isSolved), "submit_first_description",
                                         map["description" := Text(text)], engine.Now(), |old(log)| + 1),
                                 CheckEntry(old(state.attempt), Solves(old(state.testPair), Contents(engine.grid)), |old(log)| + 2)]
    {
      // The flags are cleared after the entry is made; the entry does not show them.
      state := state.(firstDescription := text, isFirstDescription := false, isWritingDescription := false);
      LogActionInternal("submit_first_description", map["description" := Text(text)], engine.Now());
      CheckAndProcessSubmittedSolution();
    }

    // Wrappers: each engine operation, with its report logged as the next entry.

    /** `handleCellInteraction`: the engine's drawing and filling, its report logged. */
    method HandleCellInteraction(ev: PointerEvent, x: int, y: int) returns (reported: Option<Report>)
      requires Valid() && 0 <= x < engine.height && 0 <= y < engine.width
      modifies this, engine, engine.grid
      ensures Valid() && state == old(state) && store == old(store) && finishCalls == old(finishCalls)
      ensures engine.grid == old(engine.grid)
      ensures engine.State() == old(engine.State()).(cells := Contents(engine.grid), undo := engine.undo)
      ensures engine.Draws(ev) ==> Contents(engine.grid) == SetCell(old(Contents(engine.grid)), x, y, engine.symbol)
      ensures ev == Click && engine.tool == FloodFill ==>
        IsFill(old(Contents(engine.grid)), Contents(engine.grid), x, y, engine.symbol)
      ensures !engine.Draws(ev) && !(ev == Click && engine.tool == FloodFill) ==>
        Contents(engine.grid) == old(Contents(engine.grid))
      ensures (ev == Click || (ev.MouseDown? && ev.buttons == 1)) && engine.tool == Edit ==>
        engine.undo == if old(engine.grid[x, y]) != engine.symbol
                       then Push(old(engine.undo), old(Contents(engine.grid))) else old(engine.undo)
      ensures ev == Click && engine.tool == FloodFill ==>
        engine.undo == if old(engine.grid[x, y]) != engine.symbol then Push(old(engine.undo), old(Contents(engine.grid)))
                       else Pop(Push(old(engine.undo), old(Contents(engine.grid))))
      ensures !(ev == Click && engine.tool != Select) && !(ev.MouseDown? && ev.buttons == 1 && engine.tool == Edit) ==>
        engine.undo == old(engine.undo)
      ensures reported ==
        if ev == Click && engine.tool == Edit && old(engine.grid[x, y]) != engine.symbol then
          Some(Report("draw_cell_click", map["x" := Num(x), "y" := Num(y), "symbol" := Num(engine.symbol)], engine.Now()))
        else if ev == Click && engine.tool == FloodFill && old(engine.grid[x, y]) != engine.symbol then
          Some(Report("floodfill_cell", map["x" := Num(x), "y" := Num(y), "symbol" := Num(engine.symbol)], engine.Now()))
        else if ev == MouseUp && engine.tool == Edit then
          Some(Report("draw_cell_drag_end", map["final_x" := Num(x), "final_y" := Num(y), "symbol" := Num(engine.symbol)],
                      engine.Now()))
        else None
      ensures LogsReport(old(log), reported)
    {
      reported := engine.HandleCellInteraction(ev, x, y);
      Forward(reported);
    }

    /** `updateOutputGridSize(h, w)`: the engine's resize, logged when the size changes. */
    method UpdateOutputGridSize(h: nat, w: nat) returns (reported: Option<Report>)
      requires Valid() && h >= 1
      modifies this, engine
      ensures Valid() && state == old(state) && store == old(store) && finishCalls == old(finishCalls)
      ensures h == old(engine.height) && w == old(engine.width) ==>
        engine.State() == old(engine.State()) && reported == None && log == old(log)
      ensures !(h == old(engine.height) && w == old(engine.width)) ==>
        && engine.State() == old(engine.State()).(cells := BuildGrid(h, w, old(Contents(engine.grid))), height := h,
                                                  width := w, undo := Push(old(engine.undo), old(Contents(engine.grid))),
                                                  selection := {})
        && reported == Some(Report("resize_output_grid", map["newHeight" := Num(h), "newWidth" := Num(w)], engine.Now()))
      ensures LogsReport(old(log), reported)
    {
      reported := engine.UpdateOutputGridSize(h, w);
      Forward(reported);
    }

    /** `resetOutputGrid`: the engine's reset to a 3x3 zero grid, always logged. */
    method ResetOutputGrid() returns (reported: Option<Report>)
      requires Valid()
      modifies this, engine
      ensures Valid() && state == old(state) && store == old(store) && finishCalls == old(finishCalls)
      ensures engine.State() == old(engine.State()).(cells := BuildGrid(DefaultHeight, DefaultWidth, []),
                                                     height := DefaultHeight, width := DefaultWidth,
                                                     undo := Push(old(engine.undo), old(Contents(engine.grid))),
                                                     selection := {}, symbol := DefaultSymbol, tool := Edit)
      ensures reported == Some(Report("reset_output_grid", map[], engine.Now()))
      ensures LogsReport(old(log), reported)
    {
      reported := engine.ResetOutputGrid();
      Forward(reported);
    }

    /** `undoLastAction`: the engine's undo, logged when there was a snapshot to restore. */
    method UndoLastAction() returns (reported: Option<Report>)
      requires Valid()
      modifies this, engine
      ensures Valid() && state == old(state) && store == old(store) && finishCalls == old(finishCalls)
      ensures old(engine.undo) == [] ==> engine.State() == old(engine.State()) && reported == None && log == old(log)
      ensures old(engine.undo) != [] ==>
        var prev := old(engine.undo)[|old(engine.undo)| - 1];
        && engine.State() == old(engine.State()).(cells := prev, height := |prev|, width := |prev[0]|,
                                                  undo := Pop(old(engine.undo)), selection := {})
        && reported == Some(Report("undo", map[], engine.Now()))
      ensures LogsReport(old(log), reported)
    {
      reported := engine.UndoLastAction();
      Forward(reported);
    }

    /** `updateSelectedCellsOnOutputGrid`: the selection is replaced and logged. */
    method UpdateSelectedCellsOnOutputGrid(newSelection: set<Pos>) returns (reported: Option<Report>)
      requires Valid()
      modifies this, engine
      ensures Valid() && state == old(state) && store == old(store) && finishCalls == old(finishCalls)
      ensures engine.State() == old(engine.State()).(selection := newSelection)
      ensures reported == Some(Report("selection_updated", map["count" := Num(|newSelection|)], engine.Now()))
      ensures LogsReport(old(log), reported)
    {
      reported := engine.UpdateSelectedCells(newSelection);
      Forward(reported);
    }

    /** `updateSelectedCellsOnInputGrid`: calls an engine member that does not exist, so it throws and changes nothing. */
    method UpdateSelectedCellsOnInputGrid(newSelection: set<Pos>) returns (crashed: bool)
      ensures crashed
    {
      UndefinedEngineMembers();
      crashed := "updateSelectedInputCells" !in EngineMembers;
    }

    /** `changeColorOfSelectedOutputCells`: the engine's recolouring, logged when a cell changed. */
    method ChangeColorOfSelectedOutputCells() returns (reported: Option<Report>)
      requires Valid()
      modifies this, engine, engine.grid
      ensures Valid() && state == old(state) && store == old(store) && finishCalls == old(finishCalls)
      ensures engine.grid == old(engine.grid)
      ensures !(|old(engine.selection)| > 0 && old(engine.tool) == Select) ==>
        engine.State() == old(engine.State()) && reported == None && log == old(log)
      ensures |old(engine.selection)| > 0 && old(engine.tool) == Select ==>
        var recoloured := Recolor(old(Contents(engine.grid)), engine.selection, engine.symbol);
        var pushed := Push(old(engine.undo), old(Contents(engine.grid)));
        var changed := recoloured != old(Contents(engine.grid));
        && engine.State() == old(engine.State()).(cells := recoloured, undo := if changed then pushed else Pop(pushed))
        && reported == if changed then Some(Report("change_color_selected_cells",
                                                   map["symbol" := Num(engine.symbol),
                                                       "count" := Num(|engine.selection|)], engine.Now()))
                       else None
      ensures LogsReport(old(log), reported)
    {
      reported := engine.ChangeColorOfSelectedCells();
      Forward(reported);
    }

    /**
     * `copyFromSelectedCells`: the input grid it passes is ignored; the copy
     * is taken from the output grid, and throws when a selected row is missing.
     */
    method CopyFromSelectedCells() returns (reported: Option<Report>, crashed: bool)
      requires Valid()
      modifies this, engine
      ensures Valid() && state == old(state) && store == old(store) && finishCalls == old(finishCalls)
      ensures crashed <==>
        |old(engine.selection)| > 0 && old(engine.tool) == Select && !RowsExist(old(engine.selection), old(engine.height))
      ensures |old(engine.selection)| == 0 || old(engine.tool) != Select || crashed ==>
        engine.State() == old(engine.State()) && reported == None && log == old(log)
      ensures |old(engine.selection)| > 0 && old(engine.tool) == Select && !crashed ==>
        && engine.State() == old(engine.State()).(clipboard := engine.clipboard, origin := engine.origin)
        && CopiedFrom(engine.clipboard, Contents(engine.grid), engine.selection)
        && IsMinCorner(engine.selection, engine.origin)
        && reported == Some(Report("copy_cells_to_clipboard", map["count" := Num(|engine.clipboard|)], engine.Now()))
      ensures LogsReport(old(log), reported)
    {
      reported, crashed := engine.CopySelectedCells();
      Forward(reported);
    }

    /** `pasteToOutputCells`: the engine's paste, logged when a cell changed; the selection is cleared. */
    method PasteToOutputCells() returns (reported: Option<Report>)
      requires Valid()
      modifies this, engine, engine.grid
      ensures Valid() && state == old(state) && store == old(store) && finishCalls == old(finishCalls)
      ensures engine.grid == old(engine.grid)
      ensures !(|old(engine.clipboard)| > 0 && |old(engine.selection)| == 1 && old(engine.tool) == Select) ==>
        engine.State() == old(engine.State()) && reported == None && log == old(log)
      ensures |old(engine.clipboard)| > 0 && |old(engine.selection)| == 1 && old(engine.tool) == Select ==>
        exists target :: old(engine.selection) == {target} &&
          var pasted := Pasted(old(Contents(engine.grid)), engine.clipboard, engine.origin, target);
          var pushed := Push(old(engine.undo), old(Contents(engine.grid)));
          && engine.State() == old(engine.State()).(cells := pasted, selection := {},
                                                    undo := if pasted != old(Contents(engine.grid)) then pushed else Pop(pushed))
          && reported == if pasted != old(Contents(engine.grid))
                         then Some(Report("paste_cells_from_clipboard",
                                          map["targetX" := Num(target.0), "targetY" := Num(target.1),
                                              "count" := Num(|engine.clipboard|)],
                                          engine.Now().(selection := {target})))
                         else None
      ensures LogsReport(old(log), reported)
    {
      reported := engine.PasteCopiedCells();
      Forward(reported);
    }

    /** `copyInputToOutputWrapper`: the output becomes a copy of the task's input grid, always logged. */
    method CopyInputToOutput() returns (reported: Option<Report>)
      requires Valid()
      modifies this, engine
      ensures Valid() && state == old(state) && store == old(store) && finishCalls == old(finishCalls)
      ensures engine.State() == old(engine.State()).(cells := state.inputGrid, height := |state.inputGrid|,
                                                     width := |state.inputGrid[0]|,
                                                     undo := Push(old(engine.undo), old(Contents(engine.grid))),
                                                     selection := {})
      ensures reported == Some(Report("copy_input_to_output", map[], engine.Now()))
      ensures LogsReport(old(log), reported)
    {
      reported := engine.CopyInputToOutput(Some(state.inputGrid));
      Forward(reported);
    }

    /**
     * `autoSolveWrapper`: when the task has an answer, the output becomes a
     * copy of it with the old cells pushed and the selection kept, logged;
     * otherwise nothing changes.
     */
    method AutoSolve() returns (reported: Option<Report>)
      requires Valid()
      modifies this, engine
      ensures Valid() && state == old(state) && store == old(store) && finishCalls == old(finishCalls)
      ensures state.testPair.Some? && state.testPair.value.output.Some? ==>
        var answer := state.testPair.value.output.value;
        && Solves(state.testPair, Contents(engine.grid))
        && engine.State() == old(engine.State()).(cells := answer, height := |answer|, width := |answer[0]|,
                                                  undo := Push(old(engine.undo), old(Contents(engine.grid))))
        && reported == Some(Report("auto_solve_task", map[], engine.Now()))
      ensures !(state.testPair.Some? && state.testPair.value.output.Some?) ==>
        engine.State() == old(engine.State()) && reported == None && log == old(log)
      ensures LogsReport(old(log), reported)
    {
      reported := engine.AutoSolve(if state.testPair.Some? then state.testPair.value.output else None);
      Forward(reported);
    }
  }
}
