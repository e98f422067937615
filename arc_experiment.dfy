/**
 * The whole-experiment composable (useArcExperiment.js): the phases from the
 * tutorial slides through the tutorial task, the quiz and up to five
 * experiment tasks, each with its own attempt, verdict, descriptions and
 * action log, on top of the same output-grid editing. The resize, reset,
 * copy-input, undo, copy and auto-solve code is the engine's; drawing, the
 * fill, recolouring and pasting behave differently here and are written out:
 * every click pushes a snapshot, the fill runs on a copy, recolouring ignores
 * the tool, and a paste is always kept and logged.
 *
 * The fetch of a task file is a parameter (the parsed JSON, or None when the
 * fetch failed). An `async` step that awaits the next task's load instead
 * returns the index of the task whose load comes next, which the caller hands
 * to `LoadExperimentTask`.
 */
module ArcExperiment {
  import opened ArcConstants
  import opened ArcUtils
  import opened RegionFill
  import opened UiUtils
  import opened UndoStack
  import opened GridEditing
  import opened GridEngine
  import opened TaskSession

  /** `experimentPhase`. */
  datatype Phase = Loading | TutorialSlides | TutorialTask | TutorialQuiz | MainExperiment | Finished

  const TutorialFileName: string := "e9afcf9a.json"

  /** The final description of a tutorial solved at the first attempt without a first description. */
  const TutorialFirstTryText: string := "Solved tutorial on first attempt."

  /** What `_logAction` records besides the caller's details, its timestamp left out. */
  datatype Trace = Trace(taskName: string, attempt: int, solved: bool, tutorial: bool, view: View, input: Cells)

  /** `HxW`. */
  function DimensionsText(h: int, w: int): string {
    IntString(h) + "x" + IntString(w)
  }

  /** The trace of entry `number` as the properties written after the caller's details. */
  function TraceProperties(t: Trace, number: int): (e: Entry)
    ensures "action" !in e && NumberKey in e && e[NumberKey] == Num(number)
  {
    map[
      "action_number_in_task" := Num(number),
      "current_task_name" := Text(t.taskName),
      "current_task_attempt" := Num(t.attempt),
      "is_solved" := Flag(t.solved),
      "is_tutorial" := Flag(t.tutorial),
      "current_output_grid" := Text(GridToString(Some(t.view.cells))),
      "current_output_grid_size" := Text(DimensionsText(t.view.height, t.view.width)),
      "current_input_grid_size" := Text(DimensionsText(Height(t.input), Width(t.input))),
      "selected_tool" := Text(ToolName(t.view.tool)),
      "selected_symbol" := Num(t.view.symbol)
    ]
  }

  /** The object pushed on `arcData`: `{ action, ...details, ...trace }`. */
  function FlattenTrace(e: LogEntry<Trace>): Entry {
    CreateLogEntry(e.action, e.details + TraceProperties(e.context, e.number))
  }

  /** `JSON.parse(JSON.stringify(arcData.value))`: the log as plain objects. */
  function FlattenedTraces(log: seq<LogEntry<Trace>>): (r: seq<Entry>)
    ensures |r| == |log| && forall k :: 0 <= k < |log| ==> r[k] == FlattenTrace(log[k])
  {
    seq(|log|, k requires 0 <= k < |log| => FlattenTrace(log[k]))
  }

  /**
   * The saved objects are numbered 1, 2, 3, ... in order and name their
   * action; the trace's properties win over a detail of the same name, and
   * every other detail is kept unchanged.
   */
  lemma SavedTraces(log: seq<LogEntry<Trace>>, count: int)
    requires Numbered(log, count)
    ensures forall k :: 0 <= k < count ==>
      var e := FlattenedTraces(log)[k];
      var t := TraceProperties(log[k].context, k + 1);
      && NumberKey in e && e[NumberKey] == Num(k + 1)
      && "action" in e && e["action"] == Text(log[k].action)
      && (forall d :: d in t ==> d in e && e[d] == t[d])
      && (forall d :: d in log[k].details && d !in t ==> d in e && e[d] == log[k].details[d])
  {
    forall k | 0 <= k < count
      ensures var e := FlattenedTraces(log)[k];
        var t := TraceProperties(log[k].context, k + 1);
        && NumberKey in e && e[NumberKey] == Num(k + 1)
        && "action" in e && e["action"] == Text(log[k].action)
        && (forall d :: d in t ==> d in e && e[d] == t[d])
        && (forall d :: d in log[k].details && d !in t ==> d in e && e[d] == log[k].details[d])
    {
      MergedEntry(log[k].action, log[k].details, TraceProperties(log[k].context, k + 1), k + 1);
    }
  }

  /** Properties written after the details win over them; the action name survives both. */
  lemma MergedEntry(action: string, details: Entry, t: Entry, number: int)
    requires "action" !in details && "action" !in t && NumberKey in t && t[NumberKey] == Num(number)
    ensures var e := CreateLogEntry(action, details + t);
      && NumberKey in e && e[NumberKey] == Num(number)
      && "action" in e && e["action"] == Text(action)
      && (forall d :: d in t ==> d in e && e[d] == t[d])
      && (forall d :: d in details && d !in t ==> d in e && e[d] == details[d])
  {
  }

  /** The four answers of the tutorial quiz, as typed. */
  datatype QuizAnswers = QuizAnswers(q1: string, q2: string, q3: string, q4: string)

  /** The answers as `submit_tutorial_quiz` logs them. */
  function AnswersValue(a: QuizAnswers): Value {
    Texts(map["q1" := a.q1, "q2" := a.q2, "q3" := a.q3, "q4" := a.q4])
  }

  /**
   * The quiz passes when tasks are not timed ("no"), and `parseInt` without
   * a radix reads 3 attempts, 5 tasks and 1 bonus sample.
   */
  predicate QuizPasses(a: QuizAnswers) {
    && a.q1 == "no"
    && ParseInt(a.q2, 0) == Some(MaxAttemptsPerTask)
    && ParseInt(a.q3, 0) == Some(MaxTasksPerExperiment)
    && ParseInt(a.q4, 0) == Some(1)
  }

  /**
   * `parseInt` reads only the leading number: 3, 5 and 1 pass, alone or
   * followed by text that does not continue the number (" attempts", ".0").
   */
  lemma QuizIgnoresTrailingText(t2: string, t3: string, t4: string)
    requires EndsNumber(t2) && EndsNumber(t3) && EndsNumber(t4)
    ensures QuizPasses(QuizAnswers("no", "3" + t2, "5" + t3, "1" + t4))
  {
    ReadsOneDigit('3', 3, t2);
    ReadsOneDigit('5', 5, t3);
    ReadsOneDigit('1', 1, t4);
  }

  /** One decimal digit of value `v`, followed by text that ends the number, reads as `v` without a radix. */
  lemma ReadsOneDigit(c: char, v: nat, t: string)
    requires '0' <= c <= '9' && DigitValue(c) == v && EndsNumber(t)
    ensures ParseInt([c] + t, 0) == Some(v)
  {
    ReadsLeadingDigits([c], t);
    OneDigit(c);
  }

  lemma OneDigit(c: char)
    ensures DigitsValue([c], 10) == DigitValue(c)
  {
    assert [c][..0] == [];
  }

  /** Text that ends a number before it: nothing, or text starting with neither a digit nor the `x` of a hex prefix. */
  predicate EndsNumber(t: string) {
    t == [] || (DigitValue(t[0]) >= 10 && t[0] != 'x' && t[0] != 'X')
  }

  /** Without a radix, a decimal number followed by other text reads as that number. */
  lemma ReadsLeadingDigits(d: string, tail: string)
    requires d != [] && forall k :: 0 <= k < |d| ==> '0' <= d[k] <= '9'
    requires EndsNumber(tail)
    ensures ParseInt(d + tail, 0) == Some(DigitsValue(d, 10))
  {
    ParseIntReadsDigits(d, tail);
    SameWithoutRadix(d + tail);
  }

  /** Without a `0x` prefix, an absent radix reads decimal. */
  lemma SameWithoutRadix(s: string)
    requires s != [] && '0' <= s[0] <= '9' && !(|s| >= 2 && (s[1] == 'x' || s[1] == 'X'))
    ensures ParseInt(s, 0) == ParseInt(s, 10)
  {
    NoSpaceFirst(s);
    assert StripSign(s) == (false, s);
    assert !HexPrefixed(s, 0);
  }

  /** The experiment-wide refs besides the task's own state and the editor. */
  datatype Progress = Progress(
    phase: Phase, taskList: seq<string>, taskIndex: int, taskName: string,
    tutorialData: Option<TaskData>, feedback: string)

  /** Solved correctly, in the tutorial, at the first attempt. */
  predicate FirstTry(s: SessionState<string>, tutorial: bool, correct: bool) {
    correct && tutorial && s.attempt == 1
  }

  /**
   * The task after `_checkAndProcessSubmittedSolution` with the verdict
   * `correct`: the task session's check, except that a tutorial solved at
   * the first attempt also takes its final description from the first one.
   */
  function Checked(s: SessionState<string>, tutorial: bool, correct: bool): (r: SessionState<string>)
    ensures r.(finalDescription := s.finalDescription) == AfterCheck(s, correct)
    ensures !FirstTry(s, tutorial, correct) ==> r.finalDescription == s.finalDescription
    ensures FirstTry(s, tutorial, correct) ==>
      r.finalDescription != "" && (s.firstDescription != "" ==> r.finalDescription == s.firstDescription)
  {
    var after := AfterCheck(s, correct);
    if FirstTry(s, tutorial, correct) then
      after.(finalDescription := if s.firstDescription != "" then s.firstDescription else TutorialFirstTryText)
    else after
  }

  /**
   * The four `recordProperty` calls made for one task — `task_<name>_solved`,
   * `_attempts`, `_first_description` and `_last_description` — always
   * together, so they are kept as one record under the task's name.
   */
  datatype Recorded = Recorded(solved: bool, attempts: int, firstDescription: string, lastDescription: string)

  /** The task's recorded properties: its verdict, attempt and both descriptions. */
  function Summary(s: SessionState<string>): Recorded {
    Recorded(s.isSolved, s.attempt, s.firstDescription, s.finalDescription)
  }

  /** The reset at the start of `_loadExperimentTask`. */
  function Fresh(s: SessionState<string>): SessionState<string> {
    s.(isSolved := false, attempt := 1, isWritingDescription := false, isFirstDescription := true,
       firstDescription := "", finalDescription := "", previousSignature := "")
  }

  /** The test pair `_loadTaskIntoState` keeps: the first, when there is one. */
  function FirstPair(json: TaskData): Option<TestPair> {
    if |json.test| == 0 then None else Some(json.test[0])
  }

  /**
   * The input grid `_loadTaskIntoState` installs: `new Grid(3, 3)` without
   * test pairs, otherwise the first test input built as `new Grid` builds it.
   */
  function LoadedInput(json: TaskData): (g: Cells)
    requires !EmptyFirstInput(json)
    ensures IsGrid(g)
    ensures |json.test| > 0 ==> |g| == |json.test[0].input| && |g[0]| == |json.test[0].input[0]|
    ensures |json.test| > 0 && IsGrid(json.test[0].input) ==> g == json.test[0].input
    ensures |json.test| == 0 ==> g == BuildGrid(DefaultHeight, DefaultWidth, [])
  {
    if |json.test| == 0 then BuildGrid(DefaultHeight, DefaultWidth, [])
    else
      var input := json.test[0].input;
      if IsGrid(input) then BuildGridClones(input); BuildGrid(|input|, |input[0]|, input)
      else BuildGrid(|input|, |input[0]|, input)
  }

  /** A test pair with an answer to compare against. */
  predicate HasAnswer(pair: Option<TestPair>) {
    pair.Some? && pair.value.output.Some?
  }

  /**
   * The editor after `_loadTaskIntoState` from `e`: a 3x3 output grid, set
   * by a reset (history, selection, tool and symbol) when the file has test
   * pairs and directly when it has none.
   */
  function Loaded(e: EngineState, hasPairs: bool): EngineState
    requires |e.undo| <= UndoStackLimit
  {
    var blank := e.(cells := BuildGrid(DefaultHeight, DefaultWidth, []), height := DefaultHeight, width := DefaultWidth);
    if hasPairs then blank.(undo := Push(e.undo, e.cells), selection := {}, symbol := DefaultSymbol, tool := Edit)
    else blank
  }

  /** The details of the verdict entry: the attempt it was made on, the verdict and the phase. */
  function VerdictDetails(s: SessionState<string>, tutorial: bool, correct: bool): Entry {
    map["attempt" := Num(s.attempt), "isCorrect" := Flag(correct), "isTutorial" := Flag(tutorial)]
  }

  /** A sequence's first `n` elements are some of its elements. */
  lemma PrefixIsSubMultiset<T>(s: seq<T>, n: nat)
    requires n <= |s|
    ensures multiset(s[..n]) <= multiset(s)
  {
    assert s == s[..n] + s[n..];
  }

  class Experiment {
    /** The output grid, its size, the history, the tool and symbol, the selection and the clipboard. */
    const editor: Engine
    var progress: Progress
    /** The current task's refs; the previous submission is its `row|row` text. */
    var task: SessionState<string>
    /** `numActionsInCurrentTask` and `arcData`. */
    var numActions: int
    var log: seq<LogEntry<Trace>>
    /** `smileStore.data.arc`, keyed by task name, and the properties recorded with `recordProperty`. */
    ghost var store: map<string, seq<Entry>>
    ghost var properties: map<string, Recorded>

    ghost predicate Valid()
      reads this, editor
    {
      && editor.Valid()
      && Numbered(log, numActions)
      && IsGrid(task.inputGrid)
      && (task.testPair.Some? ==> AnswerIsGrid(task.testPair.value))
      && progress.taskIndex >= 0
    }

    /** The trace `_logAction` takes while the task is in state `s` and the editor shows `view`. */
    function TraceAt(s: SessionState<string>, view: View): Trace
      reads this
    {
      Trace(progress.taskName, s.attempt, s.isSolved, progress.phase == TutorialTask, view, s.inputGrid)
    }

    /** The trace `_logAction` takes now, while the editor shows `view`. */
    function TraceOf(view: View): Trace
      reads this
    {
      TraceAt(task, view)
    }

    function EntryFor(action: string, details: Entry, view: View, number: int): LogEntry<Trace>
      reads this
    {
      LogEntry(action, number, TraceOf(view), details)
    }

    /**
     * The entries `_checkAndProcessSubmittedSolution` makes from the task
     * state `s` for the verdict `correct`, numbered from `number`: the
     * verdict, taken once the verdict is set, and for a tutorial solved at
     * the first attempt that fact, taken once the verdict is applied.
     */
    function CheckEntries(s: SessionState<string>, correct: bool, number: int): seq<LogEntry<Trace>>
      reads this, editor, editor.grid
    {
      var tutorial := progress.phase == TutorialTask;
      [LogEntry("submit_solution_attempt", number, TraceAt(s.(isSolved := correct), editor.Now()),
                VerdictDetails(s, tutorial, correct))]
      + if FirstTry(s, tutorial, correct) then
          [LogEntry("tutorial_solved_first_try_after_desc_or_no_desc", number + 1,
                    TraceAt(Checked(s, tutorial, correct), editor.Now()), map[])]
        else []
    }

    /** A task's log after its file is loaded: the reset, when the file has test pairs, then the load's own entry. */
    function LoadLog(json: TaskData, action: string, details: Entry): seq<LogEntry<Trace>>
      reads this, editor, editor.grid
    {
      if |json.test| > 0 then [EntryFor("reset_output_grid", map[], editor.Now(), 1), EntryFor(action, details, editor.Now(), 2)]
      else [EntryFor(action, details, editor.Now(), 1)]
    }

    /** The next entry for `action` without details, in the current state. */
    function Next(action: string): LogEntry<Trace>
      reads this, editor, editor.grid
    {
      EntryFor(action, map[], editor.Now(), numActions + 1)
    }

    /** The store after `_saveCurrentTaskDataToSmileStore`: the log under the task's name, unless it is empty. */
    ghost function SavedInto(before: map<string, seq<Entry>>): map<string, seq<Entry>>
      reads this
    {
      if progress.taskName != "" then before[progress.taskName := FlattenedTraces(log)] else before
    }

    /**
     * The state before the experiment is mounted, then `_initializeExperimentState`:
     * up to five tasks drawn from `fileNames` in shuffled order, and the tutorial slides.
     */
    constructor (fileNames: seq<string>)
      ensures Valid() && fresh(editor) && fresh(editor.grid)
      ensures editor.State() == EngineState(BuildGrid(DefaultHeight, DefaultWidth, []), DefaultHeight, DefaultWidth, [],
                                            Edit, DefaultSymbol, {}, [], (0, 0))
      ensures progress == Progress(TutorialSlides, progress.taskList, 0, "", None, "")
      ensures |progress.taskList| == if |fileNames| < MaxTasksPerExperiment then |fileNames| else MaxTasksPerExperiment
      ensures multiset(progress.taskList) <= multiset(fileNames)
      ensures task == SessionState(None, BuildGrid(DefaultHeight, DefaultWidth, []), None, 1, false, "",
                                   false, true, "", "", false)
      ensures log == [EntryFor("start_tutorial_slides", map[], editor.Now(), 1)]
      ensures store == map[] && properties == map[]
    {
      editor := new Engine();
      progress := Progress(Loading, [], 0, "", None, "");
      task := SessionState(None, BuildGrid(DefaultHeight, DefaultWidth, []), None, 1, false, "",
                           false, true, "", "", false);
      numActions, log := 0, [];
      store, properties := map[], map[];
      new;
      PrepareTaskList(fileNames);
      StartTutorialSlides();
    }

    /** `_logAction(action, details)`: the next numbered entry, taken while the editor shows `view`. */
    method LogAction(action: string, details: Entry, view: View)
      requires Valid() && Plain(details)
      modifies this
      ensures Valid() && progress == old(progress) && task == old(task)
      ensures store == old(store) && properties == old(properties)
      ensures log == old(log) + [EntryFor(action, details, view, old(numActions) + 1)]
    {
      numActions := numActions + 1;
      log := log + [EntryFor(action, details, view, numActions)];
    }

    /** Logs the engine's report, if any, under its own name. */
    method Forward(reported: Option<Report>)
      requires Valid() && (reported.Some? ==> Plain(reported.value.details))
      modifies this
      ensures Valid() && progress == old(progress) && task == old(task)
      ensures store == old(store) && properties == old(properties)
      ensures log == old(log) + if reported.Some? then
        [EntryFor(reported.value.action, reported.value.details, reported.value.view, |old(log)| + 1)] else []
    {
      if reported.Some? {
        LogAction(reported.value.action, reported.value.details, reported.value.view);
      }
    }

    /** `_prepareTaskList`: the file names shuffled, and the first five of them kept. */
    method PrepareTaskList(fileNames: seq<string>)
      requires Valid()
      modifies this
      ensures Valid() && progress == old(progress).(taskList := progress.taskList)
      ensures task == old(task) && log == old(log) && store == old(store) && properties == old(properties)
      ensures |progress.taskList| == if |fileNames| < MaxTasksPerExperiment then |fileNames| else MaxTasksPerExperiment
      ensures multiset(progress.taskList) <= multiset(fileNames)
    {
      var available := new string[|fileNames|](i requires 0 <= i < |fileNames| => fileNames[i]);
      assert available[..] == fileNames;
      ghost var rounds;
      available, rounds := ShuffleArray(available);
      var n := if available.Length < MaxTasksPerExperiment then available.Length else MaxTasksPerExperiment;
      PrefixIsSubMultiset(available[..], n);
      progress := progress.(taskList := available[..n]);
    }

    /** `startTutorialSlides`. */
    method StartTutorialSlides()
      requires Valid()
      modifies this
      ensures Valid() && progress == old(progress).(phase := TutorialSlides) && task == old(task)
      ensures store == old(store) && properties == old(properties)
      ensures log == old(log) + [old(Next("start_tutorial_slides")).(context := TraceOf(editor.Now()))]
    {
      progress := progress.(phase := TutorialSlides);
      LogAction("start_tutorial_slides", map[], editor.Now());
    }

    /**
     * `_loadTaskIntoState(taskJson)`: without test pairs, a 3x3 zero input
     * and output (no snapshot, no log); an empty first input throws once the
     * pairs are stored; otherwise the first pair's input and a reset output
     * grid.
     */
    method LoadTaskIntoState(json: TaskData) returns (crashed: bool)
      requires Valid() && (|json.test| > 0 ==> AnswerIsGrid(json.test[0]))
      modifies this, editor
      ensures Valid() && progress == old(progress) && store == old(store) && properties == old(properties)
      ensures crashed <==> EmptyFirstInput(json)
      ensures crashed ==>
        && task == old(task).(testPair := Some(json.test[0]))
        && editor.grid == old(editor.grid) && editor.State() == old(editor.State()) && log == old(log)
      ensures |json.test| == 0 ==>
        && task == old(task).(inputGrid := BuildGrid(DefaultHeight, DefaultWidth, []), testPair := None)
        && editor.State() == old(editor.State()).(cells := BuildGrid(DefaultHeight, DefaultWidth, []),
                                                  height := DefaultHeight, width := DefaultWidth)
        && log == old(log)
      ensures |json.test| > 0 && !crashed ==>
        && task == old(task).(inputGrid := LoadedInput(json), testPair := Some(json.test[0]))
        && editor.State() == old(editor.State()).(cells := BuildGrid(DefaultHeight, DefaultWidth, []),
                                                  height := DefaultHeight, width := DefaultWidth,
                                                  undo := Push(old(editor.undo), old(Contents(editor.grid))),
                                                  selection := {}, symbol := DefaultSymbol, tool := Edit)
        && log == old(log) + [EntryFor("reset_output_grid", map[], editor.Now(), |old(log)| + 1)]
    {
      crashed := false;
      if |json.test| == 0 {
        task := task.(inputGrid := BuildGrid(DefaultHeight, DefaultWidth, []), testPair := None);
        editor.grid := NewGrid(DefaultHeight, DefaultWidth, []);
        editor.height, editor.width := DefaultHeight, DefaultWidth;
        return;
      }
      var pair := json.test[0];
      if |pair.input| == 0 {
        task := task.(testPair := Some(pair));
        return true;
      }
      InstallPair(pair);
    }

    /** The end of `_loadTaskIntoState`: the pair's input is built as `new Grid` builds it, and the output grid reset. */
    method InstallPair(pair: TestPair)
      requires Valid() && |pair.input| > 0 && AnswerIsGrid(pair)
      modifies this, editor
      ensures Valid() && progress == old(progress) && store == old(store) && properties == old(properties)
      ensures task == old(task).(inputGrid := BuildGrid(|pair.input|, |pair.input[0]|, pair.input), testPair := Some(pair))
      ensures editor.State() == old(editor.State()).(cells := BuildGrid(DefaultHeight, DefaultWidth, []),
                                                     height := DefaultHeight, width := DefaultWidth,
                                                     undo := Push(old(editor.undo), old(Contents(editor.grid))),
                                                     selection := {}, symbol := DefaultSymbol, tool := Edit)
      ensures log == old(log) + [EntryFor("reset_output_grid", map[], editor.Now(), |old(log)| + 1)]
    {
      task := task.(inputGrid := BuildGrid(|pair.input|, |pair.input[0]|, pair.input), testPair := Some(pair));
      var reported := editor.ResetOutputGrid();
      Forward(reported);
    }

    /**
     * `startTutorialTask` once the tutorial file's fetch has answered: a new
     * tutorial task with attempt 1, an empty log and history; with the file,
     * its task is loaded and the start logged, unless the load throws.
     */
    method StartTutorialTask(fetched: Option<TaskData>) returns (crashed: bool)
      requires Valid()
      requires fetched.Some? && |fetched.value.test| > 0 ==> AnswerIsGrid(fetched.value.test[0])
      modifies this, editor
      ensures Valid() && store == old(store) && properties == old(properties)
      ensures crashed <==> fetched.Some? && EmptyFirstInput(fetched.value)
      ensures progress == old(progress).(phase := TutorialTask, taskName := TutorialFileName,
                                         tutorialData := if fetched.Some? then fetched else old(progress.tutorialData))
      ensures fetched.None? ==>
        && task == old(task).(isSolved := false, attempt := 1, isFirstDescription := true)
        && editor.grid == old(editor.grid) && editor.State() == old(editor.State()).(undo := [])
        && log == []
      ensures crashed ==>
        && task == old(task).(isSolved := false, attempt := 1, isFirstDescription := true,
                              testPair := FirstPair(fetched.value))
        && editor.grid == old(editor.grid) && editor.State() == old(editor.State()).(undo := [])
        && log == []
      ensures fetched.Some? && !crashed ==>
        && task == old(task).(isSolved := false, attempt := 1, isFirstDescription := true,
                              inputGrid := LoadedInput(fetched.value), testPair := FirstPair(fetched.value))
        && editor.State() == Loaded(old(editor.State()).(undo := []), |fetched.value.test| > 0)
        && log == LoadLog(fetched.value, "start_tutorial_task_loaded", map["taskName" := Text(TutorialFileName)])
    {
      progress := progress.(phase := TutorialTask, taskName := TutorialFileName);
      task := task.(isSolved := false, attempt := 1, isFirstDescription := true);
      numActions, log := 0, [];
      editor.undo := [];
      crashed := false;
      if fetched.Some? {
        crashed := LoadTutorialFile(fetched.value);
      }
    }

    /** The tutorial file's part of `startTutorialTask`: kept, loaded, and the load logged unless it throws. */
    method LoadTutorialFile(json: TaskData) returns (crashed: bool)
      requires Valid() && log == [] && (|json.test| > 0 ==> AnswerIsGrid(json.test[0]))
      modifies this, editor
      ensures Valid() && store == old(store) && properties == old(properties)
      ensures progress == old(progress).(tutorialData := Some(json))
      ensures crashed <==> EmptyFirstInput(json)
      ensures crashed ==>
        && task == old(task).(testPair := FirstPair(json))
        && editor.grid == old(editor.grid) && editor.State() == old(editor.State()) && log == []
      ensures !crashed ==>
        && task == old(task).(inputGrid := LoadedInput(json), testPair := FirstPair(json))
        && editor.State() == Loaded(old(editor.State()), |json.test| > 0)
        && log == LoadLog(json, "start_tutorial_task_loaded", map["taskName" := Text(TutorialFileName)])
    {
      progress := progress.(tutorialData := Some(json));
      crashed := LoadTaskIntoState(json);
      if crashed {
        return;
      }
      LogAction("start_tutorial_task_loaded", map["taskName" := Text(TutorialFileName)], editor.Now());
    }

    /** `completeTutorialTaskPhase`: the outcome is logged and the quiz follows. */
    method CompleteTutorialTaskPhase()
      requires Valid()
      modifies this
      ensures Valid() && progress == old(progress).(phase := TutorialQuiz) && task == old(task)
      ensures store == old(store) && properties == old(properties)
      ensures log == old(log) + [old(Next(if task.isSolved then "tutorial_task_solved_proceed_to_quiz"
                                          else "tutorial_task_exhausted_proceed_to_quiz"))]
    {
      if task.isSolved {
        LogAction("tutorial_task_solved_proceed_to_quiz", map[], editor.Now());
      } else {
        LogAction("tutorial_task_exhausted_proceed_to_quiz", map[], editor.Now());
      }
      progress := progress.(phase := TutorialQuiz);
    }

    /**
     * `submitTutorialQuiz(answers)`: the answers are logged; correct ones
     * are logged as such and start the experiment at task 0, whose load comes
     * next; incorrect ones are logged and the quiz stays.
     */
    method SubmitTutorialQuiz(answers: QuizAnswers) returns (load: Option<int>)
      requires Valid()
      modifies this
      ensures Valid() && task == old(task) && store == old(store) && properties == old(properties)
      ensures QuizPasses(answers) ==>
        && progress == old(progress).(phase := MainExperiment, taskIndex := 0) && load == Some(0)
      ensures !QuizPasses(answers) ==> progress == old(progress) && load == None
      ensures log == old(log + QuizEntries(answers))
    {
      LogQuiz(answers);
      load := None;
      if QuizPasses(answers) {
        load := StartMainExperiment();
      }
    }

    /** The entries for the quiz answers, then for their outcome, numbered after the log. */
    function QuizEntries(answers: QuizAnswers): seq<LogEntry<Trace>>
      reads this, editor, editor.grid
    {
      [EntryFor("submit_tutorial_quiz", map["answers" := AnswersValue(answers)], editor.Now(), |log| + 1),
       EntryFor(if QuizPasses(answers) then "tutorial_quiz_correct" else "tutorial_quiz_incorrect", map[], editor.Now(), |log| + 2)]
    }

    /** The answers logged, then whether they pass. */
    method LogQuiz(answers: QuizAnswers)
      requires Valid()
      modifies this
      ensures Valid() && progress == old(progress) && task == old(task) && store == old(store) && properties == old(properties)
      ensures log == old(log + QuizEntries(answers))
    {
      LogAction("submit_tutorial_quiz", map["answers" := AnswersValue(answers)], editor.Now());
      LogAction(if QuizPasses(answers) then "tutorial_quiz_correct" else "tutorial_quiz_incorrect", map[], editor.Now());
    }

    /** `startMainExperiment`: the experiment phase at task 0, whose load comes next. */
    method StartMainExperiment() returns (load: Option<int>)
      requires Valid()
      modifies this
      ensures Valid() && progress == old(progress).(phase := MainExperiment, taskIndex := 0) && load == Some(0)
      ensures task == old(task) && log == old(log) && store == old(store) && properties == old(properties)
    {
      progress := progress.(phase := MainExperiment, taskIndex := 0);
      load := Some(progress.taskIndex);
    }

    /**
     * The reset at the start of `_loadExperimentTask` for a task in the
     * list: its name, attempt 1, no verdict, descriptions, signature, log or
     * history.
     */
    method BeginTask(name: string)
      requires Valid()
      modifies this, editor
      ensures Valid() && progress == old(progress).(taskName := name) && task == Fresh(old(task))
      ensures editor.grid == old(editor.grid) && editor.State() == old(editor.State()).(undo := [])
      ensures log == [] && store == old(store) && properties == old(properties)
    {
      progress := progress.(taskName := name);
      task := Fresh(task);
      numActions, log := 0, [];
      editor.undo := [];
    }

    /**
     * `_loadExperimentTask(currentTaskIndexGlobal)` once the task file's
     * fetch has answered: past the end of the list the experiment finishes;
     * otherwise the task is reset, and its file is loaded and logged (unless
     * the load throws), or, when the fetch failed, skipped as
     * `_moveToNextTaskOrFinish` does.
     */
    method LoadExperimentTask(fetched: Option<TaskData>) returns (load: Option<int>, crashed: bool)
      requires Valid() && progress.phase == MainExperiment
      requires fetched.Some? && |fetched.value.test| > 0 ==> AnswerIsGrid(fetched.value.test[0])
      modifies this, editor
      ensures Valid()
      ensures crashed <==>
        old(progress.taskIndex) < |old(progress.taskList)| && fetched.Some? && EmptyFirstInput(fetched.value)
      ensures progress.taskIndex >= |progress.taskList| ==> progress.phase == Finished
      ensures old(progress.taskIndex) >= |old(progress.taskList)| ==>
        && progress == old(progress).(phase := Finished) && task == old(task)
        && log == old(log) + [old(Next("all_experiment_tasks_completed"))]
        && editor.State() == old(editor.State()) && load == None
        && store == old(store) && properties == old(properties)
      ensures crashed ==>
        && progress == old(progress).(taskName := old(progress.taskList[progress.taskIndex]))
        && task == Fresh(old(task)).(testPair := FirstPair(fetched.value))
        && editor.grid == old(editor.grid) && editor.State() == old(editor.State()).(undo := [])
        && log == [] && load == None && store == old(store) && properties == old(properties)
      ensures old(progress.taskIndex) < |old(progress.taskList)| && fetched.Some? && !crashed ==>
        var name := old(progress.taskList[progress.taskIndex]);
        && progress == old(progress).(taskName := name)
        && task == Fresh(old(task)).(inputGrid := LoadedInput(fetched.value), testPair := FirstPair(fetched.value))
        && editor.State() == Loaded(old(editor.State()).(undo := []), |fetched.value.test| > 0)
        && log == LoadLog(fetched.value, "load_experiment_task",
                          map["taskIndex" := Num(old(progress.taskIndex)), "taskName" := Text(name)])
        && load == None && store == old(store) && properties == old(properties)
      ensures old(progress.taskIndex) < |old(progress.taskList)| && fetched.None? ==>
        var name := old(progress.taskList[progress.taskIndex]);
        var next := old(progress.taskIndex) + 1;
        && progress == old(progress).(taskName := name, taskIndex := next,
                                      phase := if next < |old(progress.taskList)| then MainExperiment else Finished)
        && task == Fresh(old(task))
        && editor.grid == old(editor.grid) && editor.State() == old(editor.State()).(undo := [])
        && log == (if next < |old(progress.taskList)| then [] else [EntryFor("all_experiment_tasks_completed", map[], editor.Now(), 1)])
        && load == (if next < |old(progress.taskList)| then Some(next) else None)
        && store == (if name != "" then old(store)[name := []] else old(store))
        && properties == old(properties)[name := Summary(Fresh(old(task)))]
    {
      crashed := false;
      if progress.taskIndex >= |progress.taskList| {
        FinishExperimentPhase();
        return None, false;
      }
      var name := progress.taskList[progress.taskIndex];
      BeginTask(name);
      if fetched.Some? {
        crashed := LoadTaskFile(fetched.value);
        load := None;
      } else {
        assert FlattenedTraces(log) == [];
        load := MoveToNextTaskOrFinish();
      }
    }

    /** The fetched file's part of `_loadExperimentTask`: loaded, and the load logged with the task's index and name unless it throws. */
    method LoadTaskFile(json: TaskData) returns (crashed: bool)
      requires Valid() && log == [] && (|json.test| > 0 ==> AnswerIsGrid(json.test[0]))
      modifies this, editor
      ensures Valid() && progress == old(progress) && store == old(store) && properties == old(properties)
      ensures crashed <==> EmptyFirstInput(json)
      ensures crashed ==>
        && task == old(task).(testPair := FirstPair(json))
        && editor.grid == old(editor.grid) && editor.State() == old(editor.State()) && log == []
      ensures !crashed ==>
        && task == old(task).(inputGrid := LoadedInput(json), testPair := FirstPair(json))
        && editor.State() == Loaded(old(editor.State()), |json.test| > 0)
        && log == LoadLog(json, "load_experiment_task",
                          map["taskIndex" := Num(progress.taskIndex), "taskName" := Text(progress.taskName)])
    {
      crashed := LoadTaskIntoState(json);
      if crashed {
        return;
      }
      LogAction("load_experiment_task",
                map["taskIndex" := Num(progress.taskIndex), "taskName" := Text(progress.taskName)], editor.Now());
    }

    /**
     * `_moveToNextTaskOrFinish`: the task is saved; the tutorial moves on to
     * the quiz, and an experiment task to the next task in the list, whose
     * load comes next, or to the end of the experiment after the last one.
     */
    method MoveToNextTaskOrFinish() returns (load: Option<int>)
      requires Valid()
      modifies this
      ensures Valid() && task == old(task)
      ensures store == old(SavedInto(store)) && properties == old(properties[progress.taskName := Summary(task)])
      ensures old(progress.phase) == TutorialTask ==>
        && progress == old(progress).(phase := TutorialQuiz) && load == None
        && log == old(log) + [old(Next(if task.isSolved then "tutorial_task_solved_proceed_to_quiz"
                                       else "tutorial_task_exhausted_proceed_to_quiz"))]
      ensures old(progress.phase) == MainExperiment ==>
        var next := old(progress.taskIndex) + 1;
        && progress == old(progress).(taskIndex := next,
                                      phase := if next < |progress.taskList| then MainExperiment else Finished)
        && load == (if next < |progress.taskList| then Some(next) else None)
        && log == old(log) + if next < |progress.taskList| then []
                             else [old(Next("all_experiment_tasks_completed"))]
      ensures old(progress.phase) != TutorialTask && old(progress.phase) != MainExperiment ==>
        progress == old(progress) && log == old(log) && load == None
    {
      SaveCurrentTaskData();
      load := None;
      if progress.phase == TutorialTask {
        CompleteTutorialTaskPhase();
      } else if progress.phase == MainExperiment {
        progress := progress.(taskIndex := progress.taskIndex + 1);
        if progress.taskIndex < |progress.taskList| {
          load := Some(progress.taskIndex);
        } else {
          FinishExperimentPhase();
        }
      }
    }

    /** `finishExperimentPhase`: the end is logged and the experiment is finished. */
    method FinishExperimentPhase()
      requires Valid()
      modifies this
      ensures Valid() && progress == old(progress).(phase := Finished) && task == old(task)
      ensures store == old(store) && properties == old(properties)
      ensures log == old(log) + [old(Next("all_experiment_tasks_completed"))]
    {
      LogAction("all_experiment_tasks_completed", map[], editor.Now());
      progress := progress.(phase := Finished);
    }

    /** `submitFeedbackAndExit(feedback)`: the feedback is kept and logged, and the task saved. */
    method SubmitFeedbackAndExit(feedback: string)
      requires Valid()
      modifies this
      ensures Valid() && progress == old(progress).(feedback := feedback) && task == old(task)
      ensures log == old(log) + [EntryFor("submit_final_feedback", map["feedback" := Text(feedback)],
                                          editor.Now(), |old(log)| + 1)]
      ensures store == SavedInto(old(store)) && properties == old(properties)[progress.taskName := Summary(task)]
    {
      progress := progress.(feedback := feedback);
      LogAction("submit_final_feedback", map["feedback" := Text(feedback)], editor.Now());
      SaveCurrentTaskData();
    }

    /**
     * `_saveCurrentTaskDataToSmileStore`: a copy of the log under the task's
     * name, unless the name is empty; the summary properties are recorded
     * whatever the name.
     */
    method SaveCurrentTaskData()
      requires Valid()
      modifies this
      ensures Valid() && progress == old(progress) && task == old(task) && log == old(log)
      ensures store == SavedInto(old(store))
      ensures properties == old(properties)[progress.taskName := Summary(task)]
    {
      if progress.taskName != "" {
        store := store[progress.taskName := FlattenedTraces(log)];
      }
      properties := properties[progress.taskName := Summary(task)];
    }

    /**
     * `_checkAndProcessSubmittedSolution`: without a test pair or its
     * answer `_verifySolution` throws and nothing changes. Otherwise the
     * verdict is logged with the attempt it was made on and applied as
     * `Checked` says; a tutorial solved at the first attempt logs that too.
     */
    method CheckAndProcessSubmittedSolution() returns (crashed: bool)
      requires Valid()
      modifies this
      ensures Valid() && progress == old(progress) && store == old(store) && properties == old(properties)
      ensures crashed <==> !HasAnswer(old(task.testPair))
      ensures crashed ==> task == old(task) && log == old(log)
      ensures !crashed ==>
        var correct := Solves(old(task.testPair), Contents(editor.grid));
        var tutorial := progress.phase == TutorialTask;
        && task == Checked(old(task), tutorial, correct)
        && log == old(log) + CheckEntries(old(task), correct, |old(log)| + 1)
    {
      if !HasAnswer(task.testPair) {
        return true;
      }
      crashed := false;
      var reference := task.testPair.value.output;
      var ok := VerifySolution(reference, editor.grid);
      ContentsIsGrid(editor.grid);
      MatchesIffEqual(reference.value, Contents(editor.grid));
      ApplyVerdict(ok);
    }

    /** The verdict `correct` logged with the attempt it was made on, then applied. */
    method ApplyVerdict(correct: bool)
      requires Valid()
      modifies this
      ensures Valid() && progress == old(progress) && store == old(store) && properties == old(properties)
      ensures
        var tutorial := progress.phase == TutorialTask;
        && task == Checked(old(task), tutorial, correct)
        && log == old(log) + CheckEntries(old(task), correct, |old(log)| + 1)
    {
      var before := task;
      var tutorial := progress.phase == TutorialTask;
      ghost var entries := CheckEntries(before, correct, |log| + 1);
      task := task.(isSolved := correct);
      LogAction("submit_solution_attempt",
                map["attempt" := Num(task.attempt), "isCorrect" := Flag(correct), "isTutorial" := Flag(tutorial)],
                editor.Now());
      assert log == old(log) + entries[..1];
      // The final description and the description prompt are set after the entry; it does not show them.
      task := Checked(before, tutorial, correct);
      if FirstTry(before, tutorial, correct) {
        LogAction("tutorial_solved_first_try_after_desc_or_no_desc", map[], editor.Now());
      }
    }

    /**
     * `submitSolutionAttempt`: after the first attempt, a grid with the text
     * of the previous submission is refused without any change; otherwise
     * the text is remembered, and in the experiment phase the first
     * submission asks for the first description instead of being checked.
     */
    method SubmitSolutionAttempt() returns (crashed: bool)
      requires Valid()
      modifies this
      ensures Valid() && progress == old(progress) && store == old(store) && properties == old(properties)
      ensures old(RefusedAsRepeat(task, Contents(editor.grid))) ==> task == old(task) && log == old(log) && !crashed
      ensures !old(RefusedAsRepeat(task, Contents(editor.grid))) && old(task.isFirstDescription) && progress.phase == MainExperiment ==>
        && task == old(task).(previousSignature := GridToString(Some(Contents(editor.grid))), isWritingDescription := true)
        && log == old(log) + [EntryFor("prompt_first_description", map[], editor.Now(), |old(log)| + 1)]
        && !crashed
      ensures !old(RefusedAsRepeat(task, Contents(editor.grid))) && !(old(task.isFirstDescription) && progress.phase == MainExperiment) ==>
        var signed := old(task).(previousSignature := GridToString(Some(Contents(editor.grid))));
        && (crashed <==> !HasAnswer(signed.testPair))
        && (crashed ==> task == signed && log == old(log))
        && (!crashed ==>
              var correct := Solves(signed.testPair, Contents(editor.grid));
              && task == Checked(signed, progress.phase == TutorialTask, correct)
              && log == old(log) + CheckEntries(signed, correct, |old(log)| + 1))
    {
      if RefusedAsRepeat(task, Contents(editor.grid)) {
        return false;
      }
      if task.isFirstDescription && progress.phase == MainExperiment {
        task := task.(previousSignature := GridToString(Some(Contents(editor.grid))));
        PromptFirstDescription();
        return false;
      }
      crashed := SignAndCheck();
    }

    /** A submission that is neither refused nor held for a description: its text is remembered and it is checked. */
    method SignAndCheck() returns (crashed: bool)
      requires Valid()
      modifies this
      ensures Valid() && progress == old(progress) && store == old(store) && properties == old(properties)
      ensures
        var signed := old(task).(previousSignature := GridToString(Some(Contents(editor.grid))));
        && (crashed <==> !HasAnswer(signed.testPair))
        && (crashed ==> task == signed && log == old(log))
        && (!crashed ==>
              var correct := Solves(signed.testPair, Contents(editor.grid));
              && task == Checked(signed, progress.phase == TutorialTask, correct)
              && log == old(log) + CheckEntries(signed, correct, |old(log)| + 1))
    {
      task := task.(previousSignature := GridToString(Some(Contents(editor.grid))));
      crashed := CheckAndProcessSubmittedSolution();
    }

    /** The first submission of an experiment task asks for its first description. */
    method PromptFirstDescription()
      requires Valid()
      modifies this
      ensures Valid() && progress == old(progress) && store == old(store) && properties == old(properties)
      ensures task == old(task).(isWritingDescription := true)
      ensures log == old(log) + [EntryFor("prompt_first_description", map[], editor.Now(), |old(log)| + 1)]
    {
      task := task.(isWritingDescription := true);
      LogAction("prompt_first_description", map[], editor.Now());
    }

    /**
     * `submitWrittenDescription(text)`: blank text is refused. The first
     * description is recorded and, in the experiment or the tutorial task,
     * the pending submission is checked; any later one is the final
     * description: it is logged, the task saved under its name, and the
     * experiment moves on as `_moveToNextTaskOrFinish` does.
     */
    method SubmitWrittenDescription(text: string) returns (crashed: bool, load: Option<int>)
      requires Valid()
      modifies this
      ensures Valid()
      ensures IsBlank(text) ==>
        && progress == old(progress) && task == old(task) && log == old(log)
        && store == old(store) && properties == old(properties) && !crashed && load == None
      ensures !IsBlank(text) && old(task.isFirstDescription) ==>
        var described := old(task).(firstDescription := text, isFirstDescription := false, isWritingDescription := false);
        var checks := progress.phase == MainExperiment || progress.phase == TutorialTask;
        var entry := LogEntry("submit_first_description", |old(log)| + 1, old(TraceOf(editor.Now())),
                              map["description" := Text(text)]);
        && load == None
        && progress == old(progress) && store == old(store) && properties == old(properties)
        && (crashed <==> checks && !HasAnswer(described.testPair))
        && (!checks || crashed ==> task == described && log == old(log) + [entry])
        && (checks && !crashed ==>
              var correct := Solves(described.testPair, Contents(editor.grid));
              var tutorial := progress.phase == TutorialTask;
              && task == Checked(described, tutorial, correct)
              && log == old(log) + [entry] + CheckEntries(described, correct, |old(log)| + 2))
      ensures !IsBlank(text) && !old(task.isFirstDescription) ==>
        var described := old(task).(finalDescription := text, isWritingDescription := false);
        var trace := old(TraceOf(editor.Now()));
        var entry := LogEntry("submit_final_description", |old(log)| + 1, trace, map["description" := Text(text)]);
        && !crashed
        && task == described
        && store == (if old(progress.taskName) != ""
                     then old(store)[old(progress.taskName) := FlattenedTraces(old(log) + [entry])] else old(store))
        && properties == old(properties)[old(progress.taskName) := Summary(described)]
        && (old(progress.phase) == TutorialTask ==>
              && progress == old(progress).(phase := TutorialQuiz) && load == None
              && log == old(log) + [entry, LogEntry(if described.isSolved then "tutorial_task_solved_proceed_to_quiz"
                                                    else "tutorial_task_exhausted_proceed_to_quiz",
                                                    |old(log)| + 2, trace, map[])])
        && (old(progress.phase) == MainExperiment ==>
              var next := old(progress.taskIndex) + 1;
              && progress == old(progress).(taskIndex := next,
                                            phase := if next < |progress.taskList| then MainExperiment else Finished)
              && load == (if next < |progress.taskList| then Some(next) else None)
              && log == old(log) + [entry] + if next < |progress.taskList| then []
                                             else [LogEntry("all_experiment_tasks_completed", |old(log)| + 2, trace, map[])])
        && (old(progress.phase) != TutorialTask && old(progress.phase) != MainExperiment ==>
              progress == old(progress) && load == None && log == old(log) + [entry])
    {
      crashed, load := false, None;
      if IsBlank(text) {
        return;
      }
      if task.isFirstDescription {
        crashed := SubmitFirstDescription(text);
      } else {
        load := SubmitFinalDescription(text);
      }
    }

    /**
     * The first description: recorded and logged, then in the experiment or
     * the tutorial task the pending submission is checked, its entries
     * following the description's.
     */
    method SubmitFirstDescription(text: string) returns (crashed: bool)
      requires Valid()
      modifies this
      ensures Valid()
      ensures
        var described := old(task).(firstDescription := text, isFirstDescription := false, isWritingDescription := false);
        var checks := progress.phase == MainExperiment || progress.phase == TutorialTask;
        var entry := LogEntry("submit_first_description", |old(log)| + 1, old(TraceOf(editor.Now())),
                              map["description" := Text(text)]);
        && progress == old(progress) && store == old(store) && properties == old(properties)
        && (crashed <==> checks && !HasAnswer(described.testPair))
        && (!checks || crashed ==> task == described && log == old(log) + [entry])
        && (checks && !crashed ==>
              var correct := Solves(described.testPair, Contents(editor.grid));
              var tutorial := progress.phase == TutorialTask;
              && task == Checked(described, tutorial, correct)
              && log == old(log) + [entry] + CheckEntries(described, correct, |old(log)| + 2))
    {
      crashed := false;
      RecordDescription(text, true);
      if progress.phase == MainExperiment || progress.phase == TutorialTask {
        crashed := CheckPending();
      }
    }

    /** The check of a submission held for its description: it keeps the log so far and applies the verdict. */
    method CheckPending() returns (crashed: bool)
      requires Valid()
      modifies this
      ensures Valid() && progress == old(progress) && store == old(store) && properties == old(properties)
      ensures crashed <==> !HasAnswer(old(task.testPair))
      ensures crashed ==> task == old(task) && log == old(log)
      ensures !crashed ==>
        var correct := Solves(old(task.testPair), Contents(editor.grid));
        var tutorial := progress.phase == TutorialTask;
        && task == Checked(old(task), tutorial, correct)
        && log == old(log) + CheckEntries(old(task), correct, |old(log)| + 1)
    {
      crashed := CheckAndProcessSubmittedSolution();
    }

    /**
     * A later description: the final one, recorded and logged; then the task
     * is saved with that entry and the experiment moves on as
     * `_moveToNextTaskOrFinish` does, its entry carrying the same trace.
     */
    method SubmitFinalDescription(text: string) returns (load: Option<int>)
      requires Valid()
      modifies this
      ensures Valid()
      ensures
        var described := old(task).(finalDescription := text, isWritingDescription := false);
        var trace := old(TraceOf(editor.Now()));
        var entry := LogEntry("submit_final_description", |old(log)| + 1, trace, map["description" := Text(text)]);
        && task == described
        && store == (if old(progress.taskName) != ""
                     then old(store)[old(progress.taskName) := FlattenedTraces(old(log) + [entry])] else old(store))
        && properties == old(properties)[old(progress.taskName) := Summary(described)]
        && (old(progress.phase) == TutorialTask ==>
              && progress == old(progress).(phase := TutorialQuiz) && load == None
              && log == old(log) + [entry, LogEntry(if described.isSolved then "tutorial_task_solved_proceed_to_quiz"
                                                    else "tutorial_task_exhausted_proceed_to_quiz",
                                                    |old(log)| + 2, trace, map[])])
        && (old(progress.phase) == MainExperiment ==>
              var next := old(progress.taskIndex) + 1;
              && progress == old(progress).(taskIndex := next,
                                            phase := if next < |progress.taskList| then MainExperiment else Finished)
              && load == (if next < |progress.taskList| then Some(next) else None)
              && log == old(log) + [entry] + if next < |progress.taskList| then []
                                             else [LogEntry("all_experiment_tasks_completed", |old(log)| + 2, trace, map[])])
        && (old(progress.phase) != TutorialTask && old(progress.phase) != MainExperiment ==>
              progress == old(progress) && load == None && log == old(log) + [entry])
    {
      RecordDescription(text, false);
      load := MoveToNextTaskOrFinish();
    }

    /** The description `text` recorded as the first or the final one, and logged. */
    method RecordDescription(text: string, first: bool)
      requires Valid()
      modifies this
      ensures Valid() && progress == old(progress) && store == old(store) && properties == old(properties)
      ensures first ==> task == old(task).(firstDescription := text, isFirstDescription := false, isWritingDescription := false)
      ensures !first ==> task == old(task).(finalDescription := text, isWritingDescription := false)
      ensures log == old(log) + [EntryFor(if first then "submit_first_description" else "submit_final_description",
                                          map["description" := Text(text)], editor.Now(), |old(log)| + 1)
                                   .(context := old(TraceOf(editor.Now())))]
    {
      // The flags are cleared after the entry is made; the entry does not show them.
      if first {
        task := task.(firstDescription := text, isFirstDescription := false, isWritingDescription := false);
      } else {
        task := task.(finalDescription := text, isWritingDescription := false);
      }
      LogAction(if first then "submit_first_description" else "submit_final_description",
                map["description" := Text(text)], editor.Now());
    }

    // The editing operations.

    /** `updateOutputGridSize(h, w)`: as the engine resizes; the resize is logged. */
    method UpdateOutputGridSize(h: nat, w: nat)
      requires Valid() && h >= 1
      modifies this, editor
      ensures Valid() && progress == old(progress) && task == old(task)
      ensures store == old(store) && properties == old(properties)
      ensures h == old(editor.height) && w == old(editor.width) ==> editor.State() == old(editor.State()) && log == old(log)
      ensures !(h == old(editor.height) && w == old(editor.width)) ==>
        && editor.State() == old(editor.State()).(cells := BuildGrid(h, w, old(Contents(editor.grid))), height := h, width := w,
                                                  undo := Push(old(editor.undo), old(Contents(editor.grid))), selection := {})
        && log == old(log) + [EntryFor("resize_output_grid", map["newHeight" := Num(h), "newWidth" := Num(w)],
                                       editor.Now(), |old(log)| + 1)]
    {
      var reported := editor.UpdateOutputGridSize(h, w);
      Forward(reported);
    }

    /** `resetOutputGrid`: a 3x3 zero grid, symbol 0, the edit tool, no selection; the reset is logged. */
    method ResetOutputGrid()
      requires Valid()
      modifies this, editor
      ensures Valid() && progress == old(progress) && task == old(task)
      ensures store == old(store) && properties == old(properties)
      ensures editor.State() == old(editor.State()).(cells := BuildGrid(DefaultHeight, DefaultWidth, []),
                                                     height := DefaultHeight, width := DefaultWidth,
                                                     undo := Push(old(editor.undo), old(Contents(editor.grid))),
                                                     selection := {}, symbol := DefaultSymbol, tool := Edit)
      ensures log == old(log) + [EntryFor("reset_output_grid", map[], editor.Now(), |old(log)| + 1)]
    {
      var reported := editor.ResetOutputGrid();
      Forward(reported);
    }

    /** `copyInputToOutput`: the output becomes a copy of the input grid, which is always present. */
    method CopyInputToOutput()
      requires Valid()
      modifies this, editor
      ensures Valid() && progress == old(progress) && task == old(task)
      ensures store == old(store) && properties == old(properties)
      ensures editor.State() == old(editor.State()).(cells := task.inputGrid, height := |task.inputGrid|,
                                                     width := |task.inputGrid[0]|,
                                                     undo := Push(old(editor.undo), old(Contents(editor.grid))),
                                                     selection := {})
      ensures log == old(log) + [EntryFor("copy_input_to_output", map[], editor.Now(), |old(log)| + 1)]
    {
      var reported := editor.CopyInputToOutput(Some(task.inputGrid));
      Forward(reported);
    }

    /** `undoLastAction`: the newest snapshot comes back with its size; the undo is logged. */
    method UndoLastAction()
      requires Valid()
      modifies this, editor
      ensures Valid() && progress == old(progress) && task == old(task)
      ensures store == old(store) && properties == old(properties)
      ensures old(editor.undo) == [] ==> editor.State() == old(editor.State()) && log == old(log)
      ensures old(editor.undo) != [] ==>
        var prev := old(editor.undo)[|old(editor.undo)| - 1];
        && editor.State() == old(editor.State()).(cells := prev, height := |prev|, width := |prev[0]|,
                                                  undo := Pop(old(editor.undo)), selection := {})
        && log == old(log) + [EntryFor("undo", map[], editor.Now(), |old(log)| + 1)]
    {
      var reported := editor.UndoLastAction();
      Forward(reported);
    }

    /** The events that write the symbol on the pointed cell: any press or click, or a move with the primary button. */
    predicate Paints(ev: PointerEvent)
      reads this, editor
    {
      editor.tool == Edit && (ev == Click || ev.MouseDown? || (ev.MouseMove? && ev.buttons == 1))
    }

    /** The events that push a snapshot first: a click with the edit or fill tool, and a press with the edit tool. */
    predicate Pushes(ev: PointerEvent)
      reads this, editor
    {
      (ev == Click && editor.tool != Select) || (ev.MouseDown? && editor.tool == Edit)
    }

    /**
     * `handleCellInteraction`: a click with the edit or fill tool, and a
     * press with the edit tool, push a snapshot whether or not anything
     * changes; drawing writes the symbol and logs only a changed cell; the
     * fill runs the depth-first `_floodfill` on a copy of the cells and is
     * always logged; a release with the edit tool logs the end of a drag.
     */
    method HandleCellInteraction(ev: PointerEvent, x: int, y: int)
      requires Valid() && 0 <= x < editor.height && 0 <= y < editor.width
      modifies this, editor, editor.grid
      ensures Valid() && progress == old(progress) && task == old(task)
      ensures store == old(store) && properties == old(properties)
      ensures editor.State() == old(editor.State()).(cells := Contents(editor.grid), undo := editor.undo)
      ensures editor.undo == if old(Pushes(ev)) then Push(old(editor.undo), old(Contents(editor.grid))) else old(editor.undo)
      ensures old(Paints(ev)) ==> Contents(editor.grid) == SetCell(old(Contents(editor.grid)), x, y, editor.symbol)
      ensures ev == Click && editor.tool == FloodFill ==>
        IsFill(old(Contents(editor.grid)), Contents(editor.grid), x, y, editor.symbol)
      ensures !old(Paints(ev)) && !(ev == Click && editor.tool == FloodFill) ==>
        Contents(editor.grid) == old(Contents(editor.grid))
      ensures log == old(log) +
        var at := map["x" := Num(x), "y" := Num(y), "symbol" := Num(editor.symbol)];
        var changed := old(editor.grid[x, y]) != editor.symbol;
        if ev == Click && editor.tool == Edit && changed then
          [EntryFor("draw_cell", at, editor.Now(), |old(log)| + 1)]
        else if ev == Click && editor.tool == FloodFill then
          [EntryFor("floodfill_cell", at, editor.Now(), |old(log)| + 1)]
        else if ev.MouseDown? && editor.tool == Edit && changed then
          [EntryFor("draw_cell_drag_start", at, editor.Now(), |old(log)| + 1)]
        else if ev == MouseUp && editor.tool == Edit then
          [EntryFor("draw_cell_drag_end", map[], editor.Now(), |old(log)| + 1)]
        else []
    {
      if Pushes(ev) {
        editor.PushToUndoStack();
      }
      if ev == Click && editor.tool == FloodFill {
        FloodFillAt(x, y);
      } else {
        StrokeAt(ev, x, y);
      }
    }

    /** The events other than a fill: drawing writes the symbol, a release with the edit tool ends a drag, the rest change nothing. */
    method StrokeAt(ev: PointerEvent, x: int, y: int)
      requires Valid() && 0 <= x < editor.height && 0 <= y < editor.width
      requires !(ev == Click && editor.tool == FloodFill)
      modifies this, editor.grid
      ensures Valid() && progress == old(progress) && task == old(task)
      ensures store == old(store) && properties == old(properties)
      ensures editor.State() == old(editor.State()).(cells := Contents(editor.grid))
      ensures old(Paints(ev)) ==> Contents(editor.grid) == SetCell(old(Contents(editor.grid)), x, y, editor.symbol)
      ensures !old(Paints(ev)) ==> Contents(editor.grid) == old(Contents(editor.grid))
      ensures log == old(log) +
        var at := map["x" := Num(x), "y" := Num(y), "symbol" := Num(editor.symbol)];
        var changed := old(editor.grid[x, y]) != editor.symbol;
        if ev == Click && editor.tool == Edit && changed then
          [EntryFor("draw_cell", at, editor.Now(), |old(log)| + 1)]
        else if ev.MouseDown? && editor.tool == Edit && changed then
          [EntryFor("draw_cell_drag_start", at, editor.Now(), |old(log)| + 1)]
        else if ev == MouseUp && editor.tool == Edit then
          [EntryFor("draw_cell_drag_end", map[], editor.Now(), |old(log)| + 1)]
        else []
    {
      if Paints(ev) {
        DrawAt(x, y, if ev == Click then Some("draw_cell") else if ev.MouseDown? then Some("draw_cell_drag_start") else None);
      } else if ev == MouseUp && editor.tool == Edit {
        LogAction("draw_cell_drag_end", map[], editor.Now());
      } else {
        SetCellSame(Contents(editor.grid), x, y);
      }
    }

    /** The cell takes the symbol; a change is logged under `action`, if there is one. */
    method DrawAt(x: int, y: int, action: Option<string>)
      requires Valid() && 0 <= x < editor.height && 0 <= y < editor.width
      modifies this, editor.grid
      ensures Valid() && progress == old(progress) && task == old(task)
      ensures store == old(store) && properties == old(properties)
      ensures editor.State() == old(editor.State()).(cells := SetCell(old(Contents(editor.grid)), x, y, editor.symbol))
      ensures log == old(log) + if action.Some? && old(editor.grid[x, y]) != editor.symbol then
        [EntryFor(action.value, map["x" := Num(x), "y" := Num(y), "symbol" := Num(editor.symbol)],
                  editor.Now(), |old(log)| + 1)] else []
    {
      SetCellSame(Contents(editor.grid), x, y);
      if editor.grid[x, y] != editor.symbol {
        WriteCell(editor.grid, x, y, editor.symbol);
        if action.Some? {
          LogAction(action.value, map["x" := Num(x), "y" := Num(y), "symbol" := Num(editor.symbol)], editor.Now());
        }
      }
    }

    /** `_floodfill` on a copy of the cells, which then replaces them; the fill is logged whether or not it changed a cell. */
    method FloodFillAt(x: int, y: int)
      requires Valid() && 0 <= x < editor.height && 0 <= y < editor.width
      modifies this, editor
      ensures Valid() && progress == old(progress) && task == old(task)
      ensures store == old(store) && properties == old(properties)
      ensures fresh(editor.grid)
      ensures editor.State() == old(editor.State()).(cells := Contents(editor.grid))
      ensures IsFill(old(Contents(editor.grid)), Contents(editor.grid), x, y, editor.symbol)
      ensures log == old(log) + [EntryFor("floodfill_cell", map["x" := Num(x), "y" := Num(y), "symbol" := Num(editor.symbol)],
                                          editor.Now(), |old(log)| + 1)]
    {
      var copy := FilledCopy(editor.grid, x, y, editor.symbol);
      editor.grid := copy;
      var view := editor.Now();
      var at := map["x" := Num(x), "y" := Num(y), "symbol" := Num(editor.symbol)];
      LogAction("floodfill_cell", at, view);
      assert editor.Now() == view;
    }

    /** `updateSelectedCells(newSelection)`: the selection is replaced and logged as `select_cells_updated`. */
    method UpdateSelectedCells(newSelection: set<Pos>)
      requires Valid()
      modifies this, editor
      ensures Valid() && progress == old(progress) && task == old(task)
      ensures store == old(store) && properties == old(properties)
      ensures editor.State() == old(editor.State()).(selection := newSelection)
      ensures log == old(log) + [EntryFor("select_cells_updated", map["count" := Num(|newSelection|)],
                                          editor.Now(), |old(log)| + 1)]
    {
      var _ := editor.UpdateSelectedCells(newSelection);
      LogAction("select_cells_updated", map["count" := Num(|newSelection|)], editor.Now());
    }

    /**
     * `changeColorOfSelectedCells`: with a non-empty selection, whatever the
     * tool, a snapshot is pushed, every selected cell inside the grid takes
     * the symbol, the change is logged even when no cell changed, and the
     * selection is cleared.
     */
    method ChangeColorOfSelectedCells()
      requires Valid()
      modifies this, editor, editor.grid
      ensures Valid() && progress == old(progress) && task == old(task)
      ensures store == old(store) && properties == old(properties)
      ensures editor.grid == old(editor.grid)
      ensures |old(editor.selection)| == 0 ==> editor.State() == old(editor.State()) && log == old(log)
      ensures |old(editor.selection)| > 0 ==>
        var recoloured := Recolor(old(Contents(editor.grid)), old(editor.selection), editor.symbol);
        && editor.State() == old(editor.State()).(cells := recoloured,
                                                  undo := Push(old(editor.undo), old(Contents(editor.grid))),
                                                  selection := {})
        && log == old(log) + [EntryFor("change_color_selected_cells",
                                       map["symbol" := Num(editor.symbol), "count" := Num(|old(editor.selection)|)],
                                       editor.Now().(selection := old(editor.selection)), |old(log)| + 1)]
    {
      if |editor.selection| > 0 {
        editor.PushToUndoStack();
        var _ := RecolorCells(editor.grid, editor.selection, editor.symbol);
        LogAction("change_color_selected_cells",
                  map["symbol" := Num(editor.symbol), "count" := Num(|editor.selection|)], editor.Now());
        editor.ClearSelection();
      }
    }

    /**
     * `copySelectedOutputCells`: the engine's copy. A selected row the grid
     * lacks (after an auto-solve or a load without test pairs kept the
     * selection) makes it throw before anything is stored.
     */
    method CopySelectedOutputCells() returns (crashed: bool)
      requires Valid()
      modifies this, editor
      ensures Valid() && progress == old(progress) && task == old(task)
      ensures store == old(store) && properties == old(properties)
      ensures crashed <==>
        |old(editor.selection)| > 0 && old(editor.tool) == Select && !RowsExist(old(editor.selection), old(editor.height))
      ensures |old(editor.selection)| == 0 || old(editor.tool) != Select || crashed ==>
        editor.State() == old(editor.State()) && log == old(log)
      ensures |old(editor.selection)| > 0 && old(editor.tool) == Select && !crashed ==>
        && editor.State() == old(editor.State()).(clipboard := editor.clipboard, origin := editor.origin)
        && CopiedFrom(editor.clipboard, Contents(editor.grid), editor.selection)
        && IsMinCorner(editor.selection, editor.origin)
        && log == old(log) + [EntryFor("copy_cells_to_clipboard", map["count" := Num(|editor.clipboard|)],
                                       editor.Now(), |old(log)| + 1)]
    {
      var reported;
      reported, crashed := editor.CopySelectedCells();
      Forward(reported);
    }

    /**
     * `pasteCopiedCells`: with a non-empty clipboard, the select tool and
     * exactly one selected cell, a snapshot is pushed and kept, the copied
     * cells are written at that cell plus their offsets where they land
     * inside the grid, the paste is logged and the selection cleared.
     */
    method PasteCopiedCells()
      requires Valid()
      modifies this, editor, editor.grid
      ensures Valid() && progress == old(progress) && task == old(task)
      ensures store == old(store) && properties == old(properties)
      ensures editor.grid == old(editor.grid)
      ensures !(|old(editor.clipboard)| > 0 && |old(editor.selection)| == 1 && old(editor.tool) == Select) ==>
        editor.State() == old(editor.State()) && log == old(log)
      ensures |old(editor.clipboard)| > 0 && |old(editor.selection)| == 1 && old(editor.tool) == Select ==>
        exists target :: old(editor.selection) == {target}
          && editor.State() == old(editor.State()).(cells := Pasted(old(Contents(editor.grid)), editor.clipboard,
                                                                    editor.origin, target),
                                                    undo := Push(old(editor.undo), old(Contents(editor.grid))),
                                                    selection := {})
          && log == old(log) + [EntryFor("paste_cells_from_clipboard",
                                         map["targetX" := Num(target.0), "targetY" := Num(target.1),
                                             "count" := Num(|editor.clipboard|)],
                                         editor.Now().(selection := {target}), |old(log)| + 1)]
    {
      if |editor.clipboard| == 0 || |editor.selection| != 1 || editor.tool != Select {
        return;
      }
      editor.PushToUndoStack();
      var target :| target in editor.selection;
      OnlyElement(editor.selection, target);
      var _ := PasteCells(editor.grid, editor.clipboard, editor.origin, target);
      LogAction("paste_cells_from_clipboard",
                map["targetX" := Num(target.0), "targetY" := Num(target.1), "count" := Num(|editor.clipboard|)],
                editor.Now());
      editor.ClearSelection();
    }

    /**
     * `autoSolveCurrentTask`: with a test pair, a snapshot is pushed and the
     * output becomes its answer; a pair without an answer throws right after
     * the push. Without a pair nothing changes.
     */
    method AutoSolveCurrentTask() returns (crashed: bool)
      requires Valid()
      modifies this, editor
      ensures Valid() && progress == old(progress) && task == old(task)
      ensures store == old(store) && properties == old(properties)
      ensures crashed <==> task.testPair.Some? && task.testPair.value.output.None?
      ensures task.testPair.None? ==> editor.State() == old(editor.State()) && log == old(log)
      ensures crashed ==>
        && editor.State() == old(editor.State()).(undo := Push(old(editor.undo), old(Contents(editor.grid))))
        && log == old(log)
      ensures HasAnswer(task.testPair) ==>
        && Solves(task.testPair, Contents(editor.grid))
        && editor.State() == old(editor.State()).(cells := Contents(editor.grid), height := editor.height,
                                                  width := editor.width,
                                                  undo := Push(old(editor.undo), old(Contents(editor.grid))))
        && log == old(log) + [EntryFor("auto_solve_task", map[], editor.Now(), |old(log)| + 1)]
    {
      crashed := false;
      if task.testPair.None? {
        return;
      }
      if task.testPair.value.output.None? {
        editor.PushToUndoStack();
        return true;
      }
      var reported := editor.AutoSolve(task.testPair.value.output);
      Forward(reported);
    }
  }
}
