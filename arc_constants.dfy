/** Constants and small shared types of the ARC task editor (arcConstants.js). */
module ArcConstants {

  /** EXPERIMENT_CONFIG */
  const MaxTasksPerExperiment: nat := 5
  const MaxAttemptsPerTask: nat := 3
  const UndoStackLimit: nat := 20

  /** GRID_CONFIG */
  const DefaultHeight: nat := 3
  const DefaultWidth: nat := 3
  const MaxSize: nat := 30

  const DefaultSymbol: int := 0

  /** TOOLS: the three drawing tools ('edit', 'select', 'floodfill'). */
  datatype Tool = Edit | Select | FloodFill

  /** The tool's name as the source writes it. */
  function ToolName(t: Tool): string {
    match t
    case Edit => "edit"
    case Select => "select"
    case FloodFill => "floodfill"
  }

  /** The conventional Some/None wrapper, standing in for JavaScript's null and undefined. */
  datatype Option<+T> = None | Some(value: T)

  /**
   * A cell interaction coming from the editable grid: the event type with the
   * mouse `buttons` bitmask where the source reads it (1 = primary button held).
   */
  datatype PointerEvent = Click | MouseDown(buttons: int) | MouseMove(buttons: int) | MouseUp
}
