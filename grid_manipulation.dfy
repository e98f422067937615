/**
 * The output-grid editing engine of useGridManipulation.js: one object
 * holding the output grid, its size, the undo history, the drawing tool and
 * symbol, the selected cells and the clipboard, with one method per
 * operation. An operation that calls `logAction` returns what it reported
 * (the action, its details and the editor state at that moment) instead.
 */
module GridEngine {
  import opened ArcConstants
  import opened ArcUtils
  import opened RegionFill
  import opened UndoStack
  import opened GridEditing

  /** The editor state a `logAction` callback can observe when it is called. */
  datatype View = View(cells: Cells, height: int, width: int, tool: Tool, symbol: int, selection: set<Pos>)

  /** One call of `logAction(action, details)`, with the state it was made in. */
  datatype Report = Report(action: string, details: Entry, view: View)

  /** Everything the engine holds, as one value. */
  datatype EngineState = EngineState(
    cells: Cells, height: int, width: int, undo: seq<Cells>,
    tool: Tool, symbol: int, selection: set<Pos>, clipboard: seq<Clip>, origin: Pos)

  /** Every snapshot has at least one row and rows of equal length. */
  ghost predicate Snapshots(undo: seq<Cells>) {
    forall k :: 0 <= k < |undo| ==> IsGrid(undo[k])
  }

  lemma PushKeepsSnapshots(undo: seq<Cells>, g: Cells)
    requires |undo| <= UndoStackLimit && Snapshots(undo) && IsGrid(g)
    ensures Snapshots(Push(undo, g)) && |Push(undo, g)| <= UndoStackLimit
  {
    var r := Push(undo, g);
    forall k | 0 <= k < |r| ensures IsGrid(r[k]) {
      assert r[k] == (undo + [g])[|undo| + 1 - |r| + k];
    }
  }

  lemma PopKeepsSnapshots(undo: seq<Cells>)
    requires |undo| > 0 && Snapshots(undo)
    ensures Snapshots(Pop(undo)) && IsGrid(undo[|undo| - 1])
  {
  }

  /** The contents of a grid with at least one row are a grid value. */
  lemma ContentsIsGrid(a: array2<int>)
    requires a.Length0 >= 1
    ensures IsGrid(Contents(a))
  {
  }

  /** The all-zero grid `new Grid(h, w)` builds without a source. */
  lemma EmptySourceIsZero(h: nat, w: nat, i: nat, j: nat)
    requires i < h && j < w
    ensures BuildGrid(h, w, [])[i][j] == DefaultSymbol
  {
  }

  class Engine {
    /** `currentOutputGrid.value.grid`, replaced by a fresh array whenever the source builds a new Grid. */
    var grid: array2<int>
    /** `outputGridHeight` and `outputGridWidth`. */
    var height: int
    var width: int
    var undo: seq<Cells>
    var tool: Tool
    var symbol: int
    var selection: set<Pos>
    /** `copiedCellData`: the copied cells and their `{ minX, minY }` origin. */
    var clipboard: seq<Clip>
    var origin: Pos

    ghost predicate Valid()
      reads this
    {
      && grid.Length0 == height && grid.Length1 == width && height >= 1
      && |undo| <= UndoStackLimit && Snapshots(undo)
      && Distinct(clipboard)
    }

    ghost function State(): EngineState
      reads this, grid
    {
      EngineState(Contents(grid), height, width, undo, tool, symbol, selection, clipboard, origin)
    }

    function Now(): View
      reads this, grid
    {
      View(Contents(grid), height, width, tool, symbol, selection)
    }

    /** The initial state: a 3x3 zero grid, the edit tool, symbol 0, nothing selected or copied. */
    constructor ()
      ensures Valid() && fresh(grid)
      ensures State() == EngineState(BuildGrid(DefaultHeight, DefaultWidth, []), DefaultHeight, DefaultWidth, [],
                                     Edit, DefaultSymbol, {}, [], (0, 0))
    {
      var cells := NewGrid(DefaultHeight, DefaultWidth, []);
      grid := cells;
      height, width := DefaultHeight, DefaultWidth;
      undo := [];
      tool, symbol := Edit, DefaultSymbol;
      selection := {};
      clipboard, origin := [], (0, 0);
    }

    /** `selectedCells.value.clear()`: the selection empties; nothing else changes. */
    method ClearSelection()
      requires Valid()
      modifies this
      ensures Valid() && grid == old(grid)
      ensures State() == old(State()).(selection := {})
    {
      selection := {};
    }

    /** `pushToUndoStack`: a copy of the current cells goes on the history, which keeps its newest 20. */
    method PushToUndoStack()
      requires Valid()
      modifies this
      ensures Valid() && grid == old(grid)
      ensures State() == old(State()).(undo := Push(old(undo), old(Contents(grid))))
    {
      ContentsIsGrid(grid);
      PushKeepsSnapshots(undo, Contents(grid));
      undo := Push(undo, Contents(grid));
    }

    /** Drops the snapshot just pushed, when the operation changed nothing. */
    method DiscardUndo()
      requires Valid() && |undo| > 0
      modifies this
      ensures Valid() && grid == old(grid)
      ensures State() == old(State()).(undo := Pop(old(undo)))
    {
      PopKeepsSnapshots(undo);
      undo := Pop(undo);
    }

    /**
     * `updateOutputGridSize(h, w)`: nothing when the size is already h by w;
     * otherwise the old cells go on the history, the grid is rebuilt at the
     * new size keeping the overlapping cells, and the selection is cleared.
     */
    method UpdateOutputGridSize(h: nat, w: nat) returns (logged: Option<Report>)
      requires Valid() && h >= 1
      modifies this
      ensures Valid()
      ensures h == old(height) && w == old(width) ==> State() == old(State()) && logged == None
      ensures !(h == old(height) && w == old(width)) ==>
        && State() == old(State()).(cells := BuildGrid(h, w, old(Contents(grid))), height := h, width := w,
                                    undo := Push(old(undo), old(Contents(grid))), selection := {})
        && logged == Some(Report("resize_output_grid", map["newHeight" := Num(h), "newWidth" := Num(w)], Now()))
    {
      if h == height && w == width {
        return None;
      }
      PushToUndoStack();
      grid := NewGrid(h, w, Contents(grid));
      height, width := h, w;
      selection := {};
      logged := Some(Report("resize_output_grid", map["newHeight" := Num(h), "newWidth" := Num(w)], Now()));
    }

    /** `resetOutputGrid`: a 3x3 zero grid, symbol 0, the edit tool, no selection; the old cells go on the history. */
    method ResetOutputGrid() returns (logged: Option<Report>)
      requires Valid()
      modifies this
      ensures Valid()
      ensures State() == old(State()).(cells := BuildGrid(DefaultHeight, DefaultWidth, []),
                                       height := DefaultHeight, width := DefaultWidth,
                                       undo := Push(old(undo), old(Contents(grid))), selection := {},
                                       symbol := DefaultSymbol, tool := Edit)
      ensures logged == Some(Report("reset_output_grid", map[], Now()))
    {
      PushToUndoStack();
      grid := NewGrid(DefaultHeight, DefaultWidth, []);
      height, width := DefaultHeight, DefaultWidth;
      selection := {};
      symbol := DefaultSymbol;
      tool := Edit;
      logged := Some(Report("reset_output_grid", map[], Now()));
    }

    /** `copyInputToOutput(inputGrid)`: the output becomes a copy of the input grid; nothing without one. */
    method CopyInputToOutput(input: Option<Cells>) returns (logged: Option<Report>)
      requires Valid() && (input.Some? ==> IsGrid(input.value))
      modifies this
      ensures Valid()
      ensures input.None? ==> State() == old(State()) && logged == None
      ensures input.Some? ==>
        && State() == old(State()).(cells := input.value, height := |input.value|, width := |input.value[0]|,
                                    undo := Push(old(undo), old(Contents(grid))), selection := {})
        && logged == Some(Report("copy_input_to_output", map[], Now()))
    {
      if input.None? {
        return None;
      }
      var g := input.value;
      PushToUndoStack();
      BuildGridClones(g);
      grid := NewGrid(|g|, |g[0]|, g);
      height, width := |g|, |g[0]|;
      selection := {};
      logged := Some(Report("copy_input_to_output", map[], Now()));
    }

    /**
     * `undoLastAction`: the newest snapshot comes off the history and becomes
     * the grid, with its own size, and the selection is cleared; with an
     * empty history nothing changes.
     */
    method UndoLastAction() returns (logged: Option<Report>)
      requires Valid()
      modifies this
      ensures Valid()
      ensures old(undo) == [] ==> State() == old(State()) && logged == None
      ensures old(undo) != [] ==>
        var prev := old(undo)[|old(undo)| - 1];
        && State() == old(State()).(cells := prev, height := |prev|, width := |prev[0]|,
                                    undo := Pop(old(undo)), selection := {})
        && logged == Some(Report("undo", map[], Now()))
    {
      if undo == [] {
        return None;
      }
      var prev := undo[|undo| - 1];
      PopKeepsSnapshots(undo);
      undo := Pop(undo);
      BuildGridClones(prev);
      grid := NewGrid(|prev|, |prev[0]|, prev);
      height, width := |prev|, |prev[0]|;
      selection := {};
      logged := Some(Report("undo", map[], Now()));
    }

    /** The events that draw the current symbol on the pointed cell with the edit tool. */
    predicate Draws(ev: PointerEvent)
      reads this
    {
      tool == Edit && (ev == Click || (ev.MouseDown? && ev.buttons == 1) || (ev.MouseMove? && ev.buttons == 1))
    }

    /**
     * `handleCellInteraction({ type, x, y, event })`. A click with the edit
     * tool, or a mousedown with the primary button, draws the symbol on the
     * cell and pushes the old cells when the cell differed; a mousemove with
     * the primary button draws without pushing; a click with the fill tool
     * pushes, fills the region and takes the push back when the fill changed
     * nothing. Only the cells and the history change.
     */
    method HandleCellInteraction(ev: PointerEvent, x: int, y: int) returns (logged: Option<Report>)
      requires Valid() && 0 <= x < height && 0 <= y < width
      modifies this, grid
      ensures Valid() && grid == old(grid)
      ensures State() == old(State()).(cells := Contents(grid), undo := undo)
      ensures Draws(ev) ==> Contents(grid) == SetCell(old(Contents(grid)), x, y, symbol)
      ensures ev == Click && tool == FloodFill ==> IsFill(old(Contents(grid)), Contents(grid), x, y, symbol)
      ensures !Draws(ev) && !(ev == Click && tool == FloodFill) ==> Contents(grid) == old(Contents(grid))
      ensures (ev == Click || (ev.MouseDown? && ev.buttons == 1)) && tool == Edit ==>
        undo == if old(grid[x, y]) != symbol then Push(old(undo), old(Contents(grid))) else old(undo)
      ensures ev == Click && tool == FloodFill ==>
        undo == if old(grid[x, y]) != symbol then Push(old(undo), old(Contents(grid)))
                else Pop(Push(old(undo), old(Contents(grid))))
      ensures !(ev == Click && tool != Select) && !(ev.MouseDown? && ev.buttons == 1 && tool == Edit) ==>
        undo == old(undo)
      ensures logged ==
        if ev == Click && tool == Edit && old(grid[x, y]) != symbol then
          Some(Report("draw_cell_click", map["x" := Num(x), "y" := Num(y), "symbol" := Num(symbol)], Now()))
        else if ev == Click && tool == FloodFill && old(grid[x, y]) != symbol then
          Some(Report("floodfill_cell", map["x" := Num(x), "y" := Num(y), "symbol" := Num(symbol)], Now()))
        else if ev == MouseUp && tool == Edit then
          Some(Report("draw_cell_drag_end", map["final_x" := Num(x), "final_y" := Num(y), "symbol" := Num(symbol)], Now()))
        else None
    {
      logged := None;
      SetCellSame(Contents(grid), x, y);
      if ev == Click && tool != Select {
        if tool == Edit {
          if grid[x, y] != symbol {
            PushToUndoStack();
            WriteCell(grid, x, y, symbol);
            logged := Some(Report("draw_cell_click", map["x" := Num(x), "y" := Num(y), "symbol" := Num(symbol)], Now()));
          }
        } else if tool == FloodFill {
          PushToUndoStack();
          var changed, _ := Fill(grid, x, y, symbol);
          if changed {
            logged := Some(Report("floodfill_cell", map["x" := Num(x), "y" := Num(y), "symbol" := Num(symbol)], Now()));
          } else {
            DiscardUndo();
          }
        }
      } else if ev.MouseDown? && tool == Edit && ev.buttons == 1 {
        if grid[x, y] != symbol {
          PushToUndoStack();
          WriteCell(grid, x, y, symbol);
        }
      } else if ev.MouseMove? && tool == Edit && ev.buttons == 1 {
        if grid[x, y] != symbol {
          WriteCell(grid, x, y, symbol);
        }
      } else if ev == MouseUp && tool == Edit {
        logged := Some(Report("draw_cell_drag_end", map["final_x" := Num(x), "final_y" := Num(y), "symbol" := Num(symbol)], Now()));
      }
    }

    /** `updateSelectedCells(newSelection)`: the selection is replaced. */
    method UpdateSelectedCells(newSelection: set<Pos>) returns (logged: Option<Report>)
      requires Valid()
      modifies this
      ensures Valid()
      ensures State() == old(State()).(selection := newSelection)
      ensures logged == Some(Report("selection_updated", map["count" := Num(|newSelection|)], Now()))
    {
      selection := newSelection;
      logged := Some(Report("selection_updated", map["count" := Num(|newSelection|)], Now()));
    }

    /**
     * `changeColorOfSelectedCells`: with the select tool and a non-empty
     * selection, every selected cell inside the grid takes the symbol; the
     * history entry pushed first is taken back when no cell changed. The
     * selection stays.
     */
    method ChangeColorOfSelectedCells() returns (logged: Option<Report>)
      requires Valid()
      modifies this, grid
      ensures Valid() && grid == old(grid)
      ensures !(|old(selection)| > 0 && old(tool) == Select) ==> State() == old(State()) && logged == None
      ensures |old(selection)| > 0 && old(tool) == Select ==>
        var recoloured := Recolor(old(Contents(grid)), selection, symbol);
        var pushed := Push(old(undo), old(Contents(grid)));
        && State() == old(State()).(cells := recoloured, undo := if recoloured != old(Contents(grid)) then pushed else Pop(pushed))
        && logged == if recoloured != old(Contents(grid))
                     then Some(Report("change_color_selected_cells",
                                      map["symbol" := Num(symbol), "count" := Num(|selection|)], Now()))
                     else None
    {
      logged := None;
      if |selection| > 0 && tool == Select {
        PushToUndoStack();
        var changed := RecolorCells(grid, selection, symbol);
        if changed {
          logged := Some(Report("change_color_selected_cells",
                                map["symbol" := Num(symbol), "count" := Num(|selection|)], Now()));
        } else {
          DiscardUndo();
        }
      }
    }

    /**
     * `copySelectedCells`: with the select tool and a non-empty selection,
     * the clipboard becomes one entry per selected cell with its symbol, and
     * the origin the selection's smallest row and column. A selected cell
     * whose row the grid lacks (the grid shrank under a kept selection, as
     * `autoSolve` allows) makes `grid[x][y]` throw before anything is
     * stored; a cell past the end of an existing row is copied as `undefined`.
     */
    method CopySelectedCells() returns (logged: Option<Report>, crashed: bool)
      requires Valid()
      modifies this
      ensures Valid()
      ensures crashed <==> |old(selection)| > 0 && old(tool) == Select && !RowsExist(old(selection), old(height))
      ensures |old(selection)| == 0 || old(tool) != Select || crashed ==> State() == old(State()) && logged == None
      ensures |old(selection)| > 0 && old(tool) == Select && !crashed ==>
        && State() == old(State()).(clipboard := clipboard, origin := origin)
        && CopiedFrom(clipboard, Contents(grid), selection)
        && IsMinCorner(selection, origin)
        && logged == Some(Report("copy_cells_to_clipboard", map["count" := Num(|clipboard|)], Now()))
    {
      if |selection| == 0 || tool != Select {
        return None, false;
      }
      if !RowsExist(selection, height) {
        return None, true;
      }
      var cells, corner := CopyCells(grid, selection);
      clipboard, origin := cells, corner;
      logged, crashed := Some(Report("copy_cells_to_clipboard", map["count" := Num(|clipboard|)], Now())), false;
    }

    /**
     * `pasteCopiedCells`: with a non-empty clipboard, the select tool and
     * exactly one selected cell, each copied cell is written at that cell
     * plus its offset from the origin when this lands inside the grid; the
     * history entry pushed first is taken back when no cell changed, and the
     * selection is cleared. Otherwise nothing changes.
     */
    method PasteCopiedCells() returns (logged: Option<Report>)
      requires Valid()
      modifies this, grid
      ensures Valid() && grid == old(grid)
      ensures !(|old(clipboard)| > 0 && |old(selection)| == 1 && old(tool) == Select) ==>
        State() == old(State()) && logged == None
      ensures |old(clipboard)| > 0 && |old(selection)| == 1 && old(tool) == Select ==>
        exists target :: old(selection) == {target} &&
          var pasted := Pasted(old(Contents(grid)), clipboard, origin, target);
          var pushed := Push(old(undo), old(Contents(grid)));
          && State() == old(State()).(cells := pasted, undo := if pasted != old(Contents(grid)) then pushed else Pop(pushed),
                                      selection := {})
          && logged == if pasted != old(Contents(grid))
                       then Some(Report("paste_cells_from_clipboard",
                                        map["targetX" := Num(target.0), "targetY" := Num(target.1), "count" := Num(|clipboard|)],
                                        Now().(selection := {target})))
                       else None
    {
      if |clipboard| == 0 || |selection| != 1 || tool != Select {
        return None;
      }
      PushToUndoStack();
      var target :| target in selection;
      OnlyElement(selection, target);
      var pasted := PasteCells(grid, clipboard, origin, target);
      logged := None;
      if pasted {
        logged := Some(Report("paste_cells_from_clipboard",
                              map["targetX" := Num(target.0), "targetY" := Num(target.1), "count" := Num(|clipboard|)],
                              Now()));
      } else {
        DiscardUndo();
      }
      selection := {};
    }

    /**
     * `autoSolve(referenceOutput)`: the output becomes a copy of the
     * reference answer; nothing without one. The selection is left as it is.
     */
    method AutoSolve(reference: Option<Cells>) returns (logged: Option<Report>)
      requires Valid() && (reference.Some? ==> IsGrid(reference.value))
      modifies this
      ensures Valid()
      ensures reference.None? ==> State() == old(State()) && logged == None
      ensures reference.Some? ==>
        && State() == old(State()).(cells := reference.value, height := |reference.value|, width := |reference.value[0]|,
                                    undo := Push(old(undo), old(Contents(grid))))
        && logged == Some(Report("auto_solve_task", map[], Now()))
    {
      if reference.None? {
        return None;
      }
      var r := reference.value;
      PushToUndoStack();
      BuildGridClones(r);
      grid := NewGrid(|r|, |r[0]|, r);
      height, width := |r|, |r[0]|;
      logged := Some(Report("auto_solve_task", map[], Now()));
    }
  }

  /** A one-element set is the set of the element it contains. */
  lemma OnlyElement<T>(s: set<T>, x: T)
    requires |s| == 1 && x in s
    ensures s == {x}
  {
    assert |s - {x}| == 0;
    assert s - {x} == {};
  }
}
