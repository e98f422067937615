/**
 * What the selection tools do to a grid held in place: recolouring the
 * selected cells, copying them to a clipboard with its top-left origin, and
 * pasting the clipboard at a target cell, clipped to the grid. Each loop is a
 * method proved against a function on grid values; the lemmas state what
 * those functions mean.
 */
module GridEditing {
  import opened ArcConstants
  import opened ArcUtils
  import opened RegionFill

  /** One copied cell `{ x, y, symbol }`: where it was copied from and what it held. */
  datatype Clip = Clip(x: int, y: int, symbol: int)

  function ClipPos(c: Clip): Pos { (c.x, c.y) }

  /** No two clipboard entries come from the same cell. */
  predicate Distinct(clip: seq<Clip>) {
    forall k, l :: 0 <= k < l < |clip| ==> ClipPos(clip[k]) != ClipPos(clip[l])
  }

  /** The cells a clipboard was copied from. */
  function Positions(clip: seq<Clip>): set<Pos> {
    set k | 0 <= k < |clip| :: ClipPos(clip[k])
  }

  // ---------------------------------------------------------------------------
  // changeColorOfSelectedCells
  // ---------------------------------------------------------------------------

  /** The cells after every selected cell inside the grid is set to `s`. */
  function Recolor(g: Cells, sel: set<Pos>, s: int): (r: Cells)
    ensures |r| == |g| && forall i :: 0 <= i < |g| ==> |r[i]| == |g[i]|
  {
    seq(|g|, i requires 0 <= i < |g| =>
      seq(|g[i]|, j requires 0 <= j < |g[i]| => if (i, j) in sel then s else g[i][j]))
  }

  /** Some selected cell inside the grid holds a symbol other than `s`. */
  ghost predicate RecolorsAny(g: Cells, sel: set<Pos>, s: int) {
    exists p :: p in sel && InGrid(g, p) && At(g, p) != s
  }

  /** Recolouring changes the grid exactly when a selected in-grid cell held another symbol. */
  lemma RecolorChangesIff(g: Cells, sel: set<Pos>, s: int)
    ensures Recolor(g, sel, s) != g <==> RecolorsAny(g, sel, s)
  {
    var r := Recolor(g, sel, s);
    if RecolorsAny(g, sel, s) {
      var p :| p in sel && InGrid(g, p) && At(g, p) != s;
      assert r[p.0][p.1] == s;
    } else {
      forall i | 0 <= i < |g| ensures r[i] == g[i] {
        forall j | 0 <= j < |g[i]| ensures r[i][j] == g[i][j] {
          if (i, j) in sel {
            assert InGrid(g, (i, j));
          }
        }
      }
    }
  }

  /** Cells outside the selection keep their symbol; selected in-grid cells hold `s`. */
  lemma RecolorTouchesOnlySelection(g: Cells, sel: set<Pos>, s: int, p: Pos)
    requires InGrid(g, p)
    ensures p !in sel ==> At(Recolor(g, sel, s), p) == At(g, p)
    ensures p in sel ==> At(Recolor(g, sel, s), p) == s
  {
  }

  /** Recolouring the same selection twice with the same symbol changes nothing more. */
  lemma RecolorIdempotent(g: Cells, sel: set<Pos>, s: int)
    ensures Recolor(Recolor(g, sel, s), sel, s) == Recolor(g, sel, s)
  {
    RecolorChangesIff(Recolor(g, sel, s), sel, s);
  }

  lemma RecolorsAnyAdd(g: Cells, done: set<Pos>, s: int, p: Pos)
    ensures RecolorsAny(g, done + {p}, s) <==>
            RecolorsAny(g, done, s) || (InGrid(g, p) && At(g, p) != s)
  {
    if RecolorsAny(g, done + {p}, s) && !(InGrid(g, p) && At(g, p) != s) {
      var q :| q in done + {p} && InGrid(g, q) && At(g, q) != s;
      assert q in done;
    }
  }

  /** Visiting one more element of a set being walked through. */
  lemma TakeOne<T>(all: set<T>, todo: set<T>, p: T)
    requires todo <= all && p in todo
    ensures todo - {p} <= all
    ensures all - (todo - {p}) == (all - todo) + {p}
    ensures |todo - {p}| < |todo|
  {
  }

  /** The painted array is the recoloured grid. */
  lemma PaintedIsRecolor(a: array2<int>, g: Cells, sel: set<Pos>, s: int)
    requires Painted(a, g, sel, s)
    ensures Contents(a) == Recolor(g, sel, s)
  {
    SameCells(Contents(a), Recolor(g, sel, s), a.Length0, a.Length1);
  }

  /**
   * The `forEach` over the selection: every selected cell inside the grid that
   * differs from `s` is set to it; `changed` says whether any was.
   */
  method RecolorCells(a: array2<int>, sel: set<Pos>, s: int) returns (changed: bool)
    modifies a
    ensures Contents(a) == Recolor(old(Contents(a)), sel, s)
    ensures changed <==> Contents(a) != old(Contents(a))
  {
    ghost var g := Contents(a);
    ContentsPainted(a, s);
    var todo := sel;
    changed := false;
    while todo != {}
      invariant todo <= sel
      invariant Painted(a, g, sel - todo, s)
      invariant changed <==> RecolorsAny(g, sel - todo, s)
      decreases |todo|
    {
      var p :| p in todo;
      ghost var done := sel - todo;
      RecolorsAnyAdd(g, done, s, p);
      if 0 <= p.0 < a.Length0 && 0 <= p.1 < a.Length1 && a[p.0, p.1] != s {
        Paint(a, g, done, s, p);
        changed := true;
      }
      TakeOne(sel, todo, p);
      todo := todo - {p};
    }
    PaintedIsRecolor(a, g, sel, s);
    RecolorChangesIff(g, sel, s);
  }

  // ---------------------------------------------------------------------------
  // copySelectedCells
  // ---------------------------------------------------------------------------

  /**
   * What `grid[x][y]` yields when row x exists but column y lies past its
   * end: JavaScript's `undefined`, which equals no symbol of the palette.
   */
  const UndefinedSymbol: int := -1

  /** Every selected cell's row exists: otherwise `grid[x][y]` throws. */
  predicate RowsExist(sel: set<Pos>, h: int) {
    forall p :: p in sel ==> 0 <= p.0 < h
  }

  /** What `grid[x][y]` reads for a cell whose row exists. */
  function CopiedSymbol(g: Cells, p: Pos): (v: int)
    requires 0 <= p.0 < |g|
    ensures InGrid(g, p) ==> v == At(g, p)
    ensures !InGrid(g, p) ==> v == UndefinedSymbol
  {
    if 0 <= p.1 < |g[p.0]| then g[p.0][p.1] else UndefinedSymbol
  }

  /**
   * The clipboard holds each selected cell once, with the symbol it had in
   * `g`, or `undefined` for a cell past the end of its row.
   */
  ghost predicate CopiedFrom(clip: seq<Clip>, g: Cells, sel: set<Pos>) {
    && Distinct(clip)
    && Positions(clip) == sel
    && forall k :: 0 <= k < |clip| ==> 0 <= clip[k].x < |g| && CopiedSymbol(g, ClipPos(clip[k])) == clip[k].symbol
  }

  /** `origin` is `{ minX, minY }`: the smallest row and the smallest column of the selection. */
  ghost predicate IsMinCorner(sel: set<Pos>, origin: Pos) {
    && (exists p :: p in sel && p.0 == origin.0)
    && (exists p :: p in sel && p.1 == origin.1)
    && forall p :: p in sel ==> origin.0 <= p.0 && origin.1 <= p.1
  }

  /** Copying stores one entry per selected cell. */
  lemma CopiedSize(clip: seq<Clip>, g: Cells, sel: set<Pos>)
    requires CopiedFrom(clip, g, sel)
    ensures |clip| == |sel|
  {
    DistinctSize(clip);
  }

  lemma PositionsAppend(clip: seq<Clip>, c: Clip)
    ensures Positions(clip + [c]) == Positions(clip) + {ClipPos(c)}
  {
    var clip' := clip + [c];
    forall q | q in Positions(clip') ensures q in Positions(clip) + {ClipPos(c)} {
      var k :| 0 <= k < |clip'| && ClipPos(clip'[k]) == q;
      if k < |clip| {
        assert clip'[k] == clip[k];
      }
    }
    forall q | q in Positions(clip) ensures q in Positions(clip') {
      var k :| 0 <= k < |clip| && ClipPos(clip[k]) == q;
      assert clip'[k] == clip[k];
    }
    assert ClipPos(clip'[|clip|]) in Positions(clip');
  }

  lemma {:induction false} DistinctSize(clip: seq<Clip>)
    requires Distinct(clip)
    ensures |Positions(clip)| == |clip|
  {
    if clip != [] {
      var init := clip[..|clip| - 1];
      DistinctSize(init);
      assert clip == init + [clip[|clip| - 1]];
      PositionsAppend(init, clip[|clip| - 1]);
    }
  }

  ghost predicate CopyInv(clip: seq<Clip>, g: Cells, done: set<Pos>, minX: int, minY: int, first: Pos) {
    && Distinct(clip)
    && Positions(clip) == done
    && (forall k :: 0 <= k < |clip| ==> 0 <= clip[k].x < |g| && CopiedSymbol(g, ClipPos(clip[k])) == clip[k].symbol)
    && minX <= first.0 && minY <= first.1
    && (minX == first.0 || exists p :: p in done && p.0 == minX)
    && (minY == first.1 || exists p :: p in done && p.1 == minY)
    && forall p :: p in done ==> minX <= p.0 && minY <= p.1
  }

  lemma CopyStep(clip: seq<Clip>, g: Cells, done: set<Pos>, minX: int, minY: int, first: Pos, p: Pos)
    requires CopyInv(clip, g, done, minX, minY, first) && p !in done && 0 <= p.0 < |g|
    ensures CopyInv(clip + [Clip(p.0, p.1, CopiedSymbol(g, p))], g, done + {p},
                    if p.0 < minX then p.0 else minX, if p.1 < minY then p.1 else minY, first)
  {
    var c := Clip(p.0, p.1, CopiedSymbol(g, p));
    var clip' := clip + [c];
    PositionsAppend(clip, c);
    forall k, l | 0 <= k < l < |clip'| ensures ClipPos(clip'[k]) != ClipPos(clip'[l]) {
      if l == |clip| {
        assert ClipPos(clip[k]) in Positions(clip);
      }
    }
  }

  lemma CopyStart(g: Cells, sel: set<Pos>, first: Pos)
    ensures CopyInv([], g, sel - sel, first.0, first.1, first)
  {
    assert Positions([]) == {};
  }

  lemma CopyEnd(clip: seq<Clip>, g: Cells, sel: set<Pos>, minX: int, minY: int, first: Pos)
    requires first in sel && CopyInv(clip, g, sel - {}, minX, minY, first)
    ensures CopiedFrom(clip, g, sel) && IsMinCorner(sel, (minX, minY))
  {
    assert sel - {} == sel;
  }

  /**
   * The `forEach` of `copySelectedCells`: one clipboard entry per selected
   * cell and the running minimum of rows and columns, which start at the
   * first cell visited (the source starts them at Infinity). The caller has
   * checked that every row exists; a column past the end reads `undefined`.
   */
  method CopyCells(a: array2<int>, sel: set<Pos>) returns (clip: seq<Clip>, origin: Pos)
    requires sel != {} && RowsExist(sel, a.Length0)
    ensures CopiedFrom(clip, Contents(a), sel)
    ensures IsMinCorner(sel, origin)
  {
    ghost var g := Contents(a);
    var first :| first in sel;
    var todo := sel;
    var minX, minY := first.0, first.1;
    clip := [];
    CopyStart(g, sel, first);
    while todo != {}
      invariant todo <= sel
      invariant CopyInv(clip, g, sel - todo, minX, minY, first)
      decreases |todo|
    {
      var p :| p in todo;
      ghost var done := sel - todo;
      var v := if 0 <= p.1 < a.Length1 then a[p.0, p.1] else UndefinedSymbol;
      assert v == CopiedSymbol(g, p);
      CopyStep(clip, g, done, minX, minY, first, p);
      clip := clip + [Clip(p.0, p.1, v)];
      minX := if p.0 < minX then p.0 else minX;
      minY := if p.1 < minY then p.1 else minY;
      TakeOne(sel, todo, p);
      todo := todo - {p};
    }
    CopyEnd(clip, g, sel, minX, minY, first);
    origin := (minX, minY);
  }

  // ---------------------------------------------------------------------------
  // pasteCopiedCells
  // ---------------------------------------------------------------------------

  /** The symbol of the last clipboard entry copied from `p`, if any: the later write wins. */
  function ClipAt(clip: seq<Clip>, p: Pos): Option<int> {
    if clip == [] then None
    else if ClipPos(clip[|clip| - 1]) == p then Some(clip[|clip| - 1].symbol)
    else ClipAt(clip[..|clip| - 1], p)
  }

  /** Where a cell copied from `p` lands: `target + (p - origin)`. */
  function Landing(p: Pos, origin: Pos, target: Pos): Pos {
    (target.0 + (p.0 - origin.0), target.1 + (p.1 - origin.1))
  }

  /** The clipboard cell that would land on (i, j). */
  function SourceOf(i: int, j: int, origin: Pos, target: Pos): Pos {
    (i - target.0 + origin.0, j - target.1 + origin.1)
  }

  function PastedAt(g: Cells, clip: seq<Clip>, origin: Pos, target: Pos, i: int, j: int): int
    requires 0 <= i < |g| && 0 <= j < |g[i]|
  {
    match ClipAt(clip, SourceOf(i, j, origin, target))
    case Some(v) => v
    case None => g[i][j]
  }

  /** The cells after pasting: each landing cell inside the grid takes its clipboard symbol. */
  function Pasted(g: Cells, clip: seq<Clip>, origin: Pos, target: Pos): (r: Cells)
    ensures |r| == |g| && forall i :: 0 <= i < |g| ==> |r[i]| == |g[i]|
  {
    seq(|g|, i requires 0 <= i < |g| =>
      seq(|g[i]|, j requires 0 <= j < |g[i]| => PastedAt(g, clip, origin, target, i, j)))
  }

  /** Clipboard entry k lands inside the grid on a cell holding another symbol. */
  predicate Writes(g: Cells, clip: seq<Clip>, origin: Pos, target: Pos, k: int)
    requires 0 <= k < |clip|
  {
    var q := Landing(ClipPos(clip[k]), origin, target);
    InGrid(g, q) && At(g, q) != clip[k].symbol
  }

  lemma SourceOfLanding(p: Pos, origin: Pos, target: Pos)
    ensures var q := Landing(p, origin, target); SourceOf(q.0, q.1, origin, target) == p
  {
  }

  lemma LandingOfSource(i: int, j: int, origin: Pos, target: Pos)
    ensures Landing(SourceOf(i, j, origin, target), origin, target) == (i, j)
  {
  }

  /** A later entry of the clipboard decides; an absent position reads None. */
  lemma {:induction false} ClipAtFound(clip: seq<Clip>, p: Pos)
    ensures ClipAt(clip, p).Some? ==>
      exists k :: 0 <= k < |clip| && ClipPos(clip[k]) == p && clip[k].symbol == ClipAt(clip, p).value
    ensures ClipAt(clip, p).None? ==> p !in Positions(clip)
  {
    if clip != [] {
      var init := clip[..|clip| - 1];
      ClipAtFound(init, p);
      if ClipAt(clip, p).Some? && ClipPos(clip[|clip| - 1]) != p {
        var k :| 0 <= k < |init| && ClipPos(init[k]) == p && init[k].symbol == ClipAt(init, p).value;
        assert clip[k] == init[k];
      }
      if ClipAt(clip, p).None? {
        assert clip == init + [clip[|clip| - 1]];
        PositionsAppend(init, clip[|clip| - 1]);
      }
    }
  }

  /** In a clipboard without repeats, entry k is the one found at its own position. */
  lemma {:induction false} ClipAtDistinct(clip: seq<Clip>, k: int)
    requires Distinct(clip) && 0 <= k < |clip|
    ensures ClipAt(clip, ClipPos(clip[k])) == Some(clip[k].symbol)
  {
    var n := |clip| - 1;
    if k < n {
      var init := clip[..n];
      assert init[k] == clip[k];
      assert Distinct(init);
      ClipAtDistinct(init, k);
    }
  }

  /** Before entry k is pasted, no earlier entry has landed on its cell. */
  lemma ClipAtBefore(clip: seq<Clip>, k: int)
    requires Distinct(clip) && 0 <= k < |clip|
    ensures ClipAt(clip[..k], ClipPos(clip[k])).None?
  {
    ClipAtFound(clip[..k], ClipPos(clip[k]));
  }

  /** Pasting changes the grid exactly when some entry lands inside it on a different symbol. */
  lemma PasteChangesIff(g: Cells, clip: seq<Clip>, origin: Pos, target: Pos)
    requires Distinct(clip)
    ensures Pasted(g, clip, origin, target) != g <==>
            exists k :: 0 <= k < |clip| && Writes(g, clip, origin, target, k)
  {
    var r := Pasted(g, clip, origin, target);
    if k :| 0 <= k < |clip| && Writes(g, clip, origin, target, k) {
      var q := Landing(ClipPos(clip[k]), origin, target);
      SourceOfLanding(ClipPos(clip[k]), origin, target);
      ClipAtDistinct(clip, k);
      assert r[q.0][q.1] == clip[k].symbol;
    } else {
      forall i | 0 <= i < |g| ensures r[i] == g[i] {
        forall j | 0 <= j < |g[i]| ensures r[i][j] == g[i][j] {
          var src := SourceOf(i, j, origin, target);
          ClipAtFound(clip, src);
          if ClipAt(clip, src).Some? {
            var k :| 0 <= k < |clip| && ClipPos(clip[k]) == src && clip[k].symbol == ClipAt(clip, src).value;
            LandingOfSource(i, j, origin, target);
            assert !Writes(g, clip, origin, target, k);
          }
        }
      }
    }
  }

  /**
   * Every copied cell whose landing cell is inside the grid shows up there:
   * its symbol, or `undefined` when it was copied from past the end of a row.
   */
  lemma PasteTranslates(g0: Cells, sel: set<Pos>, clip: seq<Clip>, origin: Pos,
                        g: Cells, target: Pos, p: Pos)
    requires CopiedFrom(clip, g0, sel) && p in sel
    requires InGrid(g, Landing(p, origin, target))
    ensures var q := Landing(p, origin, target);
      At(Pasted(g, clip, origin, target), q) == if InGrid(g0, p) then At(g0, p) else UndefinedSymbol
  {
    assert p in Positions(clip);
    var k :| 0 <= k < |clip| && ClipPos(clip[k]) == p;
    assert CopiedSymbol(g0, p) == clip[k].symbol;
    ClipAtDistinct(clip, k);
    SourceOfLanding(p, origin, target);
  }

  /** A cell no copied cell lands on keeps its symbol: the paste is clipped, not shifted. */
  lemma PasteLeavesOthers(g: Cells, clip: seq<Clip>, origin: Pos, target: Pos, q: Pos)
    requires InGrid(g, q)
    requires forall p :: p in Positions(clip) ==> Landing(p, origin, target) != q
    ensures At(Pasted(g, clip, origin, target), q) == At(g, q)
  {
    var src := SourceOf(q.0, q.1, origin, target);
    ClipAtFound(clip, src);
    if ClipAt(clip, src).Some? {
      var k :| 0 <= k < |clip| && ClipPos(clip[k]) == src && clip[k].symbol == ClipAt(clip, src).value;
      assert src in Positions(clip);
      LandingOfSource(q.0, q.1, origin, target);
    }
  }

  /** Copying a selection and pasting it back onto its own origin changes nothing. */
  lemma CopyPasteInPlace(g: Cells, sel: set<Pos>, clip: seq<Clip>, origin: Pos)
    requires CopiedFrom(clip, g, sel)
    ensures Pasted(g, clip, origin, origin) == g
  {
    var r := Pasted(g, clip, origin, origin);
    forall i | 0 <= i < |g| ensures r[i] == g[i] {
      forall j | 0 <= j < |g[i]| ensures r[i][j] == g[i][j] {
        ClipAtFound(clip, (i, j));
        if ClipAt(clip, (i, j)).Some? {
          var k :| 0 <= k < |clip| && ClipPos(clip[k]) == (i, j) && clip[k].symbol == ClipAt(clip, (i, j)).value;
          assert CopiedSymbol(g, ClipPos(clip[k])) == clip[k].symbol;
        }
      }
    }
  }

  /** The array holds the grid `g` with the first k clipboard entries pasted. */
  ghost predicate PasteInv(a: array2<int>, g: Cells, clip: seq<Clip>, origin: Pos, target: Pos, k: int)
    reads a
    requires 0 <= k <= |clip|
  {
    && IsRect(g, a.Length0, a.Length1)
    && forall i, j :: 0 <= i < a.Length0 && 0 <= j < a.Length1 ==>
         a[i, j] == PastedAt(g, clip[..k], origin, target, i, j)
  }

  lemma PasteStart(a: array2<int>, clip: seq<Clip>, origin: Pos, target: Pos)
    ensures PasteInv(a, Contents(a), clip, origin, target, 0)
  {
    assert clip[..0] == [];
  }

  /** Entry k's landing cell still holds its original symbol when entry k comes to it. */
  lemma PasteReads(a: array2<int>, g: Cells, clip: seq<Clip>, origin: Pos, target: Pos, k: int)
    requires Distinct(clip) && 0 <= k < |clip| && PasteInv(a, g, clip, origin, target, k)
    requires var q := Landing(ClipPos(clip[k]), origin, target); 0 <= q.0 < a.Length0 && 0 <= q.1 < a.Length1
    ensures var q := Landing(ClipPos(clip[k]), origin, target); a[q.0, q.1] == g[q.0][q.1]
  {
    var q := Landing(ClipPos(clip[k]), origin, target);
    SourceOfLanding(ClipPos(clip[k]), origin, target);
    ClipAtBefore(clip, k);
  }

  /** After entry k is handled (written, or skipped because it is outside or already equal), the invariant moves on. */
  lemma PasteNext(a: array2<int>, g: Cells, clip: seq<Clip>, origin: Pos, target: Pos, k: int)
    requires 0 <= k < |clip| && IsRect(g, a.Length0, a.Length1)
    requires var q := Landing(ClipPos(clip[k]), origin, target);
      forall i, j :: 0 <= i < a.Length0 && 0 <= j < a.Length1 ==>
        a[i, j] == if (i, j) == q then clip[k].symbol else PastedAt(g, clip[..k], origin, target, i, j)
    ensures PasteInv(a, g, clip, origin, target, k + 1)
  {
    assert clip[..k + 1][..k] == clip[..k];
    forall i, j | 0 <= i < a.Length0 && 0 <= j < a.Length1
      ensures a[i, j] == PastedAt(g, clip[..k + 1], origin, target, i, j)
    {
      LandingOfSource(i, j, origin, target);
      SourceOfLanding(ClipPos(clip[k]), origin, target);
    }
  }

  /** The array is the pasted grid. */
  lemma PasteEnd(a: array2<int>, g: Cells, clip: seq<Clip>, origin: Pos, target: Pos)
    requires PasteInv(a, g, clip, origin, target, |clip|)
    ensures Contents(a) == Pasted(g, clip, origin, target)
  {
    assert clip[..|clip|] == clip;
    SameCells(Contents(a), Pasted(g, clip, origin, target), a.Length0, a.Length1);
  }

  lemma WritesStep(g: Cells, clip: seq<Clip>, origin: Pos, target: Pos, k: int)
    requires 0 <= k < |clip|
    ensures (exists l :: 0 <= l < k + 1 && Writes(g, clip, origin, target, l)) <==>
            (exists l :: 0 <= l < k && Writes(g, clip, origin, target, l)) || Writes(g, clip, origin, target, k)
  {
  }

  /**
   * The `forEach` of `pasteCopiedCells`: each entry is written at its landing
   * cell when that cell is inside the grid and holds another symbol; `pasted`
   * says whether any was.
   */
  method PasteCells(a: array2<int>, clip: seq<Clip>, origin: Pos, target: Pos) returns (pasted: bool)
    requires Distinct(clip)
    modifies a
    ensures Contents(a) == Pasted(old(Contents(a)), clip, origin, target)
    ensures pasted <==> Contents(a) != old(Contents(a))
  {
    ghost var g := Contents(a);
    PasteStart(a, clip, origin, target);
    pasted := false;
    for k := 0 to |clip|
      invariant PasteInv(a, g, clip, origin, target, k)
      invariant pasted <==> exists l :: 0 <= l < k && Writes(g, clip, origin, target, l)
    {
      var c := clip[k];
      var q := Landing(ClipPos(c), origin, target);
      if 0 <= q.0 < a.Length0 && 0 <= q.1 < a.Length1 {
        PasteReads(a, g, clip, origin, target, k);
        if a[q.0, q.1] != c.symbol {
          a[q.0, q.1] := c.symbol;
          pasted := true;
        }
      }
      PasteNext(a, g, clip, origin, target, k);
      WritesStep(g, clip, origin, target, k);
    }
    PasteEnd(a, g, clip, origin, target);
    PasteChangesIff(g, clip, origin, target);
  }
}
