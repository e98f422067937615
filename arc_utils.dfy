/**
 * The grid data model and the pure helpers of arcUtils.js: the `Grid`
 * constructor, the `row|row|...` signature and solution verification.
 *
 * A grid's cells are a row-major `seq<seq<int>>` when they are a value
 * (a source array, an undo snapshot, a reference answer) and an
 * `array2<int>` when an editor updates them in place.
 */
module ArcUtils {
  import opened ArcConstants

  type Cells = seq<seq<int>>

  /** `g` has exactly `h` rows of exactly `w` cells each. */
  predicate IsRect(g: Cells, h: int, w: int) {
    |g| == h && forall i :: 0 <= i < |g| ==> |g[i]| == w
  }

  /** A grid value as the source stores it: at least one row, all rows of the first row's length. */
  predicate IsGrid(g: Cells) {
    |g| >= 1 && IsRect(g, |g|, |g[0]|)
  }

  /** Height and width of a grid value (`prevState.length`, `prevState[0].length`). */
  function Height(g: Cells): nat { |g| }
  function Width(g: Cells): nat { if |g| == 0 then 0 else |g[0]| }

  // ---------------------------------------------------------------------------
  // The Grid constructor
  // ---------------------------------------------------------------------------

  /**
   * The value the constructor takes for cell (i, j) from a source array that
   * may be missing, short or ragged: the source value when there is one,
   * otherwise the default symbol 0.
   */
  function SourceAt(v: Cells, i: int, j: int): int {
    if 0 <= i < |v| && 0 <= j < |v[i]| then v[i][j] else DefaultSymbol
  }

  /** `new Grid(h, w, values).grid`: an h-by-w matrix filled from `values` where it has a value. */
  function BuildGrid(h: nat, w: nat, v: Cells): (g: Cells)
    ensures IsRect(g, h, w)
  {
    seq(h, i => seq(w, j => SourceAt(v, i, j)))
  }

  /** Cell (i, j) of a built grid is the source value when it exists and 0 otherwise. */
  lemma BuildGridAt(h: nat, w: nat, v: Cells, i: nat, j: nat)
    requires i < h && j < w
    ensures BuildGrid(h, w, v)[i][j] == (if i < |v| && j < |v[i]| then v[i][j] else 0)
  {
  }

  /**
   * Rebuilding an h-by-w grid at new dimensions keeps the overlapping top-left
   * block and fills every other cell with 0: this one rule gives resize.
   */
  lemma {:induction false} ResizeKeepsOverlap(g: Cells, h: nat, w: nat, h2: nat, w2: nat)
    requires IsRect(g, h, w)
    ensures IsRect(BuildGrid(h2, w2, g), h2, w2)
    ensures forall i, j :: 0 <= i < h2 && 0 <= j < w2 ==>
      BuildGrid(h2, w2, g)[i][j] == (if i < h && j < w then g[i][j] else 0)
  {
  }

  /** Building a grid from a grid value of the same dimensions is a copy: this gives clone and undo-restore. */
  lemma {:induction false} BuildGridClones(g: Cells)
    requires IsGrid(g)
    ensures BuildGrid(Height(g), Width(g), g) == g
  {
    var b := BuildGrid(Height(g), Width(g), g);
    forall i | 0 <= i < |g|
      ensures b[i] == g[i]
    {
      assert |b[i]| == |g[i]|;
    }
  }

  // ---------------------------------------------------------------------------
  // Grids held in arrays
  // ---------------------------------------------------------------------------

  /** The value of an in-place grid; also the deep copy `JSON.parse(JSON.stringify(grid))`. */
  function Contents(a: array2<int>): (g: Cells)
    reads a
    ensures IsRect(g, a.Length0, a.Length1)
    ensures forall i, j :: 0 <= i < a.Length0 && 0 <= j < a.Length1 ==> g[i][j] == a[i, j]
  {
    seq(a.Length0, i requires 0 <= i < a.Length0 reads a =>
      seq(a.Length1, j requires 0 <= j < a.Length1 reads a => a[i, j]))
  }

  /** Two rectangular grid values of the same shape and cells are equal. */
  lemma SameCells(g1: Cells, g2: Cells, h: nat, w: nat)
    requires IsRect(g1, h, w) && IsRect(g2, h, w)
    requires forall i, j :: 0 <= i < h && 0 <= j < w ==> g1[i][j] == g2[i][j]
    ensures g1 == g2
  {
    forall i | 0 <= i < h
      ensures g1[i] == g2[i]
    {
      assert |g1[i]| == |g2[i]| == w;
    }
  }

  /** `new Grid(h, w, values)`: a fresh array holding `BuildGrid(h, w, values)`. */
  method NewGrid(h: nat, w: nat, v: Cells) returns (a: array2<int>)
    ensures fresh(a)
    ensures a.Length0 == h && a.Length1 == w
    ensures Contents(a) == BuildGrid(h, w, v)
  {
    a := new int[h, w]((i, j) => SourceAt(v, i, j));
    SameCells(Contents(a), BuildGrid(h, w, v), h, w);
  }

  /** `grid[x][y] = s` on a grid value. */
  function SetCell(g: Cells, x: nat, y: nat, s: int): (r: Cells)
    requires x < |g| && y < |g[x]|
    ensures |r| == |g| && forall i :: 0 <= i < |g| ==> |r[i]| == |g[i]|
    ensures forall i, j :: 0 <= i < |g| && 0 <= j < |g[i]| ==>
      r[i][j] == if i == x && j == y then s else g[i][j]
  {
    g[x := g[x][y := s]]
  }

  /** Writing the symbol a cell already holds gives the same grid. */
  lemma SetCellSame(g: Cells, x: nat, y: nat)
    requires x < |g| && y < |g[x]|
    ensures SetCell(g, x, y, g[x][y]) == g
  {
    assert g[x][y := g[x][y]] == g[x];
  }

  /** `grid[x][y] = s` on an in-place grid: exactly that cell changes. */
  method WriteCell(a: array2<int>, x: nat, y: nat, s: int)
    requires x < a.Length0 && y < a.Length1
    modifies a
    ensures Contents(a) == SetCell(old(Contents(a)), x, y, s)
  {
    a[x, y] := s;
    SameCells(Contents(a), SetCell(old(Contents(a)), x, y, s), a.Length0, a.Length1);
  }

  // ---------------------------------------------------------------------------
  // gridToString: the canonical `row|row|...` signature
  // ---------------------------------------------------------------------------

  function DigitChar(d: nat): char
    requires d < 10
  {
    (('0' as int) + d) as char
  }

  /** Decimal text of a natural number, as JavaScript's `String(n)` writes it. */
  function NatString(n: nat): (s: string)
    ensures |s| >= 1
    ensures forall k :: 0 <= k < |s| ==> '0' <= s[k] <= '9'
    decreases n
  {
    if n < 10 then [DigitChar(n)] else NatString(n / 10) + [DigitChar(n % 10)]
  }

  /** `String(n)` for any integer symbol. */
  function IntString(n: int): string {
    if n < 0 then "-" + NatString(-n) else NatString(n)
  }

  /** `row.join('')`: the symbols' decimal texts concatenated. */
  function RowString(row: seq<int>): string {
    if row == [] then "" else IntString(row[0]) + RowString(row[1..])
  }

  /** `rows.join('|')`. */
  function Join(rows: seq<string>): string {
    if |rows| == 0 then ""
    else if |rows| == 1 then rows[0]
    else rows[0] + "|" + Join(rows[1..])
  }

  /** `gridToString`: each row's symbols concatenated, rows separated by '|'; '' when there is no grid. */
  function GridToString(grid: Option<Cells>): string {
    match grid
    case None => ""
    case Some(g) => Join(seq(|g|, i requires 0 <= i < |g| => RowString(g[i])))
  }

  /** Every symbol is a single decimal digit, as the editor's palette produces. */
  predicate DigitGrid(g: Cells) {
    forall i, j :: 0 <= i < |g| && 0 <= j < |g[i]| ==> 0 <= g[i][j] <= 9
  }

  /** JavaScript's `s.split(sep)` for a one-character separator. */
  function Split(s: string, sep: char): (parts: seq<string>)
    ensures |parts| >= 1
  {
    if s == [] then [""]
    else if s[0] == sep then [""] + Split(s[1..], sep)
    else var t := Split(s[1..], sep); [[s[0]] + t[0]] + t[1..]
  }

  /** Reads a row signature back, one digit per symbol. */
  function ParseRow(s: string): seq<int> {
    if s == [] then [] else [(s[0] as int) - ('0' as int)] + ParseRow(s[1..])
  }

  /** The inverse of the signature on digit grids. */
  function ParseSignature(s: string): Cells {
    var parts := Split(s, '|');
    seq(|parts|, i requires 0 <= i < |parts| => ParseRow(parts[i]))
  }

  /** A row of one-digit symbols prints one character per symbol. */
  lemma {:induction false} DigitRowChars(row: seq<int>)
    requires forall j :: 0 <= j < |row| ==> 0 <= row[j] <= 9
    ensures |RowString(row)| == |row|
    ensures forall k :: 0 <= k < |row| ==> RowString(row)[k] == DigitChar(row[k])
  {
    if row != [] {
      DigitRowChars(row[1..]);
      assert IntString(row[0]) == [DigitChar(row[0])];
      assert RowString(row) == [DigitChar(row[0])] + RowString(row[1..]);
    }
  }

  /** A row of one-digit symbols is read back unchanged. */
  lemma {:induction false} DigitRowParse(row: seq<int>)
    requires forall j :: 0 <= j < |row| ==> 0 <= row[j] <= 9
    ensures ParseRow(RowString(row)) == row
  {
    if row != [] {
      DigitRowParse(row[1..]);
      var s := RowString(row);
      assert IntString(row[0]) == [DigitChar(row[0])];
      assert s == [DigitChar(row[0])] + RowString(row[1..]);
      assert s[1..] == RowString(row[1..]);
    }
  }

  lemma {:induction false} SplitPrefix(r: string, sep: char, rest: string)
    requires sep !in r
    ensures Split(r + [sep] + rest, sep) == [r] + Split(rest, sep)
    decreases |r|
  {
    if r == [] {
      assert r + [sep] + rest == [sep] + rest;
    } else {
      assert (r + [sep] + rest)[1..] == r[1..] + [sep] + rest;
      SplitPrefix(r[1..], sep, rest);
      assert [r[0]] + r[1..] == r;
    }
  }

  /** A string without the separator splits into itself alone. */
  lemma {:induction false} SplitNone(r: string, sep: char)
    requires sep !in r
    ensures Split(r, sep) == [r]
    decreases |r|
  {
    if r != [] {
      SplitNone(r[1..], sep);
      assert [r[0]] + r[1..] == r;
    }
  }

  /** Splitting a join gives the rows back when no row contains the separator. */
  lemma {:induction false} SplitJoin(rows: seq<string>)
    requires |rows| >= 1
    requires forall i :: 0 <= i < |rows| ==> '|' !in rows[i]
    ensures Split(Join(rows), '|') == rows
    decreases |rows|
  {
    if |rows| == 1 {
      SplitNone(rows[0], '|');
    } else {
      SplitPrefix(rows[0], '|', Join(rows[1..]));
      SplitJoin(rows[1..]);
    }
  }

  /**
   * On grids of digit symbols with at least one row the signature loses
   * nothing: reading it back gives the grid, so equal signatures mean equal grids.
   */
  lemma {:induction false} SignatureRoundTrip(g: Cells)
    requires |g| >= 1 && DigitGrid(g)
    ensures ParseSignature(GridToString(Some(g))) == g
  {
    var rows := seq(|g|, i requires 0 <= i < |g| => RowString(g[i]));
    forall i | 0 <= i < |g|
      ensures '|' !in rows[i] && ParseRow(rows[i]) == g[i]
    {
      DigitRowChars(g[i]);
      DigitRowParse(g[i]);
      forall k | 0 <= k < |rows[i]| ensures rows[i][k] != '|' {
        assert rows[i][k] == DigitChar(g[i][k]);
      }
    }
    SplitJoin(rows);
  }

  /** Equal signatures of digit grids mean equal grids: the resubmission guard compares grids. */
  lemma SignatureInjective(g1: Cells, g2: Cells)
    requires |g1| >= 1 && DigitGrid(g1) && |g2| >= 1 && DigitGrid(g2)
    requires GridToString(Some(g1)) == GridToString(Some(g2))
    ensures g1 == g2
  {
    SignatureRoundTrip(g1);
    SignatureRoundTrip(g2);
  }

  /** With multi-digit symbols two different grids can share a signature. */
  lemma SignatureCollidesBeyondDigits()
    ensures [[1, 23]] != [[12, 3]]
    ensures GridToString(Some([[1, 23]])) == GridToString(Some([[12, 3]])) == "123"
  {
    assert NatString(23) == "23";
    assert NatString(12) == "12";
    assert RowString([1, 23]) == "123";
    assert RowString([12, 3]) == "123";
    assert seq(1, i requires 0 <= i < 1 => RowString([[1, 23]][i])) == ["123"];
    assert seq(1, i requires 0 <= i < 1 => RowString([[12, 3]][i])) == ["123"];
  }

  // ---------------------------------------------------------------------------
  // verifySolution
  // ---------------------------------------------------------------------------

  /**
   * What `verifySolution` accepts: the reference's row count and first-row
   * length equal the grid's height and width, and every reference cell equals
   * the grid cell at the same position (a reference cell beyond the grid's
   * width compares against `undefined` and fails).
   */
  predicate Matches(reference: Cells, g: Cells)
    requires IsGrid(g)
  {
    && |reference| == |g|
    && |reference[0]| == |g[0]|
    && forall i, j :: 0 <= i < |reference| && 0 <= j < |reference[i]| ==> CellAgrees(reference, g, i, j)
  }

  /** Reference cell (i, j) has a submitted cell at the same position holding the same symbol. */
  predicate CellAgrees(reference: Cells, g: Cells, i: int, j: int)
    requires 0 <= i < |reference| && 0 <= j < |reference[i]| && i < |g|
  {
    j < |g[i]| && reference[i][j] == g[i][j]
  }

  /** On well-formed grids, matching is exactly equality: both directions. */
  lemma {:induction false} MatchesIffEqual(reference: Cells, g: Cells)
    requires IsGrid(reference) && IsGrid(g)
    ensures Matches(reference, g) <==> reference == g
  {
    if Matches(reference, g) {
      forall i, j | 0 <= i < |g| && 0 <= j < |g[0]|
        ensures reference[i][j] == g[i][j]
      {
        assert CellAgrees(reference, g, i, j);
      }
      SameCells(reference, g, |g|, |g[0]|);
    }
  }

  /** Any single differing cell makes the match fail. */
  lemma OneDifferentCellFails(reference: Cells, g: Cells, i: nat, j: nat)
    requires IsGrid(g) && i < |reference| && j < |reference[i]| && i < |g| && j < |g[i]|
    requires reference[i][j] != g[i][j]
    ensures !Matches(reference, g)
  {
    assert !CellAgrees(reference, g, i, j);
  }

  /**
   * `verifySolution(referenceOutput, submittedGrid)`: false for a missing
   * reference or grid or a dimension mismatch, otherwise a cell-by-cell scan
   * that stops at the first difference.
   */
  method VerifySolution(reference: Option<Cells>, submitted: array2?<int>) returns (ok: bool)
    requires submitted != null ==> submitted.Length0 >= 1
    ensures ok <==> reference.Some? && submitted != null && Matches(reference.value, Contents(submitted))
  {
    if reference.None? || submitted == null {
      return false;
    }
    var r := reference.value;
    ghost var g := Contents(submitted);
    if |r| != submitted.Length0 || |r[0]| != submitted.Length1 {
      return false;
    }
    for i := 0 to |r|
      invariant forall i', j :: 0 <= i' < i && 0 <= j < |r[i']| ==> CellAgrees(r, g, i', j)
    {
      for j := 0 to |r[i]|
        invariant forall j' :: 0 <= j' < j ==> CellAgrees(r, g, i, j')
      {
        if j >= submitted.Length1 || r[i][j] != submitted[i, j] {
          assert !CellAgrees(r, g, i, j);
          return false;
        }
      }
    }
    return true;
  }
  // ---------------------------------------------------------------------------
  // createLogEntry
  // ---------------------------------------------------------------------------

  /**
   * A value a log entry can hold. `Matrix` stands for a grid serialised with
   * `JSON.stringify`, which determines the grid, so the grid itself is kept;
   * `Coords` stands for `Array.from` of a set of "x,y" strings; `Texts`
   * for an object whose properties are all strings.
   */
  datatype Value =
    | Num(n: int)
    | Text(s: string)
    | Flag(b: bool)
    | Nums(ns: seq<int>)
    | Matrix(g: Cells)
    | Coords(ps: set<(int, int)>)
    | Texts(fields: map<string, string>)
    | Undefined

  /** A log entry or a details object: property names to values. */
  type Entry = map<string, Value>

  /**
   * `createLogEntry(action, details)` without its timestamp: the action name
   * first, then every property of `details`, which wins on a name clash.
   */
  function CreateLogEntry(action: string, details: Entry): (e: Entry)
    ensures e.Keys == details.Keys + {"action"}
    ensures forall k :: k in details ==> e[k] == details[k]
    ensures "action" !in details ==> e["action"] == Text(action)
  {
    map["action" := Text(action)] + details
  }
}
