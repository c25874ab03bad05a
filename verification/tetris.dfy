/** The falling-block game (`GameTetris`): a 20 x 10 board of colour codes
    (0 is empty), one active piece, gravity ticks and guarded key moves. */
module Tetris {

  const Cols := 10
  const Rows := 20

  type Row = seq<int>
  type Grid = seq<Row>
  /** A piece's footprint: non-zero entries are filled cells. */
  type Shape = seq<seq<int>>

  datatype Kind = I | O | T | S | Z | J | L

  function ShapeOf(k: Kind): Shape {
    match k
    case I => [[1, 1, 1, 1]]
    case O => [[1, 1], [1, 1]]
    case T => [[1, 1, 1], [0, 1, 0]]
    case S => [[0, 1, 1], [1, 1, 0]]
    case Z => [[1, 1, 0], [0, 1, 1]]
    case J => [[1, 0, 0], [1, 1, 1]]
    case L => [[0, 0, 1], [1, 1, 1]]
  }

  function ColorOf(k: Kind): (c: int)
    ensures c != 0
  {
    match k
    case I => 0x74b0d6
    case O => 0xf59e0b
    case T => 0xa78bfa
    case S => 0x34d399
    case Z => 0xef4444
    case J => 0x60a5fa
    case L => 0xf472b6
  }

  datatype Piece = Piece(kind: Kind, shape: Shape, x: int, y: int)

  /** `randomPiece`, given the drawn kind: it enters at column 4, row 0. */
  function Spawn(k: Kind): (p: Piece)
    ensures p.kind == k && p.shape == ShapeOf(k) && p.x == Cols / 2 - 1 && p.y == 0
    ensures Rect(p.shape) && HasCell(p.shape)
    ensures !Collides(EmptyGrid(), p.shape, p.x, p.y)
  {
    StandardShapes(k);
    SpawnFitsEmpty(k);
    Piece(k, ShapeOf(k), 4, 0)
  }

  predicate WellFormed(g: Grid) {
    |g| == Rows && forall y :: 0 <= y < |g| ==> |g[y]| == Cols
  }

  function EmptyRow(): Row {
    seq(Cols, _ => 0)
  }

  function Empties(n: nat): Grid {
    seq(n, _ => EmptyRow())
  }

  function EmptyGrid(): (g: Grid)
    ensures WellFormed(g)
    ensures forall y, x :: 0 <= y < Rows && 0 <= x < Cols ==> g[y][x] == 0
  {
    Empties(Rows)
  }

  // ---------------------------------------------------------------------
  // Shapes and rotation
  // ---------------------------------------------------------------------

  /** A non-empty rectangle: every row as wide as the first. */
  predicate Rect(s: Shape) {
    |s| > 0 && |s[0]| > 0 && forall i :: 0 <= i < |s| ==> |s[i]| == |s[0]|
  }

  /** The filled cells of a shape, as (row, column) pairs. */
  function Cells(s: Shape): set<(int, int)> {
    set y, x | 0 <= y < |s| && 0 <= x < |s[y]| && s[y][x] != 0 :: (y, x)
  }

  predicate HasCell(s: Shape) {
    Cells(s) != {}
  }

  lemma StandardShapes(k: Kind)
    ensures Rect(ShapeOf(k)) && HasCell(ShapeOf(k))
    ensures |ShapeOf(k)| <= 2 && |ShapeOf(k)[0]| <= 4
  {
    assert (0, if k == S || k == L then 2 else 0) in Cells(ShapeOf(k));
  }

  /** `rotate`, clockwise: an h x w shape becomes w x h, and the cell at row
      y, column x moves to row x, column h-1-y. */
  function Rotate(s: Shape): (r: Shape)
    requires Rect(s)
    ensures Rect(r) && |r| == |s[0]| && |r[0]| == |s|
  {
    var h, w := |s|, |s[0]|;
    seq(w, x requires 0 <= x < w => seq(h, j requires 0 <= j < h => s[h - 1 - j][x]))
  }

  /** The cell at row y, column x of an h-row shape moves to row x, column
      h-1-y. */
  lemma RotateMoves(s: Shape)
    requires Rect(s)
    ensures forall y, x :: 0 <= y < |s| && 0 <= x < |s[0]| ==> Rotate(s)[x][|s| - 1 - y] == s[y][x]
  {
  }

  /** Four clockwise turns give back the original shape. */
  lemma RotateFour(s: Shape)
    requires Rect(s)
    ensures Rotate(Rotate(Rotate(Rotate(s)))) == s
  {
    var h, w := |s|, |s[0]|;
    var r1 := Rotate(s);
    var r2 := Rotate(r1);
    var r3 := Rotate(r2);
    var r4 := Rotate(r3);
    forall a, b | 0 <= a < h && 0 <= b < w
      ensures r4[a][b] == s[a][b]
    {
      assert r4[a][b] == r3[w - 1 - b][a];
      assert r3[w - 1 - b][a] == r2[h - 1 - a][w - 1 - b];
      assert r2[h - 1 - a][w - 1 - b] == r1[b][h - 1 - a];
    }
    SameCells(r4, s);
  }

  /** Two rectangles of one size with the same entries are equal. */
  lemma SameCells(a: Shape, b: Shape)
    requires Rect(a) && Rect(b) && |a| == |b| && |a[0]| == |b[0]|
    requires forall i, j :: 0 <= i < |a| && 0 <= j < |a[0]| ==> a[i][j] == b[i][j]
    ensures a == b
  {
    forall i | 0 <= i < |a|
      ensures a[i] == b[i]
    {
    }
  }

  /** Where rotation sends a cell of an h-row shape. */
  function Turn(c: (int, int), h: int): (int, int) {
    (c.1, h - 1 - c.0)
  }

  function TurnAll(A: set<(int, int)>, h: int): set<(int, int)> {
    set c | c in A :: Turn(c, h)
  }

  lemma RotateCells(s: Shape)
    requires Rect(s)
    ensures Cells(Rotate(s)) == TurnAll(Cells(s), |s|)
  {
    var h := |s|;
    var r := Rotate(s);
    RotateMoves(s);
    forall c | c in Cells(r)
      ensures c in TurnAll(Cells(s), h)
    {
      var d := (h - 1 - c.1, c.0);
      assert r[c.0][h - 1 - d.0] == s[d.0][d.1];
      assert d in Cells(s);
      assert Turn(d, h) == c;
    }
    forall c | c in TurnAll(Cells(s), h)
      ensures c in Cells(r)
    {
      var d :| d in Cells(s) && c == Turn(d, h);
      assert r[d.1][h - 1 - d.0] == s[d.0][d.1];
    }
  }

  /** Turning is one-to-one, so it keeps the number of cells. */
  lemma {:induction false} TurnAllSize(A: set<(int, int)>, h: int)
    ensures |TurnAll(A, h)| == |A|
    decreases A
  {
    if A != {} {
      var a :| a in A;
      var B := A - {a};
      TurnAllSize(B, h);
      assert TurnAll(A, h) == TurnAll(B, h) + {Turn(a, h)};
      assert Turn(a, h) !in TurnAll(B, h);
    }
  }

  /** Rotation keeps the number of filled cells. */
  lemma RotateKeepsCells(s: Shape)
    requires Rect(s)
    ensures |Cells(Rotate(s))| == |Cells(s)|
    ensures HasCell(Rotate(s)) <==> HasCell(s)
  {
    RotateCells(s);
    TurnAllSize(Cells(s), |s|);
  }

  // ---------------------------------------------------------------------
  // Collision
  // ---------------------------------------------------------------------

  predicate Occupied(g: Grid, gx: int, gy: int) {
    0 <= gy < |g| && 0 <= gx < |g[gy]| && g[gy][gx] != 0
  }

  /** A board position a filled cell may not take: off either side, below
      the floor, or on an occupied cell. Rows above the top are free. */
  predicate Blocked(g: Grid, gx: int, gy: int) {
    gx < 0 || gx >= Cols || gy >= Rows || (gy >= 0 && Occupied(g, gx, gy))
  }

  /** Shape cell (i, j) is filled and, placed at (x, y), blocked. */
  predicate HitAt(g: Grid, s: Shape, x: int, y: int, i: int, j: int) {
    0 <= i < |s| && 0 <= j < |s[i]| && s[i][j] != 0 && Blocked(g, x + j, y + i)
  }

  /** Reference reading of `collides`. */
  predicate Collides(g: Grid, s: Shape, x: int, y: int) {
    exists i, j :: 0 <= i < |s| && 0 <= j < |s[i]| && HitAt(g, s, x, y, i, j)
  }

  /** `collides`, with its two loops and early exits. */
  method CollidesLoop(g: Grid, s: Shape, x: int, y: int) returns (b: bool)
    requires WellFormed(g)
    ensures b <==> Collides(g, s, x, y)
  {
    var sy := 0;
    while sy < |s|
      invariant 0 <= sy <= |s|
      invariant forall i, j :: 0 <= i < sy ==> !HitAt(g, s, x, y, i, j)
    {
      var sx := 0;
      while sx < |s[sy]|
        invariant 0 <= sx <= |s[sy]|
        invariant forall i, j :: 0 <= i < sy ==> !HitAt(g, s, x, y, i, j)
        invariant forall j :: 0 <= j < sx ==> !HitAt(g, s, x, y, sy, j)
      {
        if s[sy][sx] != 0 {
          var gx, gy := x + sx, y + sy;
          if gx < 0 || gx >= Cols || gy >= Rows {
            assert HitAt(g, s, x, y, sy, sx);
            return true;
          }
          if gy >= 0 && g[gy][gx] != 0 {
            assert HitAt(g, s, x, y, sy, sx);
            return true;
          }
        }
        sx := sx + 1;
      }
      assert forall j :: !HitAt(g, s, x, y, sy, j);
      sy := sy + 1;
    }
    return false;
  }

  /** A shape with a filled cell that fits at row y is above the floor. */
  lemma FitsAboveFloor(g: Grid, s: Shape, x: int, y: int)
    requires HasCell(s) && !Collides(g, s, x, y)
    ensures y < Rows
  {
    var c :| c in Cells(s);
    assert !HitAt(g, s, x, y, c.0, c.1);
  }

  /** A standard piece fits where it spawns on an empty board. */
  lemma SpawnFitsEmpty(k: Kind)
    ensures !Collides(EmptyGrid(), ShapeOf(k), 4, 0)
  {
    StandardShapes(k);
    var s := ShapeOf(k);
    forall i, j
      ensures !HitAt(EmptyGrid(), s, 4, 0, i, j)
    {
      if 0 <= i < |s| && 0 <= j < |s[i]| {
        assert !Occupied(EmptyGrid(), 4 + j, i);
      }
    }
  }

  // ---------------------------------------------------------------------
  // Merging a piece into the board
  // ---------------------------------------------------------------------

  /** The piece covers board cell (gx, gy) with a filled cell. */
  predicate Covers(p: Piece, gx: int, gy: int) {
    0 <= gy - p.y < |p.shape| && 0 <= gx - p.x < |p.shape[gy - p.y]| && p.shape[gy - p.y][gx - p.x] != 0
  }

  /** Reference reading of `merge`: covered cells take the piece's colour,
      every other cell keeps its value. */
  function Merged(g: Grid, p: Piece): (r: Grid)
    requires WellFormed(g)
    ensures WellFormed(r)
  {
    seq(Rows, gy requires 0 <= gy < Rows =>
      seq(Cols, gx requires 0 <= gx < Cols =>
        if Covers(p, gx, gy) then ColorOf(p.kind) else g[gy][gx]))
  }

  /** Covered by a shape cell that comes before (sy, sx) in `merge`'s
      row-by-row scan. */
  predicate CoversBefore(p: Piece, gx: int, gy: int, sy: int, sx: int) {
    Covers(p, gx, gy) && (gy - p.y < sy || (gy - p.y == sy && gx - p.x < sx))
  }

  /** `merge`, with its two loops over the shape. */
  method MergeLoop(g: Grid, p: Piece) returns (r: Grid)
    requires WellFormed(g)
    ensures WellFormed(r)
    ensures forall gy, gx :: 0 <= gy < Rows && 0 <= gx < Cols ==>
      r[gy][gx] == (if Covers(p, gx, gy) then ColorOf(p.kind) else g[gy][gx])
    ensures r == Merged(g, p)
  {
    var color := ColorOf(p.kind);
    r := g;
    var sy := 0;
    while sy < |p.shape|
      invariant 0 <= sy <= |p.shape|
      invariant WellFormed(r)
      invariant forall gy, gx :: 0 <= gy < Rows && 0 <= gx < Cols ==>
        r[gy][gx] == (if CoversBefore(p, gx, gy, sy, 0) then color else g[gy][gx])
    {
      var sx := 0;
      while sx < |p.shape[sy]|
        invariant 0 <= sx <= |p.shape[sy]|
        invariant WellFormed(r)
        invariant forall gy, gx :: 0 <= gy < Rows && 0 <= gx < Cols ==>
          r[gy][gx] == (if CoversBefore(p, gx, gy, sy, sx) then color else g[gy][gx])
      {
        if p.shape[sy][sx] != 0 {
          var gx, gy := p.x + sx, p.y + sy;
          if gy >= 0 && gy < Rows && gx >= 0 && gx < Cols {
            r := r[gy := r[gy][gx := color]];
          }
        }
        sx := sx + 1;
      }
      sy := sy + 1;
    }
    assert forall gy, gx :: CoversBefore(p, gx, gy, |p.shape|, 0) <==> Covers(p, gx, gy);
    MergedCells(g, p, r);
  }

  lemma MergedCells(g: Grid, p: Piece, r: Grid)
    requires WellFormed(g) && WellFormed(r)
    requires forall gy, gx :: 0 <= gy < Rows && 0 <= gx < Cols ==>
      r[gy][gx] == (if Covers(p, gx, gy) then ColorOf(p.kind) else g[gy][gx])
    ensures r == Merged(g, p)
  {
    var m := Merged(g, p);
    forall gy | 0 <= gy < Rows
      ensures r[gy] == m[gy]
    {
    }
  }

  // ---------------------------------------------------------------------
  // Clearing full rows
  // ---------------------------------------------------------------------

  /** A row is full when every cell holds a colour. */
  predicate Full(row: Row) {
    forall i :: 0 <= i < |row| ==> row[i] != 0
  }

  /** The rows that are not full, in their original order. */
  function Keep(g: Grid): (r: Grid)
    ensures |r| <= |g|
    ensures forall i :: 0 <= i < |r| ==> !Full(r[i])
  {
    if g == [] then []
    else if Full(g[0]) then Keep(g[1..])
    else [g[0]] + Keep(g[1..])
  }

  /** Every kept row is a row of the original board. */
  lemma {:induction false} KeepFrom(g: Grid)
    ensures forall i :: 0 <= i < |Keep(g)| ==> Keep(g)[i] in g
  {
    if g != [] {
      KeepFrom(g[1..]);
    }
  }

  function FullCount(g: Grid): (n: nat)
    ensures n <= |g|
  {
    if g == [] then 0
    else (if Full(g[0]) then 1 else 0) + FullCount(g[1..])
  }

  /** Every row is either kept or counted. */
  lemma {:induction false} KeepAndCount(g: Grid)
    ensures |Keep(g)| + FullCount(g) == |g|
  {
    if g != [] {
      KeepAndCount(g[1..]);
    }
  }

  /** Reference reading of `clearLines`: the full rows vanish and as many
      empty rows enter at the top. */
  function Cleared(g: Grid): Grid {
    Empties(FullCount(g)) + Keep(g)
  }

  /** The board after clearing is still 20 x 10 and has no full row. */
  lemma ClearedShape(g: Grid)
    requires WellFormed(g)
    ensures WellFormed(Cleared(g))
    ensures forall y :: 0 <= y < Rows ==> !Full(Cleared(g)[y])
    ensures Cleared(g)[FullCount(g)..] == Keep(g)
  {
    KeepAndCount(g);
    KeepFrom(g);
    var c := Cleared(g);
    forall y | 0 <= y < Rows
      ensures |c[y]| == Cols && !Full(c[y])
    {
      if y < FullCount(g) {
        assert c[y] == EmptyRow();
        assert c[y][0] == 0;
      } else {
        assert c[y] == Keep(g)[y - FullCount(g)];
      }
    }
  }

  lemma KeepStep(g: Grid, m: nat)
    requires 0 < m <= |g|
    ensures Keep(g[m - 1..]) == (if Full(g[m - 1]) then [] else [g[m - 1]]) + Keep(g[m..])
    ensures FullCount(g[m - 1..]) == (if Full(g[m - 1]) then 1 else 0) + FullCount(g[m..])
  {
    assert g[m - 1..][1..] == g[m..];
  }

  /** The loop state of `clearLines` part-way through: rows above the scan
      position are the c new empty rows and the m rows of g0 not yet
      scanned; rows below it are the kept rows among the scanned ones. */
  predicate Scan(g0: Grid, g: Grid, y: int, c: nat, m: nat) {
    && |g0| == Rows && -1 <= y < Rows && m <= Rows
    && m == (if y + 1 >= c then y + 1 - c else 0)
    && g == Empties(c) + g0[..m] + Keep(g0[m..])
    && c == FullCount(g0[m..])
    && |g| == Rows
  }

  /** `clearLines`, scanning from the bottom row up and re-testing a row
      after a full one is spliced out. */
  method ClearLinesLoop(g0: Grid) returns (g: Grid, cleared: nat)
    requires WellFormed(g0)
    ensures cleared == FullCount(g0)
    ensures g == Cleared(g0)
  {
    g := g0;
    cleared := 0;
    var y: int := Rows - 1;
    ghost var m: nat := Rows;
    ScanStart(g0);
    while y >= 0
      invariant Scan(g0, g, y, cleared, m)
      decreases y + 1, Rows - cleared
    {
      if y < cleared {
        ScanEmpty(g0, g, y, cleared, m);
        y := y - 1;
      } else if Full(g[y]) {
        g := Splice(g0, g, y, cleared, m);
        cleared := cleared + 1;
        m := m - 1;
      } else {
        ScanKeep(g0, g, y, cleared, m);
        y := y - 1;
        m := m - 1;
      }
    }
    ScanEnd(g0, g, cleared, m);
  }

  lemma ScanStart(g0: Grid)
    requires |g0| == Rows
    ensures Scan(g0, g0, Rows - 1, 0, Rows)
  {
    assert g0[..Rows] == g0 && g0[Rows..] == [];
    assert Keep([]) == [];
  }

  lemma ScanEnd(g0: Grid, g: Grid, c: nat, m: nat)
    requires Scan(g0, g, -1, c, m)
    ensures c == FullCount(g0) && g == Cleared(g0)
  {
    assert g0[..0] == [] && g0[0..] == g0;
  }

  /** Above the unscanned rows there are only new empty rows, which are
      never full; passing over them changes nothing. */
  lemma ScanEmpty(g0: Grid, g: Grid, y: int, c: nat, m: nat)
    requires Scan(g0, g, y, c, m) && 0 <= y < c
    ensures !Full(g[y]) && Scan(g0, g, y - 1, c, m)
  {
    assert g[y] == Empties(c)[y] == EmptyRow();
    assert EmptyRow()[0] == 0;
  }

  /** A row that is not full joins the kept rows below the scan. */
  lemma ScanKeep(g0: Grid, g: Grid, y: int, c: nat, m: nat)
    requires Scan(g0, g, y, c, m) && c <= y && !Full(g[y])
    ensures m > 0 && Scan(g0, g, y - 1, c, m - 1)
  {
    ScanAt(g0, m, c);
    KeepStep(g0, m);
    assert g0[..m] == g0[..m - 1] + [g0[m - 1]];
    assert Empties(c) + g0[..m] + Keep(g0[m..]) == Empties(c) + g0[..m - 1] + Keep(g0[m - 1..]);
  }

  /** Removes the full row y and adds an empty row on top
      (`grid.splice(y, 1); grid.unshift(...)`). */
  method Splice(ghost g0: Grid, g: Grid, y: int, ghost c: nat, ghost m: nat) returns (r: Grid)
    requires Scan(g0, g, y, c, m) && c <= y && Full(g[y])
    ensures m > 0 && c < Rows && Scan(g0, r, y, c + 1, m - 1)
    ensures r == [EmptyRow()] + g[..y] + g[y + 1..]
  {
    ScanAt(g0, m, c);
    SpliceFull(g0, m, c);
    r := [EmptyRow()] + g[..y] + g[y + 1..];
  }

  /** The row being scanned is the lowest unscanned row of g0. */
  lemma ScanAt(g0: Grid, m: nat, c: nat)
    requires 0 < m <= |g0|
    ensures (Empties(c) + g0[..m] + Keep(g0[m..]))[c + m - 1] == g0[m - 1]
  {
  }

  /** Splicing out a full row and adding an empty one on top. */
  lemma SpliceFull(g0: Grid, m: nat, c: nat)
    requires 0 < m <= |g0| && Full(g0[m - 1]) && c == FullCount(g0[m..])
    ensures c + 1 == FullCount(g0[m - 1..])
    ensures var g := Empties(c) + g0[..m] + Keep(g0[m..]);
      var y := c + m - 1;
      [EmptyRow()] + g[..y] + g[y + 1..] == Empties(c + 1) + g0[..m - 1] + Keep(g0[m - 1..])
  {
    KeepStep(g0, m);
    DropLast(EmptyRow(), Empties(c), g0[..m], Keep(g0[m..]));
    assert g0[..m][..m - 1] == g0[..m - 1];
    assert [EmptyRow()] + Empties(c) == Empties(c + 1);
  }

  /** Dropping the last element of the middle part and putting x in front. */
  lemma DropLast<T>(x: T, e: seq<T>, a: seq<T>, k: seq<T>)
    requires |a| > 0
    ensures var g := e + a + k;
      [x] + g[..|e| + |a| - 1] + g[|e| + |a|..] == [x] + e + a[..|a| - 1] + k
  {
    var g := e + a + k;
    assert g[..|e| + |a| - 1] == e + a[..|a| - 1];
    assert g[|e| + |a|..] == k;
  }

  /** Points for clearing n rows at once. */
  function LineScore(n: nat): (pts: nat)
    ensures n == 0 <==> pts == 0
  {
    if n == 0 then 0
    else if n == 1 then 100
    else if n == 2 then 300
    else if n == 3 then 500
    else 800
  }

  /** Clearing more rows at once never pays less. */
  lemma LineScoreMonotone(m: nat, n: nat)
    requires m <= n
    ensures LineScore(m) <= LineScore(n)
    ensures n >= 4 ==> LineScore(n) == 800
  {
  }

  // ---------------------------------------------------------------------
  // The game
  // ---------------------------------------------------------------------

  datatype Game = Game(
    grid: Grid, piece: Piece, score: nat, over: bool,
    entered: bool, paused: bool, inView: bool, hasFocus: bool)

  /** The state the component keeps consistent: a 20 x 10 board, a rectangular
      piece with a filled cell, and a piece that fits while the game runs. */
  predicate Valid(g: Game) {
    && WellFormed(g.grid)
    && Rect(g.piece.shape) && HasCell(g.piece.shape)
    && (!g.over ==> !Collides(g.grid, g.piece.shape, g.piece.x, g.piece.y))
  }

  /** A fresh component, given the first drawn kind. */
  function Start(k: Kind): (g: Game)
    ensures Valid(g) && !g.over && g.score == 0
  {
    StandardShapes(k);
    SpawnFitsEmpty(k);
    Game(EmptyGrid(), Spawn(k), 0, false, false, false, true, false)
  }

  /** `reset`: empty board, a new piece, score 0, not over. */
  function Reset(g: Game, k: Kind): (r: Game)
    ensures Valid(r) && !r.over && r.score == 0 && r.grid == EmptyGrid()
    ensures r.entered == g.entered && r.paused == g.paused && r.inView == g.inView && r.hasFocus == g.hasFocus
  {
    StandardShapes(k);
    SpawnFitsEmpty(k);
    g.(grid := EmptyGrid(), piece := Spawn(k), score := 0, over := false)
  }

  /** The gravity timer runs only in this case. */
  predicate Running(g: Game) {
    g.entered && !g.over && !g.paused && g.inView
  }

  /** One gravity step, given the kind the next spawn would draw: fall one
      row if free; otherwise lock the piece, clear rows, score, and spawn,
      ending the game (and keeping the locked piece) if the spawn collides. */
  function Tick(g: Game, next: Kind): (r: Game)
    requires Valid(g)
    ensures Valid(r)
    ensures !Running(g) ==> r == g
    ensures r.score >= g.score
    ensures r.entered == g.entered && r.paused == g.paused && r.inView == g.inView && r.hasFocus == g.hasFocus
  {
    if !Running(g) then g
    else
      var p := g.piece;
      if !Collides(g.grid, p.shape, p.x, p.y + 1) then
        g.(piece := p.(y := p.y + 1))
      else
        var merged := Merged(g.grid, p);
        var n := FullCount(merged);
        ClearedShape(merged);
        var board := Cleared(merged);
        var np := Spawn(next);
        StandardShapes(next);
        if Collides(board, np.shape, np.x, np.y) then
          g.(grid := board, score := g.score + LineScore(n), over := true)
        else
          g.(grid := board, score := g.score + LineScore(n), piece := np)
  }

  /** While running, a piece with room below only falls. */
  lemma TickFalls(g: Game, next: Kind)
    requires Valid(g) && Running(g)
    requires !Collides(g.grid, g.piece.shape, g.piece.x, g.piece.y + 1)
    ensures Tick(g, next).piece.y == g.piece.y + 1
    ensures Tick(g, next).grid == g.grid && Tick(g, next).score == g.score && !Tick(g, next).over
    ensures Tick(g, next) == g.(piece := g.piece.(y := g.piece.y + 1))
  {
  }

  /** A blocked piece locks: the board gains its cells, full rows are
      cleared and paid for, and the game ends exactly when the next piece
      cannot enter. */
  lemma TickLocks(g: Game, next: Kind)
    requires Valid(g) && Running(g)
    requires Collides(g.grid, g.piece.shape, g.piece.x, g.piece.y + 1)
    ensures var r := Tick(g, next);
      var merged := Merged(g.grid, g.piece);
      && r.grid == Cleared(merged)
      && r.score == g.score + LineScore(FullCount(merged))
      && (r.over <==> Collides(r.grid, ShapeOf(next), 4, 0))
      && (r.over ==> r.piece == g.piece)
      && (!r.over ==> r.piece == Spawn(next))
      && forall y :: 0 <= y < Rows ==> !Full(r.grid[y])
  {
    ClearedShape(Merged(g.grid, g.piece));
  }

  // ---------------------------------------------------------------------
  // Keys
  // ---------------------------------------------------------------------

  datatype Command = Left | Right | Turn90 | SoftDrop | HardDrop | TogglePause | NoCommand

  /** The keys whose default browser action the handler suppresses. */
  const Handled: seq<string> := ["ArrowLeft", "ArrowRight", "ArrowUp", "ArrowDown", " ", "a", "d", "w", "s"]

  /** The handler's dispatch on `e.key`. The suppressed keys are exactly the
      ones that move the piece; `p` and `P` only toggle the pause. */
  function CommandOf(key: string): (r: Command)
    ensures key in Handled <==> r in {Left, Right, Turn90, SoftDrop, HardDrop}
    ensures r == TogglePause <==> key == "p" || key == "P"
  {
    if key == "p" || key == "P" then TogglePause
    else if key == "ArrowLeft" || key == "a" then Left
    else if key == "ArrowRight" || key == "d" then Right
    else if key == "ArrowUp" || key == "w" then Turn90
    else if key == "ArrowDown" || key == "s" then SoftDrop
    else if key == " " then HardDrop
    else NoCommand
  }

  /** The hard drop's landing row: the first row at or below y whose next
      row down collides. */
  function DropRow(g: Grid, s: Shape, x: int, y: int): (ny: int)
    requires HasCell(s)
    ensures ny >= y
    ensures Collides(g, s, x, ny + 1)
    ensures forall k :: y < k <= ny ==> !Collides(g, s, x, k)
    decreases Rows - y
  {
    if Collides(g, s, x, y + 1) then y
    else
      FitsAboveFloor(g, s, x, y + 1);
      DropRow(g, s, x, y + 1)
  }

  /** Moves the piece to a new place or shape only if it fits there. */
  function TryMove(g: Game, q: Piece): (r: Game)
    requires Valid(g) && Rect(q.shape) && HasCell(q.shape)
    ensures Valid(r)
    ensures r == g || (r == g.(piece := q) && !Collides(g.grid, q.shape, q.x, q.y))
    ensures !Collides(g.grid, q.shape, q.x, q.y) ==> r == g.(piece := q)
  {
    if Collides(g.grid, q.shape, q.x, q.y) then g else g.(piece := q)
  }

  /** The up key: the rotated shape, if it fits where the piece is. */
  function Turned(g: Game): (r: Game)
    requires Valid(g)
    ensures Valid(r)
    ensures r == g.(piece := g.piece.(shape := r.piece.shape))
    ensures !Collides(g.grid, Rotate(g.piece.shape), g.piece.x, g.piece.y) ==> r.piece.shape == Rotate(g.piece.shape)
    ensures Collides(g.grid, Rotate(g.piece.shape), g.piece.x, g.piece.y) ==> r == g
  {
    var p := g.piece;
    RotateKeepsCells(p.shape);
    TryMove(g, p.(shape := Rotate(p.shape)))
  }

  /** The space key: the piece drops to its landing row. */
  function Dropped(g: Game): (r: Game)
    requires Valid(g)
    ensures Valid(r)
    ensures r == g.(piece := g.piece.(y := r.piece.y))
  {
    var p := g.piece;
    var ny := DropRow(g.grid, p.shape, p.x, p.y);
    assert ny == p.y || !Collides(g.grid, p.shape, p.x, ny);
    g.(piece := p.(y := ny))
  }

  /** The handler is installed and the board has focus. */
  predicate Listening(g: Game) {
    g.entered && !g.over && g.hasFocus
  }

  /** The key handler: it listens only once entered and while not over,
      ignores keys without focus, toggles the pause on `p`, and otherwise
      moves the piece (also while paused). Moves never touch the board. */
  function Press(g: Game, key: string): (r: Game)
    requires Valid(g)
    ensures Valid(r)
    ensures !Listening(g) ==> r == g
    ensures r.grid == g.grid && r.score == g.score && r.over == g.over
    ensures r.piece.kind == g.piece.kind
    ensures r.paused != g.paused ==> r.piece == g.piece
  {
    if !Listening(g) then g
    else
      var p := g.piece;
      match CommandOf(key)
      case TogglePause => g.(paused := !g.paused)
      case Left => TryMove(g, p.(x := p.x - 1))
      case Right => TryMove(g, p.(x := p.x + 1))
      case Turn90 => Turned(g)
      case SoftDrop => TryMove(g, p.(y := p.y + 1))
      case HardDrop => Dropped(g)
      case NoCommand => g
  }

  /** `p` or `P` flips the pause and nothing else. */
  lemma PauseKeyToggles(g: Game, key: string)
    requires Valid(g) && Listening(g) && CommandOf(key) == TogglePause
    ensures Press(g, key) == g.(paused := !g.paused)
  {
  }

  /** A key the handler does not bind changes nothing. */
  lemma UnboundKeyIgnored(g: Game, key: string)
    requires Valid(g) && Listening(g) && CommandOf(key) == NoCommand
    ensures Press(g, key) == g
  {
  }

  /** A move, soft drop or turn whose target fits is taken, and only the
      piece's column, row or shape changes. */
  lemma FittingMoveIsTaken(g: Game, key: string)
    requires Valid(g) && Listening(g)
    requires var p := g.piece;
      || (CommandOf(key) == Left && !Collides(g.grid, p.shape, p.x - 1, p.y))
      || (CommandOf(key) == Right && !Collides(g.grid, p.shape, p.x + 1, p.y))
      || (CommandOf(key) == SoftDrop && !Collides(g.grid, p.shape, p.x, p.y + 1))
      || (CommandOf(key) == Turn90 && !Collides(g.grid, Rotate(p.shape), p.x, p.y))
    ensures var p := g.piece;
      && (CommandOf(key) == Left ==> Press(g, key) == g.(piece := p.(x := p.x - 1)))
      && (CommandOf(key) == Right ==> Press(g, key) == g.(piece := p.(x := p.x + 1)))
      && (CommandOf(key) == SoftDrop ==> Press(g, key) == g.(piece := p.(y := p.y + 1)))
      && (CommandOf(key) == Turn90 ==> Press(g, key) == g.(piece := p.(shape := Rotate(p.shape))))
  {
  }

  /** A hard drop lands on the first resting row and does not lock: the next
      tick does that. */
  lemma HardDropRests(g: Game)
    requires Valid(g) && g.entered && !g.over && g.hasFocus
    ensures var r := Press(g, " ");
      && r.piece == g.piece.(y := r.piece.y)
      && r.piece.y >= g.piece.y
      && Collides(g.grid, g.piece.shape, g.piece.x, r.piece.y + 1)
      && !Collides(g.grid, g.piece.shape, g.piece.x, r.piece.y)
      && (forall k :: g.piece.y < k <= r.piece.y ==> !Collides(g.grid, g.piece.shape, g.piece.x, k))
      && r.piece.y == DropRow(g.grid, g.piece.shape, g.piece.x, g.piece.y)
  {
  }

  /** A blocked move leaves the piece where it was: there is no wall kick. */
  lemma BlockedMoveIsNoop(g: Game, key: string)
    requires Valid(g) && g.entered && !g.over && g.hasFocus
    requires var p := g.piece;
      || (CommandOf(key) == Left && Collides(g.grid, p.shape, p.x - 1, p.y))
      || (CommandOf(key) == Right && Collides(g.grid, p.shape, p.x + 1, p.y))
      || (CommandOf(key) == SoftDrop && Collides(g.grid, p.shape, p.x, p.y + 1))
      || (CommandOf(key) == Turn90 && Collides(g.grid, Rotate(p.shape), p.x, p.y))
    ensures Press(g, key) == g
  {
  }

  /** Applies a run of events: (true, kind, _) is a gravity tick drawing
      `kind` if it spawns, (false, _, key) a key press. Every state reached
      this way is valid. */
  function Replay(g: Game, events: seq<(bool, Kind, string)>): (r: Game)
    requires Valid(g)
    ensures Valid(r)
    decreases |events|
  {
    if events == [] then g
    else
      var h := Replay(g, events[..|events| - 1]);
      var e := events[|events| - 1];
      if e.0 then Tick(h, e.1) else Press(h, e.2)
  }
}
