/**
 What a terminal shows, as a value (progs/terminal.c): a plain screen of rows that moves up when the cursor runs
 off the bottom, and the pixels of a full drawing of it.
 */
module Screen {

  const CHAR: nat := 8  // width and height of a glyph
  const BLACK: int := 0
  const WHITE: int := 0xFFFFFF
  const SPACE: int := 32
  const NEWLINE: int := 10
  const BACKSPACE: int := 8

  datatype Cell = Cell(glyph: int, fg: int, bg: int)

  // A screen of rows of cells, with the cursor and the colours.
  datatype Plain = Plain(rows: seq<seq<Cell>>, row: int, col: int, fg: int, bg: int)

  ghost predicate Sized(rows: seq<seq<Cell>>, nr: nat, nc: nat) {
    |rows| == nr && forall r :: 0 <= r < nr ==> |rows[r]| == nc
  }

  // The cursor is on the screen.
  ghost predicate Ok(s: Plain, nr: nat, nc: nat) {
    Sized(s.rows, nr, nc) && 0 <= s.row < nr && 0 <= s.col < nc
  }

  function Blank(s: Plain): Cell {
    Cell(SPACE, s.fg, s.bg)
  }

  function BlankRow(c: Cell, nc: nat): (r: seq<Cell>)
    ensures |r| == nc && forall i :: 0 <= i < nc ==> r[i] == c
  {
    seq(nc, i => c)
  }

  function SetCell(rows: seq<seq<Cell>>, r: nat, c: nat, x: Cell): seq<seq<Cell>>
    requires r < |rows| && c < |rows[r]|
  {
    rows[r := rows[r][c := x]]
  }

  // Below the last row the screen moves up by one, and a blank row comes in.
  function Scrolled(s: Plain, nc: nat): Plain
    requires s.rows != []
  {
    if s.row < |s.rows| then s else s.(rows := s.rows[1..] + [BlankRow(Blank(s), nc)], row := s.row - 1)
  }

  // The effect of a character.
  ghost function Put(s: Plain, ch: int, nr: nat, nc: nat): Plain
    requires Ok(s, nr, nc)
  {
    if ch == NEWLINE then Scrolled(s.(col := 0, row := s.row + 1), nc)
    else if ch == BACKSPACE then
      if s.col > 0 then s.(rows := SetCell(s.rows, s.row, s.col - 1, Blank(s)), col := s.col - 1) else s
    else
      var t := s.(rows := SetCell(s.rows, s.row, s.col, Cell(ch, s.fg, s.bg)));
      if s.col + 1 < nc then t.(col := s.col + 1) else Scrolled(t.(col := 0, row := s.row + 1), nc)
  }

  lemma PutOk(s: Plain, ch: int, nr: nat, nc: nat)
    requires Ok(s, nr, nc)
    ensures Ok(Put(s, ch, nr, nc), nr, nc)
  {
  }

  // A line that ends on the last row moves the screen up.
  predicate MovesUp(s: Plain, ch: int, nr: nat, nc: nat) {
    s.row + 1 == nr && (ch == NEWLINE || (ch != BACKSPACE && s.col + 1 == nc))
  }

  // A character changes one cell at most; all other cells keep their contents, moved up with their row.
  lemma PutElsewhere(s: Plain, ch: int, nr: nat, nc: nat, r: nat, c: nat)
    requires Ok(s, nr, nc) && r < nr && c < nc
    requires !(r == s.row && c == if ch == BACKSPACE then s.col - 1 else s.col)
    ensures var up, t := if MovesUp(s, ch, nr, nc) then 1 else 0, Put(s, ch, nr, nc);
            && Ok(t, nr, nc)
            && (r >= up ==> t.rows[r - up][c] == s.rows[r][c])
            && (up == 1 ==> t.rows[nr - 1] == BlankRow(Blank(s), nc))
  {
  }

  // The cell it does change, and where the cursor goes.
  lemma PutHere(s: Plain, ch: int, nr: nat, nc: nat)
    requires Ok(s, nr, nc)
    ensures var t := Put(s, ch, nr, nc);
            && Ok(t, nr, nc) && t.fg == s.fg && t.bg == s.bg
            && (ch == 8 ==> t.row == s.row && t.col == (if s.col == 0 then 0 else s.col - 1) && (s.col == 0 ==> t == s))
            && (ch == 8 && s.col > 0 ==> t.rows[s.row][s.col - 1] == Cell(32, s.fg, s.bg))
            && (ch != 8 && ch != 10 && s.col + 1 < nc ==> t.row == s.row && t.col == s.col + 1)
            && (ch == 10 || (ch != 8 && s.col + 1 == nc) ==> t.col == 0 && t.row == if s.row + 1 < nr then s.row + 1 else nr - 1)
            && (ch != 8 && ch != 10 && !MovesUp(s, ch, nr, nc) ==> t.rows[s.row][s.col] == Cell(ch, s.fg, s.bg))
            && (ch != 8 && ch != 10 && MovesUp(s, ch, nr, nc) && nr > 1 ==> t.rows[s.row - 1][s.col] == Cell(ch, s.fg, s.bg))
  {
  }

  // What the frame buffer should show at a place: the cell, with the cursor's colours under the cursor.
  function Target(s: Plain, vis: bool, r: nat, c: nat): Cell
    requires r < |s.rows| && c < |s.rows[r]|
  {
    if vis && r == s.row && c == s.col then Cell(s.rows[r][c].glyph, BLACK, WHITE) else s.rows[r][c]
  }

  // ---------- Pixels ----------

  type Font = (int, int, int) -> bool

  function Pixel(font: Font, x: Cell, dy: int, dx: int): int {
    if font(if x.glyph == 0 then SPACE else x.glyph, dy, dx) then x.fg else x.bg
  }

  // The place of a cell, or of a pixel, in a flat buffer.
  function At(n: nat, i: nat, j: nat): nat {
    i * n + j
  }

  lemma AtBound(n: nat, m: nat, i: nat, j: nat)
    requires i < m && j < n
    ensures At(n, i, j) < m * n
  {
    assert (i + 1) * n <= m * n;
  }

  lemma AtApart(n: nat, i: nat, j: nat, i': nat, j': nat)
    requires j < n && j' < n && At(n, i, j) == At(n, i', j')
    ensures i == i' && j == j'
  {
    assert i < i' ==> (i + 1) * n <= i' * n;
    assert i' < i ==> (i' + 1) * n <= i * n;
  }

  // The cell at row r, column c, drawn.
  ghost predicate Drawn(font: Font, frame: seq<int>, w: nat, h: nat, r: nat, c: nat, x: Cell)
    requires |frame| == h * w
  {
    forall y: nat, z: nat :: y < h && z < w && InCell(r, c, y, z) ==> PixelIs(frame, w, h, y, z, Pixel(font, x, y - r * CHAR, z - c * CHAR))
  }

  ghost predicate PixelIs(frame: seq<int>, w: nat, h: nat, y: nat, z: nat, v: int)
    requires |frame| == h * w && y < h && z < w
  {
    At(w, y, z) < |frame| && frame[At(w, y, z)] == v
  }

  predicate InCell(r: nat, c: nat, y: nat, z: nat) {
    r * CHAR <= y < r * CHAR + CHAR && c * CHAR <= z < c * CHAR + CHAR
  }

  // Beyond the last whole cell nothing is drawn.
  ghost predicate MarginClear(frame: seq<int>, w: nat, h: nat, nr: nat, nc: nat)
    requires |frame| == h * w
  {
    forall y: nat, z: nat :: y < h && z < w && (y >= nr * CHAR || z >= nc * CHAR) ==> PixelIs(frame, w, h, y, z, 0)
  }

  // A full drawing of the screen.
  ghost predicate Redraw(font: Font, frame: seq<int>, w: nat, h: nat, s: Plain, vis: bool, nr: nat, nc: nat)
    requires |frame| == h * w && Sized(s.rows, nr, nc)
  {
    MarginClear(frame, w, h, nr, nc)
    && forall r: nat, c: nat :: r < nr && c < nc ==> Drawn(font, frame, w, h, r, c, Target(s, vis, r, c))
  }

  // The pixels of a full drawing: those of the glyph in the cell's colours, black on white under a visible cursor, a
  // cell without glyph as a blank, and black beyond the last whole cell.
  lemma PixelShown(font: Font, frame: seq<int>, w: nat, h: nat, s: Plain, vis: bool, nr: nat, nc: nat, y: nat, z: nat)
    requires |frame| == h * w && Sized(s.rows, nr, nc) && Redraw(font, frame, w, h, s, vis, nr, nc) && y < h && z < w
    ensures 0 <= y * w + z < |frame|
    ensures y < nr * 8 && z < nc * 8 ==>
              var x := s.rows[y / 8][z / 8]; var cursor := vis && s.row == y / 8 && s.col == z / 8;
              var on := font(if x.glyph == 0 then 32 else x.glyph, y % 8, z % 8);
              frame[y * w + z] == if on then (if cursor then 0 else x.fg) else if cursor then 0xFFFFFF else x.bg
    ensures y >= nr * 8 || z >= nc * 8 ==> frame[y * w + z] == 0
  {
    if y < nr * 8 && z < nc * 8 {
      var r, c := y / 8, z / 8;
      assert InCell(r, c, y, z) && Drawn(font, frame, w, h, r, c, Target(s, vis, r, c));
      assert PixelIs(frame, w, h, y, z, Pixel(font, Target(s, vis, r, c), y - r * CHAR, z - c * CHAR));
    } else {
      assert PixelIs(frame, w, h, y, z, 0);
    }
  }

  // There is one full drawing.
  lemma RedrawUnique(font: Font, f: seq<int>, g: seq<int>, w: nat, h: nat, s: Plain, vis: bool, nr: nat, nc: nat)
    requires |f| == h * w && |g| == h * w && Sized(s.rows, nr, nc)
    requires Redraw(font, f, w, h, s, vis, nr, nc) && Redraw(font, g, w, h, s, vis, nr, nc)
    ensures f == g
  {
    forall k | 0 <= k < |f| ensures f[k] == g[k] {
      var y, z := Place(k, w, h);
      var r, c := y / CHAR, z / CHAR;
      if r < nr && c < nc {
        assert InCell(r, c, y, z);
        assert Drawn(font, f, w, h, r, c, Target(s, vis, r, c)) && Drawn(font, g, w, h, r, c, Target(s, vis, r, c));
        assert PixelIs(f, w, h, y, z, Pixel(font, Target(s, vis, r, c), y - r * CHAR, z - c * CHAR));
        assert PixelIs(g, w, h, y, z, Pixel(font, Target(s, vis, r, c), y - r * CHAR, z - c * CHAR));
      } else {
        assert PixelIs(f, w, h, y, z, 0) && PixelIs(g, w, h, y, z, 0);
      }
    }
  }

  lemma Place(k: nat, w: nat, h: nat) returns (y: nat, z: nat)
    requires k < h * w
    ensures y < h && z < w && k == At(w, y, z)
  {
    y, z := k / w, k % w;
    assert k == y * w + z;
    assert y >= h ==> y * w >= h * w;
  }
}
