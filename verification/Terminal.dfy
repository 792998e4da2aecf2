/**
 The terminal (progs/terminal.c): a flat buffer of lines that rotates instead of moving, and a refresh that draws
 only the cells that changed.

 `rows` is the plain screen that the rotating buffer stands for; `text`, `state` and `frame` are the buffers.
 */
module Terminal {

  import opened Screen

  // The buffer line that holds row r.
  function Line(start: nat, r: nat, nr: nat): nat
    requires start < nr && r < nr
  {
    if start + r < nr then start + r else start + r - nr
  }

  lemma LineIsMod(start: nat, r: nat, nr: nat)
    requires start < nr && r < nr
    ensures (start + r) % nr == Line(start, r, nr) < nr
  {
    DivUnique(start + r, nr, if start + r < nr then 0 else 1, Line(start, r, nr));
  }

  lemma DivUnique(a: nat, n: nat, q: nat, r: nat)
    requires n > 0 && a == q * n + r && r < n
    ensures a % n == r
  {
    var k, m := a / n, a % n;
    assert a == k * n + m;
    assert k < q ==> (k + 1) * n <= q * n;
    assert q < k ==> (q + 1) * n <= k * n;
  }

  // The flat buffer shows the rows, from line `start` on.
  ghost predicate Shows(text: seq<Cell>, start: nat, rows: seq<seq<Cell>>, nr: nat, nc: nat) {
    start < nr && |text| == nr * nc && Sized(rows, nr, nc)
    && forall r: nat, c: nat :: r < nr && c < nc ==> CellIs(text, nc, Line(start, r, nr), c, rows[r][c])
  }

  ghost predicate CellIs(text: seq<Cell>, nc: nat, i: nat, c: nat, x: Cell) {
    At(nc, i, c) < |text| && text[At(nc, i, c)] == x
  }

  lemma WriteShows(text: seq<Cell>, start: nat, rows: seq<seq<Cell>>, nr: nat, nc: nat, r: nat, c: nat, x: Cell)
    requires Shows(text, start, rows, nr, nc) && r < nr && c < nc
    ensures At(nc, Line(start, r, nr), c) < |text|
    ensures Shows(text[At(nc, Line(start, r, nr), c) := x], start, SetCell(rows, r, c, x), nr, nc)
  {
    var k := At(nc, Line(start, r, nr), c);
    AtBound(nc, nr, Line(start, r, nr), c);
    var to, rs := text[k := x], SetCell(rows, r, c, x);
    forall r': nat, c': nat | r' < nr && c' < nc ensures CellIs(to, nc, Line(start, r', nr), c', rs[r'][c']) {
      assert CellIs(text, nc, Line(start, r', nr), c', rows[r'][c']);
      if At(nc, Line(start, r', nr), c') == k { AtApart(nc, Line(start, r', nr), c', Line(start, r, nr), c); }
    }
  }

  // The first n cells of row 0 are blank.
  function PartBlank(rows: seq<seq<Cell>>, n: nat, x: Cell, nc: nat): seq<seq<Cell>>
    requires rows != [] && |rows[0]| == nc && n <= nc
  {
    rows[0 := BlankRow(x, n) + rows[0][n..]]
  }

  lemma BlankOn(rows: seq<seq<Cell>>, n: nat, x: Cell, nc: nat)
    requires rows != [] && |rows[0]| == nc && n < nc
    ensures SetCell(PartBlank(rows, n, x, nc), 0, n, x) == PartBlank(rows, n + 1, x, nc)
    ensures PartBlank(rows, 0, x, nc) == rows
  {
    assert BlankRow(x, n) + [x] == BlankRow(x, n + 1);
    assert rows[0][n..] == [rows[0][n]] + rows[0][n + 1..];
    assert (BlankRow(x, n) + rows[0][n..])[n := x] == BlankRow(x, n + 1) + rows[0][n + 1..];
    assert BlankRow(x, 0) + rows[0][0..] == rows[0];
  }

  // The blanked first row is the last row of the buffer that starts one line later.
  lemma TurnShows(text: seq<Cell>, start: nat, rows: seq<seq<Cell>>, nr: nat, nc: nat, x: Cell)
    requires Sized(rows, nr, nc) && nr > 0 && Shows(text, start, PartBlank(rows, nc, x, nc), nr, nc)
    ensures Shows(text, (start + 1) % nr, rows[1..] + [BlankRow(x, nc)], nr, nc)
  {
    var was, rs := PartBlank(rows, nc, x, nc), rows[1..] + [BlankRow(x, nc)];
    if nr > 1 { LineIsMod(start, 1, nr); }
    var to := (start + 1) % nr;
    forall r: nat, c: nat | r < nr && c < nc ensures CellIs(text, nc, Line(to, r, nr), c, rs[r][c]) {
      var r' := if r + 1 < nr then r + 1 else 0;
      assert CellIs(text, nc, Line(start, r', nr), c, was[r'][c]);
    }
  }

  // ---------- What is on the screen ----------

  // The cell last drawn at every place.
  ghost predicate StateDrawn(font: Font, frame: seq<int>, state: seq<Cell>, w: nat, h: nat, nr: nat, nc: nat)
    requires |frame| == h * w && |state| == nr * nc
  {
    MarginClear(frame, w, h, nr, nc)
    && forall r: nat, c: nat :: r < nr && c < nc ==> At(nc, r, c) < |state| && Drawn(font, frame, w, h, r, c, state[At(nc, r, c)])
  }

  // Only the pixels of one cell differ.
  ghost predicate OnlyCell(f: seq<int>, g: seq<int>, w: nat, h: nat, r: nat, c: nat)
    requires |f| == |g| == h * w
  {
    forall y: nat, z: nat :: y < h && z < w && !InCell(r, c, y, z) ==>
      At(w, y, z) < |f| && PixelIs(g, w, h, y, z, f[At(w, y, z)])
  }

  lemma DrawOther(font: Font, f: seq<int>, g: seq<int>, w: nat, h: nat, r: nat, c: nat, r': nat, c': nat, x: Cell)
    requires |f| == |g| == h * w && OnlyCell(f, g, w, h, r, c) && (r, c) != (r', c') && Drawn(font, f, w, h, r', c', x)
    ensures Drawn(font, g, w, h, r', c', x)
  {
    forall y: nat, z: nat | y < h && z < w && InCell(r', c', y, z)
      ensures PixelIs(g, w, h, y, z, Pixel(font, x, y - r' * CHAR, z - c' * CHAR))
    {
      assert !InCell(r, c, y, z);
      assert PixelIs(f, w, h, y, z, Pixel(font, x, y - r' * CHAR, z - c' * CHAR));
    }
  }

  lemma DrawMargin(f: seq<int>, g: seq<int>, w: nat, h: nat, r: nat, c: nat, nr: nat, nc: nat)
    requires |f| == |g| == h * w && OnlyCell(f, g, w, h, r, c) && r < nr && c < nc && MarginClear(f, w, h, nr, nc)
    ensures MarginClear(g, w, h, nr, nc)
  {
    forall y: nat, z: nat | y < h && z < w && (y >= nr * CHAR || z >= nc * CHAR) ensures PixelIs(g, w, h, y, z, 0) {
      assert !InCell(r, c, y, z);
      assert PixelIs(f, w, h, y, z, 0);
    }
  }

  lemma DrawState(font: Font, f: seq<int>, g: seq<int>, state: seq<Cell>, w: nat, h: nat, r: nat, c: nat, nr: nat, nc: nat, x: Cell)
    requires |f| == |g| == h * w && |state| == nr * nc && r < nr && c < nc
    requires StateDrawn(font, f, state, w, h, nr, nc) && OnlyCell(f, g, w, h, r, c) && Drawn(font, g, w, h, r, c, x)
    ensures At(nc, r, c) < |state| && StateDrawn(font, g, state[At(nc, r, c) := x], w, h, nr, nc)
  {
    AtBound(nc, nr, r, c);
    var to := state[At(nc, r, c) := x];
    DrawMargin(f, g, w, h, r, c, nr, nc);
    forall r': nat, c': nat | r' < nr && c' < nc
      ensures At(nc, r', c') < |to| && Drawn(font, g, w, h, r', c', to[At(nc, r', c')])
    {
      AtBound(nc, nr, r', c');
      if (r', c') != (r, c) {
        if At(nc, r', c') == At(nc, r, c) { AtApart(nc, r', c', r, c); }
        DrawOther(font, f, g, w, h, r, c, r', c', state[At(nc, r', c')]);
      }
    }
  }

  // The cells before (r, c), row by row, are as they should be.
  ghost predicate DoneTo(state: seq<Cell>, s: Plain, vis: bool, nr: nat, nc: nat, r: nat, c: nat)
    requires |state| == nr * nc && Sized(s.rows, nr, nc)
  {
    forall i: nat, j: nat :: i < nr && j < nc && (i < r || (i == r && j < c)) ==>
      At(nc, i, j) < |state| && state[At(nc, i, j)] == Target(s, vis, i, j)
  }

  lemma DoneOn(state: seq<Cell>, s: Plain, vis: bool, nr: nat, nc: nat, r: nat, c: nat)
    requires |state| == nr * nc && Sized(s.rows, nr, nc) && r < nr && c < nc && DoneTo(state, s, vis, nr, nc, r, c)
    ensures At(nc, r, c) < |state| && DoneTo(state[At(nc, r, c) := Target(s, vis, r, c)], s, vis, nr, nc, r, c + 1)
  {
    AtBound(nc, nr, r, c);
    var to := state[At(nc, r, c) := Target(s, vis, r, c)];
    forall i: nat, j: nat | i < nr && j < nc && (i < r || (i == r && j < c + 1))
      ensures At(nc, i, j) < |to| && to[At(nc, i, j)] == Target(s, vis, i, j)
    {
      if At(nc, i, j) == At(nc, r, c) { AtApart(nc, i, j, r, c); }
      AtBound(nc, nr, i, j);
    }
  }

  lemma AllDone(font: Font, frame: seq<int>, state: seq<Cell>, s: Plain, vis: bool, w: nat, h: nat, nr: nat, nc: nat)
    requires |frame| == h * w && |state| == nr * nc && Sized(s.rows, nr, nc)
    requires StateDrawn(font, frame, state, w, h, nr, nc) && DoneTo(state, s, vis, nr, nc, nr, 0)
    ensures Redraw(font, frame, w, h, s, vis, nr, nc)
  {
    forall r: nat, c: nat | r < nr && c < nc ensures Drawn(font, frame, w, h, r, c, Target(s, vis, r, c)) {
      assert At(nc, r, c) < |state| && Drawn(font, frame, w, h, r, c, state[At(nc, r, c)]);
    }
  }

  // The pixels of a cell before (dy, dx) are drawn, and all others are as they were.
  ghost predicate PartDrawn(font: Font, f: seq<int>, g: seq<int>, w: nat, h: nat, r: nat, c: nat, x: Cell, dy: nat, dx: nat)
    requires |f| == |g| == h * w
  {
    forall y: nat, z: nat :: y < h && z < w ==> At(w, y, z) < |f| && PixelIs(g, w, h, y, z, PartPixel(font, f[At(w, y, z)], r, c, x, dy, dx, y, z))
  }

  function PartPixel(font: Font, was: int, r: nat, c: nat, x: Cell, dy: nat, dx: nat, y: nat, z: nat): int {
    if InCell(r, c, y, z) && (y - r * CHAR < dy || (y - r * CHAR == dy && z - c * CHAR < dx))
    then Pixel(font, x, y - r * CHAR, z - c * CHAR) else was
  }

  lemma DrawNone(font: Font, f: seq<int>, w: nat, h: nat, r: nat, c: nat, x: Cell)
    requires |f| == h * w
    ensures PartDrawn(font, f, f, w, h, r, c, x, 0, 0)
  {
    forall y: nat, z: nat | y < h && z < w
      ensures At(w, y, z) < |f| && PixelIs(f, w, h, y, z, PartPixel(font, f[At(w, y, z)], r, c, x, 0, 0, y, z)) { AtBound(w, h, y, z); }
  }

  lemma DrawOn(font: Font, f: seq<int>, g: seq<int>, w: nat, h: nat, r: nat, c: nat, x: Cell, dy: nat, dx: nat)
    requires |f| == |g| == h * w && PartDrawn(font, f, g, w, h, r, c, x, dy, dx) && dy < CHAR && dx < CHAR
    requires r * CHAR + dy < h && c * CHAR + dx < w
    ensures At(w, r * CHAR + dy, c * CHAR + dx) < |g|
    ensures PartDrawn(font, f, g[At(w, r * CHAR + dy, c * CHAR + dx) := Pixel(font, x, dy, dx)], w, h, r, c, x, dy, dx + 1)
  {
    var k := At(w, r * CHAR + dy, c * CHAR + dx);
    AtBound(w, h, r * CHAR + dy, c * CHAR + dx);
    var to := g[k := Pixel(font, x, dy, dx)];
    forall y: nat, z: nat | y < h && z < w
      ensures At(w, y, z) < |f| && PixelIs(to, w, h, y, z, PartPixel(font, f[At(w, y, z)], r, c, x, dy, dx + 1, y, z))
    {
      assert PixelIs(g, w, h, y, z, PartPixel(font, f[At(w, y, z)], r, c, x, dy, dx, y, z));
      if At(w, y, z) == k { AtApart(w, y, z, r * CHAR + dy, c * CHAR + dx); }
    }
  }

  lemma DrawLine(font: Font, f: seq<int>, g: seq<int>, w: nat, h: nat, r: nat, c: nat, x: Cell, dy: nat)
    requires |f| == |g| == h * w && PartDrawn(font, f, g, w, h, r, c, x, dy, CHAR)
    ensures PartDrawn(font, f, g, w, h, r, c, x, dy + 1, 0)
  {
    forall y: nat, z: nat | y < h && z < w
      ensures At(w, y, z) < |f| && PixelIs(g, w, h, y, z, PartPixel(font, f[At(w, y, z)], r, c, x, dy + 1, 0, y, z))
    {
      assert PixelIs(g, w, h, y, z, PartPixel(font, f[At(w, y, z)], r, c, x, dy, CHAR, y, z));
    }
  }

  lemma DrawDone(font: Font, f: seq<int>, g: seq<int>, w: nat, h: nat, r: nat, c: nat, x: Cell)
    requires |f| == |g| == h * w && PartDrawn(font, f, g, w, h, r, c, x, CHAR, 0)
    ensures Drawn(font, g, w, h, r, c, x) && OnlyCell(f, g, w, h, r, c)
  {
    forall y: nat, z: nat | y < h && z < w
      ensures At(w, y, z) < |f| && PixelIs(g, w, h, y, z, if InCell(r, c, y, z) then Pixel(font, x, y - r * CHAR, z - c * CHAR) else f[At(w, y, z)])
    {
      assert PixelIs(g, w, h, y, z, PartPixel(font, f[At(w, y, z)], r, c, x, CHAR, 0, y, z));
    }
  }

  class Term {
    const nr: nat
    const nc: nat
    const w: nat
    const h: nat
    const font: Font
    const text: array<Cell>
    const state: array<Cell>
    const frame: array<int>
    var start: nat
    var row: int
    var col: int
    var fg: int
    var bg: int
    ghost var rows: seq<seq<Cell>>

    ghost function Now(): Plain
      reads this
    {
      Plain(rows, row, col, fg, bg)
    }

    // The buffers are large enough, and the text buffer shows the rows.
    ghost predicate Shaped()
      reads this, text
    {
      && nr > 0 && nc > 0 && nr * CHAR <= h && nc * CHAR <= w
      && text != state && frame as object != text as object && frame as object != state as object
      && state.Length == nr * nc && frame.Length == h * w
      && Shows(text[..], start, rows, nr, nc)
    }

    ghost predicate Valid()
      reads this, text, state, frame
    {
      Shaped() && Ok(Now(), nr, nc) && StateDrawn(font, frame[..], state[..], w, h, nr, nc)
    }

    // The start of main: blank buffers, and cells on record that look like the empty frame whatever their glyph.
    constructor (w: nat, h: nat, font: Font)
      requires w >= CHAR && h >= CHAR
      ensures Valid() && nr == h / CHAR && nc == w / CHAR && row == col == 0 && fresh(text) && fresh(state) && fresh(frame)
      ensures forall r :: 0 <= r < nr ==> rows[r] == BlankRow(Cell(SPACE, WHITE, BLACK), nc)
    {
      this.w, this.h, this.font := w, h, font;
      var rs, cs := h / CHAR, w / CHAR;
      nr, nc := rs, cs;
      assert rs * cs >= 0 && h * w >= 0;
      text := new Cell[rs * cs](i => Cell(SPACE, WHITE, BLACK));
      state := new Cell[rs * cs](i => Cell(-1, 0, 0));
      frame := new int[h * w](i => 0);
      start, row, col, fg, bg := 0, 0, 0, WHITE, BLACK;
      rows := BlankRows(Cell(SPACE, WHITE, BLACK), rs, cs);
      new;
      BlankShows(text[..], Cell(SPACE, WHITE, BLACK), nr, nc);
      FirstState(font, frame[..], state[..], w, h, nr, nc);
    }

    // A cell of the screen is written.
    method WriteCell(r: nat, c: nat, x: Cell)
      requires Shaped() && r < nr && c < nc
      modifies text, this`rows
      ensures Shaped() && rows == SetCell(old(rows), r, c, x)
    {
      hide Shows;
      StartOk(text[..], start, rows, nr, nc);
      LineIsMod(start, r, nr);
      WriteShows(text[..], start, rows, nr, nc, r, c, x);
      var idx := ((start + r) % nr) * nc + c;
      text[idx] := x;
      assert text[..] == old(text[..])[idx := x];
      rows := SetCell(rows, r, c, x);
    }

    // term_scroll: the line of row 0 is blanked and becomes the last.
    method Scroll()
      requires Shaped() && row == nr
      modifies text, this`rows, this`start, this`row
      ensures Shaped() && Now() == Scrolled(old(Now()), nc)
    {
      hide Shows, SetCell, PartBlank, BlankRow;
      ghost var was := rows;
      StartOk(text[..], start, rows, nr, nc);
      ghost var x := Cell(SPACE, fg, bg);
      BlankOn(was, 0, x, nc);
      var c := 0;
      while c < nc
        invariant c <= nc && rows == PartBlank(was, c, x, nc) && Shows(text[..], start, rows, nr, nc)
        invariant start == old(start) && row == old(row)
      {
        BlankOn(was, c, x, nc);
        BlankSized(was, c, x, nr, nc);
        WriteShows(text[..], start, rows, nr, nc, 0, c, x);
        ghost var before := text[..];
        var idx := start * nc + c;
        text[idx] := Cell(SPACE, fg, bg);
        assert text[..] == before[idx := x];
        rows := SetCell(rows, 0, c, x);
        c := c + 1;
      }
      TurnShows(text[..], start, was, nr, nc, x);
      start := (start + 1) % nr;
      row := row - 1;
      rows := was[1..] + [BlankRow(x, nc)];
    }

    // term_put_char.
    method PutChar(ch: int)
      requires Valid()
      modifies this, text
      ensures Valid() && Now() == Put(old(Now()), ch, nr, nc)
    {
      hide Shows, StateDrawn;
      PutOk(Now(), ch, nr, nc);
      if ch == NEWLINE {
        col := 0;
        row := row + 1;
      } else if ch == BACKSPACE {
        if col > 0 {
          col := col - 1;
          WriteCell(row, col, Cell(SPACE, fg, bg));
        }
      } else {
        WriteCell(row, col, Cell(ch, fg, bg));
        col := col + 1;
        if col >= nc {
          col := 0;
          row := row + 1;
        }
      }
      if row >= nr { Scroll(); }
      assert frame[..] == old(frame[..]) && state[..] == old(state[..]);
    }

    method SetColor(color: int)
      requires Valid()
      modifies this`fg
      ensures Valid() && Now() == old(Now()).(fg := color)
    {
      fg := color;
    }

    // drv_set_cursor.
    method SetCursor(c: nat, r: nat)
      requires Valid()
      modifies this`col, this`row
      ensures Valid() && Now() == old(Now()).(row := if r < nr then r else nr - 1, col := if c < nc then c else nc - 1)
    {
      col := c;
      row := r;
      if col >= nc { col := nc - 1; }
      if row >= nr { row := nr - 1; }
    }

    // drv_clear_screen.
    method ClearScreen(mode: int)
      requires Valid()
      modifies this, text
      ensures Valid() && fg == old(fg) && bg == old(bg)
      ensures mode != 2 ==> Now() == old(Now())
      ensures mode == 2 ==> row == col == 0 && forall r :: 0 <= r < nr ==> rows[r] == BlankRow(Cell(SPACE, fg, bg), nc)
    {
      if mode != 2 { return; }
      hide Shows, StateDrawn;
      StartOk(text[..], start, rows, nr, nc);
      var i := 0;
      while i < nr * nc
        invariant i <= nr * nc
        invariant forall k :: 0 <= k < i ==> text[k] == Cell(SPACE, fg, bg)
        modifies text
      {
        text[i] := Cell(SPACE, fg, bg);
        i := i + 1;
      }
      col, row, start := 0, 0, 0;
      rows := BlankRows(Cell(SPACE, fg, bg), nr, nc);
      BlankShows(text[..], Cell(SPACE, fg, bg), nr, nc);
    }

    // render_cell_to_fb.
    method RenderCell(x: Cell, c: nat, r: nat)
      requires nr * CHAR <= h && nc * CHAR <= w && frame.Length == h * w && r < nr && c < nc
      modifies frame
      ensures Drawn(font, frame[..], w, h, r, c, x) && OnlyCell(old(frame[..]), frame[..], w, h, r, c)
    {
      hide PartDrawn;
      ghost var was := frame[..];
      DrawNone(font, was, w, h, r, c, x);
      var ch := if x.glyph == 0 then SPACE else x.glyph;
      var dy := 0;
      while dy < CHAR
        invariant dy <= CHAR && PartDrawn(font, was, frame[..], w, h, r, c, x, dy, 0)
      {
        var dx := 0;
        while dx < CHAR
          invariant dx <= CHAR && PartDrawn(font, was, frame[..], w, h, r, c, x, dy, dx)
        {
          DrawOn(font, was, frame[..], w, h, r, c, x, dy, dx);
          ghost var before := frame[..];
          var k := (r * CHAR + dy) * w + (c * CHAR + dx);
          frame[k] := if font(ch, dy, dx) then x.fg else x.bg;
          assert frame[..] == before[k := Pixel(font, x, dy, dx)];
          dx := dx + 1;
        }
        DrawLine(font, was, frame[..], w, h, r, c, x, dy);
        dy := dy + 1;
      }
      DrawDone(font, was, frame[..], w, h, r, c, x);
    }

    // One cell of term_refresh.
    method RefreshCell(r: nat, c: nat, vis: bool) returns (dirty: bool)
      requires Valid() && r < nr && c < nc && DoneTo(state[..], Now(), vis, nr, nc, r, c)
      modifies state, frame
      ensures Valid() && DoneTo(state[..], Now(), vis, nr, nc, r, c + 1)
      ensures !dirty ==> frame[..] == old(frame[..])
      ensures dirty <==> state[..] != old(state[..])
      ensures forall k :: 0 <= k < state.Length && k != r * nc + c ==> state[k] == old(state[k])
    {
      hide Shows, StateDrawn, Drawn, OnlyCell, DoneTo;
      StartOk(text[..], start, rows, nr, nc);
      LineIsMod(start, r, nr);
      ReadCell(text[..], start, rows, nr, nc, r, c);
      var cell := text[((start + r) % nr) * nc + c];
      var target := if vis && r == row && c == col then Cell(cell.glyph, BLACK, WHITE) else cell;
      AtBound(nc, nr, r, c);
      var k := r * nc + c;
      DoneOn(state[..], Now(), vis, nr, nc, r, c);
      if target != state[k] {
        ghost var f, was := frame[..], state[..];
        RenderCell(target, c, r);
        DrawState(font, f, frame[..], was, w, h, r, c, nr, nc, target);
        state[k] := target;
        assert state[..] == was[k := target];
        return true;
      }
      assert state[..] == state[..][k := target];
      return false;
    }

    // term_refresh: only cells that differ are drawn, and the frame is the full drawing of the screen.
    method Refresh(vis: bool) returns (dirty: bool)
      requires Valid()
      modifies state, frame
      ensures Valid() && Redraw(font, frame[..], w, h, Now(), vis, nr, nc)
      ensures !dirty ==> frame[..] == old(frame[..])
      ensures dirty <==> state[..] != old(state[..])
    {
      hide Shows, StateDrawn, DoneTo;
      dirty := false;
      var r := 0;
      NoneDone(state[..], Now(), vis, nr, nc);
      while r < nr
        invariant r <= nr && Valid() && DoneTo(state[..], Now(), vis, nr, nc, r, 0)
        invariant !dirty ==> frame[..] == old(frame[..])
        invariant dirty <==> state[..] != old(state[..])
        invariant forall k :: r * nc <= k < state.Length ==> state[k] == old(state[k])
      {
        var c := 0;
        while c < nc
          invariant c <= nc && Valid() && DoneTo(state[..], Now(), vis, nr, nc, r, c)
          invariant !dirty ==> frame[..] == old(frame[..])
          invariant dirty <==> state[..] != old(state[..])
          invariant forall k :: r * nc + c <= k < state.Length ==> state[k] == old(state[k])
        {
          ghost var was := state[..];
          var drawn := RefreshCell(r, c, vis);
          StillDiffers(old(state[..]), was, state[..], r * nc + c);
          dirty := dirty || drawn;
          c := c + 1;
        }
        RowDone(state[..], Now(), vis, nr, nc, r);
        r := r + 1;
      }
      AllDone(font, frame[..], state[..], Now(), vis, w, h, nr, nc);
    }
  }

  // One more cell changed, of those that had not: what differed differs still.
  lemma StillDiffers(a: seq<Cell>, b: seq<Cell>, c: seq<Cell>, k: nat)
    requires |a| == |b| == |c| && (k < |a| ==> b[k] == a[k]) && forall j :: 0 <= j < |c| && j != k ==> c[j] == b[j]
    ensures c == a <==> b == a && c == b
  {
    if c == a {
      assert forall j :: 0 <= j < |a| ==> b[j] == a[j];
    }
  }

  function BlankRows(x: Cell, nr: nat, nc: nat): (rs: seq<seq<Cell>>)
    ensures |rs| == nr && forall r :: 0 <= r < nr ==> rs[r] == BlankRow(x, nc)
  {
    seq(nr, i => BlankRow(x, nc))
  }

  lemma BlankShows(text: seq<Cell>, x: Cell, nr: nat, nc: nat)
    requires nr > 0 && |text| == nr * nc && forall k :: 0 <= k < |text| ==> text[k] == x
    ensures Shows(text, 0, BlankRows(x, nr, nc), nr, nc)
  {
    forall r: nat, c: nat | r < nr && c < nc ensures CellIs(text, nc, Line(0, r, nr), c, BlankRows(x, nr, nc)[r][c]) {
      AtBound(nc, nr, r, c);
    }
  }

  lemma FirstState(font: Font, frame: seq<int>, state: seq<Cell>, w: nat, h: nat, nr: nat, nc: nat)
    requires |frame| == h * w && |state| == nr * nc && (forall k :: 0 <= k < |frame| ==> frame[k] == 0)
    requires forall k :: 0 <= k < |state| ==> state[k].fg == state[k].bg == 0
    ensures StateDrawn(font, frame, state, w, h, nr, nc)
  {
    forall y: nat, z: nat | y < h && z < w ensures PixelIs(frame, w, h, y, z, 0) { AtBound(w, h, y, z); }
    forall r: nat, c: nat | r < nr && c < nc
      ensures At(nc, r, c) < |state| && Drawn(font, frame, w, h, r, c, state[At(nc, r, c)])
    {
      AtBound(nc, nr, r, c);
      forall y: nat, z: nat | y < h && z < w && InCell(r, c, y, z)
        ensures PixelIs(frame, w, h, y, z, Pixel(font, state[At(nc, r, c)], y - r * CHAR, z - c * CHAR)) { AtBound(w, h, y, z); }
    }
  }

  lemma BlankSized(rows: seq<seq<Cell>>, n: nat, x: Cell, nr: nat, nc: nat)
    requires Sized(rows, nr, nc) && nr > 0 && n <= nc
    ensures Sized(PartBlank(rows, n, x, nc), nr, nc)
  {
  }

  lemma ReadCell(text: seq<Cell>, start: nat, rows: seq<seq<Cell>>, nr: nat, nc: nat, r: nat, c: nat)
    requires Shows(text, start, rows, nr, nc) && r < nr && c < nc
    ensures CellIs(text, nc, Line(start, r, nr), c, rows[r][c])
  {
  }

  lemma NoneDone(state: seq<Cell>, s: Plain, vis: bool, nr: nat, nc: nat)
    requires |state| == nr * nc && Sized(s.rows, nr, nc)
    ensures DoneTo(state, s, vis, nr, nc, 0, 0)
  {
  }

  lemma RowDone(state: seq<Cell>, s: Plain, vis: bool, nr: nat, nc: nat, r: nat)
    requires |state| == nr * nc && Sized(s.rows, nr, nc) && DoneTo(state, s, vis, nr, nc, r, nc)
    ensures DoneTo(state, s, vis, nr, nc, r + 1, 0)
  {
  }

  lemma StartOk(text: seq<Cell>, start: nat, rows: seq<seq<Cell>>, nr: nat, nc: nat)
    requires Shows(text, start, rows, nr, nc)
    ensures start < nr && |text| == nr * nc && Sized(rows, nr, nc)
  {
  }
}
