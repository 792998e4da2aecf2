/**
 The terminal program's output side (progs/terminal.c with src/libc/ansi.c): the parser's driver calls are carried
 out on the screen.
 */
module Console {
  import Ansi
  import AnsiLaws
  import AnsiParser
  import Screen
  import Terminal

  // term_driver, which has no set_mode.
  const DRIVER := Ansi.Driver(true, true, true, true, false)

  // What one driver call does to the plain screen.
  ghost function Act(s: Screen.Plain, call: Ansi.Call, nr: nat, nc: nat): (t: Screen.Plain)
    requires nr > 0 && nc > 0 && Screen.Ok(s, nr, nc)
    ensures Screen.Ok(t, nr, nc)
  {
    match call
    case PutChar(ch) => Screen.PutOk(s, ch as int, nr, nc); Screen.Put(s, ch as int, nr, nc)
    case SetColor(color) => s.(fg := color)
    case SetCursor(x, y) => s.(row := Within(y, nr), col := Within(x, nc))
    case ClearScreen(what) => if what == 2 then Cleared(s, nr, nc) else s
    case SetMode(_, _) => s
  }

  function Within(i: int, n: nat): (j: nat)
    requires n > 0
    ensures j < n
  {
    if i < 0 then 0 else if i < n then i else n - 1
  }

  ghost function Cleared(s: Screen.Plain, nr: nat, nc: nat): (t: Screen.Plain)
    requires nr > 0 && nc > 0
    ensures Screen.Ok(t, nr, nc)
  {
    s.(rows := Terminal.BlankRows(Screen.Blank(s), nr, nc), row := 0, col := 0)
  }

  ghost function Acts(s: Screen.Plain, calls: seq<Ansi.Call>, nr: nat, nc: nat): (t: Screen.Plain)
    requires nr > 0 && nc > 0 && Screen.Ok(s, nr, nc)
    ensures Screen.Ok(t, nr, nc)
    decreases |calls|
  {
    if calls == [] then s else Act(Acts(s, calls[..|calls| - 1], nr, nc), calls[|calls| - 1], nr, nc)
  }

  lemma {:induction false} ActsJoin(s: Screen.Plain, a: seq<Ansi.Call>, b: seq<Ansi.Call>, nr: nat, nc: nat)
    requires nr > 0 && nc > 0 && Screen.Ok(s, nr, nc)
    ensures Acts(s, a + b, nr, nc) == Acts(Acts(s, a, nr, nc), b, nr, nc)
    decreases |b|
  {
    if b == [] {
      assert a + b == a;
    } else {
      var n := |b| - 1;
      ActsJoin(s, a, b[..n], nr, nc);
      assert (a + b)[..|a| + n] == a + b[..n];
    }
  }

  // The calls of the parser never put the cursor left of or above the screen.
  predicate Sensible(call: Ansi.Call) {
    call.SetCursor? ==> call.x >= 0 && call.y >= 0
  }

  lemma StepSensible(drv: Ansi.Driver, s: Ansi.Ctx, c: char)
    ensures forall i :: 0 <= i < |Ansi.Step(drv, s, c).1| ==> Sensible(Ansi.Step(drv, s, c).1[i])
  {
  }

  class Console {
    const parser: AnsiParser.Parser
    const term: Terminal.Term

    ghost predicate Valid()
      reads this, parser, parser.buf, term, term.text, term.state, term.frame
    {
      && parser.Valid() && term.Valid()
      && parser.buf as object != term.text as object && parser.buf as object != term.state as object && parser.buf as object != term.frame as object
    }

    constructor (w: nat, h: nat, font: Screen.Font)
      requires w >= Screen.CHAR && h >= Screen.CHAR
      ensures Valid() && fresh(parser) && fresh(parser.buf) && fresh(term) && fresh(term.text) && fresh(term.state) && fresh(term.frame)
      ensures term.nr == h / Screen.CHAR && term.nc == w / Screen.CHAR && parser.Now().mode == Ansi.Normal
    {
      parser := new AnsiParser.Parser(Ansi.WHITE);
      term := new Terminal.Term(w, h, font);
    }

    // One driver call, carried out.
    method Do(call: Ansi.Call)
      requires Valid() && Sensible(call)
      modifies term, term.text
      ensures Valid() && parser.Now() == old(parser.Now()) && term.Now() == Act(old(term.Now()), call, term.nr, term.nc)
    {
      match call
      case PutChar(ch) => term.PutChar(ch as int);
      case SetColor(color) => term.SetColor(color);
      case SetCursor(x, y) => term.SetCursor(x, y);
      case ClearScreen(what) =>
        term.ClearScreen(what);
        if what == 2 { assert term.rows == Terminal.BlankRows(Screen.Cell(Screen.SPACE, term.fg, term.bg), term.nr, term.nc); }
      case SetMode(_, _) =>
    }

    // One character of output: the parser's calls, in order.
    method WriteChar(c: char)
      requires Valid()
      modifies parser, parser.buf, term, term.text
      ensures Valid() && parser.Now() == Ansi.Step(DRIVER, old(parser.Now()), c).0
      ensures term.Now() == Acts(old(term.Now()), Ansi.Step(DRIVER, old(parser.Now()), c).1, term.nr, term.nc)
    {
      hide Ansi.Step, Act;
      var calls := parser.WriteChar(DRIVER, c);
      StepSensible(DRIVER, old(parser.Now()), c);
      ghost var s, ctx := term.Now(), parser.Now();
      for i := 0 to |calls|
        invariant Valid() && parser.Now() == ctx && term.Now() == Acts(s, calls[..i], term.nr, term.nc)
      {
        assert calls[..i + 1][..i] == calls[..i];
        Do(calls[i]);
      }
      assert calls[..|calls|] == calls;
    }

    // A whole text.
    method Write(text: string)
      requires Valid()
      modifies parser, parser.buf, term, term.text
      ensures Valid() && parser.Now() == Ansi.Feed(DRIVER, old(parser.Now()), text).0
      ensures term.Now() == Acts(old(term.Now()), Ansi.Feed(DRIVER, old(parser.Now()), text).1, term.nr, term.nc)
    {
      hide Ansi.Step, Acts, Ansi.Feed;
      ghost var s, ctx := term.Now(), parser.Now();
      FeedNone(ctx, s, term.nr, term.nc);
      for i := 0 to |text|
        invariant Valid() && parser.Now() == Ansi.Feed(DRIVER, ctx, text[..i]).0
        invariant term.Now() == Acts(s, Ansi.Feed(DRIVER, ctx, text[..i]).1, term.nr, term.nc)
      {
        ghost var mid := parser.Now();
        WriteChar(text[i]);
        assert text[..i + 1] == text[..i] + [text[i]];
        FeedOn(ctx, text[..i], text[i]);
        ActsJoin(s, Ansi.Feed(DRIVER, ctx, text[..i]).1, Ansi.Step(DRIVER, mid, text[i]).1, term.nr, term.nc);
      }
      assert text[..|text|] == text;
    }

    // Output and a refresh: the frame is the full drawing of the screen that the text makes.
    method Show(text: string, vis: bool) returns (dirty: bool)
      requires Valid()
      modifies parser, parser.buf, term, term.text, term.state, term.frame
      ensures Valid() && parser.Now() == Ansi.Feed(DRIVER, old(parser.Now()), text).0
      ensures Screen.Redraw(term.font, term.frame[..], term.w, term.h,
                            Acts(old(term.Now()), Ansi.Feed(DRIVER, old(parser.Now()), text).1, term.nr, term.nc), vis, term.nr, term.nc)
    {
      hide Ansi.Feed, Acts, Screen.Redraw;
      Write(text);
      dirty := term.Refresh(vis);
    }
  }

  lemma FeedNone(ctx: Ansi.Ctx, s: Screen.Plain, nr: nat, nc: nat)
    requires nr > 0 && nc > 0 && Screen.Ok(s, nr, nc)
    ensures Ansi.Feed(DRIVER, ctx, "") == (ctx, []) && Acts(s, [], nr, nc) == s
  {
  }

  lemma FeedOn(ctx: Ansi.Ctx, text: string, c: char)
    ensures var (t, calls) := Ansi.Feed(DRIVER, ctx, text);
            Ansi.Feed(DRIVER, ctx, text + [c]) == (Ansi.Step(DRIVER, t, c).0, calls + Ansi.Step(DRIVER, t, c).1)
  {
    var t := Ansi.Feed(DRIVER, ctx, text).0;
    Ansi.FeedConcat(DRIVER, ctx, text, [c]);
    assert [c][1..] == "";
    var step := Ansi.Step(DRIVER, t, c);
    assert step.1 + [] == step.1;
  }

  // ---------- What a text shows ----------

  // The screen after a text.
  ghost function After(s: Screen.Plain, ctx: Ansi.Ctx, text: string, nr: nat, nc: nat): Screen.Plain
    requires nr > 0 && nc > 0 && Screen.Ok(s, nr, nc)
  {
    Acts(s, Ansi.Feed(DRIVER, ctx, text).1, nr, nc)
  }

  // A text after another.
  lemma AfterJoin(s: Screen.Plain, ctx: Ansi.Ctx, a: string, b: string, nr: nat, nc: nat)
    requires nr > 0 && nc > 0 && Screen.Ok(s, nr, nc)
    ensures After(s, ctx, a + b, nr, nc) == After(After(s, ctx, a, nr, nc), Ansi.Feed(DRIVER, ctx, a).0, b, nr, nc)
  {
    hide Ansi.Feed, Acts;
    Ansi.FeedConcat(DRIVER, ctx, a, b);
    ActsJoin(s, Ansi.Feed(DRIVER, ctx, a).1, Ansi.Feed(DRIVER, Ansi.Feed(DRIVER, ctx, a).0, b).1, nr, nc);
  }

  lemma OneAct(s: Screen.Plain, call: Ansi.Call, nr: nat, nc: nat)
    requires nr > 0 && nc > 0 && Screen.Ok(s, nr, nc)
    ensures Acts(s, [call], nr, nc) == Act(s, call, nr, nc) && Acts(s, [], nr, nc) == s
  {
    hide Act;
    assert [call][..0] == [];
  }

  // A cursor sequence moves the cursor, no further than the last row and column, and does nothing else.
  lemma MoveShows(s: Screen.Plain, ctx: Ansi.Ctx, r: nat, c: nat, nr: nat, nc: nat)
    requires nr > 0 && nc > 0 && Screen.Ok(s, nr, nc) && ctx.mode == Ansi.Normal && |AnsiLaws.Joined([r + 1, c + 1])| < 32
    ensures After(s, ctx, AnsiLaws.Sequence([r + 1, c + 1], 'H'), nr, nc) == s.(row := if r < nr then r else nr - 1, col := if c < nc then c else nc - 1)
  {
    hide Ansi.Feed, Acts, AnsiLaws.Sequence, AnsiLaws.Joined;
    AnsiLaws.CursorTo(DRIVER, ctx, [r + 1, c + 1], 'H');
    OneAct(s, Ansi.SetCursor(c, r), nr, nc);
  }

  // A colour sequence changes the colour of what is written next, and does nothing else.
  lemma ColorShows(s: Screen.Plain, ctx: Ansi.Ctx, n: nat, nr: nat, nc: nat)
    requires nr > 0 && nc > 0 && Screen.Ok(s, nr, nc) && ctx.mode == Ansi.Normal && n < 40
    ensures After(s, ctx, AnsiLaws.Sequence([n], 'm'), nr, nc) ==
            s.(fg := if 30 <= n <= 37 then AnsiLaws.COLORS[n - 30] else if n == 0 then 0xFFFFFF else s.fg)
  {
    hide Ansi.Feed, Acts, AnsiLaws.Sequence;
    Ansi.IntLength(n);
    AnsiLaws.OneColor(DRIVER, ctx, n);
    OneAct(s, Ansi.SetColor(Ansi.Feed(DRIVER, ctx, AnsiLaws.Sequence([n], 'm')).0.color), nr, nc);
  }

  // The clear sequence leaves blanks everywhere, and the cursor in the corner.
  lemma ClearShows(s: Screen.Plain, ctx: Ansi.Ctx, nr: nat, nc: nat)
    requires nr > 0 && nc > 0 && Screen.Ok(s, nr, nc) && ctx.mode == Ansi.Normal
    ensures var t := After(s, ctx, AnsiLaws.Sequence([2], 'J'), nr, nc);
            && Screen.Ok(t, nr, nc) && t.row == 0 && t.col == 0 && t.fg == s.fg && t.bg == s.bg
            && forall r, c :: 0 <= r < nr && 0 <= c < nc ==> t.rows[r][c] == Screen.Cell(32, s.fg, s.bg)
  {
    hide Ansi.Feed, Acts, AnsiLaws.Sequence;
    assert |AnsiLaws.Joined([2])| == 1;
    AnsiLaws.ScreenCleared(DRIVER, ctx, [2]);
    OneAct(s, Ansi.ClearScreen(2), nr, nc);
  }

  // A character at a place: it is shown there in the colours of the moment, and every other cell is as before, unless it
  // is the last cell of the screen, which moves the screen up.
  lemma CharacterShows(s: Screen.Plain, ctx: Ansi.Ctx, r: nat, c: nat, ch: char, nr: nat, nc: nat)
    requires Screen.Ok(s, nr, nc) && ctx.mode == Ansi.Normal && r < nr && c < nc && |AnsiLaws.Joined([r + 1, c + 1])| < 32
    requires ch != Ansi.ESC && ch as int != 8 && ch as int != 10 && !(r == nr - 1 && c == nc - 1)
    ensures var t := After(s, ctx, AnsiLaws.Sequence([r + 1, c + 1], 'H') + [ch], nr, nc);
            && Screen.Ok(t, nr, nc)
            && forall i: nat, j: nat :: i < nr && j < nc ==> t.rows[i][j] == if i == r && j == c then Screen.Cell(ch as int, s.fg, s.bg) else s.rows[i][j]
  {
    var move := AnsiLaws.Sequence([r + 1, c + 1], 'H');
    var m := s.(row := r, col := c);
    AfterJoin(s, ctx, move, [ch], nr, nc);
    MoveShows(s, ctx, r, c, nr, nc);
    AnsiLaws.FeedSequence(DRIVER, ctx, [r + 1, c + 1], 'H');
    PlainShows(m, Ansi.Feed(DRIVER, ctx, move).0, ch, nr, nc);
    hide Ansi.Feed, Acts, AnsiLaws.Sequence, AnsiLaws.Joined;
    Screen.PutHere(m, ch as int, nr, nc);
    forall i: nat, j: nat | i < nr && j < nc && !(i == r && j == c) ensures Screen.Put(m, ch as int, nr, nc).rows[i][j] == s.rows[i][j] {
      Screen.PutElsewhere(m, ch as int, nr, nc, i, j);
    }
    hide Screen.Put;
  }

  lemma PlainShows(s: Screen.Plain, ctx: Ansi.Ctx, ch: char, nr: nat, nc: nat)
    requires nr > 0 && nc > 0 && Screen.Ok(s, nr, nc) && ctx.mode == Ansi.Normal && ch != Ansi.ESC
    ensures After(s, ctx, [ch], nr, nc) == Screen.Put(s, ch as int, nr, nc)
  {
    assert [ch][1..] == "" && Ansi.Feed(DRIVER, ctx, [ch]).1 == [Ansi.PutChar(ch)];
    hide Screen.Put;
    OneAct(s, Ansi.PutChar(ch), nr, nc);
  }
}
