/**
 Windows and where they can be (src/gui/window.c, src/arch/syscall.c): opening, dragging, resizing, maximizing and
 minimizing, as values.
 */
module Windows {
  import opened Rects

  const TASKBAR_HEIGHT := 28
  const TITLE_BAR := 20  // WIN_TITLE_BAR_HEIGHT
  const BORDER := 1
  const MIN_W := 70
  const MIN_H := 40
  const MARGIN := 3  // WIN_RESIZE_MARGIN

  datatype State = Normal | Maximized | Minimized

  datatype Flags = Flags(movable: bool, resizable: bool, minimizable: bool, borderless: bool)

  datatype Edges = Edges(left: bool, right: bool, top: bool, bottom: bool) {
    predicate None() { !left && !right && !top && !bottom }
  }

  // A window: where it is, the pool rectangles of its clip list, and where it was before it was maximized or
  // minimized.
  datatype Window = Window(box: Rect, clip: seq<nat>, desktop: bool, flags: Flags, state: State, before: State,
                           saved: Rect, dirty: bool)

  // Not empty, not above the screen, and not ending left of it.
  predicate Placed(b: Rect) {
    Solid(b) && b.x + b.w >= 0 && b.y >= 0
  }

  predicate WindowOk(w: Window) {
    Placed(w.box) && Placed(w.saved) && !w.before.Minimized?
  }

  // The size a program asks for, as sys_create_win lets it through.
  function Granted(asked: nat, screen: nat): nat {
    var n := if asked == 0 then 100 else asked;
    if n > screen then screen else n
  }

  function NotNegative(x: int): nat {
    if x < 0 then 0 else x
  }

  // win_create: a window with the borders around what was asked for.
  function Opened(x: int, y: int, w: nat, h: nat, flags: Flags, desktop: bool): Window {
    var box := if flags.borderless then Rect(x, y, w, h) else Rect(x, y, w + 2 * BORDER, h + TITLE_BAR + 2 * BORDER);
    Window(box, [], desktop, flags, Normal, Normal, Rect(x, y, w, h), true)
  }

  lemma OpenedOk(x: int, y: int, w: nat, h: nat, flags: Flags, width: nat, height: nat)
    requires width > 0 && height > 0
    ensures var n := Opened(NotNegative(x), NotNegative(y), Granted(w, width), Granted(h, height), flags, false);
            WindowOk(n) && n.box.x >= 0
  {
  }

  // Where a program's window opens: at the place asked for, if that is on the screen, with the size asked for, 100 for
  // none and the screen at most, and a frame of one pixel and a title bar of 20 around it unless it wants none.
  lemma OpenedMeans(x: int, y: int, w: nat, h: nat, flags: Flags, width: nat, height: nat)
    ensures var n := Opened(NotNegative(x), NotNegative(y), Granted(w, width), Granted(h, height), flags, false);
            var iw, ih := if w == 0 then (if 100 < width then 100 else width) else if w < width then w else width,
                          if h == 0 then (if 100 < height then 100 else height) else if h < height then h else height;
            && n.box.x == (if x < 0 then 0 else x) && n.box.y == (if y < 0 then 0 else y)
            && n.box.w == (if flags.borderless then iw else iw + 2) && n.box.h == (if flags.borderless then ih else ih + 22)
            && n.saved == Rect(n.box.x, n.box.y, iw, ih)
            && n.flags == flags && !n.desktop && n.state == Normal && n.before == Normal && n.dirty && n.clip == []
  {
  }

  // A drag by the title bar: the window follows the cursor, its top between the top of the screen and the taskbar.
  function MovedTo(b: Rect, offX: int, offY: int, mx: int, my: int, height: nat): Rect {
    var top := height - TASKBAR_HEIGHT - TITLE_BAR;
    var y := if my - offY > top then top else my - offY;
    Rect(mx - offX, if y < 0 then 0 else y, b.w, b.h)
  }

  // The cursor stays over the same column of the window, so the window cannot leave the screen to the left; its
  // title bar stays above the taskbar.
  lemma MovedHolds(b: Rect, offX: int, offY: int, mx: int, my: int, height: nat)
    requires Placed(b) && 0 <= offX < b.w && 0 <= mx
    ensures var r := MovedTo(b, offX, offY, mx, my, height);
            && Placed(r) && r.w == b.w && r.h == b.h && r.x <= mx < r.x + r.w && mx - r.x == offX
            && (height >= TASKBAR_HEIGHT + TITLE_BAR ==> r.y + TITLE_BAR <= height - TASKBAR_HEIGHT)
  {
  }

  // A drag by an edge or a corner.
  function ResizedTo(b: Rect, e: Edges, mx: int, my: int, height: nat): Rect {
    ResizedDown(ResizedAcross(b, e, mx), e, my, height)
  }

  function ResizedAcross(b: Rect, e: Edges, mx: int): Rect {
    if e.left then (if b.x + b.w - mx >= MIN_W then Rect(mx, b.y, b.x + b.w - mx, b.h) else b)
    else if e.right && mx - b.x >= MIN_W then Rect(b.x, b.y, mx - b.x, b.h)
    else b
  }

  function ResizedDown(b: Rect, e: Edges, my: int, height: nat): Rect {
    var floor := height - TASKBAR_HEIGHT;
    var low := if my > floor then floor else my;
    if e.top then (if b.y + b.h - my >= MIN_H then Rect(b.x, my, b.w, b.y + b.h - my) else b)
    else if e.bottom && low - b.y >= MIN_H then Rect(b.x, b.y, b.w, low - b.y)
    else b
  }

  // The edge that is not dragged stays, the dragged one is at the cursor or stays, and no side becomes shorter
  // than the least size unless it already was.
  lemma ResizedHolds(b: Rect, e: Edges, mx: int, my: int, height: nat)
    requires Placed(b) && 0 <= mx && 0 <= my
    ensures var r := ResizedTo(b, e, mx, my, height);
            && Placed(r)
            && (e.left ==> r.x + r.w == b.x + b.w && (r.x == mx || r.x == b.x)) && (!e.left ==> r.x == b.x)
            && (e.top ==> r.y + r.h == b.y + b.h && (r.y == my || r.y == b.y)) && (!e.top ==> r.y == b.y)
            && (!e.left && e.right ==> r.x + r.w == mx || r.w == b.w) && (!e.left && !e.right ==> r.w == b.w)
            && (!e.top && !e.bottom ==> r.h == b.h)
            && (r.w >= MIN_W || r.w == b.w) && (r.h >= MIN_H || r.h == b.h)
  {
  }

  // A window that was dragged is an ordinary one again, unless it is minimized.
  function Released(w: Window): Window {
    if w.state.Minimized? then w else w.(state := Normal)
  }

  predicate Near(p: int, edge: int) {
    edge - MARGIN <= p <= edge + MARGIN
  }

  // get_resize_dir.
  function EdgesAt(w: Window, mx: int, my: int): Edges {
    if !w.flags.resizable || w.state.Minimized? then Edges(false, false, false, false)
    else Edges(Near(mx, w.box.x), Near(mx, w.box.x + w.box.w), Near(my, w.box.y), Near(my, w.box.y + w.box.h))
  }

  // win_resize: nothing happens when there is no memory for the pixels.
  function Resized(w: Window, b: Rect, memory: bool): Window {
    if memory then w.(box := b, dirty := true) else w
  }

  function Remembered(w: Window): Window {
    w.(saved := w.box)
  }

  // win_toggle_maximize.
  function MaximizeToggled(w: Window, width: nat, height: nat, memory: bool): Window {
    var whole := Rect(0, 0, width, height - TASKBAR_HEIGHT);
    match w.state
    case Normal => Resized(Remembered(w).(state := Maximized), whole, memory)
    case Maximized => Resized(w.(state := Normal), w.saved, memory)
    case Minimized => Resized(w.(state := Maximized), whole, memory)
  }

  // win_toggle_minimize.
  function MinimizeToggled(w: Window, memory: bool): Window {
    if w.state.Minimized? then Resized(w.(state := w.before), w.box.(h := w.saved.h), memory)
    else Resized(Remembered(w).(before := w.state, state := Minimized), w.box.(h := TITLE_BAR), memory)
  }

  // Both leave the window placed, and twice the same toggle puts a window back where it was.
  lemma MaximizeTwice(w: Window, width: nat, height: nat)
    requires WindowOk(w) && width > 0 && height > TASKBAR_HEIGHT
    ensures forall memory :: WindowOk(MaximizeToggled(w, width, height, memory))
    ensures w.state.Normal? ==>
              var b := MaximizeToggled(MaximizeToggled(w, width, height, true), width, height, true); b.box == w.box && b.state == w.state
  {
  }

  lemma MinimizeTwice(w: Window)
    requires WindowOk(w)
    ensures forall memory :: WindowOk(MinimizeToggled(w, memory)) && MinimizeToggled(w, memory).box.w == w.box.w
    ensures !w.state.Minimized? ==> var b := MinimizeToggled(MinimizeToggled(w, true), true); b.box == w.box && b.state == w.state
  {
  }

  // ---------- Place by place ----------

  // A dragged window has the cursor where it was taken, unless its top would be above the screen or its title bar below
  // the last row over the taskbar.
  lemma MovedMeans(b: Rect, offX: int, offY: int, mx: int, my: int, height: nat)
    ensures var r := MovedTo(b, offX, offY, mx, my, height);
            && r.x == mx - offX && r.w == b.w && r.h == b.h
            && (0 <= my - offY <= height - 48 ==> r.y == my - offY)
            && (my - offY < 0 ==> r.y == 0 || height < 48)
            && (my - offY > height - 48 >= 0 ==> r.y == height - 48) && (height < 48 ==> r.y == 0)
  {
  }

  // A dragged edge is at the cursor if that leaves 70 columns or 40 rows, the lower one no lower than the taskbar; if not,
  // and for edges that are not dragged, it is where it was.
  lemma ResizedMeans(b: Rect, e: Edges, mx: int, my: int, height: nat)
    ensures var r := ResizedTo(b, e, mx, my, height);
            var low := if my < height - 28 then my else height - 28;
            && r.x == (if e.left && b.x + b.w - mx >= 70 then mx else b.x)
            && r.x + r.w == (if !e.left && e.right && mx - b.x >= 70 then mx else b.x + b.w)
            && r.y == (if e.top && b.y + b.h - my >= 40 then my else b.y)
            && r.y + r.h == if !e.top && e.bottom && low - b.y >= 40 then low else b.y + b.h
  {
  }

  // The cursor is at an edge within three pixels of it, of a window that may be resized and is not minimized.
  lemma EdgesMean(w: Window, mx: int, my: int)
    ensures var e := EdgesAt(w, mx, my); var can := w.flags.resizable && w.state != Minimized;
            && (e.left <==> can && -3 <= mx - w.box.x <= 3) && (e.right <==> can && -3 <= mx - (w.box.x + w.box.w) <= 3)
            && (e.top <==> can && -3 <= my - w.box.y <= 3) && (e.bottom <==> can && -3 <= my - (w.box.y + w.box.h) <= 3)
  {
  }

  // Maximizing: a window fills the screen above the taskbar, or is back where it was; without memory for its pixels
  // only the state changes.
  lemma MaximizedMeans(w: Window, width: nat, height: nat, memory: bool)
    ensures var t := MaximizeToggled(w, width, height, memory);
            && t.state == (if w.state == Maximized then Normal else Maximized)
            && t.saved == (if w.state == Normal then w.box else w.saved) && t.before == w.before
            && t.box == (if !memory then w.box else if w.state == Maximized then w.saved else Rect(0, 0, width, height - 28))
            && t.flags == w.flags && t.desktop == w.desktop && t.clip == w.clip && t.dirty == (w.dirty || memory)
  {
  }

  // Minimizing: a window is rolled up to 20 rows, or is back at its height and in its state.
  lemma MinimizedMeans(w: Window, memory: bool)
    ensures var t := MinimizeToggled(w, memory);
            && t.state == (if w.state == Minimized then w.before else Minimized)
            && t.saved == (if w.state == Minimized then w.saved else w.box) && t.before == (if w.state == Minimized then w.before else w.state)
            && t.box == (if memory then Rect(w.box.x, w.box.y, w.box.w, if w.state == Minimized then w.saved.h else 20) else w.box)
            && t.flags == w.flags && t.desktop == w.desktop && t.clip == w.clip && t.dirty == (w.dirty || memory)
  {
  }

  // Letting go of a drag: the window is an ordinary one, unless it is minimized.
  lemma ReleasedMeans(w: Window)
    ensures var t := Released(w); t == w.(state := t.state) && t.state == if w.state == Minimized then Minimized else Normal
  {
  }
}
