/**
 Whole sessions of the window manager: when an ordinary repaint leaves every clip list exact, and how many windows the
 pool of rectangles is enough for (src/gui/window.c).
 */
module WindowRuns {
  import opened Rects
  import opened Windows
  import opened ClipLists

  // What can happen to the screen: a program opens a window or draws into one, a task ends, the mouse moves, Alt-Tab, a
  // repaint.
  datatype Op =
    | OpenOp(x: int, y: int, w: nat, h: nat, flags: Flags)
    | DrawOp(i: nat)
    | CloseOp(i: nat)
    | MouseOp(left: bool, right: bool, mx: int, my: int)
    | CycleOp
    | PaintOp

  // The windows and their rectangles at one moment, with the drag and the buttons held; spare says that the pool has
  // something left.
  datatype Snap = Snap(storage: seq<Rect>, windows: seq<Window>, spare: bool, drag: Drag, left: bool, right: bool)

  ghost function SnapOf(s: Screen): Snap
    reads s
  {
    Snap(s.storage, s.windows, s.free != [], s.drag, s.leftDown, s.rightDown)
  }

  // Every window that is not dirty has an exact list.
  ghost predicate SnapCurrent(t: Snap, width: nat, height: nat) {
    forall i :: 0 <= i < |t.windows| ==> t.windows[i].dirty || DrawnOn(t.storage, t.windows, i, width, height, false)
  }

  // A window that is opened meets no clip list, but for lists of windows that are repainted anyway.
  ghost predicate OpensClear(t: Snap, op: Op, memory: bool, width: nat, height: nat) {
    op.OpenOp? && memory ==>
      var w := AskedFor(op.x, op.y, op.w, op.h, op.flags, width, height);
      forall k :: 0 <= k < |t.windows| && !t.windows[k].dirty && !Touched(t.windows, w, t.spare, k) ==> Clears(t.storage, t.windows[k].clip, w.box)
  }

  // What each operation does to the windows.
  ghost predicate Happened(a: Snap, op: Op, memory: bool, width: nat, height: nat, b: Snap) {
    match op
    case OpenOp(x, y, w, h, flags) =>
      if !memory then b.windows == a.windows
      else |b.windows| == |a.windows| + 1
           && b.windows == Joined(a.windows, AskedFor(x, y, w, h, flags, width, height), b.windows[|a.windows|].clip, a.spare)
    case DrawOp(i) => b.windows == if i < |a.windows| then a.windows[i := a.windows[i].(dirty := true)] else a.windows
    case CloseOp(i) => b.windows == if i < |a.windows| then Stained(a.windows[..i] + a.windows[i + 1..]) else a.windows
    case MouseOp(left, right, mx, my) =>
      if 0 <= mx < width && 0 <= my < height
      then Moused(a.windows, a.drag, a.left, a.right, left, right, mx, my, width, height, memory, b.windows, b.drag) && b.left == left && b.right == right
      else b == a
    case CycleOp => b.windows == Cycled(a.windows, memory)
    case PaintOp => |b.windows| == |a.windows| && forall i :: 0 <= i < |b.windows| ==> SameButClip(b.windows[i], a.windows[i]) && !b.windows[i].dirty
  }

  // ---------- One operation ----------

  lemma DirtierCurrent(storage: seq<Rect>, ws: seq<Window>, us: seq<Window>, width: nat, height: nat, lost: bool)
    requires Dirtier(ws, us) && forall i :: 0 <= i < |ws| ==> ws[i].dirty || DrawnOn(storage, ws, i, width, height, lost)
    ensures forall i :: 0 <= i < |us| ==> us[i].dirty || DrawnOn(storage, us, i, width, height, lost)
  {
    hide DrawnOn;
    forall i | 0 <= i < |us| && !us[i].dirty ensures DrawnOn(storage, us, i, width, height, lost) {
      DrawnSame(storage, storage, ws, us, i, width, height, lost);
    }
  }

  // Opening a window keeps every clean list exact exactly when it meets none of them.
  lemma JoinedCurrentIff(a: Snap, b: seq<Rect>, us: seq<Window>, w: Window, clip: seq<nat>, width: nat, height: nat, lost: bool)
    requires us == Joined(a.windows, w, clip, a.spare) && Solid(w.box)
    requires forall k :: 0 <= k < |a.windows| ==> SameStored(b, a.storage, a.windows[k].clip)
    requires forall i :: 0 <= i < |a.windows| ==> a.windows[i].dirty || DrawnOn(a.storage, a.windows, i, width, height, lost)
    ensures (forall i :: 0 <= i < |a.windows| ==> us[i].dirty || DrawnOn(b, us, i, width, height, lost)) <==>
            (forall k :: 0 <= k < |a.windows| && !a.windows[k].dirty && !Touched(a.windows, w, a.spare, k) ==> Clears(a.storage, a.windows[k].clip, w.box))
  {
    hide DrawnOn, Joined, Clears, Touched;
    forall i | 0 <= i < |a.windows| && !us[i].dirty
      ensures DrawnOn(b, us, i, width, height, lost) <==> Clears(a.storage, a.windows[i].clip, w.box)
    {
      JoinedDrawnIff(a.storage, b, a.windows, us, i, w.box, width, height, lost);
    }
  }

  method DoOpen(s: Screen, op: Op, memory: bool, ghost lost: bool) returns (ghost more: bool)
    requires s.Ok() && op.OpenOp?
    modifies s
    ensures s.Ok() && (lost ==> more) && (more ==> lost || s.misses > old(s.misses)) && s.misses >= old(s.misses)
    ensures old(s.Current(lost)) && OpensClear(old(SnapOf(s)), op, memory, s.width, s.height) ==> s.Current(more)
    ensures old(s.Current(false)) && s.misses == old(s.misses) ==> (s.Current(false) <==> OpensClear(old(SnapOf(s)), op, memory, s.width, s.height))
    ensures forall n: nat :: old(s.Roomy(n)) && |s.windows| <= n ==> s.Roomy(n) && s.misses == old(s.misses)
    ensures if !memory then s.windows == old(s.windows)
            else && |s.windows| == |old(s.windows)| + 1
                 && s.windows == Joined(old(s.windows), AskedFor(op.x, op.y, op.w, op.h, op.flags, s.width, s.height),
                                        s.windows[|old(s.windows)|].clip, old(s.free) != [])
    ensures forall k :: 0 <= k < |old(s.windows)| ==> SameStored(s.storage, old(s.storage), old(s.windows)[k].clip)
    ensures memory && old(s.free) == [] ==> s.misses > old(s.misses)
  {
    hide Full, ClipSum, DrawnOn, WindowOk, HeldOk, Joined, Pow4, SameStored, Touched, Clears, Screen.Ok;
    ghost var a, was, clean := SnapOf(s), s.Current(lost), s.Current(false);
    ghost var w := AskedFor(op.x, op.y, op.w, op.h, op.flags, s.width, s.height);
    BoxSolid(s, op);
    forall n: nat | s.Roomy(n) ensures s.free != [] { s.RoomySome(n); }
    var shown := s.Open(op.x, op.y, op.w, op.h, op.flags, memory);
    more := lost || (memory && !shown);
    if memory {
      ghost var clip :| s.windows == Joined(a.windows, w, clip, shown) && |clip| == if shown then 1 else 0;
      JoinedTop(a.windows, w, clip, shown);
      if was {
        JoinedCurrentIff(a, s.storage, s.windows, w, clip, s.width, s.height, lost);
        OpenedCurrent(s, |a.windows|, lost, shown);
      }
      if clean {
        JoinedCurrentIff(a, s.storage, s.windows, w, clip, s.width, s.height, false);
        OpenedCurrent(s, |a.windows|, false, shown);
      }
    }
  }

  lemma BoxSolid(s: Screen, op: Op)
    requires s.Ok() && op.OpenOp?
    ensures Solid(AskedFor(op.x, op.y, op.w, op.h, op.flags, s.width, s.height).box)
  {
    OpenedOk(op.x, op.y, op.w, op.h, op.flags, s.width, s.height);
  }

  lemma JoinedTop(ws: seq<Window>, w: Window, clip: seq<nat>, shown: bool)
    ensures var us := Joined(ws, w, clip, shown);
            && us[|ws|] == w.(clip := clip, dirty := shown || !w.flags.borderless)
            && (|clip| <= 1 ==> forall b: nat :: b >= 1 && ClipsWithin(ws, b) ==> ClipsWithin(us, b))
  {
  }

  // The new window is dirty, or it has no list at all, which is exact as far as the pool went.
  lemma OpenedCurrent(s: Screen, n: nat, lost: bool, shown: bool)
    requires |s.windows| == n + 1 && (if shown then s.windows[n].dirty else s.windows[n].clip == [])
    ensures (forall i :: 0 <= i < n ==> s.windows[i].dirty || s.Drawn(i, lost)) ==> s.Current(lost || !shown)
    ensures shown ==> (s.Current(lost) <==> forall i :: 0 <= i < n ==> s.windows[i].dirty || s.Drawn(i, lost))
  {
    hide DrawnOn;
    if !shown { NothingDrawn(s.storage, s.windows, n, s.width, s.height); }
    forall i | 0 <= i < n && s.Drawn(i, lost) ensures s.Drawn(i, lost || !shown) { s.DrawnWeaker(i, lost, lost || !shown); }
  }

  lemma NothingDrawn(storage: seq<Rect>, ws: seq<Window>, i: nat, width: nat, height: nat)
    requires i < |ws| && ws[i].clip == []
    ensures DrawnOn(storage, ws, i, width, height, true)
  {
  }

  // What an operation other than opening and painting does: all lists stay, and windows are dirty or as they were.
  ghost predicate Settled(ws: seq<Window>, us: seq<Window>) {
    Dirtier(ws, us) && |us| <= |ws| && forall b: nat :: ClipsWithin(ws, b) ==> ClipsWithin(us, b)
  }

  lemma ClosedSettled(ws: seq<Window>, i: nat)
    requires i < |ws|
    ensures Settled(ws, Stained(ws[..i] + ws[i + 1..]))
  {
  }

  lemma DrawSettled(ws: seq<Window>, i: nat)
    requires i < |ws|
    ensures Settled(ws, ws[i := ws[i].(dirty := true)])
  {
  }

  lemma SettledKeeps(s: Screen, ws: seq<Window>, lost: bool)
    requires Settled(ws, s.windows)
    ensures (forall i :: 0 <= i < |ws| ==> ws[i].dirty || DrawnOn(s.storage, ws, i, s.width, s.height, lost)) ==> s.Current(lost)
    ensures forall n: nat :: PoolFor(s.pool, n) && |ws| <= n && ClipsWithin(ws, Pow4(n - 1)) ==> s.Roomy(n)
  {
    hide DrawnOn, Pow4;
    if forall i :: 0 <= i < |ws| ==> ws[i].dirty || DrawnOn(s.storage, ws, i, s.width, s.height, lost) {
      DirtierCurrent(s.storage, ws, s.windows, s.width, s.height, lost);
    }
  }

  // Closing, drawing, the mouse and Alt-Tab.
  method DoOther(s: Screen, op: Op, memory: bool)
    requires s.Ok() && !op.OpenOp? && !op.PaintOp?
    modifies s
    ensures s.Ok() && s.misses == old(s.misses) && forall l: bool :: old(s.Current(l)) ==> s.Current(l)
    ensures Happened(old(SnapOf(s)), op, memory, s.width, s.height, SnapOf(s))
    ensures forall n: nat :: old(s.Roomy(n)) ==> s.Roomy(n)
  {
    hide Full, ClipSum, DrawnOn, WindowOk, HeldOk, Pow4, Screen.Ok, Dirtier, ClipsWithin, Cycled, Moused;
    ghost var ws := s.windows;
    DirtierSelf(ws);
    match op {
      case DrawOp(i) =>
        if i < |s.windows| {
          DrawSettled(ws, i);
          s.Draw(i);
        }
      case CloseOp(i) =>
        if i < |s.windows| {
          ClosedSettled(ws, i);
          s.Close(i);
        }
      case MouseOp(left, right, mx, my) =>
        if 0 <= mx < s.width && 0 <= my < s.height { s.Update(left, right, mx, my, memory); }
      case CycleOp =>
        CycledKeeps(ws, memory);
        s.CycleFocus(memory);
    }
    SettledKeeps(s, ws, true);
    SettledKeeps(s, ws, false);
  }

  method DoPaint(s: Screen, ghost lost: bool) returns (ghost more: bool)
    requires s.Ok()
    modifies s
    ensures s.Ok() && (lost ==> more) && (more ==> lost || s.misses > old(s.misses)) && s.misses >= old(s.misses)
    ensures old(s.Current(lost)) ==> s.Current(more) && forall i :: 0 <= i < |s.windows| ==> s.Drawn(i, more)
    ensures old(s.Current(false)) && s.misses == old(s.misses) ==> s.Current(false)
    ensures |s.windows| == |old(s.windows)| && forall n: nat :: old(s.Roomy(n)) ==> s.Roomy(n) && s.misses == old(s.misses)
    ensures forall i :: 0 <= i < |s.windows| ==> SameButClip(s.windows[i], old(s.windows)[i]) && !s.windows[i].dirty
    ensures forall i: nat, l: bool :: i < |s.windows| && !old(s.windows)[i].dirty ==> (s.Drawn(i, l) <==> old(s.Drawn(i, l)))
  {
    hide Full, ClipSum, DrawnOn, WindowOk, HeldOk, Pow4, Screen.Ok, Screen.Roomy;
    ghost var was, ws := s.Current(lost), s.windows;
    ghost var miss := s.Paint();
    more := lost || miss;
    if was {
      forall i | 0 <= i < |s.windows| ensures s.Drawn(i, more) {
        if ws[i].dirty { s.DrawnWeaker(i, miss, more); } else { s.DrawnWeaker(i, lost, more); }
      }
    }
  }

  // Any operation: clean lists stay exact if and only if it is no window opened over one, unless the pool ran out.
  method Perform(s: Screen, op: Op, memory: bool, ghost lost: bool) returns (ghost more: bool)
    requires s.Ok()
    modifies s
    ensures s.Ok() && (more ==> lost || s.misses > old(s.misses)) && s.misses >= old(s.misses)
    ensures Happened(old(SnapOf(s)), op, memory, s.width, s.height, SnapOf(s))
    ensures old(s.Current(lost)) && OpensClear(old(SnapOf(s)), op, memory, s.width, s.height) ==> s.Current(more)
    ensures s.misses == old(s.misses) && old(s.Current(false)) ==> (s.Current(false) <==> OpensClear(old(SnapOf(s)), op, memory, s.width, s.height))
    ensures forall n: nat :: old(s.Roomy(n)) && |s.windows| <= n ==> s.Roomy(n) && s.misses == old(s.misses)
  {
    hide Full, ClipSum, DrawnOn, WindowOk, HeldOk, Screen.Ok, Screen.Roomy, Screen.Current, Joined, Moused, Cycled;
    if op.OpenOp? {
      more := DoOpen(s, op, memory, lost);
    } else if op.PaintOp? {
      more := DoPaint(s, lost);
    } else {
      DoOther(s, op, memory);
      more := lost;
    }
  }

  // ---------- Whole sessions ----------

  ghost function Following(hist: seq<Snap>, j: nat, last: Snap): Snap {
    if j + 1 < |hist| then hist[j + 1] else last
  }

  // Each moment comes of the one before it, and `last` of the last one.
  ghost predicate Follows(hist: seq<Snap>, ops: seq<Op>, memory: seq<bool>, width: nat, height: nat, last: Snap) {
    && |hist| <= |ops| == |memory|
    && forall j :: 0 <= j < |hist| ==> Happened(hist[j], ops[j], memory[j], width, height, Following(hist, j, last))
  }

  lemma FollowsNone(ops: seq<Op>, memory: seq<bool>, width: nat, height: nat)
    requires |ops| == |memory|
    ensures forall t :: Follows([], ops, memory, width, height, t)
  {
  }

  lemma FollowsOn(hist: seq<Snap>, t: Snap, ops: seq<Op>, memory: seq<bool>, width: nat, height: nat, u: Snap)
    requires Follows(hist, ops, memory, width, height, t) && |hist| < |ops|
    requires Happened(t, ops[|hist|], memory[|hist|], width, height, u)
    ensures Follows(hist + [t], ops, memory, width, height, u)
  {
    hide Happened;
    var more := hist + [t];
    forall j | 0 <= j < |more| ensures Happened(more[j], ops[j], memory[j], width, height, Following(more, j, u)) {
      if j < |hist| { assert Following(hist, j, t) == Following(more, j, u); }
    }
  }

  lemma FollowsAll(hist: seq<Snap>, last: Snap, ops: seq<Op>, memory: seq<bool>, width: nat, height: nat)
    requires Follows(hist, ops, memory, width, height, last) && |hist| == |ops|
    ensures var all := hist + [last]; forall k :: 0 <= k < |ops| ==> Happened(all[k], ops[k], memory[k], width, height, all[k + 1])
  {
    hide Happened;
    var all := hist + [last];
    forall k | 0 <= k < |ops| ensures Happened(all[k], ops[k], memory[k], width, height, all[k + 1]) {
      assert all[k + 1] == Following(hist, k, last);
    }
  }

  // A session from the start on, ended by an ordinary repaint.  If no window was ever opened over a list that was not
  // due to be repainted, every clip list is exactly the visible part of its window - completely so as long as there are
  // never more windows than the pool is enough for.  And unless the pool ran out, that is the only way for a list to be
  // wrong at any moment without being due.
  method Session(width: nat, height: nat, pool: nat, ops: seq<Op>, memory: seq<bool>)
    returns (s: Screen, ghost hist: seq<Snap>, ghost lost: bool)
    requires width > 0 && height > TASKBAR_HEIGHT && |memory| == |ops|
    ensures fresh(s) && s.Ok() && s.width == width && s.height == height && s.pool == pool && |hist| == |ops| + 1
    ensures forall i :: 0 <= i < |s.windows| ==> Placed(s.windows[i].box)
    ensures |hist[0].windows| == 1 && hist[0].windows[0].desktop && hist[0].windows[0].box == Rect(0, 0, width, height)
    ensures forall k :: 0 <= k < |ops| ==> Happened(hist[k], ops[k], memory[k], width, height, hist[k + 1])
    ensures |s.windows| == |hist[|ops|].windows| && forall i :: 0 <= i < |s.windows| ==> SameButClip(s.windows[i], hist[|ops|].windows[i]) && !s.windows[i].dirty
    ensures (forall k :: 0 <= k < |ops| ==> OpensClear(hist[k], ops[k], memory[k], width, height)) ==>
              forall i :: 0 <= i < |s.windows| ==> s.Drawn(i, lost)
    ensures lost ==> s.misses > 0
    ensures s.misses == 0 ==>
              ((forall k :: 0 <= k <= |ops| ==> SnapCurrent(hist[k], width, height)) <==>
               (forall k :: 0 <= k < |ops| ==> OpensClear(hist[k], ops[k], memory[k], width, height)))
    ensures forall n: nat :: PoolFor(pool, n) && (forall k :: 0 <= k < |hist| ==> |hist[k].windows| <= n) ==> s.misses == 0 && !lost
  {
    hide Full, ClipSum, DrawnOn, WindowOk, HeldOk, PoolFor, ClipsWithin, Screen.Ok, Happened, OpensClear, Follows;
    FollowsNone(ops, memory, width, height);
    s := new Screen(width, height, pool);
    var shown := s.OpenDesktop(true);
    lost := s.misses > 0;
    hist := [];
    FirstCurrent(s, lost);
    ghost var clear, first := true, SnapOf(s);
    for k := 0 to |ops|
      invariant fresh(s) && s.Ok() && s.width == width && s.height == height && s.pool == pool && |hist| == k && (lost ==> s.misses > 0)
      invariant clear <==> forall j :: 0 <= j < k ==> OpensClear(hist[j], ops[j], memory[j], width, height)
      invariant clear ==> s.Current(lost)
      invariant if k == 0 then SnapOf(s) == first else hist[0] == first
      invariant Follows(hist, ops, memory, width, height, SnapOf(s))
      invariant s.misses == 0 ==> (clear <==> (forall j :: 0 <= j < k ==> SnapCurrent(hist[j], width, height)) && s.Current(false))
      invariant forall n: nat :: PoolFor(pool, n) && (forall j :: 0 <= j < k ==> |hist[j].windows| <= n) && |s.windows| <= n
                  ==> s.Roomy(n) && s.misses == 0
    {
      ghost var t, past := SnapOf(s), hist;
      assert SnapCurrent(t, width, height) <==> s.Current(false);
      lost := Perform(s, ops[k], memory[k], lost);
      clear := clear && OpensClear(t, ops[k], memory[k], width, height);
      FollowsOn(past, t, ops, memory, width, height, SnapOf(s));
      hist := past + [t];
      assert (forall j :: 0 <= j < k + 1 ==> SnapCurrent(hist[j], width, height)) <==>
             (forall j :: 0 <= j < k ==> SnapCurrent(past[j], width, height)) && SnapCurrent(t, width, height) by {
        assert hist[k] == t && forall j :: 0 <= j < k ==> hist[j] == past[j];
      }
    }
    ghost var before := hist;
    FollowsAll(before, SnapOf(s), ops, memory, width, height);
    hist := hist + [SnapOf(s)];
    assert hist[|ops|] == SnapOf(s) && forall j :: 0 <= j < |ops| ==> hist[j] == before[j];
    assert SnapCurrent(hist[|ops|], width, height) <==> s.Current(false);
    forall n: nat | PoolFor(pool, n) && forall k :: 0 <= k < |hist| ==> |hist[k].windows| <= n ensures s.Roomy(n) && s.misses == 0 {
      assert hist[|ops|].windows == s.windows;
      assert forall j :: 0 <= j < |ops| ==> hist[j] == before[j];
    }
    lost := DoPaint(s, lost);
    AllPlaced(s);
  }

  lemma FirstCurrent(s: Screen, lost: bool)
    requires |s.windows| == 1 && |s.windows[0].clip| <= 1 && (s.windows[0].dirty || (lost && s.windows[0].clip == []))
    ensures s.Current(lost)
    ensures forall n: nat :: PoolFor(s.pool, n) ==> s.Roomy(n) && s.pool > 0
  {
    if !s.windows[0].dirty { NothingDrawn(s.storage, s.windows, 0, s.width, s.height); }
  }

  lemma AllPlaced(s: Screen)
    requires s.Ok()
    ensures forall i :: 0 <= i < |s.windows| ==> Placed(s.windows[i].box)
  {
  }

  // MAX_RECT_POOL is enough for the desktop and four windows.
  lemma PoolForFive()
    ensures PoolFor(2000, 5)
  {
    assert Pow4(1) == 4 && Pow4(2) == 16 && Pow4(3) == 64 && Pow4(4) == 256;
  }

  // ---------- A list that is not exact ----------

  const PLAIN := Flags(true, true, true, false)

  lemma CornerBoxes()
    ensures var w := AskedFor(0, 0, 100, 100, PLAIN, 640, 480); w.box == Rect(0, 0, 102, 122) && !w.desktop && w.flags == PLAIN
    ensures var w := AskedFor(300, 200, 100, 100, PLAIN, 640, 480); w.box == Rect(300, 200, 102, 122) && !w.desktop && w.flags == PLAIN
  {
  }

  // Two windows beside one another, a repaint, and a third one over the first: after the next repaint the first window's
  // list still has the pixels that the third one covers, for only the second, which was on top, and the desktop were
  // repainted.
  method StaleList() returns (s: Screen)
    ensures fresh(s) && s.Ok() && |s.windows| == 4 && s.misses == 0 && forall lost :: !s.Drawn(1, lost)
    ensures forall i :: 0 <= i < |s.windows| ==> !s.windows[i].dirty
  {
    hide Full, ClipSum, DrawnOn, WindowOk, HeldOk, PoolFor, ClipsWithin, Screen.Ok, Clears, SameStored, AskedFor;
    PoolForFive();
    CornerBoxes();
    s := new Screen(640, 480, 2000);
    var shown := s.OpenDesktop(true);
    FirstCurrent(s, false);
    assert s.Roomy(5);
    var more := DoOpen(s, OpenOp(0, 0, 100, 100, PLAIN), true, false);
    more := DoOpen(s, OpenOp(300, 200, 100, 100, PLAIN), true, false);
    assert s.Current(false);
    more := DoPaint(s, false);
    ghost var storage, ws := s.storage, s.windows;
    assert s.Drawn(1, false);
    s.DrawnWeaker(1, false, true);
    CornerListed(storage, ws);
    more := DoOpen(s, OpenOp(0, 0, 100, 100, PLAIN), true, false);
    forall lost ensures !s.Drawn(1, lost) {
      JoinedDrawnIff(storage, s.storage, ws, s.windows, 1, Rect(0, 0, 102, 122), 640, 480, lost);
    }
    assert !s.windows[1].dirty;
    more := DoPaint(s, false);
  }

  lemma CornerListed(storage: seq<Rect>, ws: seq<Window>)
    requires DrawnOn(storage, ws, 1, 640, 480, false) && |ws| == 3 && ws[1].box == Rect(0, 0, 102, 122) && ws[2].box == Rect(300, 200, 102, 122)
    requires !ws[1].desktop
    ensures !Clears(storage, ws[1].clip, Rect(0, 0, 102, 122))
  {
    var rs := Deref(storage, ws[1].clip);
    assert Visible(ws, 1, 640, 480, 0, 0);
    assert Covered(rs, 0, 0);
    var j :| 0 <= j < |rs| && In(rs[j], 0, 0);
    var x := ws[1].clip[j];
    assert x in ws[1].clip && storage[x] == rs[j] && Intersect(storage[x], Rect(0, 0, 102, 122));
  }
}
