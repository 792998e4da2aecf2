/**
 Window visibility: clip lists made of rectangles from a fixed pool (src/gui/window.c).
 */
module ClipLists {
  import opened Rects
  import opened Windows

  // The window under the mouse button, where it was taken hold of, and by which edges.
  datatype Drag = NoDrag | Drag(target: nat, offX: int, offY: int, edges: Edges)

  // ---------- Accounting ----------

  // Every rectangle of the pool, once.
  ghost function Full(n: nat): (m: multiset<nat>)
    ensures forall x: nat :: m[x] == if x < n then 1 else 0
  {
    if n == 0 then multiset{} else Full(n - 1) + multiset{n - 1}
  }

  ghost function ClipSum(ws: seq<Window>): multiset<nat> {
    if ws == [] then multiset{} else multiset(ws[0].clip) + ClipSum(ws[1..])
  }

  lemma {:induction false} ClipSumUpdate(ws: seq<Window>, i: nat, w: Window)
    requires i < |ws|
    ensures ClipSum(ws[i := w]) + multiset(ws[i].clip) == ClipSum(ws) + multiset(w.clip)
    decreases |ws|
  {
    hide ClipSum;
    var us, tl := ws[i := w], ws[1..];
    ClipSumUnfold(ws);
    ClipSumUnfold(us);
    if i == 0 {
      assert us[1..] == tl;
      Turn(multiset(w.clip), ClipSum(tl), multiset(ws[0].clip));
    } else {
      assert us[1..] == tl[i - 1 := w] && us[0] == ws[0] && tl[i - 1] == ws[i];
      ClipSumUpdate(tl, i - 1, w);
      AddFront(multiset(ws[0].clip), ClipSum(us[1..]), multiset(ws[i].clip), ClipSum(tl), multiset(w.clip));
    }
  }

  lemma Turn(a: multiset<nat>, b: multiset<nat>, c: multiset<nat>)
    ensures a + b + c == c + b + a
  {
  }

  lemma AddFront(m: multiset<nat>, a: multiset<nat>, b: multiset<nat>, c: multiset<nat>, d: multiset<nat>)
    requires a + b == c + d
    ensures (m + a) + b == (m + c) + d
  {
    forall x: nat ensures ((m + a) + b)[x] == ((m + c) + d)[x] {
      assert (a + b)[x] == (c + d)[x];
    }
  }

  lemma {:induction false} ClipSumHas(ws: seq<Window>, i: nat, x: nat)
    requires i < |ws| && x in ws[i].clip
    ensures x in ClipSum(ws)
    decreases |ws|
  {
    if i > 0 { ClipSumHas(ws[1..], i - 1, x); }
  }

  // ---------- Meaning ----------

  lemma {:induction false} FullSize(n: nat)
    ensures |Full(n)| == n
  {
    if n > 0 { FullSize(n - 1); }
  }

  // The longest clip list that n higher windows can make: each may cut every rectangle in four.
  function Pow4(n: nat): (p: nat)
    ensures p >= 1
  {
    if n == 0 then 1 else 4 * Pow4(n - 1)
  }

  // The pool is enough for n windows.
  ghost predicate PoolFor(pool: nat, n: nat) {
    n > 0 && pool > (n + 1) * Pow4(n - 1)
  }

  lemma {:induction false} Pow4Up(m: nat, n: nat)
    requires m <= n
    ensures Pow4(m) <= Pow4(n) && Pow4(0) == 1 && (m > 0 ==> Pow4(m) == 4 * Pow4(m - 1))
  {
    if m < n { Pow4Up(m, n - 1); }
  }

  ghost predicate ClipsWithin(ws: seq<Window>, b: nat) {
    forall i :: 0 <= i < |ws| ==> |ws[i].clip| <= b
  }

  lemma {:induction false} ClipSumSize(ws: seq<Window>, b: nat)
    requires ClipsWithin(ws, b)
    ensures |ClipSum(ws)| <= |ws| * b
    decreases |ws|
  {
    if ws != [] {
      ClipSumSize(ws[1..], b);
      assert |ws| * b == (|ws| - 1) * b + b;
    }
  }

  lemma FreeSize(free: seq<nat>, ws: seq<Window>, n: nat)
    requires multiset(free) + ClipSum(ws) == Full(n)
    ensures |free| + |ClipSum(ws)| == n
  {
    hide ClipSum;
    FullSize(n);
    assert |multiset(free) + ClipSum(ws)| == |free| + |ClipSum(ws)|;
  }

  lemma Enough(f: nat, c: nat, w: nat, n: nat, b: nat, pool: nat)
    requires f + c == pool && c <= w * b && w <= n && pool > (n + 1) * b
    ensures f > b
  {
    assert w * b <= n * b;
    assert (n + 1) * b == n * b + b;
  }

  // Every rectangle is somewhere.
  lemma Room(free: seq<nat>, cur: seq<nat>, out: seq<nat>, rest: multiset<nat>, n: nat)
    requires multiset(free) + (multiset(cur) + multiset(out) + rest) == Full(n)
    ensures |free| + |cur| + |out| + |rest| == n
  {
    FullSize(n);
    assert |multiset(free) + (multiset(cur) + multiset(out) + rest)| == |free| + |cur| + |out| + |rest|;
  }

  lemma RoomFirst(free: seq<nat>, cur: seq<nat>, rest: multiset<nat>, n: nat)
    requires multiset(free) + multiset(cur) + rest == Full(n)
    ensures |free| + |cur| + |rest| == n
  {
    FullSize(n);
    assert |multiset(free) + multiset(cur) + rest| == |free| + |cur| + |rest|;
  }

  // The rectangles that the nodes ids hold.
  ghost function Deref(storage: seq<Rect>, ids: seq<nat>): (rs: seq<Rect>)
    requires forall k :: 0 <= k < |ids| ==> ids[k] < |storage|
    ensures |rs| == |ids| && forall k :: 0 <= k < |ids| ==> rs[k] == storage[ids[k]]
  {
    seq(|ids|, k requires 0 <= k < |ids| => storage[ids[k]])
  }

  // On the screen, and hidden by no higher window.
  ghost predicate Visible(ws: seq<Window>, i: nat, width: nat, height: nat, px: int, py: int)
    requires i < |ws|
  {
    && In(ws[i].box, px, py)
    && 0 <= px < width && 0 <= py < Floor(ws[i], height)
    && forall j :: i < j < |ws| ==> !In(ws[j].box, px, py)
  }

  // The desktop goes down to the bottom of the screen, the other windows to the taskbar.
  function Floor(w: Window, height: nat): int {
    if w.desktop then height else height - TASKBAR_HEIGHT
  }

  // The clip list of window i, made of the given rectangles: disjoint, nothing but visible pixels, and
  // all of them unless the pool ran out.
  ghost predicate Exact(ws: seq<Window>, i: nat, width: nat, height: nat, rs: seq<Rect>, lost: bool)
    requires i < |ws|
  {
    && AllSolid(rs) && Disjoint(rs)
    && (forall px, py :: Covered(rs, px, py) ==> Visible(ws, i, width, height, px, py))
    && (!lost ==> forall px, py :: Visible(ws, i, width, height, px, py) ==> Covered(rs, px, py))
  }

  // The same pixel by pixel: in the window and on the screen, above the taskbar's 28 rows unless it is the desktop, and in
  // no window further up.
  ghost predicate ShownAt(ws: seq<Window>, i: nat, width: nat, height: nat, px: int, py: int)
    requires i < |ws|
  {
    var b := ws[i].box;
    && b.x <= px < b.x + b.w && b.y <= py < b.y + b.h && 0 <= px < width && 0 <= py < height
    && (py >= height - 28 ==> ws[i].desktop)
    && forall j :: i < j < |ws| ==> !(ws[j].box.x <= px < ws[j].box.x + ws[j].box.w && ws[j].box.y <= py < ws[j].box.y + ws[j].box.h)
  }

  ghost predicate CoversShown(ws: seq<Window>, i: nat, width: nat, height: nat, rs: seq<Rect>, lost: bool)
    requires i < |ws|
  {
    && (forall px, py :: Covered(rs, px, py) ==> ShownAt(ws, i, width, height, px, py))
    && (!lost ==> forall px, py :: ShownAt(ws, i, width, height, px, py) ==> Covered(rs, px, py))
  }

  lemma ExactPixels(ws: seq<Window>, i: nat, width: nat, height: nat, rs: seq<Rect>, lost: bool)
    requires i < |ws| && height >= 28 && Exact(ws, i, width, height, rs, lost)
    ensures CoversShown(ws, i, width, height, rs, lost)
  {
    forall px, py ensures Visible(ws, i, width, height, px, py) <==> ShownAt(ws, i, width, height, px, py) {
      SameVisible(ws, i, width, height, px, py);
    }
  }

  lemma SameVisible(ws: seq<Window>, i: nat, width: nat, height: nat, px: int, py: int)
    requires i < |ws| && height >= 28
    ensures Visible(ws, i, width, height, px, py) <==> ShownAt(ws, i, width, height, px, py)
  {
    assert forall j :: 0 <= j < |ws| ==>
      (In(ws[j].box, px, py) <==> ws[j].box.x <= px < ws[j].box.x + ws[j].box.w && ws[j].box.y <= py < ws[j].box.y + ws[j].box.h);
  }

  // If every clip list is exact, each pixel above the taskbar that lies in a window is in the clip list
  // of the topmost such window, and in no other.
  lemma OneOwner(ws: seq<Window>, lists: seq<seq<Rect>>, width: nat, height: nat, px: int, py: int, i: nat)
    requires |lists| == |ws| && i < |ws|
    requires forall k :: 0 <= k < |ws| ==> Exact(ws, k, width, height, lists[k], false)
    requires 0 <= px < width && 0 <= py < height - TASKBAR_HEIGHT
    requires In(ws[i].box, px, py) && forall j :: i < j < |ws| ==> !In(ws[j].box, px, py)
    ensures forall k :: 0 <= k < |ws| ==> (Covered(lists[k], px, py) <==> k == i)
  {
    assert Exact(ws, i, width, height, lists[i], false);
    assert Visible(ws, i, width, height, px, py);
    forall k | 0 <= k < |ws| && k != i ensures !Covered(lists[k], px, py) {
      assert Exact(ws, k, width, height, lists[k], false);
      assert !Visible(ws, k, width, height, px, py);
    }
  }

  // ---------- The window manager ----------

  class Screen {
    const width: nat
    const height: nat
    const pool: nat  // MAX_RECT_POOL
    var storage: seq<Rect>
    var free: seq<nat>  // the free list, head first
    var windows: seq<Window>  // from the bottom of the stack to the top
    var drag: Drag
    var leftDown: bool  // the buttons at the last update
    var rightDown: bool
    ghost var misses: nat  // how often the pool had nothing left

    // Free list and clip lists account for every rectangle of the pool exactly once.
    ghost predicate Ok()
      reads this
    {
      |storage| == pool && PlacesOk() && multiset(free) + ClipSum(windows) == Full(pool)
    }

    // No window is empty or has left the screen at the top or to the left, and a window that is dragged by its
    // title bar is held inside.
    ghost predicate PlacesOk()
      reads this
    {
      && width > 0 && height > TASKBAR_HEIGHT && (forall i :: 0 <= i < |windows| ==> WindowOk(windows[i]))
      && HeldOk(windows, drag)
    }

    // init_rect_pool.
    constructor (w: nat, h: nat, size: nat)
      requires w > 0 && h > TASKBAR_HEIGHT
      ensures Ok() && windows == [] && width == w && height == h && pool == size && |free| == size && misses == 0
    {
      width, height, pool, windows, misses := w, h, size, [], 0;
      drag, leftDown, rightDown := NoDrag, false, false;
      storage := seq(size, _ => Rect(0, 0, 0, 0));
      free := seq(size, i requires 0 <= i < size => i);
      new;
      UpTo(size);
    }

    // rect_alloc, and filling in the rectangle.
    method Alloc(r: Rect) returns (ok: bool, id: nat)
      requires |storage| == pool && forall x :: x in free ==> x < pool
      modifies this`storage, this`free, this`misses
      ensures ok <==> old(free) != []
      ensures ok ==> id < pool && storage == old(storage)[id := r] && old(free) == [id] + free
      ensures !ok ==> storage == old(storage) && free == old(free)
      ensures misses == old(misses) + if ok then 0 else 1
    {
      if free == [] {
        misses := misses + 1;
        return false, 0;
      }
      id := free[0];
      assert id in free;
      free := free[1..];
      storage := storage[id := r];
      ok := true;
    }

    // rect_free of a rectangle in use: it is free again, once, and nobody else has it.
    method Free(id: nat, ghost rest: multiset<nat>)
      requires multiset(free) + multiset{id} + rest == Full(pool)
      modifies this`free
      ensures multiset(free) + rest == Full(pool) && id !in rest && id !in old(free) && free == [id] + old(free)
    {
      hide Full;
      assert id !in rest && id !in free by { assert Full(pool)[id] <= 1; }
      free := [id] + free;
    }

    // APPEND_RECT: one more piece, if the pool has a rectangle left.
    method Append(ids: seq<nat>, r: Rect, ghost made: seq<Rect>, ghost rest: multiset<nat>)
      returns (out: seq<nat>, ghost ok: bool)
      requires |storage| == pool && multiset(free) + multiset(ids) + rest == Full(pool)
      requires Holds(storage, ids, made)
      modifies this`storage, this`free, this`misses
      ensures |storage| == pool && multiset(free) + multiset(out) + rest == Full(pool)
      ensures Holds(storage, out, if ok then made + [r] else made)
      ensures forall x :: 0 <= x < pool && x in rest ==> storage[x] == old(storage)[x]
      ensures misses >= old(misses) && (!ok ==> misses > old(misses))
      ensures |out| <= |ids| + 1 && (old(free) != [] ==> misses == old(misses))
    {
      hide Full;
      assert multiset(free) + (multiset(ids) + rest) == Full(pool);
      InPool(free, multiset(ids) + rest, pool);
      var got, id := Alloc(r);
      if got {
        OnlyOnce(old(free), multiset(ids) + rest, pool, id);
        out := ids + [id];
        assert multiset(old(free)) == multiset([id]) + multiset(free);
        Pass(multiset(free), multiset([id]), multiset(ids), rest, Full(pool));
      } else {
        out := ids;
      }
      ok := got;
    }

    // APPEND_RECT under its condition; ps collects the pieces there should be, made those there are.
    method AppendIf(cond: bool, ids: seq<nat>, p: Rect, ghost made: seq<Rect>, ghost ps: seq<Rect>, ghost rest: multiset<nat>)
      returns (out: seq<nat>, ghost made': seq<Rect>)
      requires |storage| == pool && multiset(free) + multiset(ids) + rest == Full(pool)
      requires Holds(storage, ids, made) && Selected(made, ps)
      modifies this`storage, this`free, this`misses
      ensures |storage| == pool && multiset(free) + multiset(out) + rest == Full(pool)
      ensures Holds(storage, out, made') && Selected(made', With(ps, cond, p))
      ensures forall x :: 0 <= x < pool && x in rest ==> storage[x] == old(storage)[x]
      ensures misses >= old(misses) && (misses == old(misses) && made == ps ==> made' == With(ps, cond, p))
      ensures |out| <= |ids| + 1 && |free| + |out| + |rest| == pool && (old(free) != [] ==> misses == old(misses))
    {
      hide Full, Selected;
      RoomFirst(free, ids, rest, pool);
      if cond {
        ghost var ok;
        out, ok := Append(ids, p, made, rest);
        SelectStep(made, ps, p, ok);
        made' := if ok then made + [p] else made;
        RoomFirst(free, out, rest, pool);
      } else {
        out, made' := ids, made;
      }
    }

    // clip_rect: the parts of r outside c, as many as the pool has room for.
    method ClipRect(r: Rect, c: Rect, ghost rest: multiset<nat>) returns (ids: seq<nat>, ghost made: seq<Rect>)
      requires |storage| == pool && multiset(free) + rest == Full(pool) && Solid(r) && Solid(c)
      modifies this`storage, this`free, this`misses
      ensures |storage| == pool && multiset(free) + multiset(ids) + rest == Full(pool)
      ensures Holds(storage, ids, made) && forall x :: 0 <= x < pool && x in rest ==> storage[x] == old(storage)[x]
      ensures Selected(made, Pieces(r, c))
      ensures misses >= old(misses) && (misses == old(misses) ==> made == Pieces(r, c))
      ensures |ids| <= 4 && (|old(free)| >= 4 ==> misses == old(misses))
    {
      hide Full, Selected;
      SelectNone();
      assert multiset(free) + multiset([]) + rest == multiset(free) + rest;
      RoomFirst(free, [], rest, pool);
      if !Intersect(r, c) {
        ids, made := AppendIf(true, [], r, [], [], rest);
        assert With([], true, r) == [r];
        return;
      }
      hide In, Intersect, HasLeft, HasRight, HasTop, HasBottom, LeftPart, RightPart, TopPart, BottomPart, With;
      hide CutLeft, CutRight, CutTop;
      ghost var ps: seq<Rect> := [];
      var cur := r;
      ids, made := AppendIf(HasLeft(cur, c), [], LeftPart(cur, c), [], ps, rest);
      ps := With(ps, HasLeft(cur, c), LeftPart(cur, c));
      cur := CutLeft(cur, c);
      ids, made := AppendIf(HasRight(cur, c), ids, RightPart(cur, c), made, ps, rest);
      ps := With(ps, HasRight(cur, c), RightPart(cur, c));
      cur := CutRight(cur, c);
      ids, made := AppendIf(HasTop(cur, c), ids, TopPart(cur, c), made, ps, rest);
      ps := With(ps, HasTop(cur, c), TopPart(cur, c));
      cur := CutTop(cur, c);
      ids, made := AppendIf(HasBottom(cur, c), ids, BottomPart(cur, c), made, ps, rest);
      ps := With(ps, HasBottom(cur, c), BottomPart(cur, c));
      assert ps == Pieces(r, c);
    }

    // The k-th rectangle of the list: make its parts, then give it back to the pool.
    method ClipOne(cur: seq<nat>, k: nat, c: Rect, out: seq<nat>, ghost rs: seq<Rect>, ghost made: seq<Rect>,
                   ghost rest: multiset<nat>)
      returns (out': seq<nat>, ghost frag: seq<Rect>)
      requires |storage| == pool && k < |cur| == |rs| && Solid(rs[k]) && Solid(c)
      requires multiset(free) + (multiset(cur[k..]) + multiset(out) + rest) == Full(pool)
      requires Holds(storage, out, made) && HoldsFrom(storage, cur, rs, k)
      modifies this`storage, this`free, this`misses
      ensures |storage| == pool
      ensures multiset(free) + (multiset(cur[k + 1..]) + multiset(out') + rest) == Full(pool)
      ensures Holds(storage, out', made + frag) && HoldsFrom(storage, cur, rs, k + 1) && Selected(frag, Pieces(rs[k], c))
      ensures forall x :: 0 <= x < pool && x in rest ==> storage[x] == old(storage)[x]
      ensures misses >= old(misses) && (misses == old(misses) ==> frag == Pieces(rs[k], c))
      ensures |out'| <= |out| + 4 && (|old(free)| >= 4 ==> misses == old(misses))
    {
      hide Full, Selected, Pieces, Holds, Solid;
      ghost var live := multiset(cur[k..]) + multiset(out) + rest;
      ghost var before := storage;
      var ids;
      ids, frag := ClipRect(storage[cur[k]], c, live);
      KeptIn(before, storage, out, made, live);
      KeptTail(before, storage, cur, k, rs, live);
      HoldsJoin(storage, out, made, ids, frag);
      RestSame(before, storage, live, rest);
      out' := out + ids;
      HandedOn(multiset(free), cur, k, out, ids, rest, Full(pool));
      hide HoldsFrom;
      Free(cur[k], multiset(cur[k + 1..]) + multiset(out') + rest);
    }

    // One blocking window: every rectangle of the list is replaced by its parts outside c.
    method ClipAll(cur: seq<nat>, c: Rect, ghost rs: seq<Rect>, ghost rest: multiset<nat>)
      returns (out: seq<nat>, ghost made: seq<Rect>, ghost lost: bool)
      requires |storage| == pool && multiset(free) + multiset(cur) + rest == Full(pool)
      requires Holds(storage, cur, rs) && AllSolid(rs) && Disjoint(rs) && Solid(c)
      modifies this`storage, this`free, this`misses
      ensures |storage| == pool && multiset(free) + multiset(out) + rest == Full(pool)
      ensures Holds(storage, out, made) && Clipped(rs, |rs|, c, made, lost)
      ensures forall x :: 0 <= x < pool && x in rest ==> storage[x] == old(storage)[x]
      ensures misses >= old(misses) && (lost ==> misses > old(misses))
      ensures |out| <= 4 * |cur| && (|old(free)| > 3 * |cur| ==> misses == old(misses))
    {
      hide Full, Selected, Clipped, AllSolid, Disjoint, Pieces;
      out, made, lost := [], [], false;
      ClipNone(rs, c);
      assert cur[0..] == cur;
      RoomFirst(free, cur, rest, pool);
      assert multiset(free) + (multiset(cur) + multiset([]) + rest) == multiset(free) + multiset(cur) + rest;
      for k := 0 to |cur|
        invariant |storage| == pool && multiset(free) + (multiset(cur[k..]) + multiset(out) + rest) == Full(pool)
        invariant HoldsFrom(storage, cur, rs, k)
        invariant Holds(storage, out, made) && Clipped(rs, k, c, made, lost)
        invariant misses >= old(misses) && (lost ==> misses > old(misses))
        invariant forall x :: 0 <= x < pool && x in rest ==> storage[x] == old(storage)[x]
        invariant |out| <= 4 * k && (|old(free)| > 3 * |cur| ==> misses == old(misses))
      {
        Room(free, cur[k..], out, rest, pool);
        SolidAt(rs, k);
        ghost var frag;
        out, frag := ClipOne(cur, k, c, out, rs, made, rest);
        ClipStep(rs, k, c, made, frag, lost);
        lost := lost || frag != Pieces(rs[k], c);
        made := made + frag;
      }
      assert cur[|cur|..] == [];
      assert multiset(free) + (multiset([]) + multiset(out) + rest) == multiset(free) + multiset(out) + rest;
    }

    // The old clip list goes back to the pool.
    method DropClip(i: nat)
      requires Ok() && i < |windows|
      modifies this`free, this`windows
      ensures Ok() && windows == old(windows)[i := old(windows)[i].(clip := [])] && |free| >= |old(free)|
    {
      hide Full, ClipSum;
      ghost var ws := windows;
      ghost var bare := windows[i := windows[i].(clip := [])];
      var ids := windows[i].clip;
      ClipSumUpdate(windows, i, windows[i].(clip := []));
      Returned(multiset(free), multiset(ids), ClipSum(ws), ClipSum(bare), Full(pool));
      assert ids[0..] == ids;
      for k := 0 to |ids|
        invariant windows == ws && multiset(free) + multiset(ids[k..]) + ClipSum(bare) == Full(pool) && |free| >= |old(free)|
      {
        assert ids[k..] == [ids[k]] + ids[k + 1..];
        OneOff(multiset(free), ids[k], multiset(ids[k + 1..]), ClipSum(bare), Full(pool));
        Free(ids[k], multiset(ids[k + 1..]) + ClipSum(bare));
        Assoc(multiset(free), multiset(ids[k + 1..]), ClipSum(bare));
      }
      assert ids[|ids|..] == [];
      windows := windows[i := windows[i].(clip := [])];
      assert multiset(free) + multiset([]) + ClipSum(windows) == multiset(free) + ClipSum(windows);
    }

    // recalc_clip_list.
    method Recalc(i: nat) returns (ghost lost: bool)
      requires Ok() && i < |windows|
      modifies this`storage, this`free, this`windows, this`misses
      ensures Ok() && |windows| == |old(windows)| && windows == old(windows)[i := old(windows)[i].(clip := windows[i].clip)]
      ensures forall k :: 0 <= k < |windows[i].clip| ==> windows[i].clip[k] < |storage|
      ensures Shows(windows, i, |windows|, width, height, Deref(storage, windows[i].clip), lost)
      ensures Exact(windows, i, width, height, Deref(storage, windows[i].clip), lost)
      ensures CoversShown(windows, i, width, height, Deref(storage, windows[i].clip), lost)
      ensures forall j, x :: 0 <= j < |windows| && j != i && x in windows[j].clip && x < pool ==> storage[x] == old(storage)[x]
      ensures misses >= old(misses) && (lost ==> misses > old(misses))
      ensures |windows[i].clip| <= Pow4(|windows| - i - 1) && (|old(free)| > Pow4(|windows| - i - 1) ==> misses == old(misses))
    {
      hide Full, ClipSum, AllSolid, Disjoint, Visible, Shows, Exact, Pow4, CoversShown;
      ghost var before := storage;
      DropClip(i);
      ghost var ws, rest := windows, ClipSum(windows);
      ghost var rs;
      var ids;
      ids, rs, lost := VisibleList(i);
      ClipSumUpdate(windows, i, windows[i].(clip := ids));
      SetClip(i, ids, rest);
      HeldDeref(storage, ids, rs);
      SameShows(ws, windows, i, width, height, rs, lost);
      ShowsExactly(windows, i, width, height, rs, lost);
      ExactPixels(windows, i, width, height, rs, lost);
      forall j, x | 0 <= j < |windows| && j != i && x in windows[j].clip && x < pool ensures storage[x] == before[x] {
        ClipSumHas(ws, j, x);
      }
    }

    method SetClip(i: nat, ids: seq<nat>, ghost rest: multiset<nat>)
      requires |storage| == pool && PlacesOk() && i < |windows| && windows[i].clip == []
      requires rest == ClipSum(windows) && multiset(free) + multiset(ids) + rest == Full(pool)
      requires ClipSum(windows[i := windows[i].(clip := ids)]) + multiset(windows[i].clip) == rest + multiset(ids)
      modifies this`windows
      ensures Ok() && windows == old(windows)[i := old(windows)[i].(clip := ids)]
    {
      hide Full, ClipSum;
      ghost var was := windows;
      windows := windows[i := windows[i].(clip := ids)];
      assert multiset(was[i].clip) == multiset{};
      Moved(multiset(free), multiset(ids), rest, ClipSum(windows), Full(pool));
    }

    // The rectangles of window i that are on the screen and hidden by no higher window.
    method VisibleList(i: nat) returns (ids: seq<nat>, ghost rs: seq<Rect>, ghost lost: bool)
      requires Ok() && i < |windows| && windows[i].clip == []
      modifies this`storage, this`free, this`misses
      ensures |storage| == pool && multiset(free) + multiset(ids) + ClipSum(windows) == Full(pool)
      ensures Holds(storage, ids, rs) && Shows(windows, i, |windows|, width, height, rs, lost)
      ensures forall x :: 0 <= x < pool && x in ClipSum(windows) ==> storage[x] == old(storage)[x]
      ensures misses >= old(misses) && (lost ==> misses > old(misses))
      ensures |ids| <= Pow4(|windows| - i - 1) && (|old(free)| > Pow4(|windows| - i - 1) ==> misses == old(misses))
    {
      hide Full, ClipSum, Shows, Clipped, AllSolid, Disjoint, Pow4;
      ghost var rest := ClipSum(windows);
      Pow4Up(0, |windows| - i - 1);
      var w := windows[i];
      InPool(free, rest, pool);
      var ok, id := Alloc(w.box);
      if !ok {
        ShowsNothing(windows, i, width, height);
        assert multiset(free) + multiset([]) + rest == multiset(free) + rest;
        return [], [], true;
      }
      var r := OnScreen(w.box, width, Floor(w, height));
      assert multiset(old(free)) == multiset([id]) + multiset(free);
      OnlyOnce(old(free), rest, pool, id);
      if !Solid(r) {
        Takes(multiset(old(free)), multiset([id]), multiset(free), rest);
        Free(id, rest);
        ShowsEmpty(windows, i, width, height);
        assert multiset(free) + multiset([]) + rest == multiset(free) + rest;
        return [], [], false;
      }
      storage := storage[id := r];
      ShowsBase(windows, i, width, height);
      Takes(multiset(old(free)), multiset([id]), multiset(free), rest);
      ids, rs, lost := HideBehind(i, [id], [r]);
    }

    // The list of window i without what each higher window covers.
    method HideBehind(i: nat, one: seq<nat>, ghost first: seq<Rect>) returns (ids: seq<nat>, ghost rs: seq<Rect>, ghost lost: bool)
      requires i < |windows| && (forall j :: 0 <= j < |windows| ==> Solid(windows[j].box)) && |one| == 1
      requires |storage| == pool && multiset(free) + multiset(one) + ClipSum(windows) == Full(pool)
      requires Holds(storage, one, first) && Shows(windows, i, i + 1, width, height, first, false)
      modifies this`storage, this`free, this`misses
      ensures |storage| == pool && multiset(free) + multiset(ids) + ClipSum(windows) == Full(pool)
      ensures Holds(storage, ids, rs) && Shows(windows, i, |windows|, width, height, rs, lost)
      ensures forall x :: 0 <= x < pool && x in ClipSum(windows) ==> storage[x] == old(storage)[x]
      ensures misses >= old(misses) && (lost ==> misses > old(misses))
      ensures |ids| <= Pow4(|windows| - i - 1) && (|old(free)| >= Pow4(|windows| - i - 1) ==> misses == old(misses))
    {
      hide Full, ClipSum, Shows, Clipped, AllSolid, Disjoint, Pow4, Holds, Solid;
      ghost var rest := ClipSum(windows);
      ids, rs, lost := one, first, false;
      Pow4Up(0, |windows| - i - 1);
      RoomFirst(free, ids, rest, pool);
      for j := i + 1 to |windows|
        invariant |storage| == pool && multiset(free) + multiset(ids) + rest == Full(pool)
        invariant Holds(storage, ids, rs) && Shows(windows, i, j, width, height, rs, lost)
        invariant misses >= old(misses) && (lost ==> misses > old(misses))
        invariant forall x :: 0 <= x < pool && x in rest ==> storage[x] == old(storage)[x]
        invariant |ids| <= Pow4(j - i - 1) && (|old(free)| >= Pow4(|windows| - i - 1) ==> misses == old(misses))
      {
        ghost var made, miss;
        RoomFirst(free, ids, rest, pool);
        Pow4Up(j - i, |windows| - i - 1);
        ShowsTidy(windows, i, j, width, height, rs, lost);
        ids, made, miss := ClipAll(ids, windows[j].box, rs, rest);
        ShowsStep(windows, i, j, width, height, rs, lost, made, miss);
        rs, lost := made, lost || miss;
      }
    }

    // The pixels on screen.
    lemma DrawnPixels(i: nat, lost: bool)
      requires Ok() && Drawn(i, lost)
      ensures i < |windows| && Listed(storage, windows[i].clip) && CoversShown(windows, i, width, height, Deref(storage, windows[i].clip), lost)
    {
      ExactPixels(windows, i, width, height, Deref(storage, windows[i].clip), lost);
    }

    // The clip list of window i is its visible part, as much of it as the pool had rectangles for.
    ghost predicate Drawn(i: nat, lost: bool)
      reads this
    {
      DrawnOn(storage, windows, i, width, height, lost)
    }

    // Every window that is not dirty is drawn as it should be.
    ghost predicate Current(lost: bool)
      reads this
    {
      forall i :: 0 <= i < |windows| ==> windows[i].dirty || Drawn(i, lost)
    }

    method Repaint(i: nat) returns (ghost miss: bool)
      requires Ok() && i < |windows|
      modifies this`storage, this`free, this`windows, this`misses
      ensures Ok() && |windows| == |old(windows)| && Drawn(i, miss)
      ensures windows == old(windows)[i := old(windows)[i].(clip := windows[i].clip, dirty := false)]
      ensures forall k: nat, lost: bool :: k != i ==> (Drawn(k, lost) <==> old(Drawn(k, lost)))
      ensures forall k :: 0 <= k < |windows| && k != i ==> SameStored(storage, old(storage), windows[k].clip)
      ensures misses >= old(misses) && (miss ==> misses > old(misses))
      ensures forall n: nat :: old(Roomy(n)) ==> Roomy(n) && misses == old(misses)
    {
      hide Full, ClipSum, Exact, Shows, WindowOk, Pow4;
      forall n: nat | Roomy(n) ensures |free| > Pow4(|windows| - i - 1) { RoomyFree(n, i); }
      ghost var ws, before := windows, storage;
      miss := Recalc(i);
      ghost var mid := windows;
      DirtyOk(windows[i], false);
      SetWindow(i, windows[i].(dirty := false));
      ExactKept(mid, windows, i, width, height, Deref(storage, windows[i].clip), miss, miss);
      forall k: nat, lost: bool | k != i ensures Drawn(k, lost) <==> DrawnOn(before, ws, k, width, height, lost) {
        if k < |ws| { DrawnSame(before, storage, ws, windows, k, width, height, lost); }
      }
      forall n: nat | old(Roomy(n)) ensures Roomy(n) { Pow4Up(|windows| - i - 1, n - 1); }
    }

    // There are at most n windows, their lists are no longer than n windows can make them, and the pool is large
    // enough for that: it will not run out.
    ghost predicate Roomy(n: nat)
      reads this
    {
      PoolFor(pool, n) && |windows| <= n && ClipsWithin(windows, Pow4(n - 1))
    }

    lemma RoomyFree(n: nat, i: nat)
      requires Ok() && Roomy(n) && i < |windows|
      ensures |free| > Pow4(|windows| - i - 1)
    {
      hide ClipSum, Pow4;
      RoomySome(n);
      Pow4Up(|windows| - i - 1, n - 1);
    }

    lemma RoomySome(n: nat)
      requires Ok() && Roomy(n)
      ensures |free| > Pow4(n - 1)
    {
      hide ClipSum, Pow4, Full;
      var b := Pow4(n - 1);
      ClipSumSize(windows, b);
      FreeSize(free, windows, pool);
      Enough(|free|, |ClipSum(windows)|, |windows|, n, b, pool);
    }

    // win_paint: the clip list of every dirty window is made anew, and exact if the pool was large enough.
    method Paint() returns (ghost lost: bool)
      requires Ok()
      modifies this`storage, this`free, this`windows, this`misses
      ensures Ok() && |windows| == |old(windows)|
      ensures forall i :: 0 <= i < |windows| ==> SameButClip(windows[i], old(windows)[i]) && !windows[i].dirty
      ensures forall i :: 0 <= i < |windows| && old(windows)[i].dirty ==> Drawn(i, lost)
      ensures forall i :: 0 <= i < |windows| && !old(windows)[i].dirty ==>
        windows[i] == old(windows)[i] && SameStored(storage, old(storage), windows[i].clip)
      ensures forall i: nat, l: bool :: i < |windows| && !old(windows)[i].dirty ==> (Drawn(i, l) <==> old(Drawn(i, l)))
      ensures misses >= old(misses) && (lost ==> misses > old(misses))
      ensures forall n: nat :: old(Roomy(n)) ==> Roomy(n) && misses == old(misses)
    {
      hide Full, ClipSum, DrawnOn, WindowOk, HeldOk, Screen.Ok, Screen.Roomy;
      lost := false;
      for i := 0 to |windows|
        invariant Ok() && |windows| == |old(windows)|
        invariant misses >= old(misses) && (lost ==> misses > old(misses))
        invariant forall k :: 0 <= k < |windows| ==> SameButClip(windows[k], old(windows)[k]) && (k < i ==> !windows[k].dirty)
        invariant forall k :: 0 <= k < |windows| && (i <= k || !old(windows)[k].dirty) ==> windows[k] == old(windows)[k]
        invariant forall k :: 0 <= k < |windows| && !old(windows)[k].dirty ==> SameStored(storage, old(storage), windows[k].clip)
        invariant forall k :: 0 <= k < i && old(windows)[k].dirty ==> Drawn(k, lost)
        invariant forall k: nat, l: bool :: k < |windows| && !old(windows)[k].dirty ==> (Drawn(k, l) <==> old(Drawn(k, l)))
        invariant forall n: nat :: old(Roomy(n)) ==> Roomy(n) && misses == old(misses)
      {
        if windows[i].dirty {
          ghost var miss := Repaint(i);
          forall k | 0 <= k <= i && old(windows)[k].dirty ensures Drawn(k, lost || miss) {
            if k == i { DrawnWeaker(i, miss, lost || miss); } else { DrawnWeaker(k, lost, lost || miss); }
          }
          lost := lost || miss;
        }
      }
    }

    lemma DrawnWeaker(i: nat, lost: bool, more: bool)
      requires Drawn(i, lost) && (lost ==> more)
      ensures Drawn(i, more)
    {
      ExactKept(windows, windows, i, width, height, Deref(storage, windows[i].clip), lost, more);
    }

    // ---------- Windows in place ----------

    method SetWindow(i: nat, w: Window)
      requires Ok() && i < |windows| && WindowOk(w) && w.clip == windows[i].clip && w.desktop == windows[i].desktop
      requires drag.Drag? && drag.target == i && drag.edges.None() ==> drag.offX < w.box.w
      modifies this`windows
      ensures Ok() && windows == old(windows)[i := w]
    {
      hide Full, ClipSum;
      SameClips(windows, windows[i := w]);
      windows := windows[i := w];
    }

    // win_stain_list.
    method Stain()
      requires Ok()
      modifies this`windows
      ensures Ok() && windows == Stained(old(windows))
    {
      hide Full, ClipSum, WindowOk;
      ghost var ws := windows;
      for i := 0 to |windows|
        invariant Ok() && |windows| == |ws|
        invariant forall k :: 0 <= k < |ws| ==> windows[k] == if k < i then ws[k].(dirty := true) else ws[k]
      {
        DirtyOk(windows[i], true);
        SetWindow(i, windows[i].(dirty := true));
      }
    }

    // win_create.  Without a rectangle for its clip list the window is given up, but it stays in the stack.  Of the other
    // windows only the one that was on top and the desktop are made dirty.
    method Create(w: Window, memory: bool) returns (shown: bool)
      requires Ok() && WindowOk(w) && w.clip == []
      modifies this`storage, this`free, this`windows, this`misses
      ensures Ok() && (shown <==> memory && old(free) != [])
      ensures if !memory then windows == old(windows) && storage == old(storage)
              else exists clip :: windows == Joined(old(windows), w, clip, shown) && (if shown then OneRect(storage, clip, w.box) else clip == [])
      ensures misses == old(misses) + if memory && !shown then 1 else 0
      ensures forall k :: 0 <= k < |old(windows)| ==> SameStored(storage, old(storage), old(windows)[k].clip)
    {
      hide Full, ClipSum, WindowOk, HeldOk, Joined, OneRect, SameStored;
      if !memory {
        AllStored(windows, storage);
        return false;
      }
      ghost var ws := windows;
      StainTop();
      shown := Link(w);
      ghost var clip :| LinkedWith(storage, TopStained(ws), windows, w, clip, shown);
      StoredUnder(ws, storage, old(storage));
      JoinedIs(ws, w, clip, shown);
      if shown && !w.flags.borderless { StainDesktop(); }
    }

    // win_redraw_titlebar of the window on top, as far as it makes it dirty.
    method StainTop()
      requires Ok()
      modifies this`windows
      ensures Ok() && windows == TopStained(old(windows))
    {
      hide Full, ClipSum, WindowOk;
      if |windows| > 0 && !windows[|windows| - 1].flags.borderless {
        DirtyOk(windows[|windows| - 1], true);
        SetWindow(|windows| - 1, windows[|windows| - 1].(dirty := true));
      }
    }

    method Link(w: Window) returns (got: bool)
      requires Ok() && WindowOk(w) && w.clip == []
      modifies this`storage, this`free, this`windows, this`misses
      ensures Ok() && (got <==> old(free) != []) && misses == old(misses) + if got then 0 else 1
      ensures exists clip :: LinkedWith(storage, old(windows), windows, w, clip, got)
      ensures forall k :: 0 <= k < |old(windows)| ==> SameStored(storage, old(storage), old(windows)[k].clip)
    {
      hide Full, ClipSum, WindowOk;
      ghost var ws, before := windows, storage;
      InPool(free, ClipSum(windows), pool);
      var id;
      got, id := Alloc(w.box);
      var clip := if got then [id] else [];
      var n := w.(clip := clip, dirty := got || !w.flags.borderless);
      LinkedSum(windows, n, old(free), free, clip, pool);
      windows := windows + [n];
      ClippedOk(w, clip);
      DirtyOk(w.(clip := clip), n.dirty);
      LinkedHeld(old(windows), n, drag);
      assert LinkedWith(storage, ws, windows, w, clip, got);
      if got {
        OnlyOnce(old(free), ClipSum(ws), pool, id);
        forall k | 0 <= k < |ws| ensures SameStored(storage, before, ws[k].clip) { NotListed(ws, k, id, storage, before); }
      }
    }

    // win_draw_taskbar, as far as it makes the desktop dirty.
    method StainDesktop()
      requires Ok()
      modifies this`windows
      ensures Ok() && windows == DesktopStained(old(windows))
    {
      hide Full, ClipSum, WindowOk;
      ghost var ws := windows;
      for i := 0 to |windows|
        invariant Ok() && |windows| == |ws|
        invariant forall k :: 0 <= k < |ws| ==> windows[k] == if k < i && ws[k].desktop then ws[k].(dirty := true) else ws[k]
      {
        if windows[i].desktop {
          DirtyOk(windows[i], true);
          SetWindow(i, windows[i].(dirty := true));
        }
      }
    }

    // init_desktop.
    method OpenDesktop(memory: bool) returns (shown: bool)
      requires Ok() && windows == []
      modifies this`storage, this`free, this`windows, this`misses
      ensures Ok() && (shown <==> memory && old(free) != []) && (if memory then |windows| == 1 else windows == [])
      ensures memory ==> windows[0] == DesktopOf(width, height).(clip := windows[0].clip, dirty := windows[0].dirty)
      ensures memory ==> windows[0].desktop && windows[0].box == Rect(0, 0, width, height)
                         && windows[0].flags.borderless && !windows[0].flags.movable && !windows[0].flags.resizable
      ensures memory ==> |windows[0].clip| == if shown then 1 else 0
      ensures misses == old(misses) + (if memory && !shown then 1 else 0) && (shown ==> windows[0].dirty)
    {
      hide Full, ClipSum, HeldOk;
      shown := Create(DesktopOf(width, height), memory);
    }

    // sys_create_win.
    method Open(x: int, y: int, w: nat, h: nat, flags: Flags, memory: bool) returns (shown: bool)
      requires Ok()
      modifies this`storage, this`free, this`windows, this`misses
      ensures Ok() && (shown <==> memory && old(free) != []) && AskedFor(x, y, w, h, flags, width, height).box.x >= 0
      ensures if !memory then windows == old(windows) && storage == old(storage)
              else exists clip :: windows == Joined(old(windows), AskedFor(x, y, w, h, flags, width, height), clip, shown) && |clip| == if shown then 1 else 0
      ensures misses == old(misses) + if memory && !shown then 1 else 0
      ensures forall k :: 0 <= k < |old(windows)| ==> SameStored(storage, old(storage), old(windows)[k].clip)
    {
      hide Full, ClipSum, HeldOk, WindowOk;
      OpenedOk(x, y, w, h, flags, width, height);
      shown := Create(AskedFor(x, y, w, h, flags, width, height), memory);
    }

    // A program draws into its window.
    method Draw(i: nat)
      requires Ok() && i < |windows|
      modifies this`windows
      ensures Ok() && windows == old(windows)[i := old(windows)[i].(dirty := true)]
    {
      hide Full, ClipSum, WindowOk;
      DirtyOk(windows[i], true);
      SetWindow(i, windows[i].(dirty := true));
    }

    // win_close: the clip list goes back to the pool and the window leaves the stack.
    method Close(i: nat)
      requires Ok() && i < |windows|
      modifies this`free, this`windows, this`drag
      ensures Ok() && windows == Stained(old(windows)[..i] + old(windows)[i + 1..])
      ensures drag == Lowered(old(drag), i)
    {
      hide Full, ClipSum, WindowOk;
      ghost var ws := windows;
      DropClip(i);
      ClipSumSplit(windows, i);
      drag := Lowered(drag, i);
      windows := windows[..i] + windows[i + 1..];
      assert windows == ws[..i] + ws[i + 1..];
      Stain();
    }

    // win_focus: the window becomes the topmost, and j says where it is now.
    method Focus(i: nat) returns (j: nat)
      requires Ok() && i < |windows|
      modifies this`windows, this`drag
      ensures Ok() && windows == Focused(old(windows), i)
      ensures if old(windows)[i].flags.borderless || i == |windows| - 1 then j == i && drag == old(drag)
              else j == |windows| - 1 && drag == Raised(old(drag), i, |windows|)
    {
      hide Full, ClipSum, WindowOk;
      if windows[i].flags.borderless || i == |windows| - 1 { return i; }
      var w := windows[i];
      ClipSumSplit(windows, i);
      ClipSumLast(windows[..i] + windows[i + 1..], w);
      RaisedHeld(windows, i, drag);
      drag := Raised(drag, i, |windows|);
      windows := windows[..i] + windows[i + 1..] + [w];
      Stain();
      return |windows| - 1;
    }

    method ToggleMaximize(i: nat, memory: bool)
      requires Ok() && i < |windows| && drag.NoDrag?
      modifies this`windows
      ensures Ok() && windows == Stained(old(windows)[i := MaximizeToggled(old(windows)[i], width, height, memory)])
    {
      hide Full, ClipSum, WindowOk, MaximizeToggled;
      MaximizeTwice(windows[i], width, height);
      MaximizeClip(windows[i], width, height, memory);
      SetWindow(i, MaximizeToggled(windows[i], width, height, memory));
      Stain();
    }

    method ToggleMinimize(i: nat, memory: bool)
      requires Ok() && i < |windows|
      modifies this`windows
      ensures Ok() && windows == Stained(old(windows)[i := MinimizeToggled(old(windows)[i], memory)])
    {
      hide Full, ClipSum, WindowOk, MinimizeToggled;
      MinimizeTwice(windows[i]);
      MinimizeClip(windows[i], memory);
      SetWindow(i, MinimizeToggled(windows[i], memory));
      Stain();
    }

    // ---------- The mouse ----------

    // get_win_at: the desktop's taskbar, or the topmost window there, which is the one whose pixel is shown.
    method WindowAt(mx: int, my: int) returns (found: bool, i: nat)
      requires 0 <= mx < width && 0 <= my < height
      ensures found ==> i < |windows|
      ensures my < height - TASKBAR_HEIGHT && found ==> Visible(windows, i, width, height, mx, my)
      ensures my < height - TASKBAR_HEIGHT && !found ==> forall k :: 0 <= k < |windows| ==> !Visible(windows, k, width, height, mx, my)
      ensures found && !windows[i].desktop ==> In(windows[i].box, mx, my)
      ensures my >= height - TASKBAR_HEIGHT && HasDesktop(windows) ==> found && windows[i].desktop
      ensures my >= height - TASKBAR_HEIGHT && !HasDesktop(windows) ==>
        if found then Topmost(windows, i, mx, my) else forall k :: 0 <= k < |windows| ==> !In(windows[k].box, mx, my)
    {
      i := 0;
      if my >= height - TASKBAR_HEIGHT {
        while i < |windows| && !windows[i].desktop
          invariant i <= |windows| && forall k :: 0 <= k < i ==> !windows[k].desktop
        {
          i := i + 1;
        }
        if i < |windows| { return true, i; }
        assert forall k :: 0 <= k < |windows| ==> !windows[k].desktop;
      }
      i := |windows|;
      while i > 0 && !In(windows[i - 1].box, mx, my)
        invariant i <= |windows| && forall k :: i <= k < |windows| ==> !In(windows[k].box, mx, my)
      {
        i := i - 1;
      }
      if i == 0 { return false, 0; }
      return true, i - 1;
    }

    // The left button held down on a window.
    method DragOn(mx: int, my: int, memory: bool)
      requires Ok() && drag.Drag? && 0 <= mx && 0 <= my
      modifies this`windows
      ensures Ok() && Dragged(old(windows), drag, mx, my, height, memory, windows)
      ensures |windows| == |old(windows)| && Dirtier(old(windows), windows) && forall b: nat :: ClipsWithin(old(windows), b) ==> ClipsWithin(windows, b)
    {
      hide Full, ClipSum, ResizedTo, MovedTo;
      var t := drag.target;
      var w := windows[t];
      if drag.edges.None() {
        MovedHolds(w.box, drag.offX, drag.offY, mx, my, height);
        SetWindow(t, Released(w.(box := MovedTo(w.box, drag.offX, drag.offY, mx, my, height))));
        Stain();
      } else {
        ResizedHolds(w.box, drag.edges, mx, my, height);
        var b := ResizedTo(w.box, drag.edges, mx, my, height);
        if b != w.box {
          SetWindow(t, Released(Resized(w, b, memory)));
          Stain();
        }
      }
    }

    // A button of the title bar, counted from the right; 0 closes, which is the scheduler's work.
    predicate OnButton(i: nat, k: nat, mx: int, my: int): (on: bool)
      reads this
      requires i < |windows|
      ensures on <==> OverButton(windows[i].box, k, mx, my)
    {
      var b := windows[i].box;
      In(Rect(b.w - (k + 1) * TITLE_BAR, 0, TITLE_BAR, TITLE_BAR), mx - b.x, my - b.y)
    }

    // The left button on a window above the taskbar: its title bar's buttons, or the start of a drag.
    method Press(mx: int, my: int, just: bool, memory: bool)
      requires Ok() && drag.NoDrag? && 0 <= mx < width && 0 <= my < height && (just ==> my < height - TASKBAR_HEIGHT)
      modifies this`windows, this`drag
      ensures Ok() && |windows| == |old(windows)|
      ensures !just ==> windows == old(windows) && drag.NoDrag?
      ensures just ==> Pressed(old(windows), width, height, mx, my, memory, windows, drag)
      ensures Dirtier(old(windows), windows) && forall b: nat :: ClipsWithin(old(windows), b) ==> ClipsWithin(windows, b)
      ensures drag.Drag? ==> just && var w := windows[drag.target];
                In(w.box, mx, my) && mx - w.box.x == drag.offX && my - w.box.y == drag.offY && drag.edges == EdgesAt(w, mx, my)
    {
      hide Full, ClipSum, WindowOk, EdgesAt, Focused, Visible, MaximizeToggled, MinimizeToggled, OverButton, Dirtier, ClipsWithin, HeldOk;
      DirtierSelf(windows);
      var found, i := WindowAt(mx, my);
      if just { HitIs(windows, width, height, mx, my, found, i); }
      if !found || windows[i].desktop { return; }
      FocusedKeeps(windows, i);
      if just && OnButton(i, 0, mx, my) { return; }
      if just && windows[i].flags.resizable && OnButton(i, 1, mx, my) {
        i := Focus(i);
        MaximizedKeeps(windows, i, width, height, memory);
        DirtierOn(old(windows), windows, Stained(windows[i := MaximizeToggled(windows[i], width, height, memory)]));
        ToggleMaximize(i, memory);
        return;
      }
      if just && windows[i].flags.minimizable && OnButton(i, 2, mx, my) {
        ToggledKeeps(windows, i, memory);
        ToggleMinimize(i, memory);
        return;
      }
      if just { Take(i, mx, my); }
    }

    // The window comes to the top, and a drag begins if the cursor is at an edge or on the title bar.
    method Take(i: nat, mx: int, my: int)
      requires Ok() && drag.NoDrag? && i < |windows| && !windows[i].desktop && In(windows[i].box, mx, my)
      modifies this`windows, this`drag
      ensures Ok() && windows == Focused(old(windows), i)
      ensures var w, e := old(windows)[i], EdgesAt(old(windows)[i], mx, my);
              drag == if !e.None() || (w.flags.movable && my < w.box.y + 20) then Drag(Front(old(windows), i), mx - w.box.x, my - w.box.y, e) else NoDrag
      ensures drag.Drag? ==> var w := windows[drag.target];
                In(w.box, mx, my) && mx - w.box.x == drag.offX && my - w.box.y == drag.offY && drag.edges == EdgesAt(w, mx, my)
    {
      hide Full, ClipSum, WindowOk, Focused, EdgesAt;
      FocusedFront(windows, i);
      ghost var w := windows[i];
      var j := Focus(i);
      assert windows[j] == w.(dirty := windows[j].dirty);
      EdgesSame(w, windows[j].dirty, mx, my);
      var b, e := windows[j].box, EdgesAt(windows[j], mx, my);
      if !e.None() || (windows[j].flags.movable && In(Rect(b.x, b.y, b.w, TITLE_BAR), mx, my)) {
        drag := Drag(j, mx - b.x, my - b.y, e);
      }
    }

    // A click on the taskbar button of window i: it comes to the top and is shown, or is minimized if it was there.
    method TaskbarClick(i: nat, memory: bool)
      requires Ok() && i < |windows|
      modifies this`windows, this`drag
      ensures Ok() && windows == Clicked(old(windows), i, memory) && (old(drag).NoDrag? ==> drag.NoDrag?)
    {
      hide Full, ClipSum, HeldOk, Focused;
      if windows[i].state.Minimized? {
        ToggleMinimize(i, memory);
        var j := Focus(i);
      } else if i == |windows| - 1 {
        if windows[i].flags.minimizable { ToggleMinimize(i, memory); }
      } else {
        var j := Focus(i);
      }
      StainDesktop();
    }

    // win_cycle_focus: the lowest window with a border that is not on top comes to the top.
    method CycleFocus(memory: bool)
      requires Ok()
      modifies this`windows, this`drag
      ensures Ok() && windows == Cycled(old(windows), memory)
    {
      hide Full, ClipSum, HeldOk, Focused;
      var i := 0;
      while i < |windows| && (windows[i].flags.borderless || i == |windows| - 1)
        invariant i <= |windows| && forall k :: 0 <= k < i ==> windows[k].flags.borderless || k == |windows| - 1
      {
        i := i + 1;
      }
      LowestBorderedIs(windows, i);
      if i == |windows| { return; }
      if windows[i].state.Minimized? { ToggleMinimize(i, memory); }
      var j := Focus(i);
    }

    // The window whose taskbar button is at column mx.
    method ButtonAt(mx: int) returns (found: bool, i: nat)
      ensures found ==> i < |windows| && OverTask(windows, i, width, mx)
      ensures !found ==> forall k :: 0 <= k < |windows| ==> !OverTask(windows, k, width, mx)
    {
      var x := 212;
      i := 0;
      while i < |windows|
        invariant i <= |windows| && (x == 212 + 104 * Bordered(windows, i) || x + 104 > width - 84) && x <= 212 + 104 * Bordered(windows, i)
        invariant forall k :: 0 <= k < i ==> !OverTask(windows, k, width, mx)
      {
        if !windows[i].flags.borderless && x + 104 <= width - 84 {
          if x <= mx < x + 100 { return true, i; }
          x := x + 104;
        }
        i := i + 1;
      }
      return false, 0;
    }

    // win_update, with the buttons and the cursor as the mouse driver gives them.
    method Update(left: bool, right: bool, mx: int, my: int, memory: bool)
      requires Ok() && 0 <= mx < width && 0 <= my < height
      modifies this`windows, this`drag, this`leftDown, this`rightDown
      ensures Ok() && |windows| == |old(windows)| && leftDown == left && rightDown == right
      ensures Dirtier(old(windows), windows) && forall b: nat :: ClipsWithin(old(windows), b) ==> ClipsWithin(windows, b)
      ensures Moused(old(windows), old(drag), old(leftDown), old(rightDown), left, right, mx, my, width, height, memory, windows, drag)
    {
      hide Full, ClipSum, WindowOk, Dirtier, ClipsWithin, Pressed, Dragged, Tasked, Let, HeldOk;
      DirtierSelf(windows);
      if left {
        if drag.Drag? {
          DragOn(mx, my, memory);
        } else if !leftDown && my >= height - TASKBAR_HEIGHT {
          ClickTaskbar(mx, my, memory);
        } else {
          Press(mx, my, !leftDown, memory);
        }
      } else {
        LetGo(mx, my, right && !rightDown);
      }
      leftDown, rightDown := left, right;
    }

    // handle_taskbar_click.
    method ClickTaskbar(mx: int, my: int, memory: bool)
      requires Ok() && drag.NoDrag?
      modifies this`windows, this`drag
      ensures Ok() && drag.NoDrag? && |windows| == |old(windows)| && Tasked(old(windows), width, height, mx, my, memory, windows)
      ensures Dirtier(old(windows), windows) && forall b: nat :: ClipsWithin(old(windows), b) ==> ClipsWithin(windows, b)
    {
      hide Full, ClipSum, WindowOk, Dirtier, ClipsWithin, HeldOk, Clicked, Bordered;
      DirtierSelf(windows);
      if height - TASKBAR_HEIGHT + 4 <= my < height - 4 {
        var found, i := ButtonAt(mx);
        if found {
          TaskOne(windows, width, mx, i);
          ClickedKeeps(windows, i, memory);
          TaskbarClick(i, memory);
        }
      }
    }

    // The left button is up.
    method LetGo(mx: int, my: int, right: bool)
      requires Ok() && 0 <= mx < width && 0 <= my < height
      modifies this`windows, this`drag
      ensures Ok() && drag.NoDrag? && |windows| == |old(windows)| && Let(old(windows), old(drag), width, height, mx, my, right, windows)
      ensures Dirtier(old(windows), windows) && forall b: nat :: ClipsWithin(old(windows), b) ==> ClipsWithin(windows, b)
    {
      hide Full, ClipSum, WindowOk, Focused, Visible;
      if drag.Drag? && !drag.edges.None() {
        DirtyOk(windows[drag.target], true);
        SetWindow(drag.target, windows[drag.target].(dirty := true));
      }
      drag := NoDrag;
      ghost var mid := windows;
      var found, i := WindowAt(mx, my);
      LetHit(old(windows), mid, width, height, mx, my, found, i);
      if found && !windows[i].desktop && right && !windows[i].state.Minimized? {
        FocusedKeeps(windows, i);
        DirtierOn(old(windows), windows, Focused(windows, i));
        var j := Focus(i);
      }
    }
  }

  // No two buttons of the taskbar overlap.
  lemma TaskOne(ws: seq<Window>, width: nat, mx: int, i: nat)
    requires i < |ws| && OverTask(ws, i, width, mx)
    ensures forall k: nat :: k < |ws| && OverTask(ws, k, width, mx) ==> k == i
  {
    forall k: nat | k < |ws| && OverTask(ws, k, width, mx) ensures k == i {
      if k < i { BorderedMore(ws, k, i); } else if i < k { BorderedMore(ws, i, k); }
    }
  }

  lemma {:induction false} BorderedCounts(ws: seq<Window>, i: nat)
    requires i <= |ws|
    ensures Bordered(ws, i) == |set k: nat | k < i && !ws[k].flags.borderless|
  {
    if i > 0 {
      BorderedCounts(ws, i - 1);
      OneMoreBordered(ws, i);
    }
  }

  lemma OneMoreBordered(ws: seq<Window>, i: nat)
    requires 0 < i <= |ws|
    ensures |set k: nat | k < i && !ws[k].flags.borderless| ==
            |set k: nat | k < i - 1 && !ws[k].flags.borderless| + if ws[i - 1].flags.borderless then 0 else 1
  {
    var now, was := set k: nat | k < i && !ws[k].flags.borderless, set k: nat | k < i - 1 && !ws[k].flags.borderless;
    if ws[i - 1].flags.borderless { assert now == was; } else { assert now == was + {i - 1}; }
  }

  lemma {:induction false} BorderedMore(ws: seq<Window>, i: nat, j: nat)
    requires i < j <= |ws| && !ws[i].flags.borderless
    ensures Bordered(ws, i) < Bordered(ws, j)
    decreases j
  {
    if j > i + 1 { BorderedMore(ws, i, j - 1); }
  }

  lemma NotListed(ws: seq<Window>, k: nat, id: nat, b: seq<Rect>, a: seq<Rect>)
    requires k < |ws| && id !in ClipSum(ws) && |a| == |b| && forall x :: 0 <= x < |a| && x != id ==> b[x] == a[x]
    ensures SameStored(b, a, ws[k].clip)
  {
    if id in ws[k].clip { ClipSumHas(ws, k, id); }
  }

  // ---------- What the mouse does ----------

  // The k-th button of a title bar, counted from the right.
  predicate OverButton(b: Rect, k: nat, mx: int, my: int) {
    b.x + b.w - 20 * (k + 1) <= mx < b.x + b.w - 20 * k && b.y <= my < b.y + 20
  }

  ghost predicate Topmost(ws: seq<Window>, i: nat, mx: int, my: int) {
    i < |ws| && In(ws[i].box, mx, my) && forall j :: i < j < |ws| ==> !In(ws[j].box, mx, my)
  }

  // Where window i is after it has been focused.
  function Front(ws: seq<Window>, i: nat): (j: nat)
    requires i < |ws|
    ensures j < |ws|
  {
    if ws[i].flags.borderless || i == |ws| - 1 then i else |ws| - 1
  }

  // A press of the left button: on a button of the title bar of the topmost window there, or the start of a drag.
  ghost predicate Pressed(ws: seq<Window>, width: nat, height: nat, mx: int, my: int, memory: bool, us: seq<Window>, d: Drag) {
    && (forall i: nat :: Topmost(ws, i, mx, my) && !ws[i].desktop ==> PressedOn(ws, i, width, height, mx, my, memory, us, d))
    && ((forall i: nat :: Topmost(ws, i, mx, my) ==> ws[i].desktop) ==> us == ws && d.NoDrag?)
  }

  ghost predicate PressedOn(ws: seq<Window>, i: nat, width: nat, height: nat, mx: int, my: int, memory: bool, us: seq<Window>, d: Drag)
    requires i < |ws|
  {
    var w, vs, j := ws[i], Focused(ws, i), Front(ws, i);
    if OverButton(w.box, 0, mx, my) then us == ws && d.NoDrag?
    else if w.flags.resizable && OverButton(w.box, 1, mx, my) then us == Stained(vs[j := MaximizeToggled(vs[j], width, height, memory)]) && d.NoDrag?
    else if w.flags.minimizable && OverButton(w.box, 2, mx, my) then us == Stained(ws[i := MinimizeToggled(w, memory)]) && d.NoDrag?
    else
      var e := EdgesAt(w, mx, my);
      us == vs && d == if !e.None() || (w.flags.movable && my < w.box.y + 20) then Drag(j, mx - w.box.x, my - w.box.y, e) else NoDrag
  }

  // The button held down.
  ghost predicate Dragged(ws: seq<Window>, d: Drag, mx: int, my: int, height: nat, memory: bool, us: seq<Window>) {
    d.Drag? && d.target < |ws| &&
    var t, w := d.target, ws[d.target];
    if d.edges.None() then us == Stained(ws[t := Released(w.(box := MovedTo(w.box, d.offX, d.offY, mx, my, height)))])
    else if ResizedTo(w.box, d.edges, mx, my, height) == w.box then us == ws
    else us == Stained(ws[t := Released(Resized(w, ResizedTo(w.box, d.edges, mx, my, height), memory))])
  }

  // The bordered windows below window i.
  ghost function Bordered(ws: seq<Window>, i: nat): nat
    requires i <= |ws|
  {
    if i == 0 then 0 else Bordered(ws, i - 1) + if ws[i - 1].flags.borderless then 0 else 1
  }

  // The taskbar has a button of 100 pixels for every bordered window, in the order of the stack, as far as there is room.
  ghost predicate OverTask(ws: seq<Window>, i: nat, width: nat, mx: int)
    requires i < |ws|
  {
    var x := 212 + 104 * Bordered(ws, i);
    !ws[i].flags.borderless && x + 104 <= width - 84 && x <= mx < x + 100
  }

  // A click on the taskbar.
  ghost predicate Tasked(ws: seq<Window>, width: nat, height: nat, mx: int, my: int, memory: bool, us: seq<Window>) {
    && (forall i: nat :: height - 24 <= my < height - 4 && i < |ws| && OverTask(ws, i, width, mx) ==> us == Clicked(ws, i, memory))
    && (!(height - 24 <= my < height - 4) || (forall i: nat :: i < |ws| ==> !OverTask(ws, i, width, mx)) ==> us == ws)
  }

  ghost predicate HasDesktop(ws: seq<Window>) {
    exists k :: 0 <= k < |ws| && ws[k].desktop
  }

  // No left button: a window that was resized is painted again, and the right one brings the window there to the top.
  ghost predicate Let(ws: seq<Window>, d: Drag, width: nat, height: nat, mx: int, my: int, right: bool, us: seq<Window>) {
    var vs := if d.Drag? && !d.edges.None() && d.target < |ws| then ws[d.target := ws[d.target].(dirty := true)] else ws;
    && (!right ==> us == vs)
    && (right && my >= height - 28 && HasDesktop(ws) ==> us == vs)
    && (forall i: nat :: right && (my < height - 28 || !HasDesktop(ws)) && Topmost(ws, i, mx, my) ==>
          us == if ws[i].desktop || ws[i].state.Minimized? then vs else Focused(vs, i))
    && ((forall i: nat :: i < |ws| ==> !In(ws[i].box, mx, my)) ==> us == vs)
  }

  // What the mouse does: a drag goes on, a press on the taskbar or above it, or no left button; a button that is held down
  // without a drag does nothing.
  ghost predicate Moused(ws: seq<Window>, d: Drag, wasLeft: bool, wasRight: bool, left: bool, right: bool, mx: int, my: int,
                         width: nat, height: nat, memory: bool, us: seq<Window>, e: Drag)
  {
    if !left then e.NoDrag? && Let(ws, d, width, height, mx, my, right && !wasRight, us)
    else if d.Drag? then e == d && Dragged(ws, d, mx, my, height, memory, us)
    else if wasLeft then us == ws && e.NoDrag?
    else if my >= height - 28 then e.NoDrag? && Tasked(ws, width, height, mx, my, memory, us)
    else Pressed(ws, width, height, mx, my, memory, us, e)
  }

  lemma HitIs(ws: seq<Window>, width: nat, height: nat, mx: int, my: int, found: bool, i: nat)
    requires 0 <= mx < width && 0 <= my < height - TASKBAR_HEIGHT && (found ==> i < |ws| && Visible(ws, i, width, height, mx, my))
    requires !found ==> forall k :: 0 <= k < |ws| ==> !Visible(ws, k, width, height, mx, my)
    ensures found ==> Topmost(ws, i, mx, my) && forall j: nat :: Topmost(ws, j, mx, my) ==> j == i
    ensures !found ==> forall j: nat :: !Topmost(ws, j, mx, my)
  {
    if !found {
      forall j: nat ensures !Topmost(ws, j, mx, my) {
        assert Topmost(ws, j, mx, my) ==> Visible(ws, j, width, height, mx, my);
      }
    }
  }

  lemma LetHit(ws: seq<Window>, vs: seq<Window>, width: nat, height: nat, mx: int, my: int, found: bool, i: nat)
    requires |vs| == |ws| && forall k :: 0 <= k < |ws| ==> vs[k] == ws[k].(dirty := vs[k].dirty)
    requires 0 <= mx < width && 0 <= my < height && (found ==> i < |vs|)
    requires my < height - TASKBAR_HEIGHT && found ==> Visible(vs, i, width, height, mx, my)
    requires my < height - TASKBAR_HEIGHT && !found ==> forall k :: 0 <= k < |vs| ==> !Visible(vs, k, width, height, mx, my)
    requires found && !vs[i].desktop ==> In(vs[i].box, mx, my)
    requires my >= height - TASKBAR_HEIGHT && HasDesktop(vs) ==> found && vs[i].desktop
    requires my >= height - TASKBAR_HEIGHT && !HasDesktop(vs) ==>
      if found then Topmost(vs, i, mx, my) else forall k :: 0 <= k < |vs| ==> !In(vs[k].box, mx, my)
    ensures HasDesktop(vs) <==> HasDesktop(ws)
    ensures my >= height - 28 && HasDesktop(ws) ==> found && ws[i].desktop
    ensures (my < height - 28 || !HasDesktop(ws)) && found ==> Topmost(ws, i, mx, my) && forall j: nat :: Topmost(ws, j, mx, my) ==> j == i
    ensures (my < height - 28 || !HasDesktop(ws)) && !found ==> forall j: nat :: !Topmost(ws, j, mx, my)
    ensures found && !ws[i].desktop ==> In(ws[i].box, mx, my)
  {
    assert forall k :: 0 <= k < |ws| ==> vs[k].box == ws[k].box && vs[k].desktop == ws[k].desktop;
    assert forall j: nat :: Topmost(vs, j, mx, my) <==> Topmost(ws, j, mx, my);
    if my < height - 28 {
      HitIs(vs, width, height, mx, my, found, i);
    }
  }

  function DesktopOf(width: nat, height: nat): Window {
    Opened(0, 0, width, height, Flags(false, false, false, true), true)
  }

  // The window that sys_create_win makes of what a program asks for.
  function AskedFor(x: int, y: int, w: nat, h: nat, flags: Flags, width: nat, height: nat): Window {
    Opened(NotNegative(x), NotNegative(y), Granted(w, width), Granted(h, height), flags, false)
  }

  // win_focus: a bordered window below the top comes to the top.
  ghost function Focused(ws: seq<Window>, i: nat): (us: seq<Window>)
    requires i < |ws|
    ensures |us| == |ws|
  {
    if ws[i].flags.borderless || i == |ws| - 1 then ws else Stained(ws[..i] + ws[i + 1..] + [ws[i]])
  }

  lemma FocusedKeeps(ws: seq<Window>, i: nat)
    requires i < |ws|
    ensures Dirtier(ws, Focused(ws, i)) && forall b: nat :: ClipsWithin(ws, b) ==> ClipsWithin(Focused(ws, i), b)
  {
  }

  lemma EdgesSame(w: Window, d: bool, mx: int, my: int)
    ensures EdgesAt(w.(dirty := d), mx, my) == EdgesAt(w, mx, my)
  {
  }

  lemma MaximizedKeeps(ws: seq<Window>, i: nat, width: nat, height: nat, memory: bool)
    requires i < |ws|
    ensures var us := Stained(ws[i := MaximizeToggled(ws[i], width, height, memory)]);
            Dirtier(ws, us) && forall b: nat :: ClipsWithin(ws, b) ==> ClipsWithin(us, b)
  {
    MaximizeClip(ws[i], width, height, memory);
    hide MaximizeToggled;
  }

  // It is the same window.
  lemma FocusedFront(ws: seq<Window>, i: nat)
    requires i < |ws|
    ensures var us, j := Focused(ws, i), Front(ws, i); us[j] == ws[i].(dirty := us[j].dirty)
  {
  }

  ghost function DesktopStained(ws: seq<Window>): (us: seq<Window>)
    ensures |us| == |ws| && forall k :: 0 <= k < |ws| ==> us[k] == if ws[k].desktop then ws[k].(dirty := true) else ws[k]
  {
    seq(|ws|, k requires 0 <= k < |ws| => if ws[k].desktop then ws[k].(dirty := true) else ws[k])
  }

  ghost function Clicked(ws: seq<Window>, i: nat, memory: bool): seq<Window>
    requires i < |ws|
  {
    DesktopStained(
      if ws[i].state.Minimized? then Focused(Stained(ws[i := MinimizeToggled(ws[i], memory)]), i)
      else if i < |ws| - 1 then Focused(ws, i)
      else if ws[i].flags.minimizable then Stained(ws[i := MinimizeToggled(ws[i], memory)])
      else ws)
  }

  lemma ClickedKeeps(ws: seq<Window>, i: nat, memory: bool)
    requires i < |ws|
    ensures |Clicked(ws, i, memory)| == |ws| && Dirtier(ws, Clicked(ws, i, memory))
    ensures forall b: nat :: ClipsWithin(ws, b) ==> ClipsWithin(Clicked(ws, i, memory), b)
  {
    var us := Stained(ws[i := MinimizeToggled(ws[i], memory)]);
    ToggledKeeps(ws, i, memory);
    FocusedKeeps(ws, i);
    FocusedKeeps(us, i);
    DirtierOn(ws, us, Focused(us, i));
    hide Focused, MinimizeToggled, Dirtier, ClipsWithin;
    var vs := if ws[i].state.Minimized? then Focused(us, i) else if i < |ws| - 1 then Focused(ws, i) else if ws[i].flags.minimizable then us else ws;
    DirtierSelf(ws);
    DesktopKeeps(vs);
    DirtierOn(ws, vs, DesktopStained(vs));
  }

  lemma DirtierSelf(ws: seq<Window>)
    ensures Dirtier(ws, ws)
  {
  }

  lemma DesktopKeeps(ws: seq<Window>)
    ensures Dirtier(ws, DesktopStained(ws)) && forall b: nat :: ClipsWithin(ws, b) ==> ClipsWithin(DesktopStained(ws), b)
  {
  }

  lemma ToggledKeeps(ws: seq<Window>, i: nat, memory: bool)
    requires i < |ws|
    ensures var us := Stained(ws[i := MinimizeToggled(ws[i], memory)]); Dirtier(ws, us) && forall b: nat :: ClipsWithin(ws, b) ==> ClipsWithin(us, b)
  {
    MinimizeClip(ws[i], memory);
    hide MinimizeToggled;
  }

  // The lowest window with a border that is not on top, or the number of windows.
  ghost function LowestBordered(ws: seq<Window>, i: nat): (k: nat)
    requires i <= |ws|
    ensures i <= k <= |ws|
    decreases |ws| - i
  {
    if i == |ws| || !(ws[i].flags.borderless || i == |ws| - 1) then i else LowestBordered(ws, i + 1)
  }

  lemma {:induction false} LowestFrom(ws: seq<Window>, i: nat, n: nat)
    requires n <= i <= |ws| && (forall k :: n <= k < i ==> ws[k].flags.borderless || k == |ws| - 1)
    requires i < |ws| ==> !(ws[i].flags.borderless || i == |ws| - 1)
    ensures LowestBordered(ws, n) == i
    decreases i - n
  {
    if n < i { LowestFrom(ws, i, n + 1); }
  }

  lemma LowestBorderedIs(ws: seq<Window>, i: nat)
    requires i <= |ws| && (forall k :: 0 <= k < i ==> ws[k].flags.borderless || k == |ws| - 1)
    requires i < |ws| ==> !(ws[i].flags.borderless || i == |ws| - 1)
    ensures LowestBordered(ws, 0) == i
  {
    LowestFrom(ws, i, 0);
  }

  ghost function Cycled(ws: seq<Window>, memory: bool): seq<Window> {
    var i := LowestBordered(ws, 0);
    if i == |ws| then ws
    else Focused(if ws[i].state.Minimized? then Stained(ws[i := MinimizeToggled(ws[i], memory)]) else ws, i)
  }

  // The window on top afterwards is that one, and it is not minimized.
  lemma CycledTop(ws: seq<Window>, memory: bool)
    requires LowestBordered(ws, 0) < |ws| && forall k :: 0 <= k < |ws| ==> WindowOk(ws[k])
    ensures var i, us := LowestBordered(ws, 0), Cycled(ws, memory);
            && |us| == |ws| && us[|us| - 1].flags == ws[i].flags && us[|us| - 1].clip == ws[i].clip && !us[|us| - 1].state.Minimized?
            && (forall k :: 0 <= k < |us| - 1 ==> us[k] == ws[if k < i then k else k + 1].(dirty := true))
  {
    var i := LowestBordered(ws, 0);
    LowestEnd(ws, 0);
    MinimizeClip(ws[i], memory);
    if ws[i].state.Minimized? { MinimizeShown(ws[i], memory); }
    var us := Stained(ws[i := MinimizeToggled(ws[i], memory)]);
    FocusedTop(ws, i);
    FocusedTop(us, i);
    hide Focused, MinimizeToggled, LowestBordered, WindowOk;
  }

  lemma MinimizeShown(w: Window, memory: bool)
    requires WindowOk(w) && w.state.Minimized?
    ensures !MinimizeToggled(w, memory).state.Minimized?
  {
  }

  // A borderless window, and the one on top, stay where they are.
  lemma FocusedNot(ws: seq<Window>, i: nat)
    requires i < |ws| && (ws[i].flags.borderless || i == |ws| - 1)
    ensures Focused(ws, i) == ws
  {
  }

  // What a click on the taskbar button of a bordered window does to it, whatever the others are: a minimized one is back
  // as it was and on top, one further down comes to the top, the top one is rolled up to its title bar if it may be.
  lemma ClickedMeans(ws: seq<Window>, i: nat, memory: bool)
    requires i < |ws| && !ws[i].flags.borderless
    ensures var us := Clicked(ws, i, memory);
            && |us| == |ws| && ClickedTop(ws[i], i == |ws| - 1, memory, us[|us| - 1])
            && forall k :: 0 <= k < |us| - 1 ==> us[k] == ws[if k < i then k else k + 1].(dirty := us[k].dirty)
  {
    hide Focused, Clicked, MinimizeToggled, ClickedTop, Stained;
    var w := MinimizeToggled(ws[i], memory);
    var vs := Stained(ws[i := w]);
    var to := if ws[i].state.Minimized? then Focused(vs, i) else if i < |ws| - 1 then Focused(ws, i) else if ws[i].flags.minimizable then vs else ws;
    ClickedIs(ws, i, memory);
    FrontOf(ws, i);
    FrontKind(ws[i], memory);
    FrontOf(vs, i);
    assert forall k :: 0 <= k < |ws| - 1 ==> to[k] == ws[if k < i then k else k + 1].(dirty := to[k].dirty);
    ClickedCases(ws[i], i == |ws| - 1, memory, Clicked(ws, i, memory)[|ws| - 1]);
  }

  ghost predicate ClickedTop(w: Window, onTop: bool, memory: bool, top: Window) {
    && top.flags == w.flags && top.desktop == w.desktop && top.clip == w.clip
    && (w.state == Minimized ==>
          top.state == w.before && top.saved == w.saved && top.box == if memory then Rect(w.box.x, w.box.y, w.box.w, w.saved.h) else w.box)
    && (w.state != Minimized && (!onTop || !w.flags.minimizable) ==> top.state == w.state && top.box == w.box && top.saved == w.saved)
    && (w.state != Minimized && onTop && w.flags.minimizable ==>
          top.state == Minimized && top.before == w.state && top.saved == w.box
          && top.box == if memory then Rect(w.box.x, w.box.y, w.box.w, 20) else w.box)
  }

  lemma FrontKind(w: Window, memory: bool)
    ensures MinimizeToggled(w, memory).flags == w.flags
  {
  }

  lemma ClickedCases(w: Window, onTop: bool, memory: bool, top: Window)
    requires var t := if w.state.Minimized? || (onTop && w.flags.minimizable) then MinimizeToggled(w, memory) else w; top == t.(dirty := top.dirty)
    ensures ClickedTop(w, onTop, memory, top)
  {
    MinimizedMeans(w, memory);
    hide MinimizeToggled;
  }

  // The bordered window i is on top, and the others are in the same order.
  lemma FrontOf(ws: seq<Window>, i: nat)
    requires i < |ws| && !ws[i].flags.borderless
    ensures var us := Focused(ws, i);
            && us[|us| - 1] == ws[i].(dirty := us[|us| - 1].dirty)
            && forall k :: 0 <= k < |us| - 1 ==> us[k] == ws[if k < i then k else k + 1].(dirty := us[k].dirty)
  {
    if i < |ws| - 1 { FocusedTop(ws, i); } else { FocusedNot(ws, i); }
  }

  lemma ClickedIs(ws: seq<Window>, i: nat, memory: bool)
    requires i < |ws|
    ensures var us, vs := Clicked(ws, i, memory), Stained(ws[i := MinimizeToggled(ws[i], memory)]);
            var to := if ws[i].state.Minimized? then Focused(vs, i) else if i < |ws| - 1 then Focused(ws, i) else if ws[i].flags.minimizable then vs else ws;
            |us| == |ws| == |to| && forall k :: 0 <= k < |us| ==> us[k] == to[k].(dirty := us[k].dirty)
  {
    hide Focused, MinimizeToggled;
  }

  lemma FocusedTop(ws: seq<Window>, i: nat)
    requires i < |ws| - 1 && !ws[i].flags.borderless
    ensures var us := Focused(ws, i); us[|us| - 1] == ws[i].(dirty := true)
    ensures var us := Focused(ws, i); forall k :: 0 <= k < |us| - 1 ==> us[k] == ws[if k < i then k else k + 1].(dirty := true)
  {
  }

  lemma {:induction false} LowestEnd(ws: seq<Window>, n: nat)
    requires n <= |ws|
    ensures var i := LowestBordered(ws, n); i < |ws| ==> !ws[i].flags.borderless && i < |ws| - 1
    decreases |ws| - n
  {
    if n < |ws| { LowestEnd(ws, n + 1); }
  }

  lemma CycledKeeps(ws: seq<Window>, memory: bool)
    ensures |Cycled(ws, memory)| == |ws| && Dirtier(ws, Cycled(ws, memory))
    ensures forall b: nat :: ClipsWithin(ws, b) ==> ClipsWithin(Cycled(ws, memory), b)
  {
    var i := LowestBordered(ws, 0);
    if i < |ws| {
      var us := Stained(ws[i := MinimizeToggled(ws[i], memory)]);
      ToggledKeeps(ws, i, memory);
      FocusedKeeps(ws, i);
      FocusedKeeps(us, i);
      DirtierOn(ws, us, Focused(us, i));
      hide Focused, MinimizeToggled, Dirtier, ClipsWithin;
    }
  }

  // The stack with a new window on top.
  ghost function Joined(ws: seq<Window>, w: Window, clip: seq<nat>, shown: bool): (us: seq<Window>)
    ensures |us| == |ws| + 1 && us[|ws|].box == w.box && us[|ws|].clip == clip
    ensures forall k :: 0 <= k < |ws| ==> us[k] == ws[k].(dirty := us[k].dirty) && (us[k].dirty <==> ws[k].dirty || Touched(ws, w, shown, k))
  {
    seq(|ws|, k requires 0 <= k < |ws| => ws[k].(dirty := ws[k].dirty || Touched(ws, w, shown, k)))
    + [w.(clip := clip, dirty := shown || !w.flags.borderless)]
  }

  ghost function TopStained(ws: seq<Window>): (us: seq<Window>)
    ensures |us| == |ws| && forall k :: 0 <= k < |ws| ==> us[k] == ws[k].(dirty := us[k].dirty)
  {
    if ws == [] || ws[|ws| - 1].flags.borderless then ws else ws[|ws| - 1 := ws[|ws| - 1].(dirty := true)]
  }

  lemma JoinedIs(ws: seq<Window>, w: Window, clip: seq<nat>, shown: bool)
    ensures var us := TopStained(ws) + [w.(clip := clip, dirty := shown || !w.flags.borderless)];
            Joined(ws, w, clip, shown) == if shown && !w.flags.borderless then DesktopStained(us) else us
  {
    var us := TopStained(ws) + [w.(clip := clip, dirty := shown || !w.flags.borderless)];
    var vs := if shown && !w.flags.borderless then DesktopStained(us) else us;
    forall k | 0 <= k < |vs| ensures Joined(ws, w, clip, shown)[k] == vs[k] { }
  }

  lemma AllStored(ws: seq<Window>, storage: seq<Rect>)
    ensures forall k :: 0 <= k < |ws| ==> SameStored(storage, storage, ws[k].clip)
  {
  }

  lemma StoredUnder(ws: seq<Window>, b: seq<Rect>, a: seq<Rect>)
    requires forall k :: 0 <= k < |ws| ==> SameStored(b, a, TopStained(ws)[k].clip)
    ensures forall k :: 0 <= k < |ws| ==> SameStored(b, a, ws[k].clip)
  {
    forall k | 0 <= k < |ws| ensures SameStored(b, a, ws[k].clip) { assert SameStored(b, a, TopStained(ws)[k].clip); }
  }

  // The list is the one rectangle.
  ghost predicate OneRect(storage: seq<Rect>, ids: seq<nat>, box: Rect) {
    |ids| == 1 && ids[0] < |storage| && storage[ids[0]] == box
  }

  // The window has joined the stack with its box for a list, or with no list.
  ghost predicate LinkedWith(storage: seq<Rect>, ws: seq<Window>, us: seq<Window>, w: Window, clip: seq<nat>, got: bool) {
    && us == ws + [w.(clip := clip, dirty := got || !w.flags.borderless)]
    && (if got then OneRect(storage, clip, w.box) else clip == [])
  }

  // The new window makes window k dirty.
  predicate Touched(ws: seq<Window>, w: Window, shown: bool, k: nat)
    requires k < |ws|
  {
    (k == |ws| - 1 && !ws[k].flags.borderless) || (shown && !w.flags.borderless && ws[k].desktop)
  }

  // No rectangle of the list meets the box.
  ghost predicate Clears(storage: seq<Rect>, ids: seq<nat>, box: Rect) {
    forall x :: x in ids && x < |storage| ==> !Intersect(storage[x], box)
  }

  // A window opened above an exact list leaves it exact if and only if it meets none of its rectangles.
  lemma JoinedDrawnIff(a: seq<Rect>, b: seq<Rect>, ws: seq<Window>, us: seq<Window>, i: nat, box: Rect, width: nat, height: nat, lost: bool)
    requires DrawnOn(a, ws, i, width, height, lost) && SameStored(b, a, ws[i].clip) && Solid(box)
    requires |us| == |ws| + 1 && us[|ws|].box == box && forall k :: 0 <= k < |ws| ==> us[k] == ws[k].(dirty := us[k].dirty)
    ensures DrawnOn(b, us, i, width, height, lost) <==> Clears(a, ws[i].clip, box)
  {
    SameRects(a, b, ws[i].clip);
    ExactUnder(ws, us, i, box, width, height, Deref(a, ws[i].clip), lost);
    hide Exact;
    var rs := Deref(a, ws[i].clip);
    if Clears(a, ws[i].clip, box) {
      forall j | 0 <= j < |rs| ensures !Intersect(rs[j], box) { assert ws[i].clip[j] in ws[i].clip; }
    }
    if forall j :: 0 <= j < |rs| ==> !Intersect(rs[j], box) {
      forall x | x in ws[i].clip && x < |a| ensures !Intersect(a[x], box) {
        var j :| 0 <= j < |ws[i].clip| && ws[i].clip[j] == x;
        assert rs[j] == a[x];
      }
    }
  }

  lemma ExactUnder(ws: seq<Window>, us: seq<Window>, i: nat, box: Rect, width: nat, height: nat, rs: seq<Rect>, lost: bool)
    requires i < |ws| && Exact(ws, i, width, height, rs, lost) && Solid(box)
    requires |us| == |ws| + 1 && us[|ws|].box == box && forall k :: 0 <= k < |ws| ==> us[k] == ws[k].(dirty := us[k].dirty)
    ensures Exact(us, i, width, height, rs, lost) <==> forall j :: 0 <= j < |rs| ==> !Intersect(rs[j], box)
  {
    forall px, py ensures Visible(us, i, width, height, px, py) <==> Visible(ws, i, width, height, px, py) && !In(box, px, py) {
      VisibleUnder(ws, us, i, box, width, height, px, py);
    }
    if forall j :: 0 <= j < |rs| ==> !Intersect(rs[j], box) {
      forall px, py | Covered(rs, px, py) ensures !In(box, px, py) {
        var j :| 0 <= j < |rs| && In(rs[j], px, py);
        assert !Intersect(rs[j], box);
      }
    } else {
      var j :| 0 <= j < |rs| && Intersect(rs[j], box);
      IntersectMeans(rs[j], box);
      var px, py :| In(rs[j], px, py) && In(box, px, py);
      assert Covered(rs, px, py) && !Visible(us, i, width, height, px, py);
    }
  }

  lemma VisibleUnder(ws: seq<Window>, us: seq<Window>, i: nat, box: Rect, width: nat, height: nat, px: int, py: int)
    requires i < |ws| && |us| == |ws| + 1 && us[|ws|].box == box && forall k :: 0 <= k < |ws| ==> us[k] == ws[k].(dirty := us[k].dirty)
    ensures Visible(us, i, width, height, px, py) <==> Visible(ws, i, width, height, px, py) && !In(box, px, py)
  {
    hide In;
    assert Floor(us[i], height) == Floor(ws[i], height);
    if Visible(us, i, width, height, px, py) {
      forall j | i < j < |ws| ensures !In(ws[j].box, px, py) { assert us[j].box == ws[j].box; }
    }
  }

  // The window that is dragged after window i is gone, and after it was raised to the top.
  function Lowered(d: Drag, i: nat): Drag {
    match d
    case NoDrag => NoDrag
    case Drag(t, x, y, e) => if t == i then NoDrag else if t > i then Drag(t - 1, x, y, e) else d
  }

  function Raised(d: Drag, i: nat, n: nat): Drag
    requires n > 0
  {
    match d
    case NoDrag => NoDrag
    case Drag(t, x, y, e) => if t == i then Drag(n - 1, x, y, e) else if t > i then Drag(t - 1, x, y, e) else d
  }

  // A drag goes on with the same window, wherever in the stack that is, and ends with the window.
  lemma DragFollows(ws: seq<Window>, d: Drag, i: nat)
    requires d.Drag? && i < |ws| && d.target < |ws|
    ensures var e, us := Lowered(d, i), ws[..i] + ws[i + 1..];
            if d.target == i then e == NoDrag else e.Drag? && e.target < |us| && us[e.target] == ws[d.target] && e == d.(target := e.target)
    ensures var e, us := Raised(d, i, |ws|), ws[..i] + ws[i + 1..] + [ws[i]];
            e.Drag? && e.target < |us| && us[e.target] == ws[d.target] && e == d.(target := e.target)
  {
  }

  lemma RaisedHeld(ws: seq<Window>, i: nat, d: Drag)
    requires HeldOk(ws, d) && i < |ws|
    ensures HeldOk(ws[..i] + ws[i + 1..] + [ws[i]], Raised(d, i, |ws|))
  {
  }

  // A window dragged by its title bar is held inside.
  ghost predicate HeldOk(ws: seq<Window>, d: Drag) {
    d.Drag? ==> d.target < |ws| && !ws[d.target].desktop && (d.edges.None() ==> 0 <= d.offX < ws[d.target].box.w)
  }

  function Stained(ws: seq<Window>): (r: seq<Window>)
    ensures |r| == |ws| && forall i :: 0 <= i < |ws| ==> r[i] == ws[i].(dirty := true)
  {
    seq(|ws|, i requires 0 <= i < |ws| => ws[i].(dirty := true))
  }

  lemma DirtyOk(w: Window, d: bool)
    requires WindowOk(w)
    ensures WindowOk(w.(dirty := d))
  {
  }

  lemma ClippedOk(w: Window, clip: seq<nat>)
    requires WindowOk(w)
    ensures WindowOk(w.(clip := clip))
  {
  }

  lemma MaximizeClip(w: Window, width: nat, height: nat, memory: bool)
    ensures var t := MaximizeToggled(w, width, height, memory); t.clip == w.clip && t.desktop == w.desktop && t.flags == w.flags
  {
  }

  lemma MinimizeClip(w: Window, memory: bool)
    ensures var t := MinimizeToggled(w, memory); t.clip == w.clip && t.desktop == w.desktop && t.flags == w.flags
  {
  }

  lemma LinkedSum(ws: seq<Window>, w: Window, was: seq<nat>, free: seq<nat>, clip: seq<nat>, n: nat)
    requires multiset(was) + ClipSum(ws) == Full(n) && was == clip + free
    ensures multiset(free) + ClipSum(ws + [w.(clip := clip)]) == Full(n)
  {
    hide Full, ClipSum;
    ClipSumLast(ws, w.(clip := clip));
    assert multiset(was) == multiset(clip) + multiset(free);
    forall x: nat ensures (multiset(free) + (ClipSum(ws) + multiset(clip)))[x] == (multiset(was) + ClipSum(ws))[x] { }
  }

  lemma LinkedHeld(ws: seq<Window>, w: Window, d: Drag)
    requires HeldOk(ws, d)
    ensures HeldOk(ws + [w], d)
  {
  }

  lemma {:induction false} SameClips(a: seq<Window>, b: seq<Window>)
    requires |a| == |b| && forall i :: 0 <= i < |a| ==> a[i].clip == b[i].clip
    ensures ClipSum(a) == ClipSum(b)
    decreases |a|
  {
    if a != [] { SameClips(a[1..], b[1..]); }
  }

  ghost predicate SameStored(a: seq<Rect>, b: seq<Rect>, ids: seq<nat>) {
    |a| == |b| && forall x :: x in ids && x < |a| ==> a[x] == b[x]
  }

  ghost predicate DrawnOn(storage: seq<Rect>, ws: seq<Window>, i: nat, width: nat, height: nat, lost: bool) {
    i < |ws| && Listed(storage, ws[i].clip) && Exact(ws, i, width, height, Deref(storage, ws[i].clip), lost)
  }

  // The list of a window depends on where it and the others are, and on its own rectangles.
  lemma DrawnSame(a: seq<Rect>, b: seq<Rect>, ws: seq<Window>, us: seq<Window>, i: nat, width: nat, height: nat, lost: bool)
    requires |ws| == |us| && i < |ws| && us[i].clip == ws[i].clip && SameStored(b, a, ws[i].clip)
    requires forall k :: 0 <= k < |ws| ==> SameButClip(ws[k], us[k])
    ensures DrawnOn(b, us, i, width, height, lost) <==> DrawnOn(a, ws, i, width, height, lost)
  {
    hide Exact;
    if Listed(a, ws[i].clip) {
      SameRects(a, b, ws[i].clip);
      if Exact(ws, i, width, height, Deref(a, ws[i].clip), lost) { ExactKept(ws, us, i, width, height, Deref(a, ws[i].clip), lost, lost); }
      if Exact(us, i, width, height, Deref(a, ws[i].clip), lost) { ExactKept(us, ws, i, width, height, Deref(a, ws[i].clip), lost, lost); }
    }
  }

  // Either everything is dirty, or nothing has changed but that some windows are dirty now.
  ghost predicate Dirtier(ws: seq<Window>, us: seq<Window>) {
    (forall k :: 0 <= k < |us| ==> us[k].dirty) || (|us| == |ws| && forall k :: 0 <= k < |ws| ==> us[k] == ws[k] || us[k] == ws[k].(dirty := true))
  }

  lemma DirtierOn(ws: seq<Window>, us: seq<Window>, vs: seq<Window>)
    requires Dirtier(ws, us) && Dirtier(us, vs)
    ensures Dirtier(ws, vs)
  {
  }

  ghost predicate SameButClip(a: Window, b: Window) {
    a == b.(clip := a.clip, dirty := a.dirty)
  }

  ghost predicate Listed(storage: seq<Rect>, ids: seq<nat>) {
    forall k :: 0 <= k < |ids| ==> ids[k] < |storage|
  }

  lemma SameRects(a: seq<Rect>, b: seq<Rect>, ids: seq<nat>)
    requires |a| == |b| && Listed(a, ids) && forall x :: x in ids && x < |a| ==> b[x] == a[x]
    ensures Listed(b, ids) && Deref(b, ids) == Deref(a, ids)
  {
  }

  lemma ExactKept(a: seq<Window>, b: seq<Window>, i: nat, width: nat, height: nat, rs: seq<Rect>, lost: bool, lost': bool)
    requires |a| == |b| && i < |a| && forall j :: 0 <= j < |a| ==> SameButClip(a[j], b[j])
    requires Exact(a, i, width, height, rs, lost) && (lost ==> lost')
    ensures Exact(b, i, width, height, rs, lost')
  {
    forall px, py ensures Visible(a, i, width, height, px, py) <==> Visible(b, i, width, height, px, py) {
    }
  }

  lemma {:induction false} ClipSumJoin(a: seq<Window>, b: seq<Window>)
    ensures ClipSum(a + b) == ClipSum(a) + ClipSum(b)
    decreases |a|
  {
    hide ClipSum;
    ClipSumUnfold(a);
    ClipSumUnfold(a + b);
    if a == [] {
      assert a + b == b;
      assert multiset{} + ClipSum(b) == ClipSum(b);
    } else {
      ClipSumJoin(a[1..], b);
      assert (a + b)[1..] == a[1..] + b;
      Assoc(multiset(a[0].clip), ClipSum(a[1..]), ClipSum(b));
    }
  }

  lemma ClipSumUnfold(ws: seq<Window>)
    ensures ClipSum(ws) == if ws == [] then multiset{} else multiset(ws[0].clip) + ClipSum(ws[1..])
  {
  }

  lemma Assoc(a: multiset<nat>, b: multiset<nat>, c: multiset<nat>)
    ensures a + (b + c) == (a + b) + c
  {
  }

  lemma ClipSumOne(w: Window)
    ensures ClipSum([w]) == multiset(w.clip)
  {
    assert [w][1..] == [];
    assert ClipSum([w]) == multiset(w.clip) + ClipSum([]);
  }

  lemma ClipSumSplit(ws: seq<Window>, i: nat)
    requires i < |ws|
    ensures ClipSum(ws) == ClipSum(ws[..i] + ws[i + 1..]) + multiset(ws[i].clip)
  {
    hide ClipSum;
    var a, b := ws[..i], ws[i + 1..];
    assert ws == a + ([ws[i]] + b);
    ClipSumJoin(a, [ws[i]] + b);
    ClipSumJoin([ws[i]], b);
    ClipSumJoin(a, b);
    ClipSumOne(ws[i]);
  }

  lemma ClipSumLast(ws: seq<Window>, w: Window)
    ensures ClipSum(ws + [w]) == ClipSum(ws) + multiset(w.clip)
  {
    hide ClipSum;
    ClipSumJoin(ws, [w]);
    ClipSumOne(w);
  }

  // The window's rectangle cut to the screen, in unsigned 64-bit arithmetic: where the window ends left of (or
  // above) the screen, its new width (height) wraps around and is cut to the whole screen's.
  function OnScreen(b: Rect, width: nat, floor: int): Rect {
    var x := if b.x < 0 then 0 else b.x;
    var w := if b.x < 0 then b.w + b.x else b.w;
    var w' := if w < 0 || x + w > width then width - x else w;
    var y := if b.y < 0 then 0 else b.y;
    var h := if b.y < 0 then b.h + b.y else b.h;
    if h < 0 || y + h > floor then (if y >= floor then Rect(0, 0, 0, 0) else Rect(x, y, w', floor - y))
    else Rect(x, y, w', h)
  }

  predicate OnScreenPixel(b: Rect, width: nat, floor: int, px: int, py: int) {
    In(b, px, py) && 0 <= px < width && 0 <= py < floor
  }

  // The window does not end left of the screen or above it.
  predicate Reaching(b: Rect) {
    b.x + b.w >= 0 && b.y + b.h >= 0
  }

  lemma OnScreenMeans(b: Rect, width: nat, floor: nat, px: int, py: int)
    requires Solid(b) && Reaching(b)
    ensures Solid(OnScreen(b, width, floor)) && In(OnScreen(b, width, floor), px, py) <==> OnScreenPixel(b, width, floor, px, py)
  {
  }

  // The cut rectangle is the part of the window on the screen exactly when the window does not end left of the
  // screen or above it, or lies beyond the other edge, or no pixel is left anyway.
  lemma OnScreenExactIff(b: Rect, width: nat, floor: nat)
    requires Solid(b)
    ensures (forall px, py :: Solid(OnScreen(b, width, floor)) && In(OnScreen(b, width, floor), px, py) <==>
                              OnScreenPixel(b, width, floor, px, py))
            <==> Reaching(b) || b.x >= width || b.y >= floor || width == 0 || floor == 0 || b.x + b.w == 0 || b.y + b.h == 0
  {
    var r := OnScreen(b, width, floor);
    if Reaching(b) {
      forall px, py ensures Solid(r) && In(r, px, py) <==> OnScreenPixel(b, width, floor, px, py) {
        OnScreenMeans(b, width, floor, px, py);
      }
    } else {
      forall px, py ensures !OnScreenPixel(b, width, floor, px, py) {}
      if Solid(r) { assert In(r, r.x, r.y); }
    }
  }

  // A rectangle wholly left of the screen would be given the whole width of the screen.
  lemma OffScreenShown()
    ensures var b := Rect(-20, 0, 10, 10); In(OnScreen(b, 640, 480), 0, 0) && !OnScreenPixel(b, 640, 480, 0, 0)
  {
  }

  // In the cut rectangle, and in no window from i + 1 up to n.
  ghost predicate Reaches(ws: seq<Window>, i: nat, n: nat, width: nat, height: nat, px: int, py: int)
    requires i < |ws| && n <= |ws|
  {
    var r := OnScreen(ws[i].box, width, Floor(ws[i], height));
    Solid(r) && In(r, px, py) && forall j :: i < j < n ==> !In(ws[j].box, px, py)
  }

  ghost predicate Shows(ws: seq<Window>, i: nat, n: nat, width: nat, height: nat, rs: seq<Rect>, lost: bool) {
    && i < |ws| && n <= |ws| && AllSolid(rs) && Disjoint(rs)
    && (forall px, py :: Covered(rs, px, py) ==> Reaches(ws, i, n, width, height, px, py))
    && (!lost ==> forall px, py :: Reaches(ws, i, n, width, height, px, py) ==> Covered(rs, px, py))
  }

  lemma ShowsExactly(ws: seq<Window>, i: nat, width: nat, height: nat, rs: seq<Rect>, lost: bool)
    requires Shows(ws, i, |ws|, width, height, rs, lost) && WindowOk(ws[i]) && height >= TASKBAR_HEIGHT
    ensures Exact(ws, i, width, height, rs, lost)
  {
    forall px, py ensures Reaches(ws, i, |ws|, width, height, px, py) <==> Visible(ws, i, width, height, px, py) {
      hide OnScreen;
      OnScreenMeans(ws[i].box, width, Floor(ws[i], height), px, py);
    }
  }

  lemma ShowsNothing(ws: seq<Window>, i: nat, width: nat, height: nat)
    requires i < |ws|
    ensures Shows(ws, i, |ws|, width, height, [], true)
  {
  }

  lemma ShowsEmpty(ws: seq<Window>, i: nat, width: nat, height: nat)
    requires i < |ws| && !Solid(OnScreen(ws[i].box, width, Floor(ws[i], height)))
    ensures Shows(ws, i, |ws|, width, height, [], false)
  {
  }

  lemma ShowsBase(ws: seq<Window>, i: nat, width: nat, height: nat)
    requires i < |ws| && Solid(OnScreen(ws[i].box, width, Floor(ws[i], height)))
    ensures Shows(ws, i, i + 1, width, height, [OnScreen(ws[i].box, width, Floor(ws[i], height))], false)
  {
    hide OnScreen;
    var r := OnScreen(ws[i].box, width, Floor(ws[i], height));
    forall px, py ensures Covered([r], px, py) <==> Reaches(ws, i, i + 1, width, height, px, py) {
      CoveredOne(r, px, py);
    }
  }

  lemma ShowsTidy(ws: seq<Window>, i: nat, n: nat, width: nat, height: nat, rs: seq<Rect>, lost: bool)
    requires Shows(ws, i, n, width, height, rs, lost)
    ensures AllSolid(rs) && Disjoint(rs)
  {
  }

  lemma ShowsStep(ws: seq<Window>, i: nat, j: nat, width: nat, height: nat, rs: seq<Rect>, lost: bool,
                  made: seq<Rect>, miss: bool)
    requires i < j < |ws| && Shows(ws, i, j, width, height, rs, lost)
    requires Clipped(rs, |rs|, ws[j].box, made, miss)
    ensures Shows(ws, i, j + 1, width, height, made, lost || miss)
  {
    assert rs[..|rs|] == rs;
    hide AllSolid, Disjoint, Covered;
  }

  lemma SameShows(a: seq<Window>, b: seq<Window>, i: nat, width: nat, height: nat, rs: seq<Rect>, lost: bool)
    requires |a| == |b| && Shows(a, i, |a|, width, height, rs, lost)
    requires forall j :: 0 <= j < |a| ==> a[j].box == b[j].box && a[j].desktop == b[j].desktop
    ensures Shows(b, i, |b|, width, height, rs, lost)
  {
    hide OnScreen;
    forall px, py ensures Reaches(a, i, |a|, width, height, px, py) <==> Reaches(b, i, |b|, width, height, px, py) {
    }
  }

  lemma HeldDeref(storage: seq<Rect>, ids: seq<nat>, rs: seq<Rect>)
    requires Holds(storage, ids, rs)
    ensures (forall k :: 0 <= k < |ids| ==> ids[k] < |storage|) && Deref(storage, ids) == rs
  {
  }

  lemma Returned(f: multiset<nat>, ids: multiset<nat>, sum: multiset<nat>, sum': multiset<nat>, full: multiset<nat>)
    requires f + sum == full && sum' + ids == sum + multiset{}
    ensures (f + ids) + sum' == full
  {
    forall x: nat ensures ((f + ids) + sum')[x] == (f + sum)[x] {
      assert (sum' + ids)[x] == (sum + multiset{})[x];
    }
  }

  lemma OneOff(f: multiset<nat>, id: nat, tl: multiset<nat>, sum: multiset<nat>, full: multiset<nat>)
    requires f + (multiset{id} + tl) + sum == full
    ensures f + multiset{id} + (tl + sum) == full
  {
    forall x: nat ensures (f + multiset{id} + (tl + sum))[x] == (f + (multiset{id} + tl) + sum)[x] { }
  }

  lemma Moved(f: multiset<nat>, ids: multiset<nat>, rest: multiset<nat>, sum': multiset<nat>, full: multiset<nat>)
    requires f + ids + rest == full && sum' + multiset{} == rest + ids
    ensures f + sum' == full
  {
    forall x: nat ensures (f + sum')[x] == (f + ids + rest)[x] {
      assert (sum' + multiset{})[x] == (rest + ids)[x];
    }
  }

  lemma Takes(all: multiset<nat>, one: multiset<nat>, left: multiset<nat>, rest: multiset<nat>)
    requires all == one + left
    ensures left + one + rest == all + rest
  {
  }

  ghost predicate HoldsFrom(storage: seq<Rect>, cur: seq<nat>, rs: seq<Rect>, k: nat) {
    |rs| == |cur| && forall n :: k <= n < |cur| ==> cur[n] < |storage| && storage[cur[n]] == rs[n]
  }

  // made holds disjoint parts of rs[..k] outside c - all there are, unless something was lost.
  ghost predicate Clipped(rs: seq<Rect>, k: nat, c: Rect, made: seq<Rect>, lost: bool) {
    && k <= |rs| && AllSolid(made) && Disjoint(made)
    && (forall px, py :: Covered(made, px, py) ==> Covered(rs[..k], px, py) && !In(c, px, py))
    && (!lost ==> forall px, py :: Covered(rs[..k], px, py) && !In(c, px, py) ==> Covered(made, px, py))
  }

  lemma ClipNone(rs: seq<Rect>, c: Rect)
    ensures Clipped(rs, 0, c, [], false)
  {
  }

  lemma SolidAt(rs: seq<Rect>, k: nat)
    requires AllSolid(rs) && k < |rs|
    ensures Solid(rs[k])
  {
  }

  // Being selected from a disjoint list.
  lemma {:induction false} SelectedMembers(a: seq<Rect>, b: seq<Rect>)
    requires Selected(a, b)
    ensures forall i :: 0 <= i < |a| ==> a[i] in b
    ensures AllSolid(b) ==> AllSolid(a)
    ensures Disjoint(b) ==> Disjoint(a)
    decreases |b|
  {
    if b != [] {
      var b' := b[..|b| - 1];
      assert forall i :: 0 <= i < |b'| ==> b'[i] == b[i];
      if Selected(a, b') {
        SelectedMembers(a, b');
      } else {
        var a' := a[..|a| - 1];
        SelectedMembers(a', b');
        if Disjoint(b) {
          forall i, j | 0 <= i < j < |a| ensures Apart(a[i], a[j]) {
            if j == |a| - 1 {
              assert a'[i] in b';
              var n :| 0 <= n < |b'| && b'[n] == a'[i];
              assert Apart(b[n], b[|b| - 1]);
            } else {
              assert a[i] == a'[i] && a[j] == a'[j];
            }
          }
        }
      }
    }
  }

  lemma CoveredBy(a: seq<Rect>, b: seq<Rect>, px: int, py: int)
    requires forall i :: 0 <= i < |a| ==> a[i] in b
    ensures Covered(a, px, py) ==> Covered(b, px, py)
  {
    if Covered(a, px, py) {
      var i :| 0 <= i < |a| && In(a[i], px, py);
      var n :| 0 <= n < |b| && b[n] == a[i];
      assert In(b[n], px, py);
    }
  }

  lemma CoveredSum(a: seq<Rect>, b: seq<Rect>, px: int, py: int)
    ensures Covered(a + b, px, py) <==> Covered(a, px, py) || Covered(b, px, py)
  {
    if Covered(a, px, py) {
      var i :| 0 <= i < |a| && In(a[i], px, py);
      assert In((a + b)[i], px, py);
    }
    if Covered(b, px, py) {
      var i :| 0 <= i < |b| && In(b[i], px, py);
      assert In((a + b)[|a| + i], px, py);
    }
  }

  lemma FragPixel(r: Rect, c: Rect, frag: seq<Rect>, px: int, py: int)
    requires Solid(r) && Solid(c) && Selected(frag, Pieces(r, c))
    ensures Covered(frag, px, py) ==> In(r, px, py) && !In(c, px, py)
    ensures frag == Pieces(r, c) && In(r, px, py) && !In(c, px, py) ==> Covered(frag, px, py)
  {
    hide Pieces, Selected;
    PiecesExact(r, c);
    SelectedMembers(frag, Pieces(r, c));
    CoveredBy(frag, Pieces(r, c), px, py);
  }

  lemma FragTidy(r: Rect, c: Rect, frag: seq<Rect>)
    requires Solid(r) && Solid(c) && Selected(frag, Pieces(r, c))
    ensures AllSolid(frag) && Disjoint(frag)
  {
    hide Pieces, Selected;
    PiecesExact(r, c);
    SelectedMembers(frag, Pieces(r, c));
  }

  lemma ClipStep(rs: seq<Rect>, k: nat, c: Rect, made: seq<Rect>, frag: seq<Rect>, lost: bool)
    requires k < |rs| && AllSolid(rs) && Disjoint(rs) && Solid(c)
    requires Clipped(rs, k, c, made, lost) && Selected(frag, Pieces(rs[k], c))
    ensures Clipped(rs, k + 1, c, made + frag, lost || frag != Pieces(rs[k], c))
  {
    hide Pieces, Selected, Solid, In;
    SolidAt(rs, k);
    FragTidy(rs[k], c, frag);
    assert rs[..k + 1] == rs[..k] + [rs[k]];
    forall px, py
      ensures Covered(frag, px, py) ==> In(rs[k], px, py) && !In(c, px, py)
      ensures frag == Pieces(rs[k], c) && In(rs[k], px, py) && !In(c, px, py) ==> Covered(frag, px, py)
      ensures Covered(made + frag, px, py) <==> Covered(made, px, py) || Covered(frag, px, py)
      ensures Covered(rs[..k + 1], px, py) <==> Covered(rs[..k], px, py) || In(rs[k], px, py)
    {
      FragPixel(rs[k], c, frag, px, py);
      CoveredSum(made, frag, px, py);
      CoveredSum(rs[..k], [rs[k]], px, py);
      CoveredOne(rs[k], px, py);
    }
    JoinDisjoint(rs, k, c, made, frag);
    hide Covered, Disjoint;
  }

  lemma JoinDisjoint(rs: seq<Rect>, k: nat, c: Rect, made: seq<Rect>, frag: seq<Rect>)
    requires k < |rs| && Disjoint(rs) && Disjoint(made) && Disjoint(frag)
    requires forall px, py :: Covered(made, px, py) ==> Covered(rs[..k], px, py)
    requires forall px, py :: Covered(frag, px, py) ==> In(rs[k], px, py)
    ensures Disjoint(made + frag)
  {
    hide In, Covered, Apart;
    forall i, j | 0 <= i < j < |made + frag| ensures Apart((made + frag)[i], (made + frag)[j]) {
      if i < |made| <= j {
        StepApart(rs, k, c, made, frag, i, j - |made|);
      } else if i >= |made| {
        assert Apart(frag[i - |made|], frag[j - |made|]);
      }
    }
  }

  lemma CoveredOne(r: Rect, px: int, py: int)
    ensures Covered([r], px, py) <==> In(r, px, py)
  {
    if In(r, px, py) { assert In([r][0], px, py); }
  }

  // A part of an earlier rectangle and a part of rs[k] share no pixel.
  lemma StepApart(rs: seq<Rect>, k: nat, c: Rect, made: seq<Rect>, frag: seq<Rect>, i: nat, j: nat)
    requires k < |rs| && Disjoint(rs) && i < |made| && j < |frag|
    requires forall px, py :: Covered(made, px, py) ==> Covered(rs[..k], px, py)
    requires forall px, py :: Covered(frag, px, py) ==> In(rs[k], px, py)
    ensures Apart(made[i], frag[j])
  {
    forall px, py ensures !(In(made[i], px, py) && In(frag[j], px, py)) {
      if In(made[i], px, py) && In(frag[j], px, py) {
        assert Covered(made, px, py) && Covered(frag, px, py);
      }
    }
  }

  lemma KeptIn(a: seq<Rect>, b: seq<Rect>, ids: seq<nat>, rs: seq<Rect>, live: multiset<nat>)
    requires |a| == |b| && Holds(a, ids, rs) && multiset(ids) <= live
    requires forall x :: 0 <= x < |a| && x in live ==> b[x] == a[x]
    ensures Holds(b, ids, rs)
  {
    forall k | 0 <= k < |ids| ensures ids[k] < |b| && b[ids[k]] == rs[k] {
      assert ids[k] in multiset(ids);
    }
  }

  lemma KeptTail(a: seq<Rect>, b: seq<Rect>, cur: seq<nat>, k: nat, rs: seq<Rect>, live: multiset<nat>)
    requires |a| == |b| && k <= |cur| && multiset(cur[k..]) <= live && HoldsFrom(a, cur, rs, k)
    requires forall x :: 0 <= x < |a| && x in live ==> b[x] == a[x]
    ensures HoldsFrom(b, cur, rs, k)
  {
    forall n | k <= n < |cur| ensures b[cur[n]] == rs[n] {
      assert cur[k..][n - k] == cur[n];
      assert cur[n] in multiset(cur[k..]);
    }
  }

  lemma HoldsJoin(storage: seq<Rect>, a: seq<nat>, rs: seq<Rect>, b: seq<nat>, ss: seq<Rect>)
    requires Holds(storage, a, rs) && Holds(storage, b, ss)
    ensures Holds(storage, a + b, rs + ss)
  {
  }

  lemma RestSame(a: seq<Rect>, b: seq<Rect>, live: multiset<nat>, rest: multiset<nat>)
    requires |a| == |b| && rest <= live && forall x :: 0 <= x < |a| && x in live ==> b[x] == a[x]
    ensures forall x :: 0 <= x < |a| && x in rest ==> b[x] == a[x]
  {
  }

  lemma HandedOn(f: multiset<nat>, cur: seq<nat>, k: nat, out: seq<nat>, ids: seq<nat>, rest: multiset<nat>, full: multiset<nat>)
    requires k < |cur| && f + multiset(ids) + (multiset(cur[k..]) + multiset(out) + rest) == full
    ensures f + multiset{cur[k]} + (multiset(cur[k + 1..]) + multiset(out + ids) + rest) == full
  {
    assert cur[k..] == [cur[k]] + cur[k + 1..];
    assert multiset(cur[k..]) == multiset{cur[k]} + multiset(cur[k + 1..]);
    Handed(f, multiset{cur[k]}, multiset(cur[k + 1..]), multiset(out), multiset(ids), rest, full);
    assert multiset(out + ids) == multiset(out) + multiset(ids);
  }

  // Handing one rectangle back balances what was taken for its parts.
  lemma Handed(f: multiset<nat>, one: multiset<nat>, tl: multiset<nat>, out: multiset<nat>, ids: multiset<nat>,
               rest: multiset<nat>, full: multiset<nat>)
    requires f + ids + ((one + tl) + out + rest) == full
    ensures f + one + (tl + (out + ids) + rest) == full
  {
    forall x: nat ensures (f + one + (tl + (out + ids) + rest))[x] == (f + ids + ((one + tl) + out + rest))[x] {
    }
  }

  // The nodes ids hold the rectangles rs.
  ghost predicate Holds(storage: seq<Rect>, ids: seq<nat>, rs: seq<Rect>) {
    |rs| == |ids| && forall k :: 0 <= k < |ids| ==> ids[k] < |storage| && storage[ids[k]] == rs[k]
  }

  // a is b with some members left out.
  ghost predicate Selected(a: seq<Rect>, b: seq<Rect>) {
    if b == [] then a == []
    else Selected(a, b[..|b| - 1]) || (a != [] && a[|a| - 1] == b[|b| - 1] && Selected(a[..|a| - 1], b[..|b| - 1]))
  }

  lemma SelectNone()
    ensures Selected([], [])
  {
  }

  lemma SelectStep(a: seq<Rect>, b: seq<Rect>, r: Rect, taken: bool)
    requires Selected(a, b)
    ensures Selected(if taken then a + [r] else a, b + [r])
  {
    assert (b + [r])[..|b|] == b && (a + [r])[..|a|] == a;
  }

  lemma InPool(s: seq<nat>, m: multiset<nat>, n: nat)
    requires multiset(s) + m == Full(n)
    ensures forall x :: x in s ==> x < n
  {
    forall x | x in s ensures x < n {
      assert x in multiset(s);
      assert Full(n)[x] > 0;
    }
  }

  lemma Pass(f: multiset<nat>, one: multiset<nat>, ids: multiset<nat>, rest: multiset<nat>, full: multiset<nat>)
    requires (one + f) + ids + rest == full
    ensures f + (ids + one) + rest == full
  {
    forall x: nat ensures (f + (ids + one) + rest)[x] == ((one + f) + ids + rest)[x] {
    }
  }

  // The head of the free list is in no other list.
  lemma OnlyOnce(s: seq<nat>, m: multiset<nat>, n: nat, x: nat)
    requires multiset(s) + m == Full(n) && x in s
    ensures x !in m
  {
    assert x in multiset(s);
    assert Full(n)[x] <= 1;
  }

  lemma {:induction false} UpTo(n: nat)
    ensures multiset(seq(n, i requires 0 <= i < n => i)) == Full(n)
  {
    if n > 0 {
      UpTo(n - 1);
      assert seq(n, i requires 0 <= i < n => i) == seq(n - 1, i requires 0 <= i < n - 1 => i) + [n - 1];
    }
  }
}
