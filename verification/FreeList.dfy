/**
 The kernel heap's free list as a value (src/mem/kmalloc.c).

 A free list is kept in address order with no two blocks touching.  Such a list is determined by the bytes it
 covers, so the free list is a function of the frames the heap was given and of the blocks that are live.
 */
module FreeList {

  import opened PageTypes

  const HEADER: nat := 16  // sizeof(FreeBlock)

  datatype Block = Block(addr: nat, size: nat)

  function End(b: Block): nat {
    b.addr + b.size
  }

  predicate Holds(b: Block, x: nat) {
    b.addr <= x < End(b)
  }

  // Room for a header, at a place where a header may stand.
  predicate Sound(b: Block) {
    b.addr > 0 && b.size >= HEADER && b.addr % 16 == 0 && b.size % 16 == 0
  }

  // In address order, with a gap between any two.
  ghost predicate Ordered(f: seq<Block>) {
    && (forall i :: 0 <= i < |f| ==> Sound(f[i]))
    && (forall i, j :: 0 <= i < j < |f| ==> End(f[i]) < f[j].addr)
  }

  ghost predicate In(f: seq<Block>, x: nat) {
    exists i :: 0 <= i < |f| && Holds(f[i], x)
  }

  // ---------- A list is its bytes ----------

  lemma TailBytes(f: seq<Block>, x: nat)
    requires Ordered(f) && f != []
    ensures In(f[1..], x) <==> In(f, x) && x >= End(f[0])
  {
    if In(f, x) && x >= End(f[0]) {
      var i :| 0 <= i < |f| && Holds(f[i], x);
      assert f[1..][i - 1] == f[i];
    }
    if In(f[1..], x) {
      var i :| 0 <= i < |f[1..]| && Holds(f[1..][i], x);
      assert f[i + 1] == f[1..][i];
    }
  }

  // The first block of a list runs from the first byte covered to the first byte that is not.
  lemma FirstBlock(f: seq<Block>)
    requires Ordered(f) && f != []
    ensures In(f, f[0].addr) && !In(f, End(f[0])) && Sound(f[0])
    ensures forall x: nat :: x < f[0].addr ==> !In(f, x)
    ensures forall x: nat :: Holds(f[0], x) ==> In(f, x)
  {
    assert Holds(f[0], f[0].addr);
  }

  ghost predicate SameBytes(f: seq<Block>, g: seq<Block>) {
    forall x: nat :: In(f, x) <==> In(g, x)
  }

  // Two lists that cover the same bytes are the same list.
  lemma {:induction false} ListIsItsBytes(f: seq<Block>, g: seq<Block>)
    requires Ordered(f) && Ordered(g) && SameBytes(f, g)
    ensures f == g
    decreases |f|
  {
    if f == [] {
      if g != [] { FirstBlock(g); }
    } else {
      FirstBlock(f);
      assert In(g, f[0].addr);
      FirstBlock(g);
      SameFirst(f, g);
      forall x: nat ensures In(f[1..], x) <==> In(g[1..], x) {
        TailBytes(f, x);
        TailBytes(g, x);
      }
      ListIsItsBytes(f[1..], g[1..]);
      assert f == [f[0]] + f[1..] && g == [g[0]] + g[1..];
    }
  }

  lemma SameFirst(f: seq<Block>, g: seq<Block>)
    requires Ordered(f) && Ordered(g) && f != [] && g != [] && SameBytes(f, g)
    ensures f[0] == g[0]
  {
    hide Ordered, In;
    FirstBlock(f);
    FirstBlock(g);
    assert f[0].addr == g[0].addr by {
      assert In(g, f[0].addr) && In(f, g[0].addr);
    }
    assert !Holds(g[0], End(f[0])) && !Holds(f[0], End(g[0]));
  }

  // ---------- Putting a block back ----------

  // b lies between the blocks before place k and those from k on.
  ghost predicate Between(f: seq<Block>, k: nat, b: Block) {
    && k <= |f|
    && (forall i :: 0 <= i < k ==> End(f[i]) <= b.addr)
    && (forall i :: k <= i < |f| ==> End(b) <= f[i].addr)
  }

  // With its upper neighbour, if they touch.
  function JoinNext(f: seq<Block>, k: nat, b: Block): seq<Block>
    requires k <= |f|
  {
    if k < |f| && End(b) == f[k].addr then f[..k] + [Block(b.addr, b.size + f[k].size)] + f[k + 1..]
    else f[..k] + [b] + f[k..]
  }

  // The block at k with its lower neighbour, if they touch.
  function JoinPrev(f: seq<Block>, k: nat): seq<Block>
    requires k < |f|
  {
    if k > 0 && End(f[k - 1]) == f[k].addr then f[..k - 1] + [Block(f[k - 1].addr, f[k - 1].size + f[k].size)] + f[k + 1..]
    else f
  }

  function Put(f: seq<Block>, k: nat, b: Block): seq<Block>
    requires k <= |f|
  {
    JoinPrev(JoinNext(f, k, b), k)
  }

  // In order but for the block at k, which may touch the one before it.
  ghost predicate OrderedBut(f: seq<Block>, k: nat) {
    && (forall i :: 0 <= i < |f| ==> Sound(f[i]))
    && (forall i, j :: 0 <= i < j < |f| && !(j == k && i == k - 1) ==> End(f[i]) < f[j].addr)
    && (0 < k < |f| ==> End(f[k - 1]) <= f[k].addr)
  }

  lemma JoinNextOrdered(f: seq<Block>, k: nat, b: Block)
    requires Ordered(f) && Sound(b) && Between(f, k, b)
    ensures OrderedBut(JoinNext(f, k, b), k) && k < |JoinNext(f, k, b)|
  {
    if k < |f| && End(b) == f[k].addr {
      WidenOrdered(f, k, b);
    } else {
      InsertOrdered(f, k, b);
    }
  }

  lemma WidenOrdered(f: seq<Block>, k: nat, b: Block)
    requires Ordered(f) && Sound(b) && Between(f, k, b) && k < |f| && End(b) == f[k].addr
    ensures OrderedBut(f[..k] + [Block(b.addr, b.size + f[k].size)] + f[k + 1..], k)
  {
    var g := f[..k] + [Block(b.addr, b.size + f[k].size)] + f[k + 1..];
    assert g == f[k := Block(b.addr, b.size + f[k].size)];
    Before(f, k, b);
  }

  lemma InsertOrdered(f: seq<Block>, k: nat, b: Block)
    requires Ordered(f) && Sound(b) && Between(f, k, b) && (k < |f| ==> End(b) != f[k].addr)
    ensures OrderedBut(f[..k] + [b] + f[k..], k)
  {
    hide Sound;
    var g := f[..k] + [b] + f[k..];
    Before(f, k, b);
    forall i | 0 <= i < |g| ensures Sound(g[i]) { InsertedAt(f, k, b, i); }
    forall i, j | 0 <= i < j < |g| && !(j == k && i == k - 1) ensures End(g[i]) < g[j].addr {
      InsertedAt(f, k, b, i);
      InsertedAt(f, k, b, j);
    }
    if 0 < k { InsertedAt(f, k, b, k - 1); }
  }

  lemma InsertedAt(f: seq<Block>, k: nat, b: Block, i: nat)
    requires k <= |f| && i <= |f|
    ensures (f[..k] + [b] + f[k..])[i] == if i < k then f[i] else if i == k then b else f[i - 1]
  {
  }

  // Only the block just before k can touch b.
  lemma Before(f: seq<Block>, k: nat, b: Block)
    requires Ordered(f) && Sound(b) && Between(f, k, b)
    ensures forall i :: 0 <= i < k - 1 ==> End(f[i]) < b.addr
    ensures forall i :: k < i < |f| ==> End(b) < f[i].addr
  {
    if k > 0 {
      forall i | 0 <= i < k - 1 ensures End(f[i]) < b.addr { assert End(f[i]) < f[k - 1].addr && Sound(f[k - 1]); }
    }
    if k < |f| {
      forall i | k < i < |f| ensures End(b) < f[i].addr { assert End(f[k]) < f[i].addr && Sound(f[k]); }
    }
  }

  lemma JoinPrevOrdered(f: seq<Block>, k: nat)
    requires OrderedBut(f, k) && k < |f|
    ensures Ordered(JoinPrev(f, k))
  {
    var g := JoinPrev(f, k);
    if k > 0 && End(f[k - 1]) == f[k].addr {
      assert forall i :: 0 <= i < |g| ==>
        g[i] == if i < k - 1 then f[i] else if i == k - 1 then Block(f[k - 1].addr, f[k - 1].size + f[k].size) else f[i + 1];
    }
  }

  lemma JoinNextBytes(f: seq<Block>, k: nat, b: Block, x: nat)
    requires k <= |f|
    ensures In(JoinNext(f, k, b), x) <==> In(f, x) || Holds(b, x)
  {
    var g := JoinNext(f, k, b);
    var joined := k < |f| && End(b) == f[k].addr;
    if In(f, x) {
      var i :| 0 <= i < |f| && Holds(f[i], x);
      assert Holds(g[if joined || i < k then i else i + 1], x);
    }
    if Holds(b, x) { assert Holds(g[k], x); }
    if In(g, x) {
      var i :| 0 <= i < |g| && Holds(g[i], x);
      if i != k || (joined && !Holds(b, x)) { assert Holds(f[if joined || i < k then i else i - 1], x); }
    }
  }

  lemma JoinPrevBytes(f: seq<Block>, k: nat, x: nat)
    requires k < |f|
    ensures In(JoinPrev(f, k), x) <==> In(f, x)
  {
    var g := JoinPrev(f, k);
    if k > 0 && End(f[k - 1]) == f[k].addr {
      if In(f, x) {
        var i :| 0 <= i < |f| && Holds(f[i], x);
        assert Holds(g[if i < k then i else i - 1], x);
      }
      if In(g, x) {
        var i :| 0 <= i < |g| && Holds(g[i], x);
        assert Holds(f[if i < k - 1 then i else if i >= k then i + 1 else if x < f[k].addr then k - 1 else k], x);
      }
    }
  }

  // Freeing adds the block's bytes and keeps the list in order, untouching.
  lemma PutKeeps(f: seq<Block>, k: nat, b: Block)
    requires Ordered(f) && Sound(b) && Between(f, k, b)
    ensures Ordered(Put(f, k, b))
    ensures forall x: nat :: In(Put(f, k, b), x) <==> In(f, x) || Holds(b, x)
  {
    hide Ordered, OrderedBut, In, JoinNext, JoinPrev;
    JoinNextOrdered(f, k, b);
    JoinPrevOrdered(JoinNext(f, k, b), k);
    forall x: nat ensures In(Put(f, k, b), x) <==> In(f, x) || Holds(b, x) {
      JoinNextBytes(f, k, b, x);
      JoinPrevBytes(JoinNext(f, k, b), k, x);
    }
  }

  // ---------- Taking a block out ----------

  function Without(f: seq<Block>, i: nat): seq<Block>
    requires i < |f|
  {
    f[..i] + f[i + 1..]
  }

  lemma WithoutKeeps(f: seq<Block>, i: nat)
    requires Ordered(f) && i < |f|
    ensures Ordered(Without(f, i)) && Sound(f[i]) && Between(Without(f, i), i, f[i])
  {
    var g := Without(f, i);
    assert forall j :: 0 <= j < |g| ==> g[j] == f[if j < i then j else j + 1];
  }

  lemma WithoutBytes(f: seq<Block>, i: nat, x: nat)
    requires Ordered(f) && i < |f|
    ensures In(Without(f, i), x) <==> In(f, x) && !Holds(f[i], x)
  {
    var g := Without(f, i);
    assert forall j :: 0 <= j < |g| ==> g[j] == f[if j < i then j else j + 1];
    if In(f, x) && !Holds(f[i], x) {
      var j :| 0 <= j < |f| && Holds(f[j], x);
      assert Holds(g[if j < i then j else j - 1], x);
    }
    if In(g, x) {
      var j :| 0 <= j < |g| && Holds(g[j], x);
      assert Holds(f[if j < i then j else j + 1], x);
    }
  }

  // The first block of at least n bytes, or the length.
  function FirstFit(f: seq<Block>, n: nat): (i: nat)
    ensures i <= |f|
    ensures i < |f| ==> f[i].size >= n
    ensures forall j :: 0 <= j < i ==> f[j].size < n
  {
    if f == [] then 0 else if f[0].size >= n then 0 else 1 + FirstFit(f[1..], n)
  }

  lemma FirstFitIs(f: seq<Block>, n: nat, i: nat)
    requires i <= |f| && (i < |f| ==> f[i].size >= n) && forall j :: 0 <= j < i ==> f[j].size < n
    ensures FirstFit(f, n) == i
  {
  }

  // ---------- The heap ----------

  // Bytes of live blocks, and of frames.
  ghost predicate InLive(live: map<nat, nat>, x: nat) {
    exists a :: a in live && Holds(Block(a, live[a]), x)
  }

  ghost predicate InFrames(frames: set<nat>, x: nat) {
    exists p :: p in frames && Holds(Block(p, PAGE_SIZE), x)
  }

  predicate Disjoint(b: Block, c: Block) {
    End(b) <= c.addr || End(c) <= b.addr
  }

  ghost predicate LiveOk(live: map<nat, nat>) {
    && (forall a :: a in live ==> Sound(Block(a, live[a])))
    && (forall a, b :: a in live && b in live && a != b ==> Disjoint(Block(a, live[a]), Block(b, live[b])))
  }

  ghost predicate FreeNotLive(f: seq<Block>, live: map<nat, nat>) {
    forall x: nat :: !(In(f, x) && InLive(live, x))
  }

  // Free and live blocks are disjoint, and together they are exactly the frames.
  ghost predicate Tiles(f: seq<Block>, live: map<nat, nat>, frames: set<nat>) {
    FreeNotLive(f, live) && forall x: nat :: In(f, x) || InLive(live, x) <==> InFrames(frames, x)
  }

  ghost predicate HeapOk(f: seq<Block>, live: map<nat, nat>, frames: set<nat>) {
    Ordered(f) && LiveOk(live) && Tiles(f, live, frames)
  }

  // The free list is a function of the frames and the live blocks: whatever was allocated and freed on the
  // way, in whatever order, leaves no trace in it.
  lemma FreeListDetermined(f: seq<Block>, g: seq<Block>, live: map<nat, nat>, frames: set<nat>)
    requires HeapOk(f, live, frames) && HeapOk(g, live, frames)
    ensures f == g
  {
    hide Ordered, In, InLive, InFrames, LiveOk;
    forall x: nat ensures In(f, x) <==> In(g, x) {
      assert In(f, x) || InLive(live, x) <==> InFrames(frames, x);
      assert In(g, x) || InLive(live, x) <==> InFrames(frames, x);
    }
    ListIsItsBytes(f, g);
  }

  lemma LiveAdded(live: map<nat, nat>, a: nat, n: nat, x: nat)
    requires a !in live
    ensures InLive(live[a := n], x) <==> InLive(live, x) || Holds(Block(a, n), x)
  {
    var to := live[a := n];
    if InLive(live, x) {
      var b :| b in live && Holds(Block(b, live[b]), x);
      assert b in to && Holds(Block(b, to[b]), x);
    }
    if Holds(Block(a, n), x) { assert a in to && Holds(Block(a, to[a]), x); }
  }

  lemma LiveDropped(live: map<nat, nat>, a: nat, x: nat)
    requires LiveOk(live) && a in live
    ensures InLive(live - {a}, x) <==> InLive(live, x) && !Holds(Block(a, live[a]), x)
  {
    var to := live - {a};
    if InLive(live, x) && !Holds(Block(a, live[a]), x) {
      var b :| b in live && Holds(Block(b, live[b]), x);
      assert b in to && Holds(Block(b, to[b]), x);
    }
    if InLive(to, x) {
      var b :| b in to && Holds(Block(b, to[b]), x);
      assert b in live && Disjoint(Block(a, live[a]), Block(b, live[b]));
    }
  }

  // The bytes moved from the free list to a new live block.
  ghost predicate Moved(f: seq<Block>, g: seq<Block>, b: Block) {
    forall x: nat :: In(g, x) <==> In(f, x) && !Holds(b, x)
  }

  ghost predicate Inside(f: seq<Block>, b: Block) {
    forall x: nat :: Holds(b, x) ==> In(f, x)
  }

  lemma GiveOut(f: seq<Block>, g: seq<Block>, live: map<nat, nat>, frames: set<nat>, b: Block)
    requires HeapOk(f, live, frames) && Ordered(g) && Sound(b) && Moved(f, g, b) && Inside(f, b)
    ensures b.addr !in live && HeapOk(g, live[b.addr := b.size], frames)
  {
    hide Ordered, In, InLive, InFrames;
    NotLiveYet(f, live, b);
    var to := live[b.addr := b.size];
    forall x: nat
      ensures !(In(g, x) && InLive(to, x)) && (In(g, x) || InLive(to, x) <==> InFrames(frames, x))
    {
      LiveAdded(live, b.addr, b.size, x);
      assert !(In(f, x) && InLive(live, x));
      assert In(f, x) || InLive(live, x) <==> InFrames(frames, x);
      assert In(g, x) <==> In(f, x) && !Holds(b, x);
      assert Holds(b, x) ==> In(f, x);
    }
  }

  lemma NotLiveYet(f: seq<Block>, live: map<nat, nat>, b: Block)
    requires FreeNotLive(f, live) && Inside(f, b) && Sound(b) && LiveOk(live)
    ensures b.addr !in live && LiveOk(live[b.addr := b.size])
  {
    hide In;
    forall a | a in live ensures Disjoint(Block(a, live[a]), b) {
      var l := Block(a, live[a]);
      var x := if a < b.addr then b.addr else a;
      assert Holds(b, x) ==> In(f, x);
      assert Holds(l, x) ==> InLive(live, x);
      assert !(In(f, x) && InLive(live, x));
    }
    assert b.addr in live ==> Disjoint(Block(b.addr, live[b.addr]), b);
    var to := live[b.addr := b.size];
    forall x, y | x in to && y in to && x != y ensures Disjoint(Block(x, to[x]), Block(y, to[y])) {
      if x != b.addr && y != b.addr { assert Disjoint(Block(x, live[x]), Block(y, live[y])); }
    }
  }

  ghost predicate Added(f: seq<Block>, g: seq<Block>, b: Block) {
    forall x: nat :: In(g, x) <==> In(f, x) || Holds(b, x)
  }

  lemma TakeBack(f: seq<Block>, g: seq<Block>, live: map<nat, nat>, frames: set<nat>, a: nat)
    requires HeapOk(f, live, frames) && Ordered(g) && a in live && Added(f, g, Block(a, live[a]))
    ensures HeapOk(g, live - {a}, frames)
  {
    hide Ordered, In, InFrames;
    var to, b := live - {a}, Block(a, live[a]);
    forall x: nat
      ensures !(In(g, x) && InLive(to, x)) && (In(g, x) || InLive(to, x) <==> InFrames(frames, x))
    {
      hide Ordered, In, InFrames, InLive;
      LiveDropped(live, a, x);
      if Holds(b, x) { LiveHolds(live, a, x); }
      assert !(In(f, x) && InLive(live, x));
      assert In(f, x) || InLive(live, x) <==> InFrames(frames, x);
      assert In(g, x) <==> In(f, x) || Holds(b, x);
    }
  }

  lemma LiveHolds(live: map<nat, nat>, a: nat, x: nat)
    requires a in live && Holds(Block(a, live[a]), x)
    ensures InLive(live, x)
  {
  }

  // No byte of a new page is in use, and the list takes it in.
  lemma PageAdded(f: seq<Block>, g: seq<Block>, live: map<nat, nat>, frames: set<nat>, p: nat)
    requires HeapOk(f, live, frames) && Ordered(g) && Added(f, g, Block(p, PAGE_SIZE))
    requires forall x: nat :: Holds(Block(p, PAGE_SIZE), x) ==> !InFrames(frames, x)
    ensures HeapOk(g, live, frames + {p})
  {
    hide Ordered, In, InLive, LiveOk;
    forall x: nat
      ensures !(In(g, x) && InLive(live, x)) && (In(g, x) || InLive(live, x) <==> InFrames(frames + {p}, x))
    {
      FramesAdded(frames, p, x);
      assert !(In(f, x) && InLive(live, x));
      assert In(f, x) || InLive(live, x) <==> InFrames(frames, x);
      assert In(g, x) <==> In(f, x) || Holds(Block(p, PAGE_SIZE), x);
    }
  }

  lemma FramesAdded(frames: set<nat>, p: nat, x: nat)
    ensures InFrames(frames + {p}, x) <==> InFrames(frames, x) || Holds(Block(p, PAGE_SIZE), x)
  {
    if Holds(Block(p, PAGE_SIZE), x) { assert p in frames + {p}; }
    if InFrames(frames, x) {
      var q :| q in frames && Holds(Block(q, PAGE_SIZE), x);
      assert q in frames + {p};
    }
  }

  // Aligned pages that are different do not overlap.
  lemma PagesApart(frames: set<nat>, p: nat, x: nat)
    requires (forall q :: q in frames ==> q % PAGE_SIZE == 0) && p % PAGE_SIZE == 0 && p !in frames
    requires Holds(Block(p, PAGE_SIZE), x)
    ensures !InFrames(frames, x)
  {
    forall q | q in frames ensures !Holds(Block(q, PAGE_SIZE), x) {
      if p < q { assert p / PAGE_SIZE < q / PAGE_SIZE; } else { assert q / PAGE_SIZE < p / PAGE_SIZE; }
    }
  }

  // A list that covers a run of bytes has one block that covers it.
  lemma OneBlock(f: seq<Block>, b: Block) returns (i: nat)
    requires Ordered(f) && b.size > 0 && Inside(f, b)
    ensures i < |f| && f[i].addr <= b.addr && End(b) <= End(f[i])
  {
    assert Holds(b, b.addr) && In(f, b.addr);
    i :| 0 <= i < |f| && Holds(f[i], b.addr);
    EndOpen(f, i);
    assert !Holds(b, End(f[i]));
  }

  lemma EndOpen(f: seq<Block>, i: nat)
    requires Ordered(f) && i < |f|
    ensures !In(f, End(f[i]))
  {
    forall j | 0 <= j < |f| ensures !Holds(f[j], End(f[i])) {
      if j < i { assert End(f[j]) < f[i].addr; }
      if i < j { assert End(f[i]) < f[j].addr; }
    }
  }

  lemma BlockBytes(f: seq<Block>, i: nat, b: Block)
    requires i < |f| && f[i].addr <= b.addr && End(b) <= End(f[i])
    ensures Inside(f, b)
  {
    forall x: nat | Holds(b, x) ensures In(f, x) { assert Holds(f[i], x); }
  }

  // A block cut from the list in two: the upper part goes back.
  lemma CutMoved(f: seq<Block>, i: nat, g: seq<Block>, b: Block)
    requires Ordered(f) && i < |f| && f[i].addr == b.addr && End(b) <= End(f[i])
    requires Added(Without(f, i), g, Block(End(b), f[i].size - b.size))
    ensures Moved(f, g, b) && Inside(f, b)
  {
    hide Ordered, Without;
    BlockBytes(f, i, b);
    forall x: nat ensures In(g, x) <==> In(f, x) && !Holds(b, x) {
      hide Ordered, Without, In;
      WithoutBytes(f, i, x);
      if Holds(f[i], x) { InBlock(f, i, x); }
    }
  }

  lemma InBlock(f: seq<Block>, i: nat, x: nat)
    requires i < |f| && Holds(f[i], x)
    ensures In(f, x)
  {
  }

  lemma WholeMoved(f: seq<Block>, i: nat)
    requires Ordered(f) && i < |f|
    ensures Moved(f, Without(f, i), f[i]) && Inside(f, f[i])
  {
    BlockBytes(f, i, f[i]);
    forall x: nat ensures In(Without(f, i), x) <==> In(f, x) && !Holds(f[i], x) { WithoutBytes(f, i, x); }
  }
}
