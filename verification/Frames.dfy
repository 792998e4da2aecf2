/**
 The physical frame allocator (src/mem/pmm.c).

 A `Pool` is the abstract view: which frames are in use, how often each is referenced, and the hint
 below which no frame is free.  `FrameAllocator` is the bitmap implementation; every operation of it
 is proved to act on its abstract view exactly as the corresponding function on pools.
 */
module Frames {

  // The first megabyte is never handed out (0x100000 / PAGE_SIZE frames).
  const LOW_FRAMES := 0x100

  datatype Pool = Pool(used: seq<bool>, refs: seq<nat>, hint: nat)

  // What every operation keeps.  The last two conjuncts are the two facts the scan relies on: nothing
  // below the hint is free, and the low frames are always in use.
  ghost predicate Valid(s: Pool) {
    && |s.used| == |s.refs|
    && LOW_FRAMES <= |s.used|
    && s.hint <= |s.used|
    && (forall i :: 0 <= i < s.hint ==> s.used[i])
    && (forall i :: 0 <= i < LOW_FRAMES ==> s.used[i])
    && (forall i :: 0 <= i < |s.used| && !s.used[i] ==> s.refs[i] == 0)
  }

  ghost predicate IsFree(s: Pool, f: nat) {
    f < |s.used| && !s.used[f]
  }

  ghost predicate IsLowestFree(s: Pool, f: nat) {
    IsFree(s, f) && forall g :: 0 <= g < f ==> !IsFree(s, g)
  }

  // The lowest free frame at or above `from`, or the number of frames.
  function FirstFree(used: seq<bool>, from: nat): (f: nat)
    requires from <= |used|
    ensures from <= f <= |used|
    ensures f < |used| ==> !used[f]
    ensures forall i :: from <= i < f ==> used[i]
    decreases |used| - from
  {
    if from == |used| || !used[from] then from else FirstFree(used, from + 1)
  }

  function Take(s: Pool, f: nat): Pool
    requires Valid(s) && f < |s.used|
  {
    Pool(s.used[f := true], s.refs[f := 1], f + 1)
  }

  lemma TakeKeepsValid(s: Pool, f: nat)
    requires Valid(s) && IsLowestFree(s, f)
    ensures Valid(Take(s, f))
  {
    forall g | 0 <= g < f ensures s.used[g] {
      assert !IsFree(s, g);
    }
  }

  // pmm_alloc_frame: the pool afterwards and the frame, 0 standing for "out of frames".
  function Alloc(s: Pool): (r: (Pool, nat))
    requires Valid(s)
    ensures Valid(r.0)
    ensures r.1 == 0 <==> forall g :: !IsFree(s, g)
    ensures r.1 == 0 ==> r.0 == s
    ensures r.1 != 0 ==> LOW_FRAMES <= r.1 && IsLowestFree(s, r.1) && r.0 == Take(s, r.1)
  {
    var f := FirstFree(s.used, 0);
    if f == |s.used| then (s, 0)
    else
      assert IsFree(s, f);
      (Take(s, f), f)
  }

  // pmm_free_frame and pmm_dec_ref: drop one reference, and the frame with the last one.
  function Release(s: Pool, f: nat): (s': Pool)
    requires Valid(s)
    ensures Valid(s')
    ensures |s'.used| == |s.used|
  {
    if f < LOW_FRAMES || |s.used| <= f || !s.used[f] then s
    else if s.refs[f] > 1 then s.(refs := s.refs[f := s.refs[f] - 1])
    else Pool(s.used[f := false], s.refs[f := 0], if f < s.hint then f else s.hint)
  }

  // pmm_inc_ref.
  function Retain(s: Pool, f: nat): (s': Pool)
    requires Valid(s) && f < |s.used| && s.used[f]
    ensures Valid(s')
  {
    s.(refs := s.refs[f := s.refs[f] + 1])
  }

  // Giving back the frame just handed out leaves every frame as it was.
  lemma AllocReleaseRestores(s: Pool)
    requires Valid(s)
    ensures var (s1, f) := Alloc(s);
            var s2 := Release(s1, f);
            s2.used == s.used && s2.refs == s.refs
  {
    var (s1, f) := Alloc(s);
    if f == 0 {
      assert s1 == s;
    } else {
      assert s1.used[f := false] == s.used;
      assert s1.refs[f := 0] == s.refs;
    }
  }

  // A retained frame survives as many releases as it has references, and not one more.
  lemma RetainReleaseRestores(s: Pool, f: nat)
    requires Valid(s) && LOW_FRAMES <= f < |s.used| && s.used[f] && s.refs[f] >= 1
    ensures Release(Retain(s, f), f) == s
  {
    assert s.refs[f := s.refs[f] + 1][f := s.refs[f]] == s.refs;
  }

  lemma SetBit(b: bv8, k: nat, j: nat)
    requires k < 8 && j < 8
    ensures TestBit(b | Mask(k), j) == (j == k || TestBit(b, j))
  {
  }

  lemma ClearBit(b: bv8, k: nat, j: nat)
    requires k < 8 && j < 8
    ensures TestBit(b & !Mask(k), j) == (j != k && TestBit(b, j))
  {
  }

  function Mask(k: nat): bv8
    requires k < 8
  {
    (1 as bv8) << k
  }

  predicate TestBit(b: bv8, k: nat)
    requires k < 8
  {
    b & Mask(k) != 0
  }

  class FrameAllocator {
    const totalPages: nat
    const bitmap: array<bv8>
    const refCounts: array<nat>
    var lastFreePage: nat

    ghost var view: Pool

    ghost predicate Ok()
      reads this, bitmap, refCounts
    {
      && bitmap as object != refCounts as object
      && bitmap.Length * 8 >= totalPages
      && Valid(view)
      && |view.used| == totalPages
      && (forall i :: 0 <= i < totalPages ==> view.used[i] == TestBit(bitmap[i / 8], i % 8))
      && view.refs == refCounts[..]
      && view.hint == lastFreePage
    }

    // pmm_init, given the memory map as the set of usable frames (the frames that hold the bitmap
    // and the counts already taken out of it).
    constructor (total: nat, usable: seq<bool>)
      requires LOW_FRAMES <= total == |usable|
      ensures Ok() && fresh(bitmap) && fresh(refCounts)
      ensures view == Pool(seq(total, i requires 0 <= i < total => !usable[i] || i < LOW_FRAMES),
                           seq(total, _ => 0), 0)
    {
      totalPages := total;
      bitmap := new bv8[(total + 7) / 8](_ => 0xFF);
      refCounts := new nat[total](_ => 0);
      lastFreePage := 0;
      new;
      for i := 0 to total
        invariant forall j :: 0 <= j < bitmap.Length * 8 ==>
          TestBit(bitmap[j / 8], j % 8) == (j >= i || !usable[j] || j < LOW_FRAMES)
        invariant forall j :: 0 <= j < total ==> refCounts[j] == 0
        invariant lastFreePage == 0
      {
        if usable[i] && i >= LOW_FRAMES {
          Clear(i);
        }
      }
      view := Pool(seq(total, i requires 0 <= i < total => !usable[i] || i < LOW_FRAMES),
                   seq(total, _ => 0), 0);
    }

    method Set(bit: nat)
      requires bit < bitmap.Length * 8
      modifies bitmap
      ensures forall j :: 0 <= j < bitmap.Length * 8 ==>
        TestBit(bitmap[j / 8], j % 8) == (j == bit || old(TestBit(bitmap[j / 8], j % 8)))
    {
      forall j: nat | j < bitmap.Length * 8 { SetBit(bitmap[bit / 8], bit % 8, j % 8); }
      bitmap[bit / 8] := bitmap[bit / 8] | Mask(bit % 8);
    }

    method Clear(bit: nat)
      requires bit < bitmap.Length * 8
      modifies bitmap
      ensures forall j :: 0 <= j < bitmap.Length * 8 ==>
        TestBit(bitmap[j / 8], j % 8) == (j != bit && old(TestBit(bitmap[j / 8], j % 8)))
    {
      forall j: nat | j < bitmap.Length * 8 { ClearBit(bitmap[bit / 8], bit % 8, j % 8); }
      bitmap[bit / 8] := bitmap[bit / 8] & !Mask(bit % 8);
    }

    // Takes frame i, which the scan found free.
    method Claim(i: nat)
      requires Ok() && IsLowestFree(view, i)
      modifies this, bitmap, refCounts
      ensures Ok() && view == Take(old(view), i)
    {
      TakeKeepsValid(view, i);
      Set(i);
      refCounts[i] := 1;
      lastFreePage := i + 1;
      view := Take(view, i);
    }

    // pmm_alloc_frame: scan up from the hint, then from the start to the hint.
    method AllocFrame() returns (frame: nat)
      requires Ok()
      modifies this, bitmap, refCounts
      ensures Ok() && (view, frame) == Alloc(old(view))
    {
      ghost var was := view;
      for i := lastFreePage to totalPages
        invariant Ok() && view == was
        invariant forall j :: 0 <= j < i ==> was.used[j]
      {
        if !TestBit(bitmap[i / 8], i % 8) {
          assert IsLowestFree(was, i);
          Claim(i);
          return i;
        }
      }
      for i := 0 to lastFreePage
        invariant Ok() && view == was
      {
        if !TestBit(bitmap[i / 8], i % 8) {
          assert false;  // nothing below the hint is free
        }
      }
      frame := 0;
    }

    // pmm_free_frame, and pmm_dec_ref, which only calls it.
    method FreeFrame(frame: nat)
      requires Ok()
      modifies this, bitmap, refCounts
      ensures Ok() && view == Release(old(view), frame)
    {
      if frame < LOW_FRAMES || totalPages <= frame {
        return;
      }
      if TestBit(bitmap[frame / 8], frame % 8) {
        view := Release(view, frame);
        if refCounts[frame] > 0 {
          refCounts[frame] := refCounts[frame] - 1;
        }
        if refCounts[frame] == 0 {
          Clear(frame);
          if frame < lastFreePage {
            lastFreePage := frame;
          }
        }
      }
    }

    // pmm_inc_ref, which does not ask whether the frame is in use.
    method IncRef(frame: nat)
      requires Ok() && frame < totalPages
      modifies this, refCounts
      ensures refCounts[..] == old(refCounts[..])[frame := old(refCounts[frame]) + 1]
      ensures Ok() <==> old(view.used[frame])
      ensures old(view.used[frame]) ==> view == Retain(old(view), frame)
    {
      view := view.(refs := view.refs[frame := view.refs[frame] + 1]);
      refCounts[frame] := refCounts[frame] + 1;
      assert refCounts[..] == old(refCounts[..])[frame := old(refCounts[frame]) + 1];
    }

    // pmm_get_ref_count.
    method GetRefCount(frame: nat) returns (count: nat)
      requires Ok()
      ensures count == if frame < totalPages then view.refs[frame] else 0
    {
      count := if frame < totalPages then refCounts[frame] else 0;
    }
  }
}
