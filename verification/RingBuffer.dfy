/**
 The ring buffer of src/utils/ring_buf.h: 256 bytes, one of them always left empty.
 */
module RingBuffer {

  const RING_BUF_SIZE := 256

  // The i-th slot from tail, going round.
  function SlotAt(tail: nat, i: nat): (y: nat)
    requires tail < RING_BUF_SIZE && i <= RING_BUF_SIZE
    ensures y < RING_BUF_SIZE
  {
    if tail + i < RING_BUF_SIZE then tail + i else tail + i - RING_BUF_SIZE
  }

  // b holds the given bytes from slot tail on.
  ghost predicate Rep(b: seq<bv8>, tail: nat, contents: seq<bv8>) {
    && |b| == RING_BUF_SIZE && tail < RING_BUF_SIZE && |contents| < RING_BUF_SIZE
    && forall i :: 0 <= i < |contents| ==> contents[i] == b[SlotAt(tail, i)]
  }

  lemma DropOldest(b: seq<bv8>, tail: nat, contents: seq<bv8>)
    requires Rep(b, tail, contents) && contents != []
    ensures Rep(b, SlotAt(tail, 1), contents[1..])
  {
    forall i | 0 <= i < |contents| - 1 ensures contents[1..][i] == b[SlotAt(SlotAt(tail, 1), i)] {
      assert SlotAt(SlotAt(tail, 1), i) == SlotAt(tail, i + 1);
    }
  }

  lemma AddNewest(b: seq<bv8>, tail: nat, contents: seq<bv8>, c: bv8)
    requires Rep(b, tail, contents) && |contents| < RING_BUF_SIZE - 1
    ensures Rep(b[SlotAt(tail, |contents|) := c], tail, contents + [c])
  {
    forall i | 0 <= i < |contents| ensures SlotAt(tail, i) != SlotAt(tail, |contents|) {
    }
  }

  function Newer(contents: seq<bv8>, c: bv8): seq<bv8> {
    (if |contents| == RING_BUF_SIZE - 1 then contents[1..] else contents) + [c]
  }

  // The index arithmetic of rb_push.
  lemma PushRep(b: seq<bv8>, tail: nat, contents: seq<bv8>, c: bv8)
    requires Rep(b, tail, contents)
    ensures var head := SlotAt(tail, |contents|); var head' := (head + 1) % RING_BUF_SIZE;
            var tail' := if head' == tail then (tail + 1) % RING_BUF_SIZE else tail;
            Rep(b[head := c], tail', Newer(contents, c)) && head' == SlotAt(tail', |Newer(contents, c)|)
  {
    if |contents| == RING_BUF_SIZE - 1 {
      DropOldest(b, tail, contents);
      AddNewest(b, SlotAt(tail, 1), contents[1..], c);
    } else {
      AddNewest(b, tail, contents, c);
    }
    hide Rep;
  }

  class RingBuf {
    const buf: array<bv8>
    var head: nat
    var tail: nat
    ghost var contents: seq<bv8>  // the bytes in the buffer, oldest first

    ghost predicate Ok()
      reads this, buf
    {
      buf.Length == RING_BUF_SIZE && Rep(buf[..], tail, contents) && head == SlotAt(tail, |contents|)
    }

    // rb_init.
    constructor ()
      ensures Ok() && contents == [] && fresh(buf)
    {
      buf := new bv8[RING_BUF_SIZE](_ => 0);
      head, tail, contents := 0, 0, [];
    }

    // rb_is_full.
    method IsFull() returns (full: bool)
      requires Ok()
      ensures full <==> |contents| == 255
    {
      full := (head + 1) % RING_BUF_SIZE == tail;
    }

    // rb_is_empty.
    method IsEmpty() returns (empty: bool)
      requires Ok()
      ensures empty <==> contents == []
    {
      empty := head == tail;
    }

    // rb_push: into a full buffer it overwrites the oldest byte.
    method Push(c: bv8)
      requires Ok()
      modifies this, buf
      ensures Ok()
      ensures contents == Newer(old(contents), c)
    {
      PushRep(buf[..], tail, contents, c);
      ghost var b := buf[..];
      hide Rep, SlotAt, Newer;
      buf[head] := c;
      assert buf[..] == b[head := c];
      head := (head + 1) % RING_BUF_SIZE;
      if head == tail {
        tail := (tail + 1) % RING_BUF_SIZE;
      }
      contents := Newer(contents, c);
    }

    // rb_pop.
    method Pop() returns (got: bool, c: bv8)
      requires Ok()
      modifies this
      ensures Ok() && (got <==> old(contents) != [])
      ensures got ==> c == old(contents)[0] && contents == old(contents)[1..]
      ensures !got ==> contents == old(contents)
    {
      if head == tail {
        return false, 0;
      }
      got, c := true, buf[tail];
      assert contents[0] == buf[..][SlotAt(tail, 0)];
      DropOldest(buf[..], tail, contents);
      contents := contents[1..];
      tail := (tail + 1) % RING_BUF_SIZE;
    }
  }
}
