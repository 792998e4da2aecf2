/**
 Pipes (src/fs/pipe.c): a ring buffer, the pid of a waiting reader and of a waiting writer, and two flags.

 Every section that runs with interrupts off is one step.  `Pipe` is what the code does in such a
 section; the functions on `State` are the same steps as values, over which runs are defined.
 */
module Pipes {
  import opened RingBuffer

  const CAPACITY := RING_BUF_SIZE - 1
  const NOBODY: int := -1

  // blocked holds the tasks that wait inside pipe_read or pipe_write.  written and taken are all the
  // bytes ever pushed and popped.
  datatype State = State(buf: seq<bv8>, readerPid: int, writerPid: int, readOpen: bool, writeOpen: bool,
                         blocked: set<int>, written: seq<bv8>, taken: seq<bv8>)

  // sched_wake_pid, which makes a waiting task ready.
  function Wake(s: State, pid: int): State {
    s.(blocked := s.blocked - {pid})
  }

  function WakeWriter(s: State): State {
    if s.writerPid != NOBODY then Wake(s, s.writerPid).(writerPid := NOBODY) else s
  }

  function WakeReader(s: State): State {
    if s.readerPid != NOBODY then Wake(s, s.readerPid).(readerPid := NOBODY) else s
  }

  // What a step of pipe_read came to: a byte, end of file, waiting, or going back to the caller with what
  // it has.
  datatype ReadResult = Got(c: bv8) | Eof | Wait | Partial

  // One round of the loop of pipe_read by task pid, which has count bytes so far.
  function ReadStep(s: State, pid: int, count: nat): (r: (State, ReadResult)) {
    if s.buf != [] then
      (WakeWriter(s.(buf := s.buf[1..], taken := s.taken + [s.buf[0]])), Got(s.buf[0]))
    else if s.writeOpen then
      (if count > 0 then (s, Partial) else (s.(readerPid := pid, blocked := s.blocked + {pid}), Wait))
    else (s, Eof)
  }

  datatype WriteResult = Put | Closed | WaitRoom

  // One round of the loop of pipe_write by task pid; sawOpen is the outer test of READ_OPEN, made before
  // interrupts go off.
  function WriteStep(s: State, pid: int, c: bv8, sawOpen: bool): (r: (State, WriteResult)) {
    if !sawOpen then (s, Closed)
    else if |s.buf| >= CAPACITY then
      (if !s.readOpen then (s, Closed) else (s.(writerPid := pid, blocked := s.blocked + {pid}), WaitRoom))
    else (WakeReader(s.(buf := s.buf + [c], written := s.written + [c])), Put)
  }

  function CloseReaderStep(s: State): State {
    WakeWriter(s.(readOpen := false))
  }

  function CloseWriterStep(s: State): State {
    WakeReader(s.(writeOpen := false))
  }

  // pipe_check_ready: a poll by the reader registers it.
  function PollStep(s: State, pid: int): (r: (State, bool)) {
    if s.buf != [] || !s.writeOpen then (s, true) else (s.(readerPid := pid), false)
  }

  // ---------- The code ----------

  class Pipe {
    const rb: RingBuf
    var readerPid: int
    var writerPid: int
    var readOpen: bool
    var writeOpen: bool
    var blocked: set<int>  // the scheduler's view: tasks waiting because of this pipe
    ghost var written: seq<bv8>
    ghost var taken: seq<bv8>

    ghost predicate Ok()
      reads this, rb, rb.buf
    {
      rb.Ok()
    }

    ghost function View(): State
      requires Ok()
      reads this, rb, rb.buf
    {
      State(rb.contents, readerPid, writerPid, readOpen, writeOpen, blocked, written, taken)
    }

    // The set-up part of sys_pipe.
    constructor ()
      ensures Ok() && View() == State([], NOBODY, NOBODY, true, true, {}, [], [])
    {
      rb := new RingBuf();
      readerPid, writerPid, readOpen, writeOpen := NOBODY, NOBODY, true, true;
      blocked, written, taken := {}, [], [];
    }

    method ReadRound(pid: int, count: nat) returns (res: ReadResult)
      requires Ok()
      modifies this, rb
      ensures Ok() && (View(), res) == ReadStep(old(View()), pid, count)
      ensures res.Got? ==> |old(rb.contents)| > 0 && res.c == old(rb.contents)[0] && rb.contents == old(rb.contents)[1..]
    {
      var got, c := rb.Pop();
      if got {
        taken := taken + [c];
        if writerPid != NOBODY {
          blocked := blocked - {writerPid};
          writerPid := NOBODY;
        }
        return Got(c);
      }
      if writeOpen {
        if count > 0 {
          return Partial;
        }
        readerPid := pid;
        blocked := blocked + {pid};
        return Wait;
      }
      return Eof;
    }

    method WriteRound(pid: int, c: bv8, sawOpen: bool) returns (res: WriteResult)
      requires Ok()
      modifies this, rb, rb.buf
      ensures Ok() && (View(), res) == WriteStep(old(View()), pid, c, sawOpen)
    {
      if !sawOpen {
        return Closed;
      }
      var full := rb.IsFull();
      if full {
        if !readOpen {
          return Closed;
        }
        writerPid := pid;
        blocked := blocked + {pid};
        return WaitRoom;
      }
      rb.Push(c);
      written := written + [c];
      if readerPid != NOBODY {
        blocked := blocked - {readerPid};
        readerPid := NOBODY;
      }
      return Put;
    }

    method CloseReader()
      requires Ok()
      modifies this
      ensures Ok() && View() == CloseReaderStep(old(View()))
    {
      readOpen := false;
      if writerPid != NOBODY {
        blocked := blocked - {writerPid};
        writerPid := NOBODY;
      }
    }

    method CloseWriter()
      requires Ok()
      modifies this
      ensures Ok() && View() == CloseWriterStep(old(View()))
    {
      writeOpen := false;
      if readerPid != NOBODY {
        blocked := blocked - {readerPid};
        readerPid := NOBODY;
      }
    }

    method CheckReady(pid: int) returns (ready: bool)
      requires Ok()
      modifies this
      ensures Ok() && (View(), ready) == PollStep(old(View()), pid)
    {
      var empty := rb.IsEmpty();
      if !empty || !writeOpen {
        return true;
      }
      readerPid := pid;
      return false;
    }
  }

  // ---------- Runs ----------

  datatype Event =
    | Read(pid: int, count: nat)
    | Write(pid: int, c: bv8, sawOpen: bool)
    | CloseReader
    | CloseWriter
    | Poll(pid: int)
    | Stray(pid: int)  // the scheduler makes a waiting task ready for another reason

  // A blocked task takes no step of its own, and a read end that a writer saw closed does not open again.
  predicate Allowed(s: State, ev: Event) {
    match ev
    case Read(pid, _) => pid >= 0 && pid !in s.blocked
    case Write(pid, _, sawOpen) => pid >= 0 && pid !in s.blocked && (!sawOpen ==> !s.readOpen)
    case Poll(pid) => pid >= 0 && pid !in s.blocked
    case _ => true
  }

  function Next(s: State, ev: Event): State {
    match ev
    case Read(pid, count) => ReadStep(s, pid, count).0
    case Write(pid, c, open) => WriteStep(s, pid, c, open).0
    case CloseReader => CloseReaderStep(s)
    case CloseWriter => CloseWriterStep(s)
    case Poll(pid) => PollStep(s, pid).0
    case Stray(pid) => Wake(s, pid)
  }

  function Run(s: State, evs: seq<Event>): State
    decreases |evs|
  {
    if evs == [] then s else Run(Next(s, evs[0]), evs[1..])
  }

  ghost predicate Legal(s: State, evs: seq<Event>)
    decreases |evs|
  {
    evs == [] || (Allowed(s, evs[0]) && Legal(Next(s, evs[0]), evs[1..]))
  }

  const FRESH := State([], NOBODY, NOBODY, true, true, {}, [], [])

  // Nothing is lost, repeated or reordered.
  ghost predicate Fifo(s: State) {
    s.written == s.taken + s.buf && |s.buf| <= CAPACITY
  }

  lemma FifoStep(s: State, ev: Event)
    requires Fifo(s)
    ensures Fifo(Next(s, ev))
  {
    match ev
    case Read(_, _) =>
      if s.buf != [] { assert s.taken + s.buf == s.taken + [s.buf[0]] + s.buf[1..]; }
    case Write(_, c, _) =>
      assert s.taken + (s.buf + [c]) == s.taken + s.buf + [c];
    case _ =>
  }

  // Whatever the interleaving, the bytes read are a prefix of the bytes written.
  lemma {:induction false} ReadIsPrefixOfWritten(s: State, evs: seq<Event>)
    requires Fifo(s)
    ensures Fifo(Run(s, evs)) && Run(s, evs).taken <= Run(s, evs).written
    decreases |evs|
  {
    if evs != [] {
      FifoStep(s, evs[0]);
      ReadIsPrefixOfWritten(Next(s, evs[0]), evs[1..]);
    }
  }

  // ---------- What readers and writers are told ----------

  // The bytes handed to readers, in order.
  function Handed(s: State, evs: seq<Event>): seq<bv8>
    decreases |evs|
  {
    if evs == [] then []
    else
      var rest := Handed(Next(s, evs[0]), evs[1..]);
      match evs[0]
      case Read(pid, count) => (match ReadStep(s, pid, count).1 case Got(c) => [c] + rest case _ => rest)
      case _ => rest
  }

  // The bytes that writers were told had gone in.
  function Accepted(s: State, evs: seq<Event>): seq<bv8>
    decreases |evs|
  {
    if evs == [] then []
    else
      var rest := Accepted(Next(s, evs[0]), evs[1..]);
      match evs[0]
      case Write(pid, c, sawOpen) => if WriteStep(s, pid, c, sawOpen).1 == Put then [c] + rest else rest
      case _ => rest
  }

  lemma StepBalances(s: State, ev: Event)
    requires |s.buf| <= CAPACITY
    ensures var t := Next(s, ev);
            && |t.buf| <= CAPACITY
            && s.buf + Accepted(s, [ev]) == Handed(s, [ev]) + t.buf
  {
    OneStep(s, ev);
    match ev
    case Read(pid, count) =>
      if s.buf != [] { assert s.buf == [s.buf[0]] + s.buf[1..]; }
      assert s.buf + [] == s.buf && [] + Next(s, ev).buf == Next(s, ev).buf;
    case _ =>
      assert s.buf + [] == s.buf && [] + Next(s, ev).buf == Next(s, ev).buf;
  }

  lemma OneStep(s: State, ev: Event)
    ensures Handed(s, [ev]) == if ev.Read? && ReadStep(s, ev.pid, ev.count).1.Got? then [ReadStep(s, ev.pid, ev.count).1.c] else []
    ensures Accepted(s, [ev]) == if ev.Write? && WriteStep(s, ev.pid, ev.c, ev.sawOpen).1 == Put then [ev.c] else []
  {
    assert [ev][1..] == [];
    NothingYet(Next(s, ev));
  }

  lemma {:induction false} FirstStep(s: State, evs: seq<Event>)
    requires evs != []
    ensures Handed(s, evs) == Handed(s, [evs[0]]) + Handed(Next(s, evs[0]), evs[1..])
    ensures Accepted(s, evs) == Accepted(s, [evs[0]]) + Accepted(Next(s, evs[0]), evs[1..])
  {
    assert [evs[0]][1..] == [];
    assert Handed(Next(s, evs[0]), []) == [] && Accepted(Next(s, evs[0]), []) == [];
  }

  // What was in the buffer and what went in is what was handed out and what is in the buffer now, in this order.
  lemma {:induction false} HandedIsAccepted(s: State, evs: seq<Event>)
    requires |s.buf| <= CAPACITY
    ensures s.buf + Accepted(s, evs) == Handed(s, evs) + Run(s, evs).buf && |Run(s, evs).buf| <= CAPACITY
    decreases |evs|
  {
    hide Handed, Accepted, Next;
    if evs == [] {
      NothingYet(s);
    } else {
      var t := Next(s, evs[0]);
      StepBalances(s, evs[0]);
      FirstStep(s, evs);
      HandedIsAccepted(t, evs[1..]);
      Chain(s.buf, Accepted(s, [evs[0]]), Handed(s, [evs[0]]), t.buf, Accepted(t, evs[1..]), Handed(t, evs[1..]), Run(t, evs[1..]).buf);
    }
  }

  lemma NothingYet(s: State)
    ensures Handed(s, []) == [] && Accepted(s, []) == []
  {
  }

  lemma Chain(a: seq<bv8>, b: seq<bv8>, c: seq<bv8>, d: seq<bv8>, e: seq<bv8>, f: seq<bv8>, g: seq<bv8>)
    requires a + b == c + d && d + e == f + g
    ensures a + (b + e) == (c + f) + g
  {
    assert a + (b + e) == (a + b) + e == (c + d) + e == c + (d + e) == c + (f + g);
  }

  // From a new pipe on, the bytes readers were handed are those writers put in, from the first one on, none lost,
  // repeated, changed or out of order.
  lemma ReadersGetWhatWasWritten(evs: seq<Event>)
    ensures Accepted(FRESH, evs) == Handed(FRESH, evs) + Run(FRESH, evs).buf && Handed(FRESH, evs) <= Accepted(FRESH, evs)
  {
    HandedIsAccepted(FRESH, evs);
    assert FRESH.buf + Accepted(FRESH, evs) == Accepted(FRESH, evs);
  }

  // The outcome of a read: a byte exactly when there is one, and then the oldest; end of file exactly when there is none
  // and the write end is closed; a reader without a byte waits, and one with some goes back.
  lemma ReadOutcome(s: State, pid: int, count: nat)
    ensures var res := ReadStep(s, pid, count).1;
            && (res.Got? <==> s.buf != []) && (res.Got? ==> res.c == s.buf[0])
            && (res == Eof <==> s.buf == [] && !s.writeOpen)
            && (res == Wait <==> s.buf == [] && s.writeOpen && count == 0)
            && (res == Partial <==> s.buf == [] && s.writeOpen && count > 0)
  {
  }

  // The outcome of a write: refused only with the read end closed, waiting only for a full buffer with the read end open.
  lemma WriteOutcome(s: State, pid: int, c: bv8, sawOpen: bool)
    requires Allowed(s, Write(pid, c, sawOpen))
    ensures var res := WriteStep(s, pid, c, sawOpen).1;
            && (res == Closed ==> !s.readOpen) && (res == WaitRoom <==> s.readOpen && |s.buf| >= 255)
            && (res == Put <==> sawOpen && |s.buf| < 255)
  {
  }

  // A reader that is told the file has ended has had everything that was ever written.
  lemma EofMeansAll(evs: seq<Event>, pid: int, count: nat)
    requires ReadStep(Run(FRESH, evs), pid, count).1 == Eof
    ensures Handed(FRESH, evs) == Accepted(FRESH, evs)
  {
    ReadersGetWhatWasWritten(evs);
    ReadOutcome(Run(FRESH, evs), pid, count);
    assert Handed(FRESH, evs) + [] == Handed(FRESH, evs);
  }

  // A flag is cleared by closing its end and by nothing else, and a poll says ready exactly when a read would not wait.
  lemma FlagsAfter(s: State, ev: Event)
    ensures Next(s, ev).readOpen == (s.readOpen && ev != CloseReader) && Next(s, ev).writeOpen == (s.writeOpen && ev != CloseWriter)
    ensures ev.Poll? ==> (PollStep(s, ev.pid).1 <==> ReadStep(s, ev.pid, 0).1 != Wait)
  {
  }

  // The step wakes task q: the registered writer after room was made or the reader has gone, the registered reader after
  // a byte went in or the writer has gone.
  predicate Wakes(s: State, ev: Event, q: int) {
    match ev
    case Read(_, _) => s.buf != [] && q == s.writerPid && q != NOBODY
    case Write(_, _, sawOpen) => sawOpen && |s.buf| < CAPACITY && q == s.readerPid && q != NOBODY
    case CloseReader => q == s.writerPid && q != NOBODY
    case CloseWriter => q == s.readerPid && q != NOBODY
    case Poll(_) => false
    case Stray(pid) => q == pid
  }

  predicate Waits(s: State, ev: Event, q: int) {
    match ev
    case Read(pid, count) => q == pid && s.buf == [] && s.writeOpen && count == 0
    case Write(pid, _, sawOpen) => q == pid && sawOpen && |s.buf| >= CAPACITY && s.readOpen
    case _ => false
  }

  // Who is registered after a step: a reader that waits or polls in vain, a writer that waits; whoever is woken no more.
  lemma RegisteredAfter(s: State, ev: Event)
    ensures Next(s, ev).readerPid == (match ev
                                      case Read(pid, count) => if s.buf == [] && s.writeOpen && count == 0 then pid else s.readerPid
                                      case Write(_, _, sawOpen) => if sawOpen && |s.buf| < CAPACITY then NOBODY else s.readerPid
                                      case CloseReader => s.readerPid
                                      case CloseWriter => NOBODY
                                      case Poll(pid) => if s.buf == [] && s.writeOpen then pid else s.readerPid
                                      case Stray(_) => s.readerPid)
    ensures Next(s, ev).writerPid == (match ev
                                      case Read(_, _) => if s.buf != [] then NOBODY else s.writerPid
                                      case Write(pid, _, sawOpen) => if sawOpen && |s.buf| >= CAPACITY && s.readOpen then pid else s.writerPid
                                      case CloseReader => NOBODY
                                      case CloseWriter => s.writerPid
                                      case Poll(_) => s.writerPid
                                      case Stray(_) => s.writerPid)
  {
  }

  // Who is blocked after a step, task by task.
  lemma BlockedAfter(s: State, ev: Event, q: int)
    ensures q in Next(s, ev).blocked <==> Waits(s, ev, q) || (q in s.blocked && !Wakes(s, ev, q))
  {
  }

  // ---------- Wake-ups ----------

  // ---------- Any number of readers and writers ----------

  // Only readers read and poll, only writers write.
  predicate Plays(ev: Event, readers: set<int>, writers: set<int>) {
    match ev
    case Read(pid, _) => pid in readers
    case Write(pid, _, _) => pid in writers
    case Poll(pid) => pid in readers
    case _ => true
  }

  // Whoever is blocked has reason to wait and is registered to be woken.
  ghost predicate AllAwake(s: State, readers: set<int>, writers: set<int>) {
    && s.blocked <= readers + writers
    && (forall p :: p in s.blocked * readers ==> s.buf == [] && s.writeOpen && s.readerPid == p)
    && (forall p :: p in s.blocked * writers ==> |s.buf| == CAPACITY && s.readOpen && s.writerPid == p)
  }

  // The step registers its task in the place of another one that is blocked.
  predicate Usurps(s: State, ev: Event, readers: set<int>, writers: set<int>) {
    match ev
    case Read(pid, count) => s.buf == [] && s.writeOpen && count == 0 && s.readerPid != pid && s.readerPid in s.blocked * readers
    case Poll(pid) => s.buf == [] && s.writeOpen && s.readerPid != pid && s.readerPid in s.blocked * readers
    case Write(pid, _, sawOpen) => sawOpen && |s.buf| >= CAPACITY && s.readOpen && s.writerPid != pid && s.writerPid in s.blocked * writers
    case _ => false
  }

  // A step keeps every blocked task registered exactly when it does not take another's place.
  lemma AwakeStepIff(s: State, ev: Event, readers: set<int>, writers: set<int>)
    requires readers !! writers && NOBODY !in readers + writers && Fifo(s) && AllAwake(s, readers, writers)
    requires Allowed(s, ev) && Plays(ev, readers, writers)
    ensures AllAwake(Next(s, ev), readers, writers) <==> !Usurps(s, ev, readers, writers)
  {
    var t := Next(s, ev);
    if Usurps(s, ev, readers, writers) {
      match ev
      case Read(pid, _) => assert s.readerPid in t.blocked * readers && t.readerPid == pid;
      case Poll(pid) => assert s.readerPid in t.blocked * readers && t.readerPid == pid;
      case Write(pid, _, _) => assert s.writerPid in t.blocked * writers && t.writerPid == pid;
      case _ =>
    } else {
      forall p | p in t.blocked * readers ensures t.buf == [] && t.writeOpen && t.readerPid == p {
        assert p in s.blocked ==> p in s.blocked * readers;
      }
      forall p | p in t.blocked * writers ensures |t.buf| == CAPACITY && t.readOpen && t.writerPid == p {
        assert p in s.blocked ==> p in s.blocked * writers;
      }
    }
  }

  ghost predicate AlwaysAwake(s: State, evs: seq<Event>, readers: set<int>, writers: set<int>)
    decreases |evs|
  {
    AllAwake(s, readers, writers) && (evs != [] ==> AlwaysAwake(Next(s, evs[0]), evs[1..], readers, writers))
  }

  predicate NeverUsurps(s: State, evs: seq<Event>, readers: set<int>, writers: set<int>)
    decreases |evs|
  {
    evs == [] || (!Usurps(s, evs[0], readers, writers) && NeverUsurps(Next(s, evs[0]), evs[1..], readers, writers))
  }

  // No wake-up is lost in a whole run exactly when no step of it takes another's place.
  lemma {:induction false} NoLostWakeupIff(s: State, evs: seq<Event>, readers: set<int>, writers: set<int>)
    requires readers !! writers && NOBODY !in readers + writers && Fifo(s) && AllAwake(s, readers, writers)
    requires Legal(s, evs) && forall i :: 0 <= i < |evs| ==> Plays(evs[i], readers, writers)
    ensures AlwaysAwake(s, evs, readers, writers) <==> NeverUsurps(s, evs, readers, writers)
    decreases |evs|
  {
    if evs != [] {
      FifoStep(s, evs[0]);
      AwakeStepIff(s, evs[0], readers, writers);
      var t := Next(s, evs[0]);
      if AllAwake(t, readers, writers) {
        NoLostWakeupIff(t, evs[1..], readers, writers);
      } else {
        assert !AlwaysAwake(t, evs[1..], readers, writers);
      }
    }
  }

  // With a single reader and a single writer nobody's place is ever taken.
  lemma {:induction false} TwoNeverUsurp(s: State, evs: seq<Event>, r: int, w: int)
    requires forall i :: 0 <= i < |evs| ==> Plays(evs[i], {r}, {w})
    ensures NeverUsurps(s, evs, {r}, {w})
    decreases |evs|
  {
    if evs != [] { TwoNeverUsurp(Next(s, evs[0]), evs[1..], r, w); }
  }

  lemma {:induction false} AlwaysAtEnd(s: State, evs: seq<Event>, readers: set<int>, writers: set<int>)
    requires AlwaysAwake(s, evs, readers, writers)
    ensures AllAwake(Run(s, evs), readers, writers)
    decreases |evs|
  {
    if evs != [] { AlwaysAtEnd(Next(s, evs[0]), evs[1..], readers, writers); }
  }

  // So from a new pipe, with one reader and one writer, no wake-up is ever lost: in every reachable state a task
  // waits only while it has reason to, and the two never wait for each other.
  lemma NoLostWakeup(evs: seq<Event>, r: int, w: int)
    requires r >= 0 && w >= 0 && r != w && Legal(FRESH, evs) && forall i :: 0 <= i < |evs| ==> Plays(evs[i], {r}, {w})
    ensures var t := Run(FRESH, evs); AllAwake(t, {r}, {w}) && !(r in t.blocked && w in t.blocked)
  {
    TwoNeverUsurp(FRESH, evs, r, w);
    NoLostWakeupIff(FRESH, evs, {r}, {w});
    AlwaysAtEnd(FRESH, evs, {r}, {w});
    var t := Run(FRESH, evs);
    assert r in t.blocked ==> r in t.blocked * {r};
    assert w in t.blocked ==> w in t.blocked * {w};
  }

  // With two readers it does happen: the second to wait takes the place of the first, whom no write
  // wakes although there is something to read.
  lemma TwoReadersLoseAWakeup(c: bv8)
    ensures var evs := [Read(1, 0), Read(2, 0), Write(3, c, true)];
            Legal(FRESH, evs) && 1 in Run(FRESH, evs).blocked && Run(FRESH, evs).buf == [c]
  {
    var s1 := Next(FRESH, Read(1, 0));
    var s2 := Next(s1, Read(2, 0));
    var s3 := Next(s2, Write(3, c, true));
    assert s2.blocked == {1, 2} && s3.blocked == {1} && s3.buf == [c];
    var evs := [Read(1, 0), Read(2, 0), Write(3, c, true)];
    assert evs[1..] == [Read(2, 0), Write(3, c, true)] && evs[1..][1..] == [Write(3, c, true)] && evs[1..][1..][1..] == [];
    assert Run(FRESH, evs) == Run(s1, evs[1..]) == Run(s2, evs[1..][1..]) == Run(s3, []) == s3;
    assert Legal(s3, []) && Legal(s2, evs[1..][1..]) && Legal(s1, evs[1..]);
  }
}
