/**
 ansi_write_char on its buffer (src/libc/ansi.c), and the editor's append_move_cursor (progs/nyamo.c), each proved
 to be the function of `Ansi` it stands for.
 */
module AnsiParser {

  import opened Ansi

  const NUL: char := '\0'

  // The characters up to the terminator.
  ghost predicate Terminated(a: seq<char>, from: nat, s: string) {
    && from + |s| < |a| && a[from + |s|] == NUL
    && forall k :: 0 <= k < |s| ==> a[from + k] == s[k] != NUL
  }

  lemma AtoiOn(s: string, i: nat)
    requires i < |s| && !IsDigit(s[i])
    ensures Atoi(s[i..]) == Atoi(s[i + 1..])
  {
    assert s[i..][1..] == s[i + 1..];
  }

  lemma NumberOn(s: string, i: nat, acc: int)
    requires i < |s| && IsDigit(s[i])
    ensures Number(s[i..], acc) == Number(s[i + 1..], acc * 10 + Value(s[i]))
  {
    assert s[i..][1..] == s[i + 1..];
  }

  // ansi_atoi.
  method ReadNumber(buf: array<char>, from: nat, ghost s: string) returns (res: int)
    requires Terminated(buf[..], from, s)
    ensures res == Atoi(s)
  {
    hide Atoi, Number;
    var i := 0;
    assert s[0..] == s;
    while buf[from + i] != NUL && !IsDigit(buf[from + i])
      invariant i <= |s| && Atoi(s[i..]) == Atoi(s)
      decreases |s| - i
    {
      AtoiOn(s, i);
      i := i + 1;
    }
    res := 0;
    AtoiHere(s[i..]);
    while IsDigit(buf[from + i])
      invariant i <= |s| && Number(s[i..], res) == Atoi(s)
      decreases |s| - i
    {
      NumberOn(s, i, res);
      res := res * 10 + (buf[from + i] as int - '0' as int);
      i := i + 1;
    }
    NumberHere(s[i..], res);
  }

  lemma AtoiHere(s: string)
    requires s == "" || IsDigit(s[0])
    ensures Number(s, 0) == Atoi(s)
  {
  }

  lemma NumberHere(s: string, acc: int)
    requires s == "" || !IsDigit(s[0])
    ensures Number(s, acc) == acc
  {
  }

  // ---------- Parameters ----------

  // The fields found so far, and the one under way.
  ghost predicate Splitting(s: string, done: seq<string>, from: nat, at: nat) {
    from <= at <= |s| && ';' !in s[from..at] && Split(s) == done + Split(s[from..])
  }

  lemma SplitOn(s: string, done: seq<string>, from: nat, at: nat)
    requires Splitting(s, done, from, at) && at < |s|
    ensures s[at] == ';' ==> Splitting(s, done + [s[from..at]], at + 1, at + 1)
    ensures s[at] != ';' ==> Splitting(s, done, from, at + 1)
  {
    if s[at] == ';' {
      assert s[from..] == s[from..at] + ";" + s[at + 1..];
      SplitAt(s[from..at], s[at + 1..]);
      assert done + ([s[from..at]] + Split(s[at + 1..])) == done + [s[from..at]] + Split(s[at + 1..]);
    } else {
      assert s[from..at + 1] == s[from..at] + [s[at]];
    }
  }

  lemma SplitDone(s: string, done: seq<string>, from: nat)
    requires Splitting(s, done, from, |s|)
    ensures Split(s) == done + [s[from..]]
  {
    assert s[from..|s|] == s[from..];
    SplitNone(s[from..]);
  }

  // The values read for the first four fields.
  function Four(done: seq<string>): seq<int> {
    if |done| <= 4 then Values(done) else Values(done)[..4]
  }

  lemma FourOn(done: seq<string>, f: string)
    ensures Four(done + [f]) == if |Four(done)| < 4 then Four(done) + [Atoi(f)] else Four(done)
    ensures |Four(done)| <= 4 && (|done| <= 4 ==> |Four(done)| == |done|)
  {
    assert (done + [f])[..|done|] == done;
  }

  // The buffer with the semicolons before `at` overwritten.
  ghost predicate Cut(a: seq<char>, s: string, at: nat) {
    && |a| == BUF_SIZE && |s| < BUF_SIZE
    && (forall k :: 0 <= k < |s| ==> a[k] == if k < at && s[k] == ';' then NUL else s[k])
    && (forall k :: |s| <= k < BUF_SIZE ==> a[k] == NUL)
    && (forall k :: 0 <= k < |s| ==> IsParam(s[k]))
  }

  lemma FieldTerminated(a: seq<char>, s: string, done: seq<string>, from: nat, at: nat)
    requires Splitting(s, done, from, at) && Cut(a, s, if at < |s| then at + 1 else at) && (at == |s| || s[at] == ';')
    ensures Terminated(a, from, s[from..at])
  {
    forall k | 0 <= k < at - from ensures a[from + k] == s[from..at][k] != NUL {
      assert s[from..at][k] == s[from + k] && s[from + k] in s[from..at];
    }
  }

  class Parser {
    var mode: Mode
    const buf: array<char>
    var idx: nat
    var color: nat
    ghost var held: string

    ghost function Now(): Ctx
      reads this
    {
      Ctx(mode, held, color)
    }

    ghost predicate Valid()
      reads this, buf
    {
      buf.Length == BUF_SIZE && (mode == Csi ==> idx == |held| && Cut(buf[..], held, 0))
    }

    constructor (color: nat)
      ensures Valid() && mode == Normal && this.color == color && fresh(buf)
    {
      mode, idx, this.color, held := Normal, 0, color, "";
      buf := new char[BUF_SIZE](i => NUL);
    }

    // parse_ansi_params.
    method ParseParams() returns (v: seq<int>)
      requires Valid() && mode == Csi
      modifies buf
      ensures v == Params(held)
    {
      hide Split, Splitting, Cut, Four, Params;
      ghost var s, done := held, [];
      var ptr, start := 0, 0;
      v := [];
      StartSplit(s);
      CutBound(buf[..], s, 0);
      while buf[ptr] != NUL
        invariant start <= ptr <= |s| < BUF_SIZE && Splitting(s, done, start, ptr) && Cut(buf[..], s, ptr) && v == Four(done)
        decreases |s| - ptr
      {
        CutAt(buf[..], s, ptr);
        SplitOn(s, done, start, ptr);
        CutOn(buf[..], s, ptr);
        if buf[ptr] == ';' {
          ghost var before := buf[..];
          buf[ptr] := NUL;
          assert buf[..] == before[ptr := NUL];
          FieldTerminated(buf[..], s, done, start, ptr);
          FourOn(done, s[start..ptr]);
          if |v| < 4 {
            var n := ReadNumber(buf, start, s[start..ptr]);
            v := v + [n];
          }
          done := done + [s[start..ptr]];
          start := ptr + 1;
        }
        ptr := ptr + 1;
      }
      CutAt(buf[..], s, ptr);
      SplitDone(s, done, start);
      FieldTerminated(buf[..], s, done, start, ptr);
      assert s[start..ptr] == s[start..];
      FourOn(done, s[start..]);
      if |v| < 4 {
        var n := ReadNumber(buf, start, s[start..]);
        v := v + [n];
      }
      ParamsAre(s, done + [s[start..]]);
    }

    // The colours of an 'm' sequence.
    method SetColors(drv: Driver, v: seq<int>) returns (calls: seq<Call>)
      modifies this`color
      ensures calls == if drv.setColor then ColorCalls(Colors(v)) else []
      ensures color == if Colors(v) != [] then Colors(v)[|Colors(v)| - 1] else old(color)
    {
      calls := [];
      var i := 0;
      assert v[..0] == [];
      while i < |v|
        invariant i <= |v| && calls == if drv.setColor then ColorCalls(Colors(v[..i])) else []
        invariant color == if Colors(v[..i]) != [] then Colors(v[..i])[|Colors(v[..i])| - 1] else old(color)
      {
        assert v[..i + 1][..i] == v[..i] && v[..i + 1][i] == v[i];
        var code := v[i];
        if 30 <= code <= 37 {
          color := Palette(code - 30);
          if drv.setColor { calls := calls + [SetColor(color)]; }
        } else if code == 0 {
          color := WHITE;
          if drv.setColor { calls := calls + [SetColor(WHITE)]; }
        }
        i := i + 1;
      }
      assert v[..i] == v;
    }

    // The command at the end of a sequence.
    method RunCommand(drv: Driver, v: seq<int>, c: char) returns (calls: seq<Call>)
      modifies this`color
      ensures calls == Execute(drv, v, c) && color == NewColor(v, c, old(color))
    {
      hide Colors, ColorCalls;
      calls := [];
      if c == 'H' || c == 'f' {
        var row := if Param(v, 0) > 0 then Param(v, 0) else 1;
        var col := if Param(v, 1) > 0 then Param(v, 1) else 1;
        if drv.setCursor { calls := [SetCursor(col - 1, row - 1)]; }
      } else if c == 'J' {
        if Param(v, 0) == 2 {
          if drv.clearScreen { calls := [ClearScreen(2)]; }
        }
      } else if c == 'm' {
        calls := SetColors(drv, v);
      } else if c == 'h' {
        if drv.setMode && Param(v, 0) != 0 { calls := [SetMode(Param(v, 0), true)]; }
      } else if c == 'l' {
        if drv.setMode && Param(v, 0) != 0 { calls := [SetMode(Param(v, 0), false)]; }
      }
    }

    // ansi_write_char.
    method WriteChar(drv: Driver, c: char) returns (calls: seq<Call>)
      requires Valid()
      modifies this, buf
      ensures Valid() && (Now(), calls) == Step(drv, old(Now()), c)
    {
      hide Execute, NewColor, Params, Cut;
      calls := [];
      if mode == Normal {
        if c == ESC {
          mode := Escape;
        } else {
          if drv.putChar { calls := [PutChar(c)]; }
        }
      } else if mode == Escape {
        if c == '[' {
          mode := Csi;
          idx, held := 0, "";
          var i := 0;
          while i < BUF_SIZE
            invariant i <= BUF_SIZE && forall k :: 0 <= k < i ==> buf[k] == NUL
            modifies buf
          {
            buf[i] := NUL;
            i := i + 1;
          }
          CutNew(buf[..]);
        } else {
          mode := Normal;
        }
      } else if IsParam(c) {
        if idx < BUF_SIZE - 1 {
          CutMore(buf[..], held, c);
          ghost var before := buf[..];
          buf[idx] := c;
          assert buf[..] == before[idx := c];
          idx := idx + 1;
          held := held + [c];
        }
      } else {
        var v := ParseParams();
        calls := RunCommand(drv, v, c);
        mode := Normal;
      }
    }
  }

  lemma StartSplit(s: string)
    ensures Splitting(s, [], 0, 0) && Four([]) == []
  {
    assert s[0..] == s && [] + Split(s) == Split(s);
  }

  lemma CutBound(a: seq<char>, s: string, at: nat)
    requires Cut(a, s, at)
    ensures |s| < BUF_SIZE == |a|
  {
  }

  lemma CutAt(a: seq<char>, s: string, at: nat)
    requires Cut(a, s, at) && at <= |s|
    ensures |a| == BUF_SIZE && (at < |s| ==> a[at] == s[at] != NUL) && (at == |s| ==> a[at] == NUL)
  {
  }

  lemma CutOn(a: seq<char>, s: string, at: nat)
    requires Cut(a, s, at) && at < |s|
    ensures at < |a| && Cut(if s[at] == ';' then a[at := NUL] else a, s, at + 1)
  {
  }

  lemma CutNew(a: seq<char>)
    requires |a| == BUF_SIZE && forall k :: 0 <= k < BUF_SIZE ==> a[k] == NUL
    ensures Cut(a, "", 0)
  {
  }

  lemma CutMore(a: seq<char>, s: string, c: char)
    requires Cut(a, s, 0) && |s| < BUF_SIZE - 1 && IsParam(c)
    ensures |s| < |a| && Cut(a[|s| := c], s + [c], 0)
  {
  }

  lemma ParamsAre(s: string, fields: seq<string>)
    requires Split(s) == fields
    ensures Params(s) == Four(fields)
  {
  }

  // ---------- The printer ----------

  // What the digits in rev, last first, followed by those of val, spell.
  lemma DecimalStep(val: nat)
    ensures val >= 10 ==> Decimal(val) == Decimal(val / 10) + [DigitChar(val % 10)]
    ensures val < 10 ==> Decimal(val) == [DigitChar(val)]
  {
  }

  function Reversed(s: string): (r: string)
    ensures |r| == |s|
  {
    if s == "" then "" else Reversed(s[1..]) + [s[0]]
  }

  lemma {:induction false} ReversedAdd(s: string, c: char)
    ensures Reversed(s + [c]) == [c] + Reversed(s)
  {
    if s == "" {
      assert s + [c] == [c];
    } else {
      assert (s + [c])[1..] == s[1..] + [c];
      ReversedAdd(s[1..], c);
    }
  }

  // append_int.
  method AppendInt(buf: array<char>, at: nat, n: nat) returns (end: nat)
    requires at + |Decimal(n)| <= buf.Length
    modifies buf
    ensures end == at + |Decimal(n)| && buf[..end] == old(buf[..at]) + Decimal(n)
  {
    hide Decimal, Reversed;
    ghost var was := buf[..at];
    DecimalStep(n);
    if n == 0 {
      buf[at] := '0';
      assert buf[..at + 1] == was + ['0'];
      return at + 1;
    }
    var val: nat, rev := n, "";
    NothingLeft();
    while val > 0
      invariant val > 0 ==> Decimal(n) == Decimal(val) + Reversed(rev)
      invariant val == 0 ==> Decimal(n) == Reversed(rev)
      modifies {}
      decreases val
    {
      DecimalStep(val);
      ReversedAdd(rev, DigitChar(val % 10));
      if val >= 10 { assert Decimal(n) == Decimal(val / 10) + ([DigitChar(val % 10)] + Reversed(rev)); }
      rev := rev + [DigitChar(val % 10)];
      val := val / 10;
    }
    end := at;
    var i: nat := |rev|;
    ReversedWhole(rev);
    while i > 0
      invariant i <= |rev| == |Decimal(n)| && end == at + (|rev| - i)
      invariant buf[..end] + Reversed(rev[..i]) == was + Decimal(n)
    {
      i := i - 1;
      assert rev[..i + 1] == rev[..i] + [rev[i]];
      ReversedAdd(rev[..i], rev[i]);
      ghost var before := buf[..end];
      buf[end] := rev[i];
      assert buf[..end + 1] == before + [rev[i]];
      assert before + ([rev[i]] + Reversed(rev[..i])) == before + [rev[i]] + Reversed(rev[..i]);
      end := end + 1;
    }
    ReversedNone(rev);
    assert buf[..end] + "" == buf[..end];
  }

  lemma NothingLeft()
    ensures Reversed("") == ""
    ensures forall s: string :: s + "" == s
  {
  }

  lemma ReversedWhole(s: string)
    ensures s[..|s|] == s && |Reversed(s)| == |s|
  {
  }

  lemma ReversedNone(s: string)
    ensures s[..0] == "" && Reversed(s[..0]) == ""
  {
  }

  // append_move_cursor.
  method AppendMoveCursor(buf: array<char>, at: nat, r: nat, c: nat) returns (end: nat)
    requires at + |MoveCursor(r, c)| <= buf.Length
    modifies buf
    ensures end == at + |MoveCursor(r, c)| && buf[..end] == old(buf[..at]) + MoveCursor(r, c)
  {
    hide Decimal;
    ghost var was := buf[..at];
    buf[at] := ESC;
    buf[at + 1] := '[';
    end := at + 2;
    assert buf[..end] == was + ([ESC] + "[");
    end := AppendInt(buf, end, r);
    ghost var mid := buf[..end];
    assert mid == was + ([ESC] + "[" + Decimal(r));
    buf[end] := ';';
    end := end + 1;
    assert buf[..end] == was + ([ESC] + "[" + Decimal(r) + ";");
    end := AppendInt(buf, end, c);
    mid := buf[..end];
    assert mid == was + ([ESC] + "[" + Decimal(r) + ";" + Decimal(c));
    buf[end] := 'H';
    end := end + 1;
    assert buf[..end] == was + ([ESC] + "[" + Decimal(r) + ";" + Decimal(c) + "H");
  }
}
