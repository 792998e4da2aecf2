/**
 What each escape sequence means to the driver, for every list of numbers in it (src/libc/ansi.c).
 */
module AnsiLaws {
  import opened Ansi

  // ---------- Sequences ----------

  // Numbers in decimal, with semicolons between them.
  function Joined(ns: seq<nat>): string {
    if ns == [] then "" else if |ns| == 1 then Decimal(ns[0]) else Decimal(ns[0]) + ";" + Joined(ns[1..])
  }

  function Sequence(ns: seq<nat>, c: char): string {
    [ESC] + "[" + (Joined(ns) + [c])
  }

  // The numbers that are looked at: the first four; no number at all counts as a zero.
  function Looked(ns: seq<nat>): seq<nat> {
    if ns == [] then [0] else if |ns| <= 4 then ns else ns[..4]
  }

  function Fields(ns: seq<nat>): seq<string> {
    if ns == [] then [""] else seq(|ns|, i requires 0 <= i < |ns| => Decimal(ns[i]))
  }

  lemma {:induction false} SplitJoined(ns: seq<nat>)
    ensures Split(Joined(ns)) == Fields(ns)
    decreases ns
  {
    if ns != [] {
      DecimalDigits(ns[0]);
      if |ns| == 1 {
        SplitNone(Decimal(ns[0]));
      } else {
        SplitAt(Decimal(ns[0]), Joined(ns[1..]));
        SplitJoined(ns[1..]);
        assert [Decimal(ns[0])] + Fields(ns[1..]) == Fields(ns);
      }
    }
  }

  lemma ParamsJoined(ns: seq<nat>)
    ensures Params(Joined(ns)) == Looked(ns)
  {
    SplitJoined(ns);
    var v := Values(Fields(ns));
    forall i | 0 <= i < |ns| ensures v[i] == ns[i] { AtoiDecimal(ns[i]); }
    if ns == [] { assert Atoi("") == 0; }
  }

  lemma {:induction false} JoinedParams(ns: seq<nat>)
    ensures forall c :: c in Joined(ns) ==> IsParam(c)
    decreases ns
  {
    if ns != [] {
      DecimalDigits(ns[0]);
      if |ns| > 1 { JoinedParams(ns[1..]); }
    }
  }

  // A whole sequence is its last character, with the numbers.
  lemma FeedSequence(drv: Driver, s: Ctx, ns: seq<nat>, c: char)
    requires s.mode == Normal && !IsParam(c) && |Joined(ns)| < 32
    ensures var (t, calls) := Feed(drv, s, Sequence(ns, c));
            t == Ctx(Normal, Joined(ns), NewColor(Looked(ns), c, s.color)) && calls == Execute(drv, Looked(ns), c)
  {
    hide Params, Execute, NewColor, Joined, Looked, IsParam;
    var t := Ctx(Csi, "", s.color);
    FeedOpen(drv, s);
    FeedConcat(drv, s, [ESC] + "[", Joined(ns) + [c]);
    FeedConcat(drv, t, Joined(ns), [c]);
    JoinedParams(ns);
    FeedParams(drv, t, Joined(ns));
    assert "" + Joined(ns) == Joined(ns);
    ParamsJoined(ns);
    FeedLast(drv, t.(held := Joined(ns)), c);
    assert [] + ([] + Execute(drv, Looked(ns), c)) == Execute(drv, Looked(ns), c);
  }

  lemma FeedLast(drv: Driver, s: Ctx, c: char)
    requires s.mode == Csi && !IsParam(c)
    ensures Feed(drv, s, [c]) == (s.(mode := Normal, color := NewColor(Params(s.held), c, s.color)), Execute(drv, Params(s.held), c))
  {
    hide Params, Execute, NewColor;
    var (t, calls) := Step(drv, s, c);
    assert [c][1..] == "" && Feed(drv, t, "") == (t, []) && calls + [] == calls;
  }

  // ---------- Colours ----------

  const COLORS: seq<nat> := [0x000000, 0xAA0000, 0x00AA00, 0xFFFF00, 0x0000AA, 0xAA00AA, 0x00AAAA, 0xFFFFFF]

  // What one colour code does: 30 to 37 choose a colour, 0 goes back to white, all others do nothing.
  lemma OneColor(drv: Driver, s: Ctx, n: nat)
    requires s.mode == Normal && |Decimal(n)| < 32
    ensures var (t, calls) := Feed(drv, s, Sequence([n], 'm'));
            && t.mode == Normal
            && t.color == (if 30 <= n <= 37 then COLORS[n - 30] else if n == 0 then 0xFFFFFF else s.color)
            && calls == if drv.setColor && (n == 0 || 30 <= n <= 37) then [SetColor(t.color)] else []
  {
    assert Joined([n]) == Decimal(n);
    hide Feed, Sequence, Joined, Colors, Decimal;
    FeedSequence(drv, s, [n], 'm');
    ColorsOne(n);
  }

  lemma ColorsOne(n: nat)
    ensures Colors([n]) == if 30 <= n <= 37 then [COLORS[n - 30]] else if n == 0 then [0xFFFFFF] else []
  {
    assert [n][..0] == [] && Colors([]) == [];
    assert forall c: nat :: [] + [c] == [c];
  }

  // Several codes in one sequence, up to four, do what they do one after the other.
  lemma ColorsInTurn(drv: Driver, s: Ctx, ns: seq<nat>, n: nat)
    requires s.mode == Normal && 1 <= |ns| <= 3 && |Joined(ns + [n])| < 32 && |Joined(ns)| < 32 && |Decimal(n)| < 32
    ensures var (t, first) := Feed(drv, s, Sequence(ns, 'm'));
            var (u, second) := Feed(drv, t, Sequence([n], 'm'));
            var (w, all) := Feed(drv, s, Sequence(ns + [n], 'm'));
            all == first + second && w.color == u.color && w.mode == u.mode == Normal
  {
    assert Joined([n]) == Decimal(n);
    hide Joined, Feed, Colors, Sequence;
    FeedSequence(drv, s, ns, 'm');
    FeedSequence(drv, s, ns + [n], 'm');
    FeedSequence(drv, Feed(drv, s, Sequence(ns, 'm')).0, [n], 'm');
    ColorsAdd(ns, n);
    assert ColorCalls(Colors(ns) + Colors([n])) == ColorCalls(Colors(ns)) + ColorCalls(Colors([n]));
  }

  lemma ColorsAdd(v: seq<int>, n: int)
    ensures Colors(v + [n]) == Colors(v) + Colors([n])
  {
    assert (v + [n])[..|v|] == v && [n][..0] == [] && Colors([]) == [];
    assert forall c: nat :: [] + [c] == [c];
    assert Colors(v) + [] == Colors(v);
  }

  // ---------- Cursor, screen and modes ----------

  // A row or column of zero, or none at all, is the first.
  lemma CursorTo(drv: Driver, s: Ctx, ns: seq<nat>, c: char)
    requires s.mode == Normal && drv.setCursor && (c == 'H' || c == 'f') && |Joined(ns)| < 32
    ensures var row, col := if |ns| > 0 && ns[0] > 0 then ns[0] - 1 else 0, if |ns| > 1 && ns[1] > 0 then ns[1] - 1 else 0;
            Feed(drv, s, Sequence(ns, c)).1 == [SetCursor(col, row)]
  {
    hide Feed, Sequence, Joined;
    FeedSequence(drv, s, ns, c);
  }

  // Only a 2 clears the screen.
  lemma ScreenCleared(drv: Driver, s: Ctx, ns: seq<nat>)
    requires s.mode == Normal && drv.clearScreen && |Joined(ns)| < 32
    ensures Feed(drv, s, Sequence(ns, 'J')).1 == if |ns| > 0 && ns[0] == 2 then [ClearScreen(2)] else []
  {
    hide Feed, Sequence, Joined;
    FeedSequence(drv, s, ns, 'J');
  }

  // A mode is switched on by 'h' and off by 'l', unless its number is zero.
  lemma ModeSwitched(drv: Driver, s: Ctx, ns: seq<nat>, on: bool)
    requires s.mode == Normal && drv.setMode && |Joined(ns)| < 32
    ensures Feed(drv, s, Sequence(ns, if on then 'h' else 'l')).1 == if |ns| > 0 && ns[0] > 0 then [SetMode(ns[0], on)] else []
  {
    hide Feed, Sequence, Joined;
    FeedSequence(drv, s, ns, if on then 'h' else 'l');
  }

  // A command that is not one of these, or that the driver does not have, does nothing.
  lemma NothingDone(drv: Driver, s: Ctx, ns: seq<nat>, c: char)
    requires s.mode == Normal && !IsParam(c) && |Joined(ns)| < 32
    requires c == 'H' || c == 'f' ==> !drv.setCursor
    requires c == 'J' ==> !drv.clearScreen
    requires c == 'm' ==> !drv.setColor
    requires c == 'h' || c == 'l' ==> !drv.setMode
    ensures Feed(drv, s, Sequence(ns, c)).1 == []
  {
    hide Feed, Sequence, Joined;
    FeedSequence(drv, s, ns, c);
  }

  // ---------- The buffer ----------

  // Of the parameter characters the first 31 are held, however many come.
  lemma {:induction false} HoldsFirst(drv: Driver, s: Ctx, text: string)
    requires s.mode == Csi && |s.held| <= 31 && forall c :: c in text ==> IsParam(c)
    ensures var (t, calls) := Feed(drv, s, text);
            calls == [] && t.mode == Csi && t.color == s.color
            && t.held == if |s.held + text| <= 31 then s.held + text else (s.held + text)[..31]
    decreases text
  {
    if text == "" {
      assert s.held + text == s.held;
    } else {
      var t := Step(drv, s, text[0]).0;
      HoldsFirst(drv, t, text[1..]);
      FeedQuiet(drv, s, text, t);
      assert s.held + [text[0]] + text[1..] == s.held + text;
    }
  }

  // And never more.
  lemma {:induction false} HeldFits(drv: Driver, s: Ctx, text: string)
    requires |s.held| <= 31
    ensures |Feed(drv, s, text).0.held| <= 31
    decreases text
  {
    if text != "" { HeldFits(drv, Step(drv, s, text[0]).0, text[1..]); }
  }

  // What follows an escape that is no '[' is dropped, and parsing goes on behind it.
  lemma EscapeDropped(drv: Driver, s: Ctx, c: char, text: string)
    requires s.mode == Normal && c != '['
    ensures Feed(drv, s, [ESC, c] + text) == Feed(drv, s, text)
  {
    var all := [ESC, c] + text;
    var t := s.(mode := Escape);
    assert all[1..] == [c] + text && ([c] + text)[1..] == text;
    FeedQuiet(drv, s, all, t);
    FeedQuiet(drv, t, [c] + text, s);
  }
}
