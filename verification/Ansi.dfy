/**
 The escape-sequence parser (src/libc/ansi.c) and the editor's printer of cursor movements (progs/nyamo.c).

 `Step` says what one character does to the parser and which driver calls it makes; `RoundTrip` says that what
 the printer prints is parsed back exactly.  CUP is section 8.3.21 of ECMA-48.
 */
module Ansi {

  const ESC: char := '\U{1B}'
  const BUF_SIZE: nat := 32
  const WHITE: nat := 0xFFFFFF

  datatype Mode = Normal | Escape | Csi

  // held are the parameter characters of the sequence under way.
  datatype Ctx = Ctx(mode: Mode, held: string, color: nat)

  // Which of the driver's functions there are.
  datatype Driver = Driver(putChar: bool, setColor: bool, setCursor: bool, clearScreen: bool, setMode: bool)

  datatype Call = PutChar(ch: char) | SetColor(color: nat) | SetCursor(x: int, y: int) | ClearScreen(what: int) | SetMode(code: int, on: bool)

  function Palette(i: nat): nat {
    if i == 0 then 0x000000 else if i == 1 then 0xAA0000 else if i == 2 then 0x00AA00 else if i == 3 then 0xFFFF00
    else if i == 4 then 0x0000AA else if i == 5 then 0xAA00AA else if i == 6 then 0x00AAAA else WHITE
  }

  predicate IsDigit(c: char) {
    '0' <= c <= '9'
  }

  predicate IsParam(c: char) {
    IsDigit(c) || c == ';' || c == '?'
  }

  // ---------- Parameters ----------

  function Value(c: char): int {
    c as int - '0' as int
  }

  // The number that the leading digits of s continue from acc.
  function Number(s: string, acc: int): int {
    if s == "" || !IsDigit(s[0]) then acc else Number(s[1..], acc * 10 + Value(s[0]))
  }

  // ansi_atoi: the first number in s.
  function Atoi(s: string): int {
    if s == "" then 0 else if IsDigit(s[0]) then Number(s, 0) else Atoi(s[1..])
  }

  // The fields between semicolons.
  function Split(s: string): (r: seq<string>)
    ensures |r| >= 1
  {
    if s == "" then [""]
    else if s[0] == ';' then [""] + Split(s[1..])
    else var r := Split(s[1..]); [[s[0]] + r[0]] + r[1..]
  }

  lemma {:induction false} SplitNone(s: string)
    requires ';' !in s
    ensures Split(s) == [s]
  {
    if s != "" {
      SplitNone(s[1..]);
      assert [s[0]] + s[1..] == s;
    }
  }

  lemma {:induction false} SplitAt(a: string, b: string)
    requires ';' !in a
    ensures Split(a + ";" + b) == [a] + Split(b)
  {
    var s := a + ";" + b;
    if a == "" {
      assert s[1..] == b;
    } else {
      SplitAt(a[1..], b);
      assert s[1..] == a[1..] + ";" + b;
      assert [a[0]] + a[1..] == a;
    }
  }

  function Values(fields: seq<string>): (v: seq<int>)
    ensures |v| == |fields| && forall i :: 0 <= i < |v| ==> v[i] == Atoi(fields[i])
  {
    if fields == [] then [] else Values(fields[..|fields| - 1]) + [Atoi(fields[|fields| - 1])]
  }

  // parse_ansi_params: up to four of the fields.
  function Params(s: string): seq<int> {
    var v := Values(Split(s));
    if |v| <= 4 then v else v[..4]
  }

  // A parameter that is not there is zero.
  function Param(v: seq<int>, i: nat): int {
    if i < |v| then v[i] else 0
  }

  // ---------- One character ----------

  // The colours of the codes, in order.
  function Colors(v: seq<int>): seq<nat> {
    if v == [] then []
    else
      var rest, code := Colors(v[..|v| - 1]), v[|v| - 1];
      if 30 <= code <= 37 then rest + [Palette(code - 30)] else if code == 0 then rest + [WHITE] else rest
  }

  function ColorCalls(cs: seq<nat>): (r: seq<Call>)
    ensures |r| == |cs| && forall i :: 0 <= i < |r| ==> r[i] == SetColor(cs[i])
  {
    seq(|cs|, i requires 0 <= i < |cs| => SetColor(cs[i]))
  }

  function AtLeastOne(n: int): int {
    if n > 0 then n else 1
  }

  // What the final character of a sequence makes the driver do.
  function Execute(drv: Driver, v: seq<int>, c: char): seq<Call> {
    if c == 'H' || c == 'f' then
      if drv.setCursor then [SetCursor(AtLeastOne(Param(v, 1)) - 1, AtLeastOne(Param(v, 0)) - 1)] else []
    else if c == 'J' then
      if Param(v, 0) == 2 && drv.clearScreen then [ClearScreen(2)] else []
    else if c == 'm' then
      if drv.setColor then ColorCalls(Colors(v)) else []
    else if c == 'h' || c == 'l' then
      if drv.setMode && Param(v, 0) != 0 then [SetMode(Param(v, 0), c == 'h')] else []
    else []
  }

  function NewColor(v: seq<int>, c: char, was: nat): nat {
    if c == 'm' && Colors(v) != [] then Colors(v)[|Colors(v)| - 1] else was
  }

  // ansi_write_char.
  function Step(drv: Driver, s: Ctx, c: char): (Ctx, seq<Call>) {
    match s.mode
    case Normal =>
      if c == ESC then (s.(mode := Escape), []) else (s, if drv.putChar then [PutChar(c)] else [])
    case Escape =>
      if c == '[' then (s.(mode := Csi, held := ""), []) else (s.(mode := Normal), [])
    case Csi =>
      if IsParam(c) then (if |s.held| < BUF_SIZE - 1 then s.(held := s.held + [c]) else s, [])
      else
        var v := Params(s.held);
        (s.(mode := Normal, color := NewColor(v, c, s.color)), Execute(drv, v, c))
  }

  // A whole text: the state it leaves, and the calls it makes.
  function Feed(drv: Driver, s: Ctx, text: string): (Ctx, seq<Call>)
    decreases text
  {
    if text == "" then (s, [])
    else
      var (t, first) := Step(drv, s, text[0]);
      var (u, rest) := Feed(drv, t, text[1..]);
      (u, first + rest)
  }

  // A character that makes no call.
  lemma FeedQuiet(drv: Driver, s: Ctx, text: string, t: Ctx)
    requires text != "" && Step(drv, s, text[0]) == (t, [])
    ensures Feed(drv, s, text) == Feed(drv, t, text[1..])
  {
    assert [] + Feed(drv, t, text[1..]).1 == Feed(drv, t, text[1..]).1;
  }

  lemma {:induction false} FeedConcat(drv: Driver, s: Ctx, a: string, b: string)
    ensures var (t, first) := Feed(drv, s, a);
            var (u, rest) := Feed(drv, t, b);
            Feed(drv, s, a + b) == (u, first + rest)
    decreases a
  {
    if a == "" {
      assert a + b == b && [] + Feed(drv, s, b).1 == Feed(drv, s, b).1;
    } else {
      var t := Step(drv, s, a[0]);
      FeedConcat(drv, t.0, a[1..], b);
      assert (a + b)[1..] == a[1..] + b;
      var m := Feed(drv, t.0, a[1..]);
      var n := Feed(drv, m.0, b);
      assert t.1 + (m.1 + n.1) == (t.1 + m.1) + n.1;
    }
  }

  // ---------- Printing ----------

  function DigitChar(n: nat): char
    requires n < 10
  {
    (n + '0' as int) as char
  }

  // A number in decimal.
  function Decimal(n: nat): (s: string)
    ensures s != ""
  {
    if n < 10 then [DigitChar(n)] else Decimal(n / 10) + [DigitChar(n % 10)]
  }

  lemma {:induction false} DecimalDigits(n: nat)
    ensures forall c :: c in Decimal(n) ==> IsDigit(c)
  {
    if n >= 10 { DecimalDigits(n / 10); }
  }

  lemma {:induction false} NumberConcat(a: string, b: string, acc: int)
    requires forall c :: c in a ==> IsDigit(c)
    ensures Number(a + b, acc) == Number(b, Number(a, acc))
  {
    if a == "" {
      assert a + b == b;
    } else {
      assert (a + b)[1..] == a[1..] + b;
      NumberConcat(a[1..], b, acc * 10 + Value(a[0]));
    }
  }

  // Reading a printed number gives it back.
  lemma {:induction false} DecimalReads(n: nat)
    ensures Number(Decimal(n), 0) == n
  {
    if n >= 10 {
      DecimalReads(n / 10);
      DecimalDigits(n / 10);
      NumberConcat(Decimal(n / 10), [DigitChar(n % 10)], 0);
      assert Number([DigitChar(n % 10)], n / 10) == n / 10 * 10 + n % 10;
    }
  }

  lemma AtoiDecimal(n: nat)
    ensures Atoi(Decimal(n)) == n
  {
    DecimalReads(n);
    DecimalDigits(n);
    assert Decimal(n)[0] in Decimal(n);
  }

  function Power(k: nat): nat {
    if k == 0 then 1 else 10 * Power(k - 1)
  }

  lemma {:induction false} DecimalLength(n: nat, k: nat)
    requires n < Power(k) && k >= 1
    ensures |Decimal(n)| <= k
  {
    if n >= 10 {
      assert k > 1 by { assert Power(1) == 10; }
      DecimalLength(n / 10, k - 1);
    }
  }

  const INT_MAX: nat := 0x7FFF_FFFF

  lemma IntLength(n: nat)
    requires n <= INT_MAX
    ensures |Decimal(n)| <= 10
  {
    assert Power(5) == 100000;
    assert Power(10) == 100000 * Power(5);
    DecimalLength(n, 10);
  }

  // append_move_cursor.
  function MoveCursor(r: nat, c: nat): string {
    [ESC] + "[" + Decimal(r) + ";" + Decimal(c) + "H"
  }

  datatype Item = Move(r: nat, c: nat) | Text(ch: char)

  // Movements of the printer's, and ordinary characters.
  predicate Ordinary(i: Item) {
    match i
    case Move(r, c) => 1 <= r <= INT_MAX && 1 <= c <= INT_MAX
    case Text(ch) => ch != ESC
  }

  function Shown(i: Item): string {
    match i
    case Move(r, c) => MoveCursor(r, c)
    case Text(ch) => [ch]
  }

  function Meant(i: Item): Call {
    match i
    case Move(r, c) => SetCursor(c - 1, r - 1)
    case Text(ch) => PutChar(ch)
  }

  function Print(items: seq<Item>): string {
    if items == [] then "" else Shown(items[0]) + Print(items[1..])
  }

  function Calls(items: seq<Item>): seq<Call> {
    if items == [] then [] else [Meant(items[0])] + Calls(items[1..])
  }

  // ---------- The round trip ----------

  lemma {:induction false} FeedParams(drv: Driver, s: Ctx, text: string)
    requires s.mode == Csi && (forall c :: c in text ==> IsParam(c)) && |s.held| + |text| < BUF_SIZE
    ensures Feed(drv, s, text) == (s.(held := s.held + text), [])
    decreases text
  {
    if text == "" {
      assert s.held + text == s.held;
    } else {
      var t := s.(held := s.held + [text[0]]);
      FeedParams(drv, t, text[1..]);
      FeedQuiet(drv, s, text, t);
      assert s.held + [text[0]] + text[1..] == s.held + text;
    }
  }

  lemma MoveParams(r: nat, c: nat)
    ensures Params(Decimal(r) + ";" + Decimal(c)) == [r, c]
  {
    DecimalDigits(r);
    DecimalDigits(c);
    SplitAt(Decimal(r), Decimal(c));
    SplitNone(Decimal(c));
    AtoiDecimal(r);
    AtoiDecimal(c);
    var fields := [Decimal(r), Decimal(c)];
    assert [Decimal(r)] + [Decimal(c)] == fields;
    assert Values(fields)[0] == r && Values(fields)[1] == c;
  }

  lemma FeedMove(drv: Driver, s: Ctx, r: nat, c: nat)
    requires s.mode == Normal && drv.setCursor && 1 <= r <= INT_MAX && 1 <= c <= INT_MAX
    ensures Feed(drv, s, MoveCursor(r, c)).0.mode == Normal && Feed(drv, s, MoveCursor(r, c)).0.color == s.color
    ensures Feed(drv, s, MoveCursor(r, c)).1 == [SetCursor(c - 1, r - 1)]
  {
    hide Decimal, Params, Execute, NewColor;
    var digits := Decimal(r) + ";" + Decimal(c);
    var open, text := [ESC] + "[", [ESC] + "[" + Decimal(r) + ";" + Decimal(c) + "H";
    IntLength(r);
    IntLength(c);
    DecimalDigits(r);
    DecimalDigits(c);
    assert text == open + (digits + "H");
    FeedOpen(drv, s);
    var t := s.(mode := Csi, held := "");
    FeedConcat(drv, s, open, digits + "H");
    FeedConcat(drv, t, digits, "H");
    FeedParams(drv, t, digits);
    assert "" + digits == digits;
    MoveParams(r, c);
    FeedFinal(drv, t.(held := digits), r, c);
  }

  lemma FeedOpen(drv: Driver, s: Ctx)
    requires s.mode == Normal
    ensures Feed(drv, s, [ESC] + "[") == (s.(mode := Csi, held := ""), [])
  {
    var open := [ESC] + "[";
    var t, u := s.(mode := Escape), s.(mode := Csi, held := "");
    assert open[0] == ESC && open[1..] == "[" && "["[1..] == "";
    FeedQuiet(drv, s, open, t);
    FeedQuiet(drv, t, "[", u);
  }

  lemma FeedFinal(drv: Driver, s: Ctx, r: nat, c: nat)
    requires s.mode == Csi && drv.setCursor && r >= 1 && c >= 1 && Params(s.held) == [r, c]
    ensures Feed(drv, s, "H") == (s.(mode := Normal), [SetCursor(c - 1, r - 1)])
  {
    var t := s.(mode := Normal);
    assert "H"[1..] == "" && Feed(drv, t, "") == (t, []);
    assert Step(drv, s, 'H') == (t, [SetCursor(c - 1, r - 1)]);
    assert [SetCursor(c - 1, r - 1)] + [] == [SetCursor(c - 1, r - 1)];
  }

  // Whatever is printed is parsed back: every movement and every character, in order, and nothing else.
  lemma {:induction false} RoundTrip(drv: Driver, s: Ctx, items: seq<Item>)
    requires s.mode == Normal && drv.setCursor && drv.putChar && forall i :: 0 <= i < |items| ==> Ordinary(items[i])
    ensures Feed(drv, s, Print(items)).0.mode == Normal && Feed(drv, s, Print(items)).0.color == s.color
    ensures Feed(drv, s, Print(items)).1 == Calls(items)
    decreases items
  {
    hide MoveCursor, Step;
    if items != [] {
      var head := Shown(items[0]);
      FeedConcat(drv, s, head, Print(items[1..]));
      assert Ordinary(items[0]);
      FeedItem(drv, s, items[0]);
      RoundTrip(drv, Feed(drv, s, head).0, items[1..]);
    }
  }

  lemma FeedItem(drv: Driver, s: Ctx, i: Item)
    requires s.mode == Normal && drv.setCursor && drv.putChar && Ordinary(i)
    ensures Feed(drv, s, Shown(i)).0.mode == Normal && Feed(drv, s, Shown(i)).0.color == s.color
    ensures Feed(drv, s, Shown(i)).1 == [Meant(i)]
  {
    match i
    case Move(r, c) => FeedMove(drv, s, r, c);
    case Text(ch) => assert [ch][1..] == "";
  }
}
