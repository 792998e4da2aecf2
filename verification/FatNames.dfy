/**
 File names and the eleven bytes that stand for them in a directory entry: fat32_parse_name and the way back in
 readdir_cb (src/fs/fat32.c; Microsoft FAT32 File System Specification, section "FAT Directory Structure").
 */
module FatNames {
  import opened SectorCache

  const DOT: Byte := 0x2E
  const SPACE: Byte := 0x20

  function Upper(c: Byte): Byte {
    if 0x61 <= c <= 0x7A then c - 0x20 else c
  }

  function UpperAll(s: seq<Byte>): (r: seq<Byte>)
    ensures |r| == |s| && forall i :: 0 <= i < |s| ==> r[i] == Upper(s[i])
  {
    seq(|s|, i requires 0 <= i < |s| => Upper(s[i]))
  }

  // Up to the first stop byte, or all of it.
  function Before(s: seq<Byte>, stop: Byte): (r: seq<Byte>)
    ensures r <= s && stop !in r && (|r| < |s| ==> s[|r|] == stop)
  {
    if s == [] || s[0] == stop then [] else [s[0]] + Before(s[1..], stop)
  }

  // In front of the dot, and behind it.
  function Stem(s: seq<Byte>): seq<Byte> {
    Before(s, DOT)
  }

  function Suffix(s: seq<Byte>): seq<Byte> {
    if |Stem(s)| < |s| then s[|Stem(s)| + 1..] else []
  }

  // Eight bytes, a dot and three bytes at most.
  predicate Short(s: seq<Byte>) {
    |Stem(s)| <= 8 && |Suffix(s)| <= 3 && DOT !in Suffix(s)
  }

  function Padded(s: seq<Byte>, n: nat): (r: seq<Byte>)
    requires |s| <= n
    ensures |r| == n && r[..|s|] == s && forall i :: |s| <= i < n ==> r[i] == SPACE
  {
    s + seq(n - |s|, _ => SPACE)
  }

  function ShortName(s: seq<Byte>): (r: seq<Byte>)
    requires Short(s)
    ensures |r| == 11
  {
    Padded(UpperAll(Stem(s)), 8) + Padded(UpperAll(Suffix(s)), 3)
  }

  // What readdir_cb makes of the eleven bytes.
  function Display(e: seq<Byte>): seq<Byte>
    requires |e| == 11
  {
    Before(e[..8], SPACE) + (if e[8] == SPACE then [] else [DOT] + Before(e[8..], SPACE))
  }

  // ---------- The code ----------

  // fat32_parse_name.
  method ParseName(fname: seq<Byte>) returns (ok: bool, out: seq<Byte>)
    ensures ok <==> Short(fname)
    ensures ok ==> out == ShortName(fname)
  {
    hide ShortName, Before, Padded;
    if |fname| > 12 {
      Parts(fname, |fname|);
      return false, [];
    }
    var name: seq<Byte>, ext: seq<Byte> := seq(8, _ => SPACE), seq(3, _ => SPACE);
    var isExt, j := false, 0;
    for i := 0 to |fname|
      invariant Reading(fname, i, isExt, j, name, ext)
    {
      var c := fname[i];
      Parts(fname, i);
      if c == DOT {
        if isExt { return false, []; }
        isExt := true;
        continue;
      }
      if 0x61 <= c <= 0x7A { c := c - 0x20; }
      if !isExt && i >= 8 {
        return false, [];
      }
      if isExt {
        if j >= 3 { return false, []; }
        ext := ext[j := c];
        j := j + 1;
      } else {
        name := name[i := c];
      }
    }
    Parts(fname, |fname|);
    ReadAll(fname, isExt, j, name, ext);
    return true, name + ext;
  }

  // The state of the loop in front of byte i.
  ghost predicate Reading(s: seq<Byte>, i: nat, isExt: bool, j: nat, name: seq<Byte>, ext: seq<Byte>) {
    var n := |Stem(s)|;
    && i <= |s| && |name| == 8 && |ext| == 3 && (isExt <==> i > n)
    && (if isExt then n <= 8 && j == i - n - 1 <= 3 else i <= 8 && j == 0)
    && (forall k :: 0 <= k < 8 ==> name[k] == if k < i && k < n then Upper(s[k]) else SPACE)
    && (forall k :: 0 <= k < 3 ==> ext[k] == if k < j && n + 1 + k < |s| then Upper(s[n + 1 + k]) else SPACE)
    && (isExt ==> forall k :: n < k < i ==> s[k] != DOT)
  }

  // Where byte i of the name belongs.
  lemma Parts(s: seq<Byte>, i: nat)
    requires i <= |s|
    ensures var n := |Stem(s)|;
            && n <= |s| && |Suffix(s)| == (if n < |s| then |s| - n - 1 else 0)
            && (i < n ==> s[i] != DOT) && (i == n && i < |s| ==> s[i] == DOT)
            && (forall k :: n < k < |s| ==> Suffix(s)[k - n - 1] == s[k])
  {
    var r := Stem(s);
    assert i < |r| ==> s[i] == r[i] && r[i] in r;
  }

  lemma ReadAll(s: seq<Byte>, isExt: bool, j: nat, name: seq<Byte>, ext: seq<Byte>)
    requires Reading(s, |s|, isExt, j, name, ext)
    ensures Short(s) && name + ext == ShortName(s)
  {
    hide Before;
    Parts(s, |s|);
    var n := |Stem(s)|;
    assert forall k :: 0 <= k < n ==> Stem(s)[k] == s[k];
    assert forall k :: 0 <= k < |Suffix(s)| ==> Suffix(s)[k] == s[n + 1 + k];
    PaddedIs(UpperAll(Stem(s)), 8, name);
    PaddedIs(UpperAll(Suffix(s)), 3, ext);
  }

  lemma PaddedIs(s: seq<Byte>, n: nat, t: seq<Byte>)
    requires |s| <= n == |t| && forall k :: 0 <= k < n ==> t[k] == if k < |s| then s[k] else SPACE
    ensures Padded(s, n) == t
  {
  }

  // The eleven bytes one by one: those of the name, the letters from a to z in upper case, and blanks.
  lemma ShortBytes(s: seq<Byte>, k: nat)
    requires Short(s) && k < 11
    ensures var part, at := if k < 8 then Stem(s) else Suffix(s), if k < 8 then k else k - 8;
            ShortName(s)[k] == if at >= |part| then 32 else if 97 <= part[at] <= 122 then part[at] - 32 else part[at]
  {
    hide Stem, Suffix, Short;
    assert ShortName(s)[k] == if k < 8 then Padded(UpperAll(Stem(s)), 8)[k] else Padded(UpperAll(Suffix(s)), 3)[k - 8];
    PaddedAt(UpperAll(Stem(s)), 8);
    PaddedAt(UpperAll(Suffix(s)), 3);
  }

  lemma PaddedAt(s: seq<Byte>, n: nat)
    requires |s| <= n
    ensures forall i :: 0 <= i < n ==> Padded(s, n)[i] == if i < |s| then s[i] else SPACE
  {
  }

  // ---------- There and back ----------

  lemma {:induction false} BeforeIs(s: seq<Byte>, stop: Byte, r: seq<Byte>)
    requires r <= s && stop !in r && (|r| < |s| ==> s[|r|] == stop)
    ensures Before(s, stop) == r
    decreases s
  {
    if r != [] {
      assert s[0] == r[0] && r[0] in r;
      BeforeIs(s[1..], stop, r[1..]);
    }
  }

  lemma BeforePadded(s: seq<Byte>, n: nat)
    requires |s| <= n
    ensures Before(Padded(s, n), SPACE) == Before(s, SPACE)
  {
    var r, p := Before(s, SPACE), Padded(s, n);
    assert s <= p && r <= p;
    assert |r| < |s| ==> p[|r|] == s[|r|];
    BeforeIs(p, SPACE, r);
  }

  lemma BeforeAll(s: seq<Byte>, stop: Byte)
    ensures Before(s, stop) == s <==> stop !in s
  {
    if stop !in s { assert Before(s, stop) == s; }
  }

  lemma UpperKeeps(s: seq<Byte>, c: Byte)
    requires c == SPACE || c == DOT
    ensures c in UpperAll(s) <==> c in s
  {
    forall i | 0 <= i < |s| ensures UpperAll(s)[i] == c <==> s[i] == c { }
    if c in s { var i :| 0 <= i < |s| && s[i] == c; assert UpperAll(s)[i] == c; }
  }

  // A name is listed as it was typed, in upper case, exactly when it has no blank in it and no dot at its end.
  lemma ListedAsTyped(s: seq<Byte>)
    requires Short(s)
    ensures Display(ShortName(s)) == UpperAll(s) <==> SPACE !in s && (s != [] ==> s[|s| - 1] != DOT)
  {
    var a, b := UpperAll(Stem(s)), UpperAll(Suffix(s));
    var e := ShortName(s);
    assert e[..8] == Padded(a, 8) && e[8..] == Padded(b, 3) && e[8] == Padded(b, 3)[0];
    BeforePadded(a, 8);
    BeforePadded(b, 3);
    Parts(s, |s|);
    ShownParts(s);
  }

  lemma ShownParts(s: seq<Byte>)
    requires Short(s)
    ensures Shown(UpperAll(Stem(s)), UpperAll(Suffix(s))) == UpperAll(s) <==> SPACE !in s && (s != [] ==> s[|s| - 1] != DOT)
  {
    var a, b := UpperAll(Stem(s)), UpperAll(Suffix(s));
    UpperKeeps(Stem(s), DOT);
    UpperKeeps(Suffix(s), DOT);
    hide Short, Shown, Stem, Suffix;
    if SPACE !in s && (s != [] ==> s[|s| - 1] != DOT) {
      ShownWhole(s);
    } else if Shown(a, b) == UpperAll(s) {
      ShownHasNone(s, a, b);
    }
  }

  // What is shown of stem a and suffix b.
  ghost function Shown(a: seq<Byte>, b: seq<Byte>): seq<Byte> {
    Before(a, SPACE) + (if |b| == 0 || b[0] == SPACE then [] else [DOT] + Before(b, SPACE))
  }

  lemma ShownWhole(s: seq<Byte>)
    requires SPACE !in s && (s != [] ==> s[|s| - 1] != DOT)
    ensures Shown(UpperAll(Stem(s)), UpperAll(Suffix(s))) == UpperAll(s)
  {
    hide Stem, Suffix, UpperAll, Before;
    var a, b := UpperAll(Stem(s)), UpperAll(Suffix(s));
    NoBlank(s);
    BeforeAll(a, SPACE);
    BeforeAll(b, SPACE);
    Parts(s, |s|);
    Parts(s, |Stem(s)|);
    WholeIs(s);
    assert |b| > 0 ==> b[0] in b;
  }

  lemma WholeIs(s: seq<Byte>)
    ensures UpperAll(s) == UpperAll(Stem(s)) + if |Stem(s)| < |s| then [DOT] + UpperAll(Suffix(s)) else []
  {
    hide Suffix, Before;
    Parts(s, |Stem(s)|);
    var n := |Stem(s)|;
    var t := UpperAll(Stem(s)) + if n < |s| then [DOT] + UpperAll(Suffix(s)) else [];
    assert forall k :: 0 <= k < n ==> Stem(s)[k] == s[k];
    forall k | 0 <= k < |s| ensures UpperAll(s)[k] == t[k] {
      if k > n { assert Suffix(s)[k - n - 1] == s[k]; }
    }
  }

  lemma NoBlank(s: seq<Byte>)
    requires SPACE !in s
    ensures SPACE !in UpperAll(Stem(s)) && SPACE !in UpperAll(Suffix(s))
  {
    Parts(s, |s|);
    UpperKeeps(Stem(s), SPACE);
    UpperKeeps(Suffix(s), SPACE);
    assert forall c :: c in Stem(s) ==> c in s;
    assert forall c :: c in Suffix(s) ==> c in s;
  }

  // What is shown has no blank in it and no dot at its end.
  lemma ShownHasNone(s: seq<Byte>, a: seq<Byte>, b: seq<Byte>)
    requires Shown(a, b) == UpperAll(s) && DOT !in a && DOT !in b
    ensures SPACE !in s && (s != [] ==> s[|s| - 1] != DOT)
  {
    UpperKeeps(s, SPACE);
    assert forall c :: c in Before(a, SPACE) ==> c in a;
    assert forall c :: c in Before(b, SPACE) ==> c in b;
    var d := Shown(a, b);
    if s != [] { assert d[|d| - 1] == Upper(s[|s| - 1]); }
  }

  // The upper-case bytes of a part of a name, then blanks.
  ghost predicate Plain(s: seq<Byte>) {
    && (forall i :: 0 <= i < |s| ==> s[i] != DOT && !(0x61 <= s[i] <= 0x7A))
    && (forall i, j :: 0 <= i < j < |s| && s[i] == SPACE ==> s[j] == SPACE)
  }

  // A name as it is listed leads to the entry it was listed for.
  lemma ListedOpens(e: seq<Byte>)
    requires |e| == 11 && Plain(e[..8]) && Plain(e[8..])
    ensures Short(Display(e)) && ShortName(Display(e)) == e
  {
    var a, b := Before(e[..8], SPACE), Before(e[8..], SPACE);
    assert e == e[..8] + e[8..] && e[8] == e[8..][0];
    PartBack(e[..8], 8);
    PartBack(e[8..], 3);
    assert e[8] == SPACE <==> b == [];
    DisplayParts(a, b);
  }

  lemma PartBack(s: seq<Byte>, n: nat)
    requires Plain(s) && |s| == n
    ensures var a := Before(s, SPACE); |a| <= n && Padded(UpperAll(a), n) == s && DOT !in a && UpperAll(a) == a
  {
    var a := Before(s, SPACE);
    assert forall k :: 0 <= k < |a| ==> a[k] == s[k];
    PaddedIs(UpperAll(a), n, s);
  }

  lemma DisplayParts(a: seq<Byte>, b: seq<Byte>)
    requires DOT !in a && DOT !in b
    ensures var d := a + (if b == [] then [] else [DOT] + b); Stem(d) == a && Suffix(d) == b
  {
    var d := a + (if b == [] then [] else [DOT] + b);
    BeforeIs(d, DOT, a);
  }

  // The case of letters does not matter.
  lemma CaseBlind(s: seq<Byte>)
    ensures Short(s) <==> Short(UpperAll(s))
    ensures Short(s) ==> ShortName(UpperAll(s)) == ShortName(s)
  {
    var u := UpperAll(s);
    StemUpper(s);
    Parts(s, |s|);
    Parts(u, |u|);
    assert Suffix(u) == UpperAll(Suffix(s));
    UpperKeeps(Suffix(s), DOT);
    assert UpperAll(UpperAll(Stem(s))) == UpperAll(Stem(s)) && UpperAll(UpperAll(Suffix(s))) == UpperAll(Suffix(s));
  }

  lemma {:induction false} StemUpper(s: seq<Byte>)
    ensures Stem(UpperAll(s)) == UpperAll(Stem(s))
  {
    if s != [] && s[0] != DOT {
      assert UpperAll(s)[1..] == UpperAll(s[1..]);
      StemUpper(s[1..]);
    }
  }

  // The entry of a name is not taken for a free one, unless the name begins like a deleted one.
  lemma FirstByte(s: seq<Byte>)
    requires Short(s) && 0 !in s && (s != [] ==> s[0] != 0xE5)
    ensures ShortName(s)[0] != 0 && ShortName(s)[0] != 0xE5
  {
    var a := UpperAll(Stem(s));
    assert ShortName(s)[0] == Padded(a, 8)[0];
    if a != [] { assert Padded(a, 8)[0] == a[0] && Stem(s)[0] == s[0] && s[0] in s; }
  }
}
