/**
 The user heap's block list as a value (src/libc/libc.c).

 The blocks, free and used, follow one another without a gap from the heap's base to the break.  `Coalesced` is
 the pass that free makes over them.
 */
module BlockList {

  const META: nat := 24  // sizeof(block_meta)

  datatype Blk = Blk(addr: nat, size: nat, free: bool)

  function End(b: Blk): nat {
    b.addr + META + b.size
  }

  // The blocks tile the stretch from `lo` to `hi`.
  ghost predicate Tiled(bs: seq<Blk>, lo: nat, hi: nat) {
    if bs == [] then lo == hi else bs[0].addr == lo && Tiled(bs[1..], End(bs[0]), hi)
  }

  // No two neighbours are both free.
  ghost predicate NoTwoFree(bs: seq<Blk>) {
    forall i :: 0 <= i < |bs| - 1 ==> !(bs[i].free && bs[i + 1].free)
  }

  function Used(bs: seq<Blk>): set<Blk> {
    set b | b in bs && !b.free
  }

  // ---------- Tilings ----------

  lemma {:induction false} TiledAt(bs: seq<Blk>, lo: nat, hi: nat, i: nat)
    requires Tiled(bs, lo, hi) && i < |bs|
    ensures lo <= bs[i].addr && End(bs[i]) <= hi
    ensures Tiled(bs[..i], lo, bs[i].addr) && Tiled(bs[i + 1..], End(bs[i]), hi)
  {
    if i == 0 {
      TiledBounds(bs[1..], End(bs[0]), hi);
      assert bs[..0] == [] && bs[1..] == bs[0 + 1..];
    } else {
      TiledAt(bs[1..], End(bs[0]), hi, i - 1);
      assert bs[..i][1..] == bs[1..][..i - 1] && bs[..i][0] == bs[0];
      assert bs[i + 1..] == bs[1..][i..];
    }
  }

  lemma {:induction false} TiledBounds(bs: seq<Blk>, lo: nat, hi: nat)
    requires Tiled(bs, lo, hi)
    ensures lo <= hi && (bs == [] || lo < hi)
  {
    if bs != [] { TiledBounds(bs[1..], End(bs[0]), hi); }
  }

  lemma {:induction false} TiledConcat(bs: seq<Blk>, cs: seq<Blk>, lo: nat, mid: nat, hi: nat)
    requires Tiled(bs, lo, mid) && Tiled(cs, mid, hi)
    ensures Tiled(bs + cs, lo, hi)
  {
    if bs == [] {
      assert bs + cs == cs;
    } else {
      TiledConcat(bs[1..], cs, End(bs[0]), mid, hi);
      assert (bs + cs)[1..] == bs[1..] + cs;
    }
  }

  // Blocks follow one another, so headers and payloads of different blocks are disjoint.
  lemma TiledApart(bs: seq<Blk>, lo: nat, hi: nat, i: nat, j: nat)
    requires Tiled(bs, lo, hi) && i < j < |bs|
    ensures End(bs[i]) <= bs[j].addr
  {
    TiledAt(bs, lo, hi, i);
    TiledAt(bs[i + 1..], End(bs[i]), hi, j - i - 1);
  }

  lemma TiledNext(bs: seq<Blk>, lo: nat, hi: nat, i: nat)
    requires Tiled(bs, lo, hi) && i + 1 < |bs|
    ensures bs[i + 1].addr == End(bs[i])
  {
    TiledAt(bs, lo, hi, i);
  }

  // A block may be replaced by blocks that tile the same stretch.
  lemma TiledReplace(bs: seq<Blk>, lo: nat, hi: nat, i: nat, n: nat, mid: seq<Blk>)
    requires Tiled(bs, lo, hi) && n >= 1 && i + n <= |bs| && Tiled(mid, bs[i].addr, End(bs[i + n - 1]))
    ensures Tiled(bs[..i] + mid + bs[i + n..], lo, hi)
  {
    TiledAt(bs, lo, hi, i);
    TiledAt(bs, lo, hi, i + n - 1);
    TiledConcat(bs[..i], mid, lo, bs[i].addr, End(bs[i + n - 1]));
    TiledConcat(bs[..i] + mid, bs[i + n..], lo, End(bs[i + n - 1]), hi);
  }

  // ---------- Coalescing ----------

  function Merged(a: Blk, b: Blk): Blk {
    Blk(a.addr, a.size + META + b.size, a.free)
  }

  function Coalesced(bs: seq<Blk>): (r: seq<Blk>)
    ensures (r == [] <==> bs == []) && (bs != [] ==> r[0].free == bs[0].free && r[0].addr == bs[0].addr)
    decreases |bs|
  {
    if |bs| < 2 then bs
    else if bs[0].free && bs[1].free then Coalesced([Merged(bs[0], bs[1])] + bs[2..])
    else [bs[0]] + Coalesced(bs[1..])
  }

  lemma {:induction false} CoalescedNoTwo(bs: seq<Blk>)
    ensures NoTwoFree(Coalesced(bs))
    decreases |bs|
  {
    if |bs| >= 2 {
      if bs[0].free && bs[1].free {
        CoalescedNoTwo([Merged(bs[0], bs[1])] + bs[2..]);
      } else {
        CoalescedNoTwo(bs[1..]);
      }
    }
  }

  lemma {:induction false} CoalescedTiles(bs: seq<Blk>, lo: nat, hi: nat)
    requires Tiled(bs, lo, hi)
    ensures Tiled(Coalesced(bs), lo, hi)
    decreases |bs|
  {
    if |bs| >= 2 {
      assert bs[1..][1..] == bs[2..] && bs[1..][0] == bs[1];
      if bs[0].free && bs[1].free {
        var m := Merged(bs[0], bs[1]);
        assert ([m] + bs[2..])[1..] == bs[2..];
        CoalescedTiles([m] + bs[2..], lo, hi);
      } else {
        CoalescedTiles(bs[1..], End(bs[0]), hi);
        assert ([bs[0]] + Coalesced(bs[1..]))[1..] == Coalesced(bs[1..]);
      }
    }
  }

  lemma UsedCons(b: Blk, bs: seq<Blk>)
    ensures Used([b] + bs) == Used(bs) + if b.free then {} else {b}
  {
    assert forall c :: c in [b] + bs <==> c == b || c in bs;
  }

  lemma UsedConcat(bs: seq<Blk>, cs: seq<Blk>)
    ensures Used(bs + cs) == Used(bs) + Used(cs)
  {
    assert forall c :: c in bs + cs <==> c in bs || c in cs;
  }

  // The used blocks come through untouched.
  lemma {:induction false} CoalescedUsed(bs: seq<Blk>)
    ensures Used(Coalesced(bs)) == Used(bs)
    decreases |bs|
  {
    if |bs| >= 2 {
      assert bs == [bs[0]] + bs[1..] && bs[1..] == [bs[1]] + bs[2..];
      UsedCons(bs[0], bs[1..]);
      UsedCons(bs[1], bs[2..]);
      if bs[0].free && bs[1].free {
        CoalescedUsed([Merged(bs[0], bs[1])] + bs[2..]);
        UsedCons(Merged(bs[0], bs[1]), bs[2..]);
      } else {
        CoalescedUsed(bs[1..]);
        UsedCons(bs[0], Coalesced(bs[1..]));
      }
    }
  }

  // A list without two free neighbours is left alone, so the pass does the same work whether free makes it once or twice.
  lemma {:induction false} CoalescedFixed(bs: seq<Blk>)
    requires NoTwoFree(bs)
    ensures Coalesced(bs) == bs
    decreases |bs|
  {
    if |bs| >= 2 {
      assert !(bs[0].free && bs[0 + 1].free);
      forall i | 0 <= i < |bs[1..]| - 1 ensures !(bs[1..][i].free && bs[1..][i + 1].free) { assert !(bs[i + 1].free && bs[i + 1 + 1].free); }
      CoalescedFixed(bs[1..]);
    }
  }

  // ---------- Taking a block ----------

  // The first free block with room, or the length.
  function FirstFree(bs: seq<Blk>, n: nat): (i: nat)
    ensures i <= |bs|
    ensures i < |bs| ==> bs[i].free && bs[i].size >= n
    ensures forall j :: 0 <= j < i ==> !(bs[j].free && bs[j].size >= n)
  {
    if bs == [] then 0 else if bs[0].free && bs[0].size >= n then 0 else 1 + FirstFree(bs[1..], n)
  }

  lemma FirstFreeIs(bs: seq<Blk>, n: nat, i: nat)
    requires i <= |bs| && (i < |bs| ==> bs[i].free && bs[i].size >= n)
    requires forall j :: 0 <= j < i ==> !(bs[j].free && bs[j].size >= n)
    ensures FirstFree(bs, n) == i
  {
  }

  // What becomes of the block: split when the rest has room for a header and 16 bytes.
  function Parts(b: Blk, n: nat): seq<Blk>
    requires b.size >= n
  {
    if b.size >= n + META + 16 then [Blk(b.addr, n, false), Blk(b.addr + META + n, b.size - n - META, true)]
    else [Blk(b.addr, b.size, false)]
  }

  function Taken(bs: seq<Blk>, i: nat, n: nat): seq<Blk>
    requires i < |bs| && bs[i].size >= n
  {
    bs[..i] + Parts(bs[i], n) + bs[i + 1..]
  }

  lemma PartsTile(b: Blk, n: nat)
    requires b.size >= n
    ensures Tiled(Parts(b, n), b.addr, End(b))
  {
    var p := Parts(b, n);
    if |p| == 2 {
      assert p[1..] == [p[1]] && p[1..][1..] == [];
    } else {
      assert p[1..] == [];
    }
  }

  lemma TakenTiles(bs: seq<Blk>, i: nat, n: nat, lo: nat, hi: nat)
    requires Tiled(bs, lo, hi) && i < |bs| && bs[i].size >= n
    ensures Tiled(Taken(bs, i, n), lo, hi)
  {
    PartsTile(bs[i], n);
    TiledReplace(bs, lo, hi, i, 1, Parts(bs[i], n));
  }

  lemma TakenNoTwo(bs: seq<Blk>, i: nat, n: nat)
    requires NoTwoFree(bs) && i < |bs| && bs[i].size >= n && bs[i].free
    ensures NoTwoFree(Taken(bs, i, n))
  {
    var r, d := Taken(bs, i, n), |Parts(bs[i], n)| - 1;
    assert forall j :: 0 <= j < |r| ==> r[j] == if j < i then bs[j] else if j <= i + d then Parts(bs[i], n)[j - i] else bs[j - d];
    forall j | 0 <= j < |r| - 1 ensures !(r[j].free && r[j + 1].free) {
      if j + 1 < i {
        assert !(bs[j].free && bs[j + 1].free);
      } else if j > i + d {
        assert !(bs[j - d].free && bs[j - d + 1].free);
      } else if j == i + d {
        assert !(bs[i].free && bs[i + 1].free);
      }
    }
  }

  lemma TakenUsed(bs: seq<Blk>, i: nat, n: nat)
    requires i < |bs| && bs[i].size >= n && bs[i].free
    ensures Used(Taken(bs, i, n)) == Used(bs) + {Parts(bs[i], n)[0]}
  {
    var p := Parts(bs[i], n);
    assert bs == bs[..i] + ([bs[i]] + bs[i + 1..]);
    UsedConcat(bs[..i], [bs[i]] + bs[i + 1..]);
    UsedCons(bs[i], bs[i + 1..]);
    UsedConcat(bs[..i] + p, bs[i + 1..]);
    UsedConcat(bs[..i], p);
    assert Used(p) == {p[0]};
  }

  // ---------- Giving a block back ----------

  function Freed(bs: seq<Blk>, i: nat): seq<Blk>
    requires i < |bs|
  {
    bs[i := bs[i].(free := true)]
  }

  lemma FreedTiles(bs: seq<Blk>, i: nat, lo: nat, hi: nat)
    requires Tiled(bs, lo, hi) && i < |bs|
    ensures Tiled(Freed(bs, i), lo, hi)
  {
    var m := [bs[i].(free := true)];
    assert m[1..] == [];
    TiledReplace(bs, lo, hi, i, 1, m);
    assert Freed(bs, i) == bs[..i] + m + bs[i + 1..];
  }

  lemma FreedUsed(bs: seq<Blk>, i: nat, lo: nat, hi: nat)
    requires Tiled(bs, lo, hi) && i < |bs|
    ensures Used(Freed(bs, i)) == Used(bs) - {bs[i]}
  {
    var r := Freed(bs, i);
    forall b ensures b in Used(r) <==> b in Used(bs) && b != bs[i] {
      if b in Used(bs) && b != bs[i] {
        var j :| 0 <= j < |bs| && bs[j] == b;
        assert r[j] == b;
      }
      if b in Used(r) {
        var j :| 0 <= j < |r| && r[j] == b;
        assert j != i && bs[j] == b;
        if j < i { TiledApart(bs, lo, hi, j, i); } else { TiledApart(bs, lo, hi, i, j); }
      }
    }
  }
}
