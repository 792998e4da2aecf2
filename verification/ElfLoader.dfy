/**
 The ELF loader (src/elf.c): PT_LOAD segments are mapped page by page onto zeroed frames and filled from the
 file through the physical addresses of the pages.

 `Memory` is the address space being built: the frame of every mapped page, and the bytes of every frame.
 `After` says, byte by byte, what loading leaves; `SegmentLoaded` says what that means for a program.
 */
module ElfLoader {

  import opened PageTypes

  datatype Option<T> = None | Some(value: T)

  datatype Segment = Segment(load: bool, offset: nat, vaddr: nat, filesz: nat, memsz: nat)

  datatype Memory = Memory(frameOf: map<nat, nat>, ram: map<nat, seq<int>>)

  function Addr(p: nat, o: nat): nat {
    p * PAGE_SIZE + o
  }

  // Every page has a frame of its own, of one page.
  ghost predicate Good(m: Memory) {
    && (forall p :: p in m.frameOf ==> m.frameOf[p] > 0 && m.frameOf[p] in m.ram)
    && (forall p, q :: p in m.frameOf && q in m.frameOf && p != q ==> m.frameOf[p] != m.frameOf[q])
    && (forall f :: f in m.ram ==> |m.ram[f]| == PAGE_SIZE)
  }

  // The byte at offset o of page p, if the page is mapped.
  ghost function ByteAt(m: Memory, p: nat, o: nat): Option<int>
    requires Good(m) && o < PAGE_SIZE
  {
    if p in m.frameOf then Some(m.ram[m.frameOf[p]][o]) else None
  }

  function FirstPage(s: Segment): nat {
    s.vaddr / PAGE_SIZE
  }

  function EndPage(s: Segment): nat {
    (s.vaddr + s.memsz + PAGE_SIZE - 1) / PAGE_SIZE
  }

  predicate Loads(s: Segment) {
    s.load && s.memsz != 0
  }

  // The file's byte for address x, when the segment takes it from the file and the file is long enough.
  predicate FromFile(s: Segment, file: seq<int>, x: nat) {
    s.vaddr <= x < s.vaddr + s.filesz && s.offset + (x - s.vaddr) < |file|
  }

  // ---------- What loading leaves ----------

  function LoadByte(s: Segment, file: seq<int>, was: Option<int>, p: nat, o: nat): Option<int> {
    var x := Addr(p, o);
    if !Loads(s) then was
    else if FromFile(s, file, x) then Some(file[s.offset + (x - s.vaddr)])
    else if was == None && FirstPage(s) <= p < EndPage(s) then Some(0)
    else was
  }

  function After(segs: seq<Segment>, file: seq<int>, was: Option<int>, p: nat, o: nat): Option<int> {
    if segs == [] then was
    else LoadByte(segs[|segs| - 1], file, After(segs[..|segs| - 1], file, was, p, o), p, o)
  }

  predicate Disjoint(s: Segment, t: Segment) {
    s.vaddr + s.memsz <= t.vaddr || t.vaddr + t.memsz <= s.vaddr
  }

  // The loaded segments do not overlap, and take no more from the file than they occupy.
  ghost predicate Proper(segs: seq<Segment>) {
    && (forall i :: 0 <= i < |segs| && Loads(segs[i]) ==> segs[i].filesz <= segs[i].memsz)
    && (forall i, j :: 0 <= i < j < |segs| && Loads(segs[i]) && Loads(segs[j]) ==> Disjoint(segs[i], segs[j]))
  }

  lemma InPages(s: Segment, p: nat, o: nat)
    requires o < PAGE_SIZE && s.vaddr <= Addr(p, o) < s.vaddr + s.memsz
    ensures FirstPage(s) <= p < EndPage(s)
  {
  }

  // The page has a byte of the segment.
  ghost predicate Meets(s: Segment, p: nat) {
    s.vaddr < (p + 1) * 4096 && p * 4096 < s.vaddr + s.memsz
  }

  lemma PagesExact(s: Segment, p: nat)
    requires Loads(s)
    ensures FirstPage(s) <= p < EndPage(s) <==> Meets(s, p)
  {
  }

  // Loading maps the pages that have a byte of some loaded segment, and no others.
  lemma {:induction false} MappedExactly(segs: seq<Segment>, file: seq<int>, p: nat, o: nat)
    requires o < PAGE_SIZE && forall i :: 0 <= i < |segs| && Loads(segs[i]) ==> segs[i].filesz <= segs[i].memsz
    ensures After(segs, file, None, p, o).Some? <==> exists i :: 0 <= i < |segs| && Loads(segs[i]) && Meets(segs[i], p)
  {
    if segs != [] {
      var n := |segs| - 1;
      var s := segs[n];
      MappedExactly(segs[..n], file, p, o);
      if Loads(s) {
        PagesExact(s, p);
        if FromFile(s, file, Addr(p, o)) { InPages(s, p, o); }
      }
      hide FirstPage, EndPage, Meets, Addr;
      assert forall i :: 0 <= i < n ==> segs[..n][i] == segs[i];
    }
  }

  lemma {:induction false} Untouched(segs: seq<Segment>, file: seq<int>, was: Option<int>, p: nat, o: nat)
    requires forall i :: 0 <= i < |segs| && Loads(segs[i]) ==> !FromFile(segs[i], file, Addr(p, o))
    ensures After(segs, file, was, p, o) == was || (was == None && After(segs, file, was, p, o) == Some(0))
  {
    if segs != [] {
      var n := |segs| - 1;
      assert !Loads(segs[n]) || !FromFile(segs[n], file, Addr(p, o));
      Untouched(segs[..n], file, was, p, o);
    }
  }

  // A byte of a segment, in a page that was not mapped: the file's below filesz, zero from there to memsz, and
  // that also where segments share the page.
  lemma {:induction false} SegmentLoaded(segs: seq<Segment>, file: seq<int>, i: nat, p: nat, o: nat)
    requires Proper(segs) && i < |segs| && Loads(segs[i]) && o < PAGE_SIZE
    requires segs[i].vaddr <= Addr(p, o) < segs[i].vaddr + segs[i].memsz
    requires segs[i].offset + segs[i].filesz <= |file|
    ensures var k := Addr(p, o) - segs[i].vaddr;
            After(segs, file, None, p, o) == Some(if k < segs[i].filesz then file[segs[i].offset + k] else 0)
  {
    var n, x := |segs| - 1, Addr(p, o);
    var s := segs[i];
    InPages(s, p, o);
    if i == n {
      forall j | 0 <= j < n && Loads(segs[j]) ensures !FromFile(segs[j], file, x) { assert Disjoint(segs[j], s); }
      Untouched(segs[..n], file, None, p, o);
    } else {
      SegmentLoaded(segs[..n], file, i, p, o);
      if Loads(segs[n]) { assert Disjoint(s, segs[n]); }
    }
  }

  // ---------- Steps on the memory ----------

  // A zeroed frame is mapped.
  function Mapped(m: Memory, p: nat, f: nat): Memory {
    Memory(m.frameOf[p := f], m.ram[f := Zeroes()])
  }

  function Zeroes(): (z: seq<int>)
    ensures |z| == PAGE_SIZE && forall i :: 0 <= i < PAGE_SIZE ==> z[i] == 0
  {
    seq(PAGE_SIZE, i => 0)
  }

  lemma MappedGood(m: Memory, p: nat, f: nat)
    requires Good(m) && p !in m.frameOf && f > 0 && f !in m.ram
    ensures Good(Mapped(m, p, f))
    ensures forall q: nat, o: nat :: o < PAGE_SIZE ==> ByteAt(Mapped(m, p, f), q, o) == if q == p then Some(0) else ByteAt(m, q, o)
  {
  }

  // Bytes written to the frame of a page.
  function Filled(m: Memory, p: nat, o: nat, data: seq<int>): Memory
    requires p in m.frameOf && m.frameOf[p] in m.ram && o + |data| <= |m.ram[m.frameOf[p]]|
  {
    var f := m.frameOf[p];
    m.(ram := m.ram[f := m.ram[f][..o] + data + m.ram[f][o + |data|..]])
  }

  lemma FilledGood(m: Memory, p: nat, o: nat, data: seq<int>)
    requires Good(m) && p in m.frameOf && o + |data| <= PAGE_SIZE
    ensures Good(Filled(m, p, o, data))
    ensures forall q: nat, h: nat :: h < PAGE_SIZE ==>
              ByteAt(Filled(m, p, o, data), q, h) == if q == p && o <= h < o + |data| then Some(data[h - o]) else ByteAt(m, q, h)
  {
  }

  // ---------- Progress of the two loops ----------

  // Pages below `to` are mapped.
  ghost predicate MappedTo(m0: Memory, m: Memory, s: Segment, to: nat)
    requires Good(m0) && Good(m)
  {
    forall p: nat, o: nat :: o < PAGE_SIZE ==>
      ByteAt(m, p, o) == if ByteAt(m0, p, o) == None && FirstPage(s) <= p < to then Some(0) else ByteAt(m0, p, o)
  }

  // The first n bytes are filled in.
  ghost predicate FilledTo(m0: Memory, m: Memory, s: Segment, file: seq<int>, n: nat)
    requires Good(m0) && Good(m)
  {
    forall p: nat, o: nat :: o < PAGE_SIZE ==> ByteAt(m, p, o) == FillByte(s, file, ByteAt(m0, p, o), n, Addr(p, o))
  }

  function FillByte(s: Segment, file: seq<int>, was: Option<int>, n: nat, x: nat): Option<int> {
    if s.vaddr <= x < s.vaddr + n && s.offset + (x - s.vaddr) < |file| then Some(file[s.offset + (x - s.vaddr)]) else was
  }

  ghost predicate LoadedTo(m0: Memory, m: Memory, segs: seq<Segment>, file: seq<int>)
    requires Good(m0) && Good(m)
  {
    forall p: nat, o: nat :: o < PAGE_SIZE ==> ByteAt(m, p, o) == After(segs, file, ByteAt(m0, p, o), p, o)
  }

  lemma MapOn(m0: Memory, m: Memory, s: Segment, to: nat, f: nat)
    requires Good(m0) && Good(m) && MappedTo(m0, m, s, to) && FirstPage(s) <= to
    requires to !in m.frameOf ==> f > 0 && f !in m.ram
    ensures var m' := if to in m.frameOf then m else Mapped(m, to, f);
            Good(m') && MappedTo(m0, m', s, to + 1)
  {
    hide Good;
    if to in m.frameOf {
      forall p: nat, o: nat | o < PAGE_SIZE
        ensures ByteAt(m, p, o) == if ByteAt(m0, p, o) == None && FirstPage(s) <= p < to + 1 then Some(0) else ByteAt(m0, p, o)
      {
        assert ByteAt(m, p, o) == if ByteAt(m0, p, o) == None && FirstPage(s) <= p < to then Some(0) else ByteAt(m0, p, o);
      }
    } else {
      MappedGood(m, to, f);
    }
  }

  // A chunk is read from position pos of the file, which has kept up with the bytes asked for or stands at its end.
  ghost predicate Keeps(s: Segment, file: seq<int>, n: nat, pos: nat) {
    pos == s.offset + n || |file| <= pos <= s.offset + n
  }

  function Chunk(file: seq<int>, pos: nat, n: nat): seq<int> {
    if pos >= |file| then [] else if pos + n <= |file| then file[pos..pos + n] else file[pos..]
  }

  lemma FillOn(m0: Memory, m: Memory, s: Segment, file: seq<int>, n: nat, pos: nat, p: nat, o: nat, chunk: nat)
    requires Good(m0) && Good(m) && FilledTo(m0, m, s, file, n) && Keeps(s, file, n, pos) && p in m.frameOf
    requires Addr(p, o) == s.vaddr + n && o + chunk <= PAGE_SIZE
    ensures var data := Chunk(file, pos, chunk);
            var m' := Filled(m, p, o, data);
            Good(m') && FilledTo(m0, m', s, file, n + chunk) && Keeps(s, file, n + chunk, pos + |data|)
  {
    var data := Chunk(file, pos, chunk);
    var m' := Filled(m, p, o, data);
    FilledGood(m, p, o, data);
    forall q: nat, h: nat | h < PAGE_SIZE ensures ByteAt(m', q, h) == FillByte(s, file, ByteAt(m0, q, h), n + chunk, Addr(q, h)) {
      hide Good, ByteAt;
      assert ByteAt(m, q, h) == FillByte(s, file, ByteAt(m0, q, h), n, Addr(q, h));
      SamePage(p, o, q, h, chunk);
    }
  }

  lemma SamePage(p: nat, o: nat, q: nat, h: nat, n: nat)
    requires o + n <= PAGE_SIZE && h < PAGE_SIZE
    ensures Addr(p, o) <= Addr(q, h) < Addr(p, o) + n <==> q == p && o <= h < o + n
  {
  }

  lemma SegmentOn(m0: Memory, m1: Memory, m2: Memory, m3: Memory, segs: seq<Segment>, s: Segment, file: seq<int>)
    requires Good(m0) && Good(m1) && Good(m2) && Good(m3) && LoadedTo(m0, m1, segs, file) && Loads(s)
    requires MappedTo(m1, m2, s, EndPage(s)) && FilledTo(m2, m3, s, file, s.filesz)
    ensures LoadedTo(m0, m3, segs + [s], file)
  {
    var to := segs + [s];
    assert to[..|to| - 1] == segs && to[|to| - 1] == s;
    forall p: nat, o: nat | o < PAGE_SIZE ensures ByteAt(m3, p, o) == After(to, file, ByteAt(m0, p, o), p, o) {
      hide Good, ByteAt;
      assert ByteAt(m1, p, o) == After(segs, file, ByteAt(m0, p, o), p, o);
      assert ByteAt(m2, p, o) == if ByteAt(m1, p, o) == None && FirstPage(s) <= p < EndPage(s) then Some(0) else ByteAt(m1, p, o);
      assert ByteAt(m3, p, o) == FillByte(s, file, ByteAt(m2, p, o), s.filesz, Addr(p, o));
    }
  }

  lemma SkipOn(m0: Memory, m: Memory, segs: seq<Segment>, s: Segment, file: seq<int>)
    requires Good(m0) && Good(m) && LoadedTo(m0, m, segs, file) && !Loads(s)
    ensures LoadedTo(m0, m, segs + [s], file)
  {
    var to := segs + [s];
    assert to[..|to| - 1] == segs && to[|to| - 1] == s;
  }

  // What the loader is given to work with: the frames the allocator will hand out, and the pages for which no
  // page table can be had.
  class Loader {
    var mem: Memory
    var supply: seq<nat>
    const refused: set<nat>

    ghost predicate Valid()
      reads this
    {
      && Good(mem)
      && (forall i :: 0 <= i < |supply| ==> supply[i] > 0 && supply[i] !in mem.ram)
      && (forall i, j :: 0 <= i < j < |supply| ==> supply[i] != supply[j])
    }

    constructor (mem: Memory, supply: seq<nat>, refused: set<nat>)
      requires Good(mem) && (forall i :: 0 <= i < |supply| ==> supply[i] > 0 && supply[i] !in mem.ram)
      requires forall i, j :: 0 <= i < j < |supply| ==> supply[i] != supply[j]
      ensures Valid() && this.mem == mem
    {
      this.mem, this.supply, this.refused := mem, supply, refused;
    }

    // One page: left alone if it is mapped, else put on a zeroed frame.
    method MapPage(p: nat, ghost m0: Memory, ghost s: Segment)
      returns (ok: bool)
      requires Valid() && Good(m0) && FirstPage(s) <= p
      modifies this
      ensures Valid()
      ensures ok && p !in refused && old(MappedTo(m0, mem, s, p)) ==> MappedTo(m0, mem, s, p + 1)
      ensures !ok ==> supply == []
    {
      hide MappedTo;
      if p in mem.frameOf {
        if MappedTo(m0, mem, s, p) { MapOn(m0, mem, s, p, 0); }
        return true;
      }
      if supply == [] { return false; }
      var f := supply[0];
      supply := supply[1..];
      if p in refused {
        mem := mem.(ram := mem.ram[f := Zeroes()]);
        return true;
      }
      if MappedTo(m0, mem, s, p) { MapOn(m0, mem, s, p, f); }
      MappedGood(mem, p, f);
      mem := Mapped(mem, p, f);
      return true;
    }

    // The pages of a segment.
    method MapPages(s: Segment) returns (ok: bool)
      requires Valid()
      modifies this
      ensures Valid()
      ensures ok && Granted(s, refused) ==> MappedTo(old(mem), mem, s, EndPage(s))
      ensures !ok ==> supply == []
    {
      hide MappedTo, Good;
      ghost var m0 := mem;
      var p := FirstPage(s);
      MappedNone(m0, s);
      PagesRise(s);
      while p < EndPage(s)
        invariant Valid() && FirstPage(s) <= p <= EndPage(s)
        invariant Granted(s, refused) ==> MappedTo(m0, mem, s, p)
      {
        var mapped := MapPage(p, m0, s);
        if !mapped { return false; }
        p := p + 1;
      }
      return true;
    }

    // The segment's bytes, page by page, from the file.
    method Fill(s: Segment, file: seq<int>) returns (ok: bool, ghost missing: nat)
      requires Valid()
      modifies this`mem
      ensures Valid() && mem.frameOf == old(mem).frameOf
      ensures ok ==> FilledTo(old(mem), mem, s, file, s.filesz)
      ensures !ok ==> missing !in mem.frameOf && FirstPage(s) <= missing && missing * PAGE_SIZE < s.vaddr + s.filesz
    {
      hide FilledTo, Good, Chunk, Filled;
      ghost var m0 := mem;
      var copied: nat, pos: nat := 0, s.offset;
      FilledNone(m0, s, file);
      while copied < s.filesz
        invariant Valid() && copied <= s.filesz && mem.ram.Keys == m0.ram.Keys && mem.frameOf == m0.frameOf
        invariant FilledTo(m0, mem, s, file, copied) && Keeps(s, file, copied, pos)
      {
        var cur := s.vaddr + copied;
        var p, o := cur / PAGE_SIZE, cur % PAGE_SIZE;
        if p !in mem.frameOf { return false, p; }
        var chunk := PAGE_SIZE - o;
        if chunk > s.filesz - copied { chunk := s.filesz - copied; }
        var data := Chunk(file, pos, chunk);
        ChunkSize(file, pos, chunk);
        FillOn(m0, mem, s, file, copied, pos, p, o, chunk);
        HasFrame(mem, p);
        FillKeys(mem, p, o, data);
        mem := Filled(mem, p, o, data);
        pos := pos + |data|;
        copied := copied + chunk;
      }
      return true, 0;
    }

    // The loop of elf_load_PML4 over the program headers.
    method Load(segs: seq<Segment>, file: seq<int>) returns (ok: bool)
      requires Valid()
      modifies this
      ensures Valid()
      ensures ok && (forall i :: 0 <= i < |segs| ==> Granted(segs[i], refused)) ==> LoadedTo(old(mem), mem, segs, file)
      ensures !ok ==> supply == [] || exists i :: 0 <= i < |segs| && (!Granted(segs[i], refused) || segs[i].filesz > segs[i].memsz)
    {
      hide LoadedTo, MappedTo, FilledTo, Good, Granted;
      ghost var m0 := mem;
      var i := 0;
      LoadedNone(m0, file);
      assert segs[..0] == [];
      while i < |segs|
        invariant Valid() && i <= |segs|
        invariant (forall j :: 0 <= j < |segs| ==> Granted(segs[j], refused)) ==> LoadedTo(m0, mem, segs[..i], file)
      {
        assert segs[..i + 1] == segs[..i] + [segs[i]];
        ghost var m1 := mem;
        if segs[i].load && segs[i].memsz != 0 {
          var mapped := MapPages(segs[i]);
          if !mapped { return false; }
          ghost var m2 := mem;
          ghost var missing;
          var filled;
          filled, missing := Fill(segs[i], file);
          if !filled {
            if Granted(segs[i], refused) && segs[i].filesz <= segs[i].memsz { AllMapped(m1, m2, segs[i], missing); }
            return false;
          }
          if forall j :: 0 <= j < |segs| ==> Granted(segs[j], refused) {
            SegmentOn(m0, m1, m2, mem, segs[..i], segs[i], file);
          }
        } else if forall j :: 0 <= j < |segs| ==> Granted(segs[j], refused) {
          SkipOn(m0, m1, segs[..i], segs[i], file);
        }
        i := i + 1;
      }
      assert segs[..i] == segs;
      return true;
    }
  }

  // The loaded image: in pages that were free before, every segment stands as the file says, zero-filled.
  lemma ImageCorrect(m0: Memory, m: Memory, segs: seq<Segment>, file: seq<int>, i: nat, p: nat, o: nat)
    requires Good(m0) && Good(m) && LoadedTo(m0, m, segs, file) && Proper(segs) && i < |segs| && Loads(segs[i])
    requires o < PAGE_SIZE && p !in m0.frameOf && segs[i].vaddr <= Addr(p, o) < segs[i].vaddr + segs[i].memsz
    requires segs[i].offset + segs[i].filesz <= |file|
    ensures var k := Addr(p, o) - segs[i].vaddr;
            ByteAt(m, p, o) == Some(if k < segs[i].filesz then file[segs[i].offset + k] else 0)
  {
    SegmentLoaded(segs, file, i, p, o);
  }

  // Page tables can be had for every page of the segment.
  ghost predicate Granted(s: Segment, refused: set<nat>) {
    forall p: nat :: FirstPage(s) <= p < EndPage(s) ==> p !in refused
  }

  lemma AllMapped(m0: Memory, m: Memory, s: Segment, p: nat)
    requires Good(m0) && Good(m) && MappedTo(m0, m, s, EndPage(s)) && FirstPage(s) <= p && p * PAGE_SIZE < s.vaddr + s.memsz
    ensures p in m.frameOf
  {
    assert ByteAt(m, p, 0) == if ByteAt(m0, p, 0) == None && FirstPage(s) <= p < EndPage(s) then Some(0) else ByteAt(m0, p, 0);
  }

  lemma PagesRise(s: Segment)
    ensures FirstPage(s) <= EndPage(s)
  {
  }

  lemma MappedNone(m: Memory, s: Segment)
    requires Good(m)
    ensures MappedTo(m, m, s, FirstPage(s))
  {
  }

  lemma FilledNone(m: Memory, s: Segment, file: seq<int>)
    requires Good(m)
    ensures FilledTo(m, m, s, file, 0)
  {
  }

  lemma LoadedNone(m: Memory, file: seq<int>)
    requires Good(m)
    ensures LoadedTo(m, m, [], file)
  {
  }

  lemma ChunkSize(file: seq<int>, pos: nat, n: nat)
    ensures |Chunk(file, pos, n)| <= n
  {
  }

  lemma HasFrame(m: Memory, p: nat)
    requires Good(m) && p in m.frameOf
    ensures m.frameOf[p] in m.ram && |m.ram[m.frameOf[p]]| == PAGE_SIZE
  {
  }

  lemma FillKeys(m: Memory, p: nat, o: nat, data: seq<int>)
    requires p in m.frameOf && m.frameOf[p] in m.ram && o + |data| <= |m.ram[m.frameOf[p]]|
    ensures Filled(m, p, o, data).ram.Keys == m.ram.Keys && Filled(m, p, o, data).frameOf == m.frameOf
  {
  }
}
