/**
 The 64-slot write-through cache in front of the FAT sectors (src/fs/fat32.c).

 Reads and writes of FAT sectors go through the cache; everything else goes straight to the disk.  The
 cache is transparent: a cached read returns what is on the disk now.
 */
module SectorCache {

  const SECTOR_SIZE := 512
  const FAT_CACHE_SIZE := 64
  const UINT32 := 0x1_0000_0000

  type Byte = x: int | 0 <= x < 256

  type Sector = s: seq<Byte> | |s| == SECTOR_SIZE witness seq(SECTOR_SIZE, _ => 0)

  datatype CacheSlot = CacheSlot(valid: bool, lba: nat, lastUsed: nat, data: Sector)

  // The slot that holds the given sector, or the number of slots.
  function Find(slots: seq<CacheSlot>, lba: nat): (i: nat)
    ensures i <= |slots|
    ensures i < |slots| ==> slots[i].valid && slots[i].lba == lba
    ensures forall j :: 0 <= j < i ==> !(slots[j].valid && slots[j].lba == lba)
  {
    if slots == [] || (slots[0].valid && slots[0].lba == lba) then 0 else 1 + Find(slots[1..], lba)
  }

  lemma FindFacts(slots: seq<CacheSlot>, lba: nat)
    ensures var i := Find(slots, lba); i <= |slots| && (i < |slots| ==> slots[i].valid && slots[i].lba == lba)
  {
  }

  // No sector is in two slots, and every slot in use repeats its sector.
  ghost predicate Coherent(disk: seq<Sector>, slots: seq<CacheSlot>) {
    && (forall i :: 0 <= i < |slots| && slots[i].valid ==> slots[i].lba < |disk| && slots[i].data == disk[slots[i].lba])
    && (forall i, j :: 0 <= i < j < |slots| && slots[i].valid && slots[j].valid ==> slots[i].lba != slots[j].lba)
  }

  lemma RefillCoherent(disk: seq<Sector>, slots: seq<CacheSlot>, i: nat, lba: nat, tick: nat)
    requires Coherent(disk, slots) && i < |slots| && lba < |disk| && Find(slots, lba) == |slots|
    ensures Coherent(disk, slots[i := CacheSlot(true, lba, tick, disk[lba])])
  {
  }

  // After a read slot i holds the sector, with the time of the read: the slot that held it, or else the one given up.
  // No other slot changes.
  ghost predicate Filled(was: seq<CacheSlot>, now: seq<CacheSlot>, i: nat, lba: nat, tick: nat, s: Sector) {
    && i < |was| && now == was[i := CacheSlot(true, lba, tick, s)]
    && if Find(was, lba) < |was| then i == Find(was, lba) else Spare(was, i)
  }

  lemma TouchCoherent(disk: seq<Sector>, slots: seq<CacheSlot>, i: nat, tick: nat)
    requires Coherent(disk, slots) && i < |slots|
    ensures Coherent(disk, slots[i := slots[i].(lastUsed := tick)])
    ensures slots[i].valid ==> slots[i].lba < |disk| && slots[i].data == disk[slots[i].lba]
  {
  }

  lemma PutCoherent(disk: seq<Sector>, slots: seq<CacheSlot>, lba: nat, s: Sector, tick: nat)
    requires Coherent(disk, slots) && lba < |disk|
    ensures var i := Find(slots, lba);
            Coherent(disk[lba := s], if i < |slots| then slots[i := CacheSlot(true, lba, tick, s)] else slots)
  {
  }

  // The slot to give up: the first one not in use, else one used longest ago.
  ghost predicate Spare(slots: seq<CacheSlot>, v: nat) {
    && v < |slots|
    && ((exists i :: 0 <= i < |slots| && !slots[i].valid) ==> !slots[v].valid && forall j :: 0 <= j < v ==> slots[j].valid)
    && ((forall i :: 0 <= i < |slots| ==> slots[i].valid) ==> forall j :: 0 <= j < |slots| ==> slots[v].lastUsed <= slots[j].lastUsed)
  }

  // A sector may be written behind the cache's back exactly when no slot holds it or nothing changes.
  lemma DirectWriteCoherentIff(disk: seq<Sector>, slots: seq<CacheSlot>, lba: nat, s: Sector)
    requires Coherent(disk, slots) && lba < |disk|
    ensures Coherent(disk[lba := s], slots) <==> (Find(slots, lba) == |slots| || s == disk[lba])
  {
    var i := Find(slots, lba);
    if i == |slots| {
      forall j | 0 <= j < |slots| && slots[j].valid ensures slots[j].lba != lba {
      }
    } else if s != disk[lba] {
      assert slots[i].valid && slots[i].data != disk[lba := s][slots[i].lba];
    } else {
      assert disk[lba := s] == disk;
    }
  }

  // Only sectors fatStart..fatEnd-1, those of the FAT, are read and written through the cache.
  class Cache {
    const fatStart: nat
    const fatEnd: nat
    var disk: seq<Sector>
    var slots: seq<CacheSlot>
    var tick: nat

    ghost predicate Ok()
      reads this
    {
      && |slots| == FAT_CACHE_SIZE && fatEnd <= |disk| && Coherent(disk, slots)
      && forall i :: 0 <= i < |slots| && slots[i].valid ==> fatStart <= slots[i].lba < fatEnd
    }

    // fat32_init_fs, fat_cache_invalidate.
    constructor (image: seq<Sector>, start: nat, end: nat)
      requires end <= |image|
      ensures Ok() && disk == image && fatStart == start && fatEnd == end
    {
      fatStart, fatEnd := start, end;
      disk := image;
      slots := seq(FAT_CACHE_SIZE, _ => CacheSlot(false, 0, 0, seq(SECTOR_SIZE, _ => 0)));
      tick := 0;
    }

    // The slot to give up on a miss: the first one not in use, else a least recently used one.
    method Victim() returns (victim: nat)
      requires Ok()
      ensures victim < FAT_CACHE_SIZE && Spare(slots, victim)
    {
      victim := 0;
      for i := 0 to FAT_CACHE_SIZE
        invariant victim < FAT_CACHE_SIZE
        invariant forall j :: 0 <= j < i ==> slots[j].valid && slots[victim].lastUsed <= slots[j].lastUsed
      {
        if !slots[i].valid {
          return i;
        }
        if slots[i].lastUsed < slots[victim].lastUsed {
          victim := i;
        }
      }
    }

    // The index of the slot holding the sector, or FAT_CACHE_SIZE.
    method Lookup(lba: nat) returns (slot: nat)
      requires Ok()
      ensures slot == Find(slots, lba)
    {
      for i := 0 to FAT_CACHE_SIZE
        invariant forall j :: 0 <= j < i ==> !(slots[j].valid && slots[j].lba == lba)
      {
        if slots[i].valid && slots[i].lba == lba {
          return i;
        }
      }
      return FAT_CACHE_SIZE;
    }

    // fat_cache_read_sector.
    method Read(lba: nat) returns (s: Sector)
      requires Ok() && fatStart <= lba < fatEnd
      modifies this
      ensures Ok() && disk == old(disk) && s == disk[lba]
      ensures tick == (old(tick) + 1) % 0x1_0000_0000
      ensures exists i: nat :: Filled(old(slots), slots, i, lba, tick, s)
    {
      hide Coherent, Find, Spare;
      tick := (tick + 1) % UINT32;
      var hit := Lookup(lba);
      if hit < FAT_CACHE_SIZE {
        FindFacts(slots, lba);
        TouchCoherent(disk, slots, hit, tick);
        s := slots[hit].data;
        slots := slots[hit := slots[hit].(lastUsed := tick)];
        assert Filled(old(slots), slots, hit, lba, tick, s);
        return;
      }
      var victim := Victim();
      RefillCoherent(disk, slots, victim, lba, tick);
      slots := slots[victim := CacheSlot(true, lba, tick, disk[lba])];
      s := slots[victim].data;
      assert Filled(old(slots), slots, victim, lba, tick, s);
    }

    // fat_cache_write_sector.
    method Write(lba: nat, s: Sector)
      requires Ok() && fatStart <= lba < fatEnd
      modifies this
      ensures Ok() && disk == old(disk)[lba := s]
      ensures tick == (old(tick) + 1) % 0x1_0000_0000
      ensures var i := Find(old(slots), lba); slots == if i < |old(slots)| then old(slots)[i := CacheSlot(true, lba, tick, s)] else old(slots)
    {
      hide Coherent, Find;
      PutCoherent(disk, slots, lba, s, (tick + 1) % UINT32);
      FindFacts(slots, lba);
      tick := (tick + 1) % UINT32;
      var slot := Lookup(lba);
      if slot < FAT_CACHE_SIZE {
        slots := slots[slot := slots[slot].(data := s, lastUsed := tick)];
      }
      disk := disk[lba := s];
    }

    // ata_write_sectors on a sector outside the FAT.
    method WriteDirect(lba: nat, s: Sector)
      requires Ok() && lba < |disk| && !(fatStart <= lba < fatEnd)
      modifies this
      ensures Ok() && disk == old(disk)[lba := s]
    {
      DirectWriteCoherentIff(disk, slots, lba, s);
      disk := disk[lba := s];
    }
  }
}
