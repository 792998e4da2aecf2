/**
 Numbers in sectors: the little-endian fields of the Microsoft FAT32 File System Specification.
 */
module FatBytes {
  import opened SectorCache

  const UINT16 := 0x1_0000
  const ENTRY_MASK := 0x1000_0000  // entries are 28 bits wide

  function LoadU16(s: Sector, at: nat): (v: nat)
    requires at + 2 <= SECTOR_SIZE
    ensures v < UINT16
  {
    s[at] as int + 256 * (s[at + 1] as int)
  }

  function LoadU32(s: Sector, at: nat): (v: nat)
    requires at + 4 <= SECTOR_SIZE
    ensures v < UINT32
  {
    LoadU16(s, at) + UINT16 * LoadU16(s, at + 2)
  }

  function StoreU16(s: Sector, at: nat, v: nat): (t: Sector)
    requires at + 2 <= SECTOR_SIZE && v < UINT16
    ensures LoadU16(t, at) == v
    ensures forall i :: 0 <= i < SECTOR_SIZE && !(at <= i < at + 2) ==> t[i] == s[i]
  {
    s[at := v % 256][at + 1 := v / 256]
  }

  function StoreU32(s: Sector, at: nat, v: nat): (t: Sector)
    requires at + 4 <= SECTOR_SIZE && v < UINT32
    ensures LoadU32(t, at) == v
    ensures forall i :: 0 <= i < SECTOR_SIZE && !(at <= i < at + 4) ==> t[i] == s[i]
  {
    StoreU16(StoreU16(s, at, v % UINT16), at + 2, v / UINT16)
  }

  // ---------- FAT entries ----------

  const PER_SECTOR := 128  // entries per FAT sector

  // Where entry c of a FAT lies: fat32_read_fat and fat32_write_fat_entry compute the same place.
  function EntrySector(c: nat): nat {
    c * 4 / SECTOR_SIZE
  }

  function EntryOffset(c: nat): (at: nat)
    ensures at + 4 <= SECTOR_SIZE
  {
    c * 4 % SECTOR_SIZE
  }

  lemma EntryPlace(c: nat)
    ensures EntrySector(c) == c / PER_SECTOR && EntryOffset(c) == c % PER_SECTOR * 4
    ensures c == EntrySector(c) * PER_SECTOR + EntryOffset(c) / 4
  {
  }

  // The entry of cluster c in the FAT that starts at the given sector.
  function FatEntry(disk: seq<Sector>, fatStart: nat, c: nat): nat
    requires fatStart + EntrySector(c) < |disk|
  {
    LoadU32(disk[fatStart + EntrySector(c)], EntryOffset(c)) % ENTRY_MASK
  }

  function SetFatEntry(disk: seq<Sector>, fatStart: nat, c: nat, v: nat): seq<Sector>
    requires fatStart + EntrySector(c) < |disk| && v < UINT32
  {
    var lba := fatStart + EntrySector(c);
    disk[lba := StoreU32(disk[lba], EntryOffset(c), v)]
  }

  // Writing one entry changes that entry and no other.
  lemma SetFatEntryAt(disk: seq<Sector>, fatStart: nat, c: nat, v: nat, d: nat)
    requires fatStart + EntrySector(c) < |disk| && v < UINT32 && fatStart + EntrySector(d) < |disk|
    ensures FatEntry(SetFatEntry(disk, fatStart, c, v), fatStart, d) ==
            if d == c then v % 0x1000_0000 else FatEntry(disk, fatStart, d)
  {
    if d != c && EntrySector(d) == EntrySector(c) {
      EntryPlace(c);
      EntryPlace(d);
      var lba := fatStart + EntrySector(c);
      var s, t := disk[lba], SetFatEntry(disk, fatStart, c, v)[lba];
      var at := EntryOffset(d);
      assert at + 4 <= EntryOffset(c) || EntryOffset(c) + 4 <= at;
      assert forall i :: at <= i < at + 4 ==> t[i] == s[i];
    }
  }
}
