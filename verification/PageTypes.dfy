/**
 Vocabulary shared by the paging modules (src/mem/vmm.h): page-table entries, the position of a
 table in a four-level tree, and the slot of one virtual page.
 */
module PageTypes {

  const ENTRIES := 512      // entries per table
  const KERNEL_HALF := 256  // first PML4 entry of the kernel half
  const PAGE_SIZE := 0x1000

  type Page = p: seq<bv8> | |p| == PAGE_SIZE witness seq(PAGE_SIZE, _ => 0)

  function Blank(): Page {
    seq(PAGE_SIZE, _ => 0)
  }

  // VMM_FLAG_PRESENT, VMM_FLAG_WRITABLE, VMM_FLAG_USER, PTE_FLAG_SHARED and the frame number.
  datatype Entry = Entry(present: bool, writable: bool, user: bool, shared: bool, frame: nat)

  const ABSENT := Entry(false, false, false, false, 0)

  // A table is identified by the PML4 frame it hangs under and the indices that lead to it.
  datatype Pos = Top(root: nat) | Kid(up: Pos, index: nat) {
    function Root(): nat {
      match this
      case Top(r) => r
      case Kid(up, _) => up.Root()
    }

    function Depth(): nat {
      match this
      case Top(_) => 0
      case Kid(up, _) => up.Depth() + 1
    }

    // The table at the same place in another tree.
    function Reroot(root: nat): (p: Pos)
      ensures p.Root() == root && p.Depth() == Depth()
    {
      match this
      case Top(_) => Top(root)
      case Kid(up, i) => Kid(up.Reroot(root), i)
    }

    lemma RerootTwice(r: nat)
      ensures Reroot(r).Reroot(Root()) == this
    {
    }
  }

  // The slot of a virtual page: the page table that covers it and the index in that table.
  datatype Slot = Slot(pos: Pos, index: nat) {
    function Space(): nat {
      pos.Root()
    }

    function Reroot(root: nat): (k: Slot)
      ensures k.Space() == root
    {
      Slot(pos.Reroot(root), index)
    }
  }

  // What fork leaves in both parent and child: private pages lose the writable bit.
  function Demote(e: Entry): Entry {
    if e.shared then e else e.(writable := false)
  }

  function Poke(p: Page, offset: nat, b: bv8): Page
    requires offset < PAGE_SIZE
  {
    p[offset := b]
  }
}
