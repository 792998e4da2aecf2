/**
 The rounding of a request that both allocators begin with (src/mem/kmalloc.c, src/libc/libc.c).
 */
module Sizes {

  const SIZE_MAX: nat := 0x1_0000_0000_0000_0000

  // The request rounded up to 16 bytes, in a 64-bit word.
  function Rounded(size: nat): nat {
    (size + 15) % SIZE_MAX / 16 * 16
  }

  // Rounding gives at least what was asked for, except for the requests that wrap around.
  lemma RoundedEnough(size: nat)
    requires size < SIZE_MAX
    ensures Rounded(size) % 16 == 0
    ensures Rounded(size) >= size <==> size + 15 < SIZE_MAX
    ensures size + 15 < SIZE_MAX ==> Rounded(size) < size + 16
  {
  }

  // The largest request is rounded to nothing.
  lemma RoundedWraps()
    ensures Rounded(SIZE_MAX - 1) == 0
  {
  }
}
