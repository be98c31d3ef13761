/** The ranges of the C types the programs use. */
module CTypes {
  const INT_LIMIT: nat := 0x8000_0000              // first value past an int
  const UINT_LIMIT: nat := 0x1_0000_0000           // first value past an unsigned int
  const LONG_LIMIT: nat := 0x8000_0000_0000_0000   // first value past a 64-bit long

  /** The int that has the bits of an unsigned int. */
  function SignedInt(x: nat): int {
    if x < INT_LIMIT then x else x - UINT_LIMIT
  }
}
