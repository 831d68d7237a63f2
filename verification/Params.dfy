/** Sizes that several parts share: those of param.h, and the range of a 32-bit unsigned number. */
module Params {
  const MAXOPBLOCKS: nat := 10
  const LOGSIZE: nat := MAXOPBLOCKS * 3
  const NBUF: nat := MAXOPBLOCKS * 3
  const UINT: int := 0x1_0000_0000
}
