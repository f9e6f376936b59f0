/**
 The compile-time parameters of the storage stack (kernel/param.h), and a disk block as kernel/log.c
 reads it: BSIZE bytes cast to an array of 32-bit words.
 */
module Params {

  const WORDS: nat := 256           // BSIZE / sizeof(uint)
  const MAXOPBLOCKS: nat := 10
  const LOGBLOCKS: nat := 30        // MAXOPBLOCKS * 3
  const NBUF: nat := 30             // MAXOPBLOCKS * 3
  const UINT: nat := 0x1_0000_0000

  function Min(a: int, b: int): int {
    if a < b then a else b
  }

  function Max(a: int, b: int): int {
    if a < b then b else a
  }

  datatype Option<T> = None | Some(value: T)

  type Block = b: seq<nat> | |b| == 256 witness seq(256, _ => 0)
}
