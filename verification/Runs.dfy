/** Shared vocabulary: runs as sequences that grow at the end, and C's unsigned
    words. */
module Runs {

  const U32 := 0x1_0000_0000
  const U64 := 0x1_0000_0000_0000_0000

  function Front<T>(run: seq<T>): seq<T>
    requires run != []
  {
    run[..|run| - 1]
  }

  function Last<T>(run: seq<T>): T
    requires run != []
  {
    run[|run| - 1]
  }

  /** The 64-bit unsigned difference of two times. */
  function Since(now: int, earlier: int): int {
    (now - earlier) % U64
  }

  function Micros(seconds: real): int {
    (seconds * 1000000.0).Floor
  }
}
