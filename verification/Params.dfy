/** The sizes of param.h that the log and the file system share. */
module Params {
  /** The most blocks one file system operation writes. */
  const MAXOPBLOCKS := 10

  /** The most blocks one transaction holds. */
  const LOGSIZE := 3 * MAXOPBLOCKS

  /** Buffers in the cache. */
  const NBUF := 3 * MAXOPBLOCKS
}
