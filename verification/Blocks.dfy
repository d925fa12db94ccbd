/** Disk blocks as the file-system layers below the inode code see them. */
module Blocks {

  const BSIZE := 1024

  /** BSIZE / 4: the log and the cache see a block as 32-bit words. */
  const BWORDS := 256

  type Block = b: seq<int> | |b| == BWORDS witness seq(BWORDS, _ => 0)

  /** A disk is addressed by block number; one block is written at a time. */
  type Disk = seq<Block>
}
