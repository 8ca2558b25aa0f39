/** The configuration values the modelled code consults. */
module Configs {
  import opened ByteSeqs
  import opened Decimal

  /** A non-negative Go int. */
  type size = x: int | 0 <= x < 0x8000_0000_0000_0000

  /** The buffer size of bufio.NewReader. */
  const BUF_SIZE: nat := 4096

  /** `crc` is the checksum of a byte string; nothing is assumed about it. */
  datatype Config = Config(
    maxBatchSize: size,
    partitionSize: size,
    maxPartitions: size,
    flushBatches: int,
    crc: Bytes -> uint32)
}
