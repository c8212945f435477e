/**
 The constants of the build: 64-byte cache lines, hence buckets, neighbourhoods and vectors of 16
 32-bit lanes, and the two reserved key values.
 */
module Keys {

  const EMPTY_KEY: int := -1
  const INVAL_KEY: int := -0x1111_1112
  const HS_BUCKET_SIZE: nat := 16
  const VECTOR_SIZE: nat := 16
  const ELEMS_IN_BUCKET: nat := 16

  /** A 32-bit key that is neither of the two reserved values. */
  type Key = k: int | -0x8000_0000 <= k < 0x8000_0000 && k != -1 && k != -0x1111_1112
}
