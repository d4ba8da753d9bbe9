/**
 * The time series that the sampler produces and the CSV writer consumes:
 * `Vec<(u64, Vec<DynSolValue>)>` in evm/src/samples/utils.rs.
 */
module Samples {
  import opened SolValues

  /** An unsigned 64-bit integer, Rust's `u64`. */
  type u64 = x: int | 0 <= x < 0x1_0000_0000_0000_0000

  /** One point of a time series: a block number and the values a call returned there. */
  datatype Sample = Sample(block: u64, values: seq<Value>)
}
