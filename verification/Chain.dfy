/** What several modules of the chain share: addresses, the ways a keeper's operation ends, and
    the bounds of the machine's and the chain's integers. */
module Chain {
  import opened Bytes

  datatype Address = Address(bytes: Bytes)

  predicate Distinct(addresses: seq<Address>)
  {
    forall i, j :: 0 <= i < j < |addresses| ==> addresses[i] != addresses[j]
  }

  /** Done, refused with an error, or stopped by a panic. */
  datatype Verdict = Done | Fails | Panic

  const UINT64_BOUND: nat := 0x1_0000_0000_0000_0000
  const INT64_BOUND: nat := 0x8000_0000_0000_0000

  /** An sdk.Int has at most 255 bits. */
  const INT_BOUND: int := 0x8000000000000000000000000000000000000000000000000000000000000000
}
