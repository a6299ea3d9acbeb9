/** Values shared by the client library and the Convex ledger. */
module Ledger {

  /** One octet of a Python `bytes` value. */
  type byte = b: int | 0 <= b < 256

  type Bytes = seq<byte>

  /** A Convex account address: a non-negative integer handed out by the ledger. */
  type Address = nat
}
