/** Fixed-width integers, keys and the small value types shared by every other module. */
module Types {

  datatype Option<+T> = None | Some(value: T)

  /** 256 to the power of n: the number of values n bytes can hold. */
  function Pow256(n: nat): (r: nat)
    ensures r >= 1
  {
    if n == 0 then 1 else 256 * Pow256(n - 1)
  }

  const U16_BOUND: nat := 0x1_0000
  const U64_BOUND: nat := 0x1_0000_0000_0000_0000
  const U64_MAX: nat := U64_BOUND - 1

  type Byte = b: nat | b < 256
  type U64 = v: nat | v < U64_BOUND

  /** A public key is 32 bytes. It is read as the big-endian number those bytes spell, so comparing
      two keys is comparing two numbers; `Bytes.KeyOrderIsByteOrder` justifies the reading. */
  const KEY_BOUND: nat := 0x1_0000000000000000_0000000000000000_0000000000000000_0000000000000000
  const SIGNATURE_BOUND: nat :=
    0x1_00000000000000000000000000000000_00000000000000000000000000000000_00000000000000000000000000000000_00000000000000000000000000000000
  type PublicKey = k: nat | k < KEY_BOUND
  type SigningKey = k: nat | k < KEY_BOUND
  type Signature = v: nat | v < SIGNATURE_BOUND
}
