/** The bytes of a number. */
module Octets {
  import opened Words

  /** n >> 8 * k */
  function Shift8(n: nat, k: nat): nat
    decreases k
  {
    if k == 0 then n else Shift8(n, k - 1) / 256
  }

  /** Byte k of n, counted from the least significant. */
  function Octet(n: nat, k: nat): byte {
    ByteAt(Shift8(n, k) % 256)
  }

  lemma SplitByte(k: nat, low: nat)
    ensures (256 * k + low) % 256 == low % 256 && (256 * k + low) / 256 == k + low / 256
  {}

  lemma Shift8Next(n: nat, k: nat)
    ensures Shift8(n, 0) == n && Shift8(n, k + 1) == Shift8(n, k) / 256
  {}
}
