/** Octets, and the two small result types the rest of the project shares. */
module Octets {

  /** One octet on the wire. */
  type Octet = bv8

  datatype Option<+T> = None | Some(value: T)

  datatype Result<+T, +E> = Ok(value: T) | Err(error: E)

  /** The number an octet stands for. */
  function Nat(b: Octet): (n: nat)
    ensures n < 256
  {
    b as int
  }

  /** The low octet of a number, as Go's `byte(n)` truncates it. */
  function Low(n: nat): Octet {
    (n % 256) as bv8
  }

  function Zeros(n: nat): (s: seq<Octet>)
    ensures |s| == n
    ensures forall i :: 0 <= i < n ==> s[i] == 0
  {
    seq(n, i => 0)
  }

  lemma NatOfLow(n: nat)
    requires n < 256
    ensures Nat(Low(n)) == n
  {
  }

  lemma LowOfNat(b: Octet)
    ensures Low(Nat(b)) == b
  {
    CastBack(b, Nat(b) % 256);
  }

  lemma CastBack(b: Octet, n: nat)
    requires n == b as int
    ensures n < 256 && n as bv8 == b
  {
  }
}
