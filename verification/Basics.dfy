// Shared idioms.

module Basics {

  datatype Option<+T> = None | Some(value: T)

  type Byte = n: int | 0 <= n < 256

  /** Always true. A predicate written `forall k :: Unfolded(k) ==> body` means body, but the verifier
      looks inside only where Unfolded is mentioned; this keeps large definitions out of other proofs. */
  predicate Unfolded(k: nat) {
    true
  }

  function Flatten<T>(parts: seq<seq<T>>): seq<T> {
    if parts == [] then [] else Flatten(parts[..|parts| - 1]) + parts[|parts| - 1]
  }

  /** The smaller of two naturals. */
  function Min(a: nat, b: nat): nat {
    if a <= b then a else b
  }

  lemma Multiple(k: int, d: int)
    requires d > 0
    ensures k >= 1 ==> k * d >= d
    ensures k <= -1 ==> k * d <= 0 - d
  {
  }

  /** Quotient and remainder are unique. */
  lemma Division(quotient: nat, d: nat, remainder: nat)
    requires remainder < d
    ensures (quotient * d + remainder) / d == quotient && (quotient * d + remainder) % d == remainder
  {
    var n := quotient * d + remainder;
    var excess := n / d - quotient;
    assert n == (n / d) * d + n % d;
    assert excess * d == remainder - n % d;
    Multiple(excess, d);
  }
}
