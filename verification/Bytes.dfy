/** Byte strings, as held by a `Uint8Array`. */
module Bytes {
  type Bytes = seq<bv8>

  /** A hash value. The hash function itself is always a parameter. */
  type Digest = seq<bv8>

  function Zeros(n: nat): (r: Bytes)
    ensures |r| == n
  {
    seq(n, _ => 0 as bv8)
  }

  function Concat(parts: seq<Bytes>): Bytes {
    if parts == [] then [] else Concat(parts[..|parts| - 1]) + parts[|parts| - 1]
  }

  function SumLengths(parts: seq<Bytes>): nat {
    if parts == [] then 0 else SumLengths(parts[..|parts| - 1]) + |parts[|parts| - 1]|
  }

  lemma ConcatAppend(parts: seq<Bytes>, last: Bytes)
    ensures Concat(parts + [last]) == Concat(parts) + last
    ensures SumLengths(parts + [last]) == SumLengths(parts) + |last|
  {
    assert (parts + [last])[..|parts|] == parts;
  }
}
