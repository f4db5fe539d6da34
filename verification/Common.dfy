/** Definitions that several components share. */
module Common {

  type pos = x: int | x > 0 witness 1

  datatype Option<T> = None | Some(value: T)

  const FULL_PERCENT: pos := 10000

  function Min(x: nat, y: nat): nat { if x < y then x else y }

  function Max(x: nat, y: nat): nat { if x < y then y else x }

  /** The last `n` elements of a sequence. */
  function Newest<T>(s: seq<T>, n: nat): seq<T> { if |s| > n then s[|s| - n..] else s }

  /** A sequence without the element at position `k`. */
  function Without<T>(s: seq<T>, k: nat): seq<T>
    requires k < |s|
  {
    s[..k] + s[k + 1..]
  }

  lemma NewestLength<T>(s: seq<T>, n: nat)
    ensures |Newest(s, n)| == Min(|s|, n)
  {}

  /** The number of a block is part of its id. */
  datatype BlockId = BlockId(num: nat, hash: nat)

  /** The id before the first block. */
  const GENESIS := BlockId(0, 0)

  lemma Regroup(x: int, y: int, z: int)
    ensures x * y * z == x * z * y
  {}

  lemma Distribute(x: int, y: int, z: int)
    ensures (x - y) * z == x * z - y * z
    ensures z * (x - y) == z * x - z * y
  {}
}
