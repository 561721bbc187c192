/** Byte strings, the bytewise comparator and the order embedding that lets the
    rest of the model compare user keys as numbers.

    A user comparator is a total order on byte strings, a countable set, so it
    embeds in the reals. `Rank` gives the embedding for the bytewise comparator
    and `RankEmbedsOrder` proves that comparing ranks is comparing strings. */
module Keys {
  type Byte = x: int | 0 <= x < 256
  type Bytes = seq<Byte>

  /** A user key, seen through its comparator: the rank of the byte string. */
  type UserKey = real

  /** What is folded: a part of a structure, or something that has folded parts itself. */
  datatype Fold = OfPart | OfRecord | OfFile | OfBuilder | OfScan | OfBatch

  /** What stands behind `Asked` is unfolded only where a proof asks for a fold of this kind. */
  predicate Asked(fold: Fold, x: int) {
    true
  }

  datatype Option<+T> = None | Some(value: T) {
    function GetOr(default: T): T {
      if None? then default else value
    }
  }

  function Zeros(n: nat): (z: Bytes)
    ensures |z| == n
  {
    seq(n, _ => 0)
  }

  /** `Slice::compare(a, b) < 0`: memcmp on the common length, then the shorter first. */
  predicate Less(a: Bytes, b: Bytes) {
    if b == [] then false
    else if a == [] then true
    else a[0] < b[0] || (a[0] == b[0] && Less(a[1..], b[1..]))
  }

  function Rank(k: Bytes): (r: UserKey)
    ensures 0.0 <= r < 1.0
    ensures r == 0.0 <==> k == []
  {
    if k == [] then 0.0 else (k[0] as real + 1.0 + Rank(k[1..])) / 257.0
  }

  /** Ranks compare as the strings do, and only equal strings share a rank. */
  lemma {:induction false} RankEmbedsOrder(a: Bytes, b: Bytes)
    ensures Less(a, b) <==> Rank(a) < Rank(b)
    ensures a == b <==> Rank(a) == Rank(b)
  {
    if a != [] && b != [] {
      RankEmbedsOrder(a[1..], b[1..]);
      assert a == [a[0]] + a[1..] && b == [b[0]] + b[1..];
    }
  }
}
