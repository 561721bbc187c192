/** Strings behind their length. */
module Slices {
  import opened Keys
  import opened Coding
  import opened Varints

  function ReadSlice(data: Bytes, p: nat, limit: nat): (r: Option<(Bytes, nat)>)
    requires limit <= |data|
    ensures r.Some? ==> p < r.value.1 <= limit
  {
    var r := ReadLength(data, p, limit);
    if r == None then None else Some((data[r.value.0..r.value.1], r.value.1))
  }

  ghost predicate Short(b: Bytes) {
    |b| < 0x1_0000_0000
  }

  /** `b` stands in `data` from `p` to `end`. */
  ghost predicate At(b: Bytes, data: Bytes, p: nat, end: nat) {
    forall i {:trigger Asked(OfPart, i)} :: Asked(OfPart, i) ==> LiesAt(b, data, p) && end == p + |b|
  }

  lemma AtBoth(a: Bytes, b: Bytes, data: Bytes, p: nat, end: nat) returns (mid: nat)
    requires At(a + b, data, p, end)
    ensures At(a, data, p, mid) && At(b, data, mid, end) && p <= mid <= end
  {
    assert Asked(OfPart, 0);
    mid := p + |a|;
    LiesBoth(a, b, data, p);
  }

  lemma SliceBack(b: Bytes, data: Bytes, p: nat, end: nat, limit: nat)
    requires Short(b) && At(WithLength(b), data, p, end) && end <= limit <= |data|
    ensures ReadSlice(data, p, limit) == Some((b, end))
  {
    assert Asked(OfPart, 0);
    LengthBack(b, data, p, limit);
  }

  /** `GetLengthPrefixedSlice` */
  method GetLengthPrefixedSlice(data: Bytes, p: nat, limit: nat) returns (r: Option<(Bytes, nat)>)
    requires limit <= |data|
    ensures r == ReadSlice(data, p, limit)
  {
    var len := GetVarint32Ptr(data, p, limit);
    if len == None || limit - len.value.1 < len.value.0 {
      return None;
    }
    r := Some((data[len.value.1..len.value.1 + len.value.0], len.value.1 + len.value.0));
  }

  /** `PutLengthPrefixedSlice` */
  method PutSlice(b: Bytes) returns (r: Bytes)
    ensures r == WithLength(b)
  {
    r := EncodeVarint64(|b|);
    r := r + b;
  }
}
