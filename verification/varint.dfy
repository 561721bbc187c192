/** Variable-length integers: seven bits a byte, low bits first, the high bit set on
    all bytes but the last. */
module Varints {
  import opened Keys
  import opened Coding

  function Varint(v: nat): (b: Bytes)
    ensures |b| > 0
  {
    if v < 128 then [v] else [v % 128 + 128] + Varint(v / 128)
  }

  /** What at most `k` bytes at `p` and before `limit` decode to, and where they end. */
  function DecodeVarint(data: Bytes, p: nat, limit: nat, k: nat): (r: Option<(nat, nat)>)
    requires limit <= |data|
    ensures r.Some? ==> p < r.value.1 <= limit && r.value.1 <= p + k
    decreases limit - p
  {
    if k == 0 || p >= limit then None
    else if data[p] < 128 then Some((data[p] as nat, p + 1))
    else
      var rest := DecodeVarint(data, p + 1, limit, k - 1);
      if rest == None then None else Some((data[p] - 128 + 128 * rest.value.0, rest.value.1))
  }

  /** The low 32 bits. */
  function Low32(x: nat): Word {
    if x < 0x1_0000_0000 then x else x % 0x1_0000_0000
  }

  /** The low 64 bits, as an unsigned integer. */
  function Low64(n: int): (r: nat)
    ensures r < TWO_TO_THE_64
  {
    n % TWO_TO_THE_64
  }

  /** `x` lies in `data` at `p`. */
  ghost predicate LiesAt(x: Bytes, data: Bytes, p: nat) {
    p + |x| <= |data| && data[p..p + |x|] == x
  }

  /** Decoding gives back what was encoded and stops right behind it. */
  lemma {:induction false} VarintRoundTrip(v: nat, data: Bytes, p: nat, limit: nat, k: nat)
    requires limit <= |data| && LiesAt(Varint(v), data, p) && p + |Varint(v)| <= limit && |Varint(v)| <= k
    ensures DecodeVarint(data, p, limit, k) == Some((v, p + |Varint(v)|))
    decreases v
  {
    var b := Varint(v);
    assert data[p] == data[p..p + |b|][0];
    if v >= 128 {
      assert b[1..] == Varint(v / 128);
      assert data[p + 1..p + |b|] == data[p..p + |b|][1..];
      VarintRoundTrip(v / 128, data, p + 1, limit, k - 1);
    }
  }

  lemma VarintLength(v: nat)
    ensures v < 0x80 ==> |Varint(v)| == 1
    ensures v < 0x4000 ==> |Varint(v)| <= 2
    ensures v < 0x20_0000 ==> |Varint(v)| <= 3
    ensures v < 0x1000_0000 ==> |Varint(v)| <= 4
    ensures v < 0x1_0000_0000 ==> |Varint(v)| <= 5
  {
    if v >= 0x80 {
      var a := v / 0x80;
      if a >= 0x80 {
        var b := a / 0x80;
        if b >= 0x80 {
          var c := b / 0x80;
          if c >= 0x80 {
            assert v < 0x1_0000_0000 ==> c / 0x80 < 0x80;
          }
        }
      }
    }
  }

  /** The five cases of `EncodeVarint32`. */
  method EncodeVarint32(v: Word) returns (b: Bytes)
    ensures b == Varint(v)
  {
    var v7 := v / 128;
    var v14 := v7 / 128;
    var v21 := v14 / 128;
    var v28 := v21 / 128;
    if v < 0x80 {
      b := [v];
    } else if v < 0x4000 {
      b := [v % 128 + 128, v7];
    } else if v < 0x20_0000 {
      b := [v % 128 + 128, v7 % 128 + 128, v14];
    } else if v < 0x1000_0000 {
      b := [v % 128 + 128, v7 % 128 + 128, v14 % 128 + 128, v21];
    } else {
      b := [v % 128 + 128, v7 % 128 + 128, v14 % 128 + 128, v21 % 128 + 128, v28];
    }
    if v >= 0x80 {
      assert Varint(v) == [v % 128 + 128] + Varint(v7);
      if v7 >= 0x80 {
        assert Varint(v7) == [v7 % 128 + 128] + Varint(v14);
        if v14 >= 0x80 {
          assert Varint(v14) == [v14 % 128 + 128] + Varint(v21);
          if v21 >= 0x80 {
            assert Varint(v21) == [v21 % 128 + 128] + Varint(v28);
          }
        }
      }
    }
  }

  /** `x` shifted left by `k` groups of seven bits. */
  function Shifted(x: nat, k: nat): nat
    decreases k
  {
    if k == 0 then x else Shifted(128 * x, k - 1)
  }

  lemma {:induction false} ShiftedAdds(x: nat, y: nat, k: nat)
    ensures Shifted(x + y, k) == Shifted(x, k) + Shifted(y, k)
    decreases k
  {
    if k > 0 {
      ShiftedAdds(128 * x, 128 * y, k - 1);
    }
  }

  /** `whole` is what has been gathered in `result` and `rest` behind it. */
  ghost predicate Gathered(whole: Option<(nat, nat)>, result: nat, rest: Option<(nat, nat)>, group: nat) {
    && (whole.Some? <==> rest.Some?)
    && (whole.Some? ==> whole.value.1 == rest.value.1 && whole.value.0 == result + Shifted(rest.value.0, group))
  }

  lemma GatherByte(whole: Option<(nat, nat)>, result: nat, data: Bytes, q: nat, limit: nat, group: nat, max: nat)
    requires q < limit <= |data| && group < max
    requires Gathered(whole, result, DecodeVarint(data, q, limit, max - group), group)
    ensures if data[q] < 128 then whole == Some((result + Shifted(data[q], group), q + 1))
            else Gathered(whole, result + Shifted(data[q] - 128, group), DecodeVarint(data, q + 1, limit, max - group - 1), group + 1)
  {
    var rest := DecodeVarint(data, q + 1, limit, max - group - 1);
    if data[q] >= 128 && rest.Some? {
      ShiftedAdds(data[q] - 128, 128 * rest.value.0, group);
    }
  }

  /** The inline one-byte case and the loop behind it: at most five bytes, to 32 bits. */
  method GetVarint32Ptr(data: Bytes, p: nat, limit: nat) returns (r: Option<(Word, nat)>)
    requires limit <= |data|
    ensures r.Some? <==> DecodeVarint(data, p, limit, 5).Some?
    ensures r.Some? ==> r.value.1 == DecodeVarint(data, p, limit, 5).value.1
                        && r.value.0 == Low32(DecodeVarint(data, p, limit, 5).value.0)
  {
    if p < limit && data[p] < 128 {
      return Some((data[p], p + 1));
    }
    ghost var whole := DecodeVarint(data, p, limit, 5);
    var q: nat, result: nat, group: nat := p, 0, 0;
    while group <= 4 && q < limit
      invariant group <= 5 && Gathered(whole, result, DecodeVarint(data, q, limit, 5 - group), group)
      decreases 5 - group
    {
      GatherByte(whole, result, data, q, limit, group, 5);
      var byte := data[q];
      q := q + 1;
      if byte >= 128 {
        // More bytes are present
        result := result + Shifted(byte - 128, group);
      } else {
        result := result + Shifted(byte, group);
        return Some((Low32(result), q));
      }
      group := group + 1;
    }
    r := None;
  }

  // ---- Round trips of the two widths, and of length-prefixed strings ----

  lemma LiesBoth(a: Bytes, b: Bytes, data: Bytes, p: nat)
    requires LiesAt(a + b, data, p)
    ensures LiesAt(a, data, p) && LiesAt(b, data, p + |a|)
  {
    assert data[p..p + |a|] == data[p..p + |a + b|][..|a|];
    assert data[p + |a|..p + |a| + |b|] == data[p..p + |a + b|][|a|..];
  }

  function Pow128(k: nat): nat {
    if k == 0 then 1 else 128 * Pow128(k - 1)
  }

  lemma {:induction false} VarintFits(v: nat, k: nat)
    requires v < Pow128(k) && k > 0
    ensures |Varint(v)| <= k
    decreases k
  {
    if v >= 128 {
      assert k > 1 && Pow128(k) == 128 * Pow128(k - 1);
      VarintFits(v / 128, k - 1);
    }
  }

  lemma Varint64Length(v: nat)
    requires v < TWO_TO_THE_64
    ensures |Varint(v)| <= 10
  {
    assert Pow128(4) == 0x1000_0000;
    assert Pow128(8) == 0x1000_0000 * 0x1000_0000;
    VarintFits(v, 10);
  }

  lemma Varint32Back(v: Word, data: Bytes, p: nat, limit: nat)
    requires LiesAt(Varint(v), data, p) && p + |Varint(v)| <= limit <= |data|
    ensures DecodeVarint(data, p, limit, 5) == Some((v as nat, p + |Varint(v)|))
  {
    VarintLength(v);
    VarintRoundTrip(v, data, p, limit, 5);
  }

  lemma Varint64Back(v: nat, data: Bytes, p: nat, limit: nat)
    requires v < TWO_TO_THE_64 && LiesAt(Varint(v), data, p) && p + |Varint(v)| <= limit <= |data|
    ensures DecodeVarint(data, p, limit, 10) == Some((v, p + |Varint(v)|)) && Low64(v) == v
  {
    Varint64Length(v);
    VarintRoundTrip(v, data, p, limit, 10);
  }

  function WithLength(b: Bytes): Bytes {
    Varint(|b|) + b
  }

  /** Where a length-prefixed string starts and ends. */
  function ReadLength(data: Bytes, p: nat, limit: nat): (r: Option<(nat, nat)>)
    requires limit <= |data|
    ensures r.Some? ==> p < r.value.0 <= r.value.1 <= limit
  {
    var r := DecodeVarint(data, p, limit, 5);
    if r == None || r.value.1 + Low32(r.value.0) > limit then None
    else Some((r.value.1, r.value.1 + Low32(r.value.0)))
  }

  lemma LengthBack(b: Bytes, data: Bytes, p: nat, limit: nat)
    requires |b| < 0x1_0000_0000 && LiesAt(WithLength(b), data, p) && p + |WithLength(b)| <= limit <= |data|
    ensures var start := p + |Varint(|b|)|;
            ReadLength(data, p, limit) == Some((start, start + |b|)) && LiesAt(b, data, start) && start + |b| == p + |WithLength(b)|
  {
    LiesBoth(Varint(|b|), b, data, p);
    Varint32Back(|b|, data, p, limit);
  }

  /** The loop of `EncodeVarint64`. */
  method EncodeVarint64(v: nat) returns (b: Bytes)
    ensures b == Varint(v)
  {
    var rest := v;
    b := [];
    while rest >= 128
      invariant b + Varint(rest) == Varint(v)
    {
      b := b + [rest % 128 + 128];
      rest := rest / 128;
    }
    b := b + [rest];
  }

  /** At most ten bytes, to 64 bits. */
  method GetVarint64Ptr(data: Bytes, p: nat, limit: nat) returns (r: Option<(nat, nat)>)
    requires limit <= |data|
    ensures r.Some? <==> DecodeVarint(data, p, limit, 10).Some?
    ensures r.Some? ==> r.value.1 == DecodeVarint(data, p, limit, 10).value.1
                        && r.value.0 == Low64(DecodeVarint(data, p, limit, 10).value.0)
  {
    ghost var whole := DecodeVarint(data, p, limit, 10);
    var q: nat, result: nat, group: nat := p, 0, 0;
    while group <= 9 && q < limit
      invariant group <= 10 && Gathered(whole, result, DecodeVarint(data, q, limit, 10 - group), group)
      decreases 10 - group
    {
      GatherByte(whole, result, data, q, limit, group, 10);
      var byte := data[q];
      q := q + 1;
      if byte >= 128 {
        // More bytes are present
        result := result + Shifted(byte - 128, group);
      } else {
        result := result + Shifted(byte, group);
        return Some((Low64(result), q));
      }
      group := group + 1;
    }
    r := None;
  }
}
