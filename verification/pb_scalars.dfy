/** Single values survive encoding and decoding. */
module PbScalars {
  import opened Keys
  import opened Coding
  import opened Varints
  import opened PbFields
  import opened PbFormat

  lemma TagBack(wire: nat, tag: nat, data: Bytes, p: nat, limit: nat)
    requires wire < 8 && 0 < tag < 0x2000_0000
    requires LiesAt(EncodeTag(wire, tag), data, p) && p + |EncodeTag(wire, tag)| <= limit <= |data|
    ensures ReadTag(data, p, limit) == Tag(wire, tag, p + |EncodeTag(wire, tag)|)
  {
    Varint32Back(8 * tag + wire, data, p, limit);
  }

  /** Widths below 64 bits are read back through `int32_t`. */
  lemma SignedBack(n: int, size: nat)
    requires SignedFits(n, size)
    ensures SignedValue(Low64(n), size) == n
  {
    if n < 0 {
      assert Low64(n) == n + TWO_TO_THE_64;
      if size != 8 {
        assert n + TWO_TO_THE_64 == n + 0x1_0000_0000 + 0xffff_ffff * 0x1_0000_0000;
        assert Low32(n + TWO_TO_THE_64) == n + 0x1_0000_0000;
      }
    } else {
      assert Low64(n) == n;
    }
  }

  lemma ZigZagBack(n: int, size: nat)
    requires SignedFits(n, size)
    ensures ZigZag(n) < TWO_TO_THE_64 && UnZigZag(ZigZag(n)) == n
  {
  }

  lemma Fixed32Back(n: Word, data: Bytes, p: nat)
    requires LiesAt(Fixed32(n), data, p)
    ensures DecodeFixed32(data[p..]) == n
  {
    assert data[p..] == Fixed32(n) + data[p + 4..];
    Fixed32RoundTrip(n, data[p + 4..]);
  }

  lemma Fixed64Back(n: nat, data: Bytes, p: nat)
    requires n < TWO_TO_THE_64 && LiesAt(Fixed64(n), data, p)
    ensures DecodeFixed64(data[p..]) == n
  {
    LiesBoth(Fixed32(n % 0x1_0000_0000), Fixed32(n / 0x1_0000_0000), data, p);
    Fixed32Back(n % 0x1_0000_0000, data, p);
    Fixed32Back(n / 0x1_0000_0000, data, p + 4);
    assert data[p..][4..] == data[p + 4..];
  }

  lemma VarintScalarBack(f: Field, n: int, data: Bytes, p: nat, limit: nat)
    requires f.ltype.VarintType? && SignedFits(n, f.dataSize)
    requires LiesAt(Varint(Low64(n)), data, p) && p + |Varint(Low64(n))| <= limit <= |data|
    ensures DecodeScalar(f, data, p, limit) == Some((Num(n), p + |Varint(Low64(n))|))
  {
    SignedBack(n, f.dataSize);
    Varint64Back(Low64(n), data, p, limit);
  }

  lemma UVarintScalarBack(f: Field, n: int, data: Bytes, p: nat, limit: nat)
    requires f.ltype.UVarintType? && UnsignedFits(n, f.dataSize)
    requires LiesAt(Varint(Low64(n)), data, p) && p + |Varint(Low64(n))| <= limit <= |data|
    ensures DecodeScalar(f, data, p, limit) == Some((Num(n), p + |Varint(Low64(n))|))
  {
    assert Low64(n) == n;
    Varint64Back(Low64(n), data, p, limit);
  }

  lemma SVarintScalarBack(f: Field, n: int, data: Bytes, p: nat, limit: nat)
    requires f.ltype.SVarintType? && SignedFits(n, f.dataSize)
    requires LiesAt(Varint(ZigZag(n)), data, p) && p + |Varint(ZigZag(n))| <= limit <= |data|
    ensures DecodeScalar(f, data, p, limit) == Some((Num(n), p + |Varint(ZigZag(n))|))
  {
    ZigZagBack(n, f.dataSize);
    Varint64Back(ZigZag(n), data, p, limit);
  }

  lemma FixedScalarBack(f: Field, n: int, data: Bytes, p: nat, limit: nat)
    requires f.ltype == Fixed32Type && UnsignedFits(n, 4) && LiesAt(Fixed32(n), data, p) && p + 4 <= limit <= |data|
    ensures DecodeScalar(f, data, p, limit) == Some((Num(n), p + 4))
  {
    Fixed32Back(n, data, p);
  }

  lemma Fixed64ScalarBack(f: Field, n: int, data: Bytes, p: nat, limit: nat)
    requires f.ltype == Fixed64Type && UnsignedFits(n, 8) && LiesAt(Fixed64(n), data, p) && p + 8 <= limit <= |data|
    ensures DecodeScalar(f, data, p, limit) == Some((Num(n), p + 8))
  {
    Fixed64Back(n, data, p);
  }

  lemma SmallRemainder(n: nat, m: nat)
    requires n < m
    ensures n % m == n
  {
  }

  /** Numbers are read back as they were. */
  lemma ScalarBack(f: Field, v: Value, e: Bytes, data: Bytes, p: nat, limit: nat)
    requires f.ltype.Packable() && ValueTyped(f, v) && EncodeValue(f, v) == Some(e)
    requires LiesAt(e, data, p) && p + |e| <= limit <= |data|
    ensures DecodeScalar(f, data, p, limit) == Some((v, p + |e|))
  {
    if f.ltype.VarintType? {
      VarintScalarBack(f, v.n, data, p, limit);
    } else if f.ltype.UVarintType? {
      UVarintScalarBack(f, v.n, data, p, limit);
    } else if f.ltype.SVarintType? {
      SVarintScalarBack(f, v.n, data, p, limit);
    } else if f.ltype.Fixed32Type? {
      SmallRemainder(v.n, 0x1_0000_0000);
      FixedScalarBack(f, v.n, data, p, limit);
    } else {
      SmallRemainder(v.n, TWO_TO_THE_64);
      Fixed64ScalarBack(f, v.n, data, p, limit);
    }
  }

  /** The string C sees in a buffer. */
  function CString(f: Field, s: Bytes): Bytes {
    s[..StrLen(s, f.dataSize)]
  }

  /** Strings and byte arrays come back, but a string without a terminator is refused. */
  lemma RawBack(f: Field, b: Bytes, data: Bytes, p: nat, limit: nat)
    requires f.ltype.BytesType? || f.ltype.StringType? || (f.ltype.FixedLengthBytesType? && |b| == f.dataSize)
    requires f.ltype.BytesType? ==> |b| + 4 <= f.dataSize
    requires LiesAt(WithLength(b), data, p) && p + |WithLength(b)| <= limit <= |data| && |b| < 0x1_0000_0000
    ensures DecodeRaw(f, data, p, limit) ==
            if f.ltype.StringType? && |b| >= f.dataSize then None else Some((Raw(b), p + |WithLength(b)|))
  {
    LengthBack(b, data, p, limit);
    if b == [] {
      assert Zeros(0) == [];
    }
  }
}
