/** The formats byte by byte. Round trips hold of any pair of inverse functions; these say
    which pair it is. */
module KnownBytes {
  import opened Keys
  import Coding
  import Varints
  import LogFormat
  import WriteBatches
  import InternalKeys
  import TableFormat
  import BlockFormat
  import VersionEdits
  import PbFields
  import PbFormat

  /** Words have their low byte first. */
  lemma Words(a: Byte, b: Byte, c: Byte, d: Byte)
    ensures Coding.Fixed32(a + 0x100 * b + 0x1_0000 * c + 0x100_0000 * d) == [a, b, c, d]
  {
    var x: nat := a + 0x100 * b + 0x1_0000 * c + 0x100_0000 * d;
    assert x / 0x100 == b + 0x100 * c + 0x1_0000 * d;
    assert x / 0x1_0000 == c + 0x100 * d;
  }

  /** Varints have seven bits a byte, low bits first, the high bit set on all but the last. */
  lemma TwoGroups(low: Byte, high: Byte)
    requires low < 128 && 0 < high < 128
    ensures Varints.Varint(low) == [low] && Varints.Varint(low + 128 * high) == [128 + low, high]
  {
    assert (low + 128 * high) % 128 == low && (low + 128 * high) / 128 == high;
    assert Varints.Varint(high) == [high];
  }

  /** Stored checksums: rotated right by 15 bits, plus a constant. */
  lemma Masks()
    ensures Coding.Mask(0) == 0xa282ead8 && Coding.Mask(1) == 0xa284ead8 && Coding.Mask(0x8000) == 0xa282ead9
  {
  }

  /** A log header: checksum, length with the low byte first, type; and the types. */
  lemma LogHeader(crc: Coding.Checksum, kind: Byte, data: Bytes)
    requires |data| < 0x1_0000
    ensures var h := LogFormat.Header(crc, LogFormat.Fragment(kind, data));
            && h[..4] == Coding.Fixed32(Coding.Mask(crc([kind] + data)))
            && h[4..] == [|data| % 256, |data| / 256, kind]
    ensures LogFormat.Kind(true, true) == 1 && LogFormat.Kind(true, false) == 2
    ensures LogFormat.Kind(false, false) == 3 && LogFormat.Kind(false, true) == 4
  {
  }

  /** A batch's records: 1, key and value, or 0 and the key. */
  lemma BatchRecords(key: Bytes, value: Bytes)
    requires |key| < 128 && |value| < 128
    ensures WriteBatches.Record(WriteBatches.PutOp(key, value)) == [1, |key|] + key + [|value|] + value
    ensures WriteBatches.Record(WriteBatches.DeleteOp(key)) == [0, |key|] + key
  {
    assert [|key|] + key + ([|value|] + value) == [|key|] + key + [|value|] + value;
  }

  /** An internal key: the user key, the kind, and seven bytes of sequence number. */
  lemma InternalKey(user: Bytes, kind: Byte, a: Byte, b: Byte)
    ensures InternalKeys.EncodeKey(user, kind + 0x100 * a + 0x1_0000 * b) == user + [kind, a, b, 0, 0, 0, 0, 0]
  {
    Words(kind, a, b, 0);
    Words(0, 0, 0, 0);
    assert Coding.Fixed64(kind + 0x100 * a + 0x1_0000 * b) == [kind, a, b, 0] + [0, 0, 0, 0];
  }

  /** A table ends in its magic number; a block in a zero and the checksum. */
  lemma TableEnds(meta: Bytes, index: Bytes, crc: Coding.Checksum, raw: Bytes)
    requires |meta| + |index| <= 40
    ensures TableFormat.EncodeFooter(meta, index)[40..] == [0x57, 0xfb, 0x80, 0x8b, 0x24, 0x75, 0x47, 0xdb]
    ensures TableFormat.EncodeFooter(meta, index)[..|meta| + |index|] == meta + index
    ensures TableFormat.Trailer(crc, raw) == [0] + Coding.Fixed32(Coding.Mask(crc(raw + [0])))
  {
    Words(0x57, 0xfb, 0x80, 0x8b);
    Words(0x24, 0x75, 0x47, 0xdb);
  }

  /** A block's entry: how much of the key before is shared, the two lengths, the rest. */
  lemma BlockEntry(shared: nat, delta: Bytes, value: Bytes)
    requires shared < 128 && |delta| < 128 && |value| < 128
    ensures BlockFormat.EntryBytes(shared, delta, value) == [shared, |delta|, |value|] + delta + value
  {
  }

  /** A manifest record's fields behind their tags. */
  lemma EditFields(n: nat, level: nat, key: Bytes)
    requires n < 128 && level < 7 && |key| < 128
    ensures VersionEdits.EncodeItem(VersionEdits.Comparator(key)) == [1, |key|] + key
    ensures VersionEdits.EncodeItem(VersionEdits.LogNumber(n)) == [2, n]
    ensures VersionEdits.EncodeItem(VersionEdits.NextFileNumber(n)) == [3, n]
    ensures VersionEdits.EncodeItem(VersionEdits.LastSequence(n)) == [4, n]
    ensures VersionEdits.EncodeItem(VersionEdits.CompactPointer(level, key)) == [5, level, |key|] + key
    ensures VersionEdits.EncodeItem(VersionEdits.DeletedFile(level, n)) == [6, level, n]
    ensures VersionEdits.EncodeItem(VersionEdits.PrevLogNumber(n)) == [9, n]
  {
  }

  lemma EditFile(level: nat, f: VersionEdits.FileMetaData)
    requires level < 7 && f.number < 128 && f.fileSize < 128 && |f.smallest| < 128 && |f.largest| < 128
    ensures VersionEdits.EncodeItem(VersionEdits.NewFile(level, f))
            == [7, level, f.number, f.fileSize, |f.smallest|] + f.smallest + [|f.largest|] + f.largest
  {
    EditRange(f);
    var file := [f.number, f.fileSize, |f.smallest|] + f.smallest + [|f.largest|] + f.largest;
    assert [7] + ([level] + file) == [7, level, f.number, f.fileSize, |f.smallest|] + f.smallest + [|f.largest|] + f.largest;
  }

  lemma EditRange(f: VersionEdits.FileMetaData)
    requires f.number < 128 && f.fileSize < 128 && |f.smallest| < 128 && |f.largest| < 128
    ensures VersionEdits.FileBytes(f) == [f.number, f.fileSize, |f.smallest|] + f.smallest + [|f.largest|] + f.largest
  {
    var range := VersionEdits.RangeBytes(f.smallest, f.largest);
    assert range == [|f.smallest|] + f.smallest + [|f.largest|] + f.largest;
    assert [f.number] + ([f.fileSize] + range) == [f.number, f.fileSize] + range;
  }

  /** Protocol buffers: numbers of either sign, fixed words, strings. */
  lemma PbValues(f: PbFields.Field, n: nat, text: Bytes)
    requires 0 < f.tag < 16 && PbFields.Span(f.dataSize) > 0 && n < 64 && |text| < 100
    ensures f.ltype.UVarintType? || f.ltype.VarintType? ==> PbFormat.EncodeTagged(f, PbFields.Num(n)) == Some([8 * f.tag, n])
    ensures f.ltype.SVarintType? ==> PbFormat.EncodeTagged(f, PbFields.Num(n)) == Some([8 * f.tag, 2 * n])
                                     && PbFormat.EncodeTagged(f, PbFields.Num(-1 - n)) == Some([8 * f.tag, 2 * n + 1])
    ensures f.ltype.Fixed32Type? ==> PbFormat.EncodeTagged(f, PbFields.Num(n)) == Some([8 * f.tag + 5, n, 0, 0, 0])
    ensures f.ltype.FixedLengthBytesType? && f.dataSize == |text| ==>
              PbFormat.EncodeTagged(f, PbFields.Raw(text)) == Some([8 * f.tag + 2, |text|] + text)
  {
    Words(n, 0, 0, 0);
    assert PbFormat.EncodeTag(PbFormat.WireType(f.ltype), f.tag) == [8 * f.tag + PbFormat.WireType(f.ltype)];
    assert [8 * f.tag] + [n] == [8 * f.tag, n] && [8 * f.tag] + [2 * n] == [8 * f.tag, 2 * n];
    assert [8 * f.tag] + [2 * n + 1] == [8 * f.tag, 2 * n + 1];
    assert Varints.Low64(n) == n && n % 0x1_0000_0000 == n;
    assert [8 * f.tag + 5] + [n, 0, 0, 0] == [8 * f.tag + 5, n, 0, 0, 0];
    assert [8 * f.tag + 2] + ([|text|] + text) == [8 * f.tag + 2, |text|] + text;
  }

  /** Numbers of an array are packed behind one tag; strings of one have a tag each. */
  lemma PbArrays(f: PbFields.Field, a: nat, b: nat)
    requires 0 < f.tag < 16 && f.htype.Repeated? && f.arraySize >= 2 && f.dataSize == 4 && a < 64 && b < 64
    ensures f.ltype.UVarintType? ==>
              PbFormat.EncodeSlot(f, PbFields.Many([PbFields.Num(a), PbFields.Num(b)])) == Some([8 * f.tag + 2, 2, a, b])
    ensures f.ltype.FixedLengthBytesType? ==>
              PbFormat.EncodeSlot(f, PbFields.Many([PbFields.Raw([a, a, a, a]), PbFields.Raw([b, b, b, b])]))
              == Some([8 * f.tag + 2, 4, a, a, a, a] + [8 * f.tag + 2, 4, b, b, b, b])
  {
    assert PbFormat.EncodeTag(2, f.tag) == [8 * f.tag + 2];
    if f.ltype.UVarintType? {
      var s := PbFields.Many([PbFields.Num(a), PbFields.Num(b)]);
      OneNumber(f, a);
      OneNumber(f, b);
      assert PbFormat.EncodeItems(f, s, true, 2) == Some([]);
      assert PbFormat.EncodeItems(f, s, true, 1) == Some([b]) by { assert [b] + [] == [b]; }
      assert PbFormat.EncodeItems(f, s, true, 0) == Some([a] + [b]);
      assert [8 * f.tag + 2] + Varints.WithLength([a] + [b]) == [8 * f.tag + 2, 2, a, b];
    } else if f.ltype.FixedLengthBytesType? {
      var s := PbFields.Many([PbFields.Raw([a, a, a, a]), PbFields.Raw([b, b, b, b])]);
      FourBytes(f, a);
      FourBytes(f, b);
      assert PbFormat.EncodeItems(f, s, false, 2) == Some([]);
      var x, y := [8 * f.tag + 2, 4, a, a, a, a], [8 * f.tag + 2, 4, b, b, b, b];
      assert PbFormat.EncodeItems(f, s, false, 1) == Some(y) by { assert y + [] == y; }
      assert PbFormat.EncodeItems(f, s, false, 0) == Some(x + y);
    }
  }

  lemma OneNumber(f: PbFields.Field, n: nat)
    requires f.ltype.UVarintType? && f.dataSize == 4 && n < 64
    ensures PbFormat.EncodeValue(f, PbFields.Num(n)) == Some([n])
  {
    assert Varints.Low64(n) == n;
  }

  lemma FourBytes(f: PbFields.Field, b: nat)
    requires f.ltype.FixedLengthBytesType? && f.dataSize == 4 && b < 64 && 0 < f.tag < 16
    ensures PbFormat.EncodeTagged(f, PbFields.Raw([b, b, b, b])) == Some([8 * f.tag + 2, 4, b, b, b, b])
  {
    assert PbFormat.EncodeTag(2, f.tag) == [8 * f.tag + 2];
    assert Varints.WithLength([b, b, b, b]) == [4, b, b, b, b];
    assert [8 * f.tag + 2] + [4, b, b, b, b] == [8 * f.tag + 2, 4, b, b, b, b];
  }
}
