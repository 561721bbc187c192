/** How blocks lie in a table file: handles, trailers with a checksum, and the footer. */
module TableFormat {
  import opened Keys
  import opened Coding
  import opened Varints

  // ---- Handles ----

  /** `BlockHandle::EncodeTo`: offset and size of a block. */
  function EncodeHandle(offset: nat, size: nat): Bytes {
    Varint(offset) + Varint(size)
  }

  /** Offset, size and end of the handle at `p`. */
  function HandleAt(data: Bytes, p: nat): (r: Option<(nat, nat, nat)>)
    requires p <= |data|
    ensures r.Some? ==> p < r.value.2 <= |data|
  {
    var a := DecodeVarint(data, p, |data|, 10);
    if a == None then None else
    var b := DecodeVarint(data, a.value.1, |data|, 10);
    if b == None then None else Some((Low64(a.value.0), Low64(b.value.0), b.value.1))
  }

  /** What a handle names; more may stand behind it. */
  function HandleRange(handle: Bytes): Option<(nat, nat)> {
    var r := HandleAt(handle, 0);
    if r == None then None else Some((r.value.0, r.value.1))
  }

  method DecodeHandle(data: Bytes, p: nat) returns (r: Option<(nat, nat, nat)>)
    requires p <= |data|
    ensures r == HandleAt(data, p)
  {
    var offset := GetVarint64Ptr(data, p, |data|);
    if offset == None {
      return None;
    }
    var size := GetVarint64Ptr(data, offset.value.1, |data|);
    if size == None {
      return None;
    }
    r := Some((offset.value.0, size.value.0, size.value.1));
  }

  lemma HandleBack(offset: nat, size: nat, data: Bytes, p: nat)
    requires offset < TWO_TO_THE_64 && size < TWO_TO_THE_64 && LiesAt(EncodeHandle(offset, size), data, p)
    ensures HandleAt(data, p) == Some((offset, size, p + |EncodeHandle(offset, size)|))
  {
    LiesBoth(Varint(offset), Varint(size), data, p);
    Varint64Back(offset, data, p, |data|);
    Varint64Back(size, data, p + |Varint(offset)|, |data|);
  }

  lemma HandleRoundTrip(offset: nat, size: nat)
    requires offset < TWO_TO_THE_64 && size < TWO_TO_THE_64
    ensures HandleRange(EncodeHandle(offset, size)) == Some((offset, size))
    ensures IsHandle(EncodeHandle(offset, size))
  {
    var handle := EncodeHandle(offset, size);
    assert handle[0..0 + |handle|] == handle;
    HandleBack(offset, size, handle, 0);
    Varint64Length(offset);
    Varint64Length(size);
  }

  /** A handle as the builder writes it. */
  ghost predicate IsHandle(handle: Bytes) {
    && HandleRange(handle).Some? && |handle| <= 20
    && var (offset, size) := HandleRange(handle).value;
    offset < TWO_TO_THE_64 && size < TWO_TO_THE_64 && handle == EncodeHandle(offset, size)
  }

  // ---- Blocks in the file ----

  const NO_COMPRESSION: Byte := 0
  const TRAILER_SIZE := 5

  /** The block's type and the masked checksum of block and type. */
  function Trailer(crc: Checksum, raw: Bytes): (t: Bytes)
    ensures |t| == TRAILER_SIZE
  {
    [NO_COMPRESSION] + Fixed32(Mask(crc(raw + [NO_COMPRESSION])))
  }

  /** The handle names the place of `raw` and its trailer. */
  ghost predicate StoredAt(file: Bytes, crc: Checksum, handle: Bytes, raw: Bytes) {
    && HandleRange(handle).Some? && HandleRange(handle).value.1 == |raw|
    && LiesAt(raw + Trailer(crc, raw), file, HandleRange(handle).value.0)
  }

  /** Files only grow at the end. */
  lemma StaysStored(file: Bytes, more: Bytes, crc: Checksum, handle: Bytes, raw: Bytes)
    requires StoredAt(file, crc, handle, raw)
    ensures StoredAt(file + more, crc, handle, raw)
  {
    var p, n := HandleRange(handle).value.0, |raw + Trailer(crc, raw)|;
    assert (file + more)[p..p + n] == file[p..p + n];
  }

  lemma NewlyStored(file: Bytes, crc: Checksum, raw: Bytes)
    requires |file| < TWO_TO_THE_64 && |raw| < TWO_TO_THE_64
    ensures StoredAt(file + (raw + Trailer(crc, raw)), crc, EncodeHandle(|file|, |raw|), raw)
    ensures HandleRange(EncodeHandle(|file|, |raw|)) == Some((|file|, |raw|))
  {
    HandleRoundTrip(|file|, |raw|);
    var all := file + (raw + Trailer(crc, raw));
    assert all[|file|..] == raw + Trailer(crc, raw);
  }

  lemma TrailerReads(crc: Checksum, raw: Bytes)
    ensures Trailer(crc, raw)[0] == NO_COMPRESSION
    ensures Unmask(DecodeFixed32(Trailer(crc, raw)[1..])) == crc(raw + [NO_COMPRESSION])
  {
    var sum := crc(raw + [NO_COMPRESSION]);
    assert Trailer(crc, raw)[1..] == Fixed32(Mask(sum)) + [];
    Fixed32RoundTrip(Mask(sum), []);
    UnmaskMask(sum);
  }

  /** Read a block's bytes and check its trailer. */
  method ReadBlock(file: Bytes, crc: Checksum, verifyChecksums: bool, offset: nat, size: nat) returns (r: Option<Bytes>)
    ensures forall handle, raw :: StoredAt(file, crc, handle, raw) && HandleRange(handle) == Some((offset, size)) ==> r == Some(raw)
    ensures r.Some? ==> offset + size + TRAILER_SIZE <= |file| && r.value == file[offset..offset + size]
                        && file[offset + size] == NO_COMPRESSION
    ensures r.Some? && verifyChecksums ==>
              crc(file[offset..offset + size + 1]) == Unmask(DecodeFixed32(file[offset + size + 1..]))
  {
    forall handle, raw | StoredAt(file, crc, handle, raw) && HandleRange(handle) == Some((offset, size))
      ensures Readable(file, crc, offset, size) && raw == file[offset..offset + size]
    {
      StoredIsReadable(file, crc, handle, raw);
    }
    if offset + size + TRAILER_SIZE > |file| {
      // truncated block read
      return None;
    }
    if verifyChecksums && Unmask(DecodeFixed32(file[offset + size + 1..])) != crc(file[offset..offset + size + 1]) {
      // block checksum mismatch
      return None;
    }
    if file[offset + size] != NO_COMPRESSION {
      // bad block type
      return None;
    }
    r := Some(file[offset..offset + size]);
  }

  ghost predicate Readable(file: Bytes, crc: Checksum, offset: nat, size: nat) {
    && offset + size + TRAILER_SIZE <= |file| && file[offset + size] == NO_COMPRESSION
    && Unmask(DecodeFixed32(file[offset + size + 1..])) == crc(file[offset..offset + size + 1])
  }

  lemma StoredIsReadable(file: Bytes, crc: Checksum, handle: Bytes, raw: Bytes)
    requires StoredAt(file, crc, handle, raw)
    ensures var (offset, size) := HandleRange(handle).value;
            Readable(file, crc, offset, size) && raw == file[offset..offset + size]
  {
    var (offset, size) := HandleRange(handle).value;
    var t := Trailer(crc, raw);
    LiesBoth(raw, t, file, offset);
    TrailerReads(crc, raw);
    assert file[offset + size..offset + size + 5] == t;
    assert file[offset + size] == t[0];
    assert file[offset..offset + size + 1] == raw + [NO_COMPRESSION];
    assert file[offset + size + 1..][..4] == t[1..];
  }

  // ---- The footer ----

  const MAGIC_LOW: Word := 0x8b80fb57
  const MAGIC_HIGH: Word := 0xdb477524
  const FOOTER_SIZE := 48

  /** Handles of the metaindex and the index, padded, and the magic number. */
  function EncodeFooter(meta: Bytes, index: Bytes): (b: Bytes)
    requires |meta| + |index| <= 40
    ensures |b| == FOOTER_SIZE
  {
    meta + index + Zeros(40 - |meta| - |index|) + Fixed32(MAGIC_LOW) + Fixed32(MAGIC_HIGH)
  }

  ghost predicate IsFooter(b: Bytes, meta: Bytes, index: Bytes) {
    IsHandle(meta) && IsHandle(index) && b == EncodeFooter(meta, index)
  }

  /** The ranges of the two handles, if the magic number is there. */
  method DecodeFooter(b: Bytes) returns (r: Option<((nat, nat), (nat, nat))>)
    requires |b| == FOOTER_SIZE
    ensures forall meta, index :: IsFooter(b, meta, index) ==> r == Some((HandleRange(meta).value, HandleRange(index).value))
    ensures r.Some? ==> DecodeFixed32(b[40..]) == MAGIC_LOW && DecodeFixed32(b[44..]) == MAGIC_HIGH
  {
    forall meta, index | IsFooter(b, meta, index)
      ensures FooterReads(b, HandleRange(meta).value, HandleRange(index).value)
    {
      FooterBack(b, meta, index);
    }
    if DecodeFixed32(b[40..]) != MAGIC_LOW || DecodeFixed32(b[44..]) != MAGIC_HIGH {
      // not an sstable
      return None;
    }
    var meta := DecodeHandle(b, 0);
    if meta == None {
      return None;
    }
    var index := DecodeHandle(b, meta.value.2);
    if index == None {
      return None;
    }
    r := Some(((meta.value.0, meta.value.1), (index.value.0, index.value.1)));
  }

  ghost predicate FooterReads(b: Bytes, meta: (nat, nat), index: (nat, nat))
    requires |b| == FOOTER_SIZE
  {
    && DecodeFixed32(b[40..]) == MAGIC_LOW && DecodeFixed32(b[44..]) == MAGIC_HIGH
    && HandleAt(b, 0).Some? && var m := HandleAt(b, 0).value;
    (m.0, m.1) == meta && HandleAt(b, m.2).Some? && HandleAt(b, m.2).value.0 == index.0 && HandleAt(b, m.2).value.1 == index.1
  }

  lemma FooterBack(b: Bytes, meta: Bytes, index: Bytes)
    requires |b| == FOOTER_SIZE && IsFooter(b, meta, index)
    ensures FooterReads(b, HandleRange(meta).value, HandleRange(index).value)
  {
    var rest := Zeros(40 - |meta| - |index|) + Fixed32(MAGIC_LOW) + Fixed32(MAGIC_HIGH);
    assert b == meta + index + rest;
    HandlesLead(meta, index, rest);
    MagicBack(meta + index + Zeros(40 - |meta| - |index|));
  }

  lemma HandlesLead(meta: Bytes, index: Bytes, rest: Bytes)
    requires IsHandle(meta) && IsHandle(index)
    ensures var b := meta + index + rest; var m := HandleRange(meta).value; var i := HandleRange(index).value;
            HandleAt(b, 0) == Some((m.0, m.1, |meta|)) && HandleAt(b, |meta|) == Some((i.0, i.1, |meta| + |index|))
  {
    var b := meta + index + rest;
    var (m1, m2) := HandleRange(meta).value;
    var (i1, i2) := HandleRange(index).value;
    assert b[0..0 + |meta|] == meta;
    assert b[|meta|..|meta| + |index|] == index;
    HandleBack(m1, m2, b, 0);
    HandleBack(i1, i2, b, |meta|);
  }

  lemma MagicBack(front: Bytes)
    requires |front| == 40
    ensures var b := front + Fixed32(MAGIC_LOW) + Fixed32(MAGIC_HIGH);
            DecodeFixed32(b[40..]) == MAGIC_LOW && DecodeFixed32(b[44..]) == MAGIC_HIGH
  {
    var b := front + Fixed32(MAGIC_LOW) + Fixed32(MAGIC_HIGH);
    assert b[40..] == Fixed32(MAGIC_LOW) + Fixed32(MAGIC_HIGH);
    assert b[44..] == Fixed32(MAGIC_HIGH) + [];
    Fixed32RoundTrip(MAGIC_LOW, Fixed32(MAGIC_HIGH));
    Fixed32RoundTrip(MAGIC_HIGH, []);
  }
}
