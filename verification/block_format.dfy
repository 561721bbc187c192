/** The format of a table block: prefix-compressed entries, some of them restart
    points with their whole key, and an array of the restart points at the end. */
module BlockFormat {
  import opened Keys
  import opened Coding
  import opened Varints

  datatype Pair = Pair(key: Bytes, value: Bytes)

  /** What stands before an entry's key and value bytes, and where those start. */
  datatype Header = Header(shared: Word, nonShared: Word, valueLength: Word, start: nat)

  function EncodeHeader(shared: nat, nonShared: nat, valueLength: nat): Bytes {
    Varint(shared) + Varint(nonShared) + Varint(valueLength)
  }

  /** Three varints, and the key and value bytes before the limit. */
  function DecodeHeader(data: Bytes, p: nat, limit: nat): (h: Option<Header>)
    requires limit <= |data|
    ensures h.Some? ==> p + 3 <= h.value.start && h.value.start + h.value.nonShared + h.value.valueLength <= limit
  {
    var a := DecodeVarint(data, p, limit, 5);
    if a == None then None else
    var b := DecodeVarint(data, a.value.1, limit, 5);
    if b == None then None else
    var c := DecodeVarint(data, b.value.1, limit, 5);
    if c == None then None else
    var h := Header(Low32(a.value.0), Low32(b.value.0), Low32(c.value.0), c.value.1);
    if h.start + h.nonShared + h.valueLength > limit then None else Some(h)
  }

  /** `DecodeEntry`, with its fast path for three one-byte lengths. */
  method DecodeEntry(data: Bytes, p: nat, limit: nat) returns (r: Option<Header>)
    requires limit <= |data|
    ensures r == DecodeHeader(data, p, limit)
  {
    if limit < p + 3 {
      return None;
    }
    var h: Header;
    if data[p] < 128 && data[p + 1] < 128 && data[p + 2] < 128 {
      h := Header(data[p], data[p + 1], data[p + 2], p + 3);
    } else {
      var a := GetVarint32Ptr(data, p, limit);
      if a == None { return None; }
      var b := GetVarint32Ptr(data, a.value.1, limit);
      if b == None { return None; }
      var c := GetVarint32Ptr(data, b.value.1, limit);
      if c == None { return None; }
      h := Header(a.value.0, b.value.0, c.value.0, c.value.1);
    }
    if h.start + h.nonShared + h.valueLength > limit {
      return None;
    }
    r := Some(h);
  }

  /** The bytes of an entry. */
  function EntryBytes(shared: nat, delta: Bytes, value: Bytes): Bytes {
    EncodeHeader(shared, |delta|, |value|) + delta + value
  }

  /** At `p` stands an entry that takes `shared` bytes from the key before it, adds `delta`
      and has `value`; the next one starts at `next`. */
  ghost predicate EntryAt(data: Bytes, p: nat, limit: nat, shared: nat, delta: Bytes, value: Bytes, next: nat) {
    && p < next <= limit <= |data| && DecodeHeader(data, p, limit).Some?
    && var h := DecodeHeader(data, p, limit).value;
       && h.shared == shared && h.nonShared == |delta| && h.valueLength == |value|
       && h.start + |delta| + |value| == next
       && data[h.start..h.start + |delta|] == delta && data[h.start + |delta|..next] == value
  }

  ghost predicate Fits(b: Bytes, data: Bytes, p: nat, limit: nat) {
    limit <= |data| && LiesAt(b, data, p) && p + |b| <= limit
  }

  /** Wherever `b` lies, it decodes to `v`. */
  ghost predicate Decodes(b: Bytes, v: Word) {
    forall data, p: nat, limit: nat {:trigger Fits(b, data, p, limit)} | Fits(b, data, p, limit) ::
      DecodeVarint(data, p, limit, 5) == Some((v, p + |b|))
  }

  lemma WordDecodes(v: Word)
    ensures Decodes(Varint(v), v)
  {
    VarintLength(v);
    forall data, p: nat, limit: nat | Fits(Varint(v), data, p, limit)
      ensures DecodeVarint(data, p, limit, 5) == Some((v, p + |Varint(v)|))
    {
      VarintRoundTrip(v, data, p, limit, 5);
    }
  }

  lemma HeaderFromParts(a: Word, b: Word, c: Word, data: Bytes, p: nat, q: nat, r: nat, start: nat, limit: nat)
    requires start + b + c <= limit <= |data|
    requires DecodeVarint(data, p, limit, 5) == Some((a, q)) && DecodeVarint(data, q, limit, 5) == Some((b, r))
    requires DecodeVarint(data, r, limit, 5) == Some((c, start))
    ensures DecodeHeader(data, p, limit) == Some(Header(a, b, c, start))
  {
  }

  lemma ThreeParts(a: Bytes, b: Bytes, c: Bytes, data: Bytes, p: nat)
    requires LiesAt(a + b + c, data, p)
    ensures LiesAt(a, data, p) && LiesAt(b, data, p + |a|) && LiesAt(c, data, p + |a| + |b|)
  {
    LiesBoth(a + b, c, data, p);
    LiesBoth(a, b, data, p);
  }

  lemma HeaderFromBytes(x: Word, y: Word, z: Word, a: Bytes, b: Bytes, c: Bytes, data: Bytes, p: nat, limit: nat)
    requires LiesAt(a + b + c, data, p) && p + |a| + |b| + |c| + y + z <= limit <= |data|
    requires Decodes(a, x) && Decodes(b, y) && Decodes(c, z)
    ensures DecodeHeader(data, p, limit) == Some(Header(x, y, z, p + |a| + |b| + |c|))
  {
    ThreeParts(a, b, c, data, p);
    var q, r := p + |a|, p + |a| + |b|;
    assert Fits(a, data, p, limit) && Fits(b, data, q, limit) && Fits(c, data, r, limit);
    HeaderFromParts(x, y, z, data, p, q, r, r + |c|, limit);
  }

  lemma HeaderRoundTrip(shared: Word, nonShared: Word, valueLength: Word, data: Bytes, p: nat, limit: nat)
    requires limit <= |data| && LiesAt(EncodeHeader(shared, nonShared, valueLength), data, p)
    requires p + |EncodeHeader(shared, nonShared, valueLength)| + nonShared + valueLength <= limit
    ensures DecodeHeader(data, p, limit) ==
            Some(Header(shared, nonShared, valueLength, p + |EncodeHeader(shared, nonShared, valueLength)|))
  {
    WordDecodes(shared);
    WordDecodes(nonShared);
    WordDecodes(valueLength);
    HeaderFromBytes(shared, nonShared, valueLength, Varint(shared), Varint(nonShared), Varint(valueLength), data, p, limit);
  }

  /** What the builder appends is an entry to the reader. */
  lemma EntryRoundTrip(shared: Word, delta: Bytes, value: Bytes, data: Bytes, p: nat, limit: nat)
    requires |delta| < 0x1_0000_0000 && |value| < 0x1_0000_0000
    requires LiesAt(EntryBytes(shared, delta, value), data, p) && p + |EntryBytes(shared, delta, value)| <= limit <= |data|
    ensures EntryAt(data, p, limit, shared, delta, value, p + |EntryBytes(shared, delta, value)|)
  {
    var header := EncodeHeader(shared, |delta|, |value|);
    LiesBoth(header + delta, value, data, p);
    LiesBoth(header, delta, data, p);
    HeaderRoundTrip(shared, |delta|, |value|, data, p, limit);
  }

  /** Wherever `bytes` lies, a reader finds this entry. */
  ghost predicate ReadsAsEntry(bytes: Bytes, shared: nat, delta: Bytes, value: Bytes) {
    && bytes != []
    && forall data, p: nat, limit: nat {:trigger Fits(bytes, data, p, limit)} | Fits(bytes, data, p, limit) ::
         EntryAt(data, p, limit, shared, delta, value, p + |bytes|)
  }

  lemma EntryBytesRead(shared: Word, delta: Bytes, value: Bytes)
    requires |delta| < 0x1_0000_0000 && |value| < 0x1_0000_0000
    ensures ReadsAsEntry(EntryBytes(shared, delta, value), shared, delta, value)
  {
    forall data, p: nat, limit: nat | Fits(EntryBytes(shared, delta, value), data, p, limit)
      ensures EntryAt(data, p, limit, shared, delta, value, p + |EntryBytes(shared, delta, value)|)
    {
      EntryRoundTrip(shared, delta, value, data, p, limit);
    }
  }

  // ---- Blocks ----

  /** How a list of pairs is laid out: where each entry starts (and the last one ends), how
      much of the key before it each shares, and which entries are restart points. */
  datatype Layout = Layout(kvs: seq<Pair>, offsets: seq<nat>, shared: seq<nat>, restarts: seq<nat>)

  ghost predicate LayoutOk(l: Layout) {
    && |l.offsets| == |l.kvs| + 1 && l.offsets[0] == 0 && Ascend(l.offsets)
    && |l.shared| == |l.kvs| && SharingOk(l.kvs, l.shared) && RestartsOk(l.restarts, l.shared)
  }

  ghost predicate Ascend(xs: seq<nat>) {
    forall i, j :: 0 <= i < j < |xs| ==> xs[i] < xs[j]
  }

  ghost predicate SharingOk(kvs: seq<Pair>, shared: seq<nat>)
    requires |shared| == |kvs|
  {
    && (forall i :: 0 <= i < |kvs| ==> shared[i] <= |kvs[i].key|)
    && (forall i :: 0 < i < |kvs| ==> SharesPrefix(kvs[i - 1].key, kvs[i].key, shared[i]))
  }

  /** The first entry is a restart point, and restart points share nothing. */
  ghost predicate RestartsOk(restarts: seq<nat>, shared: seq<nat>) {
    && restarts != [] && restarts[0] == 0 && Ascend(restarts)
    && forall j :: 0 <= j < |restarts| ==> if shared == [] then restarts[j] == 0 else restarts[j] < |shared| && shared[restarts[j]] == 0
  }

  ghost predicate SharesPrefix(before: Bytes, key: Bytes, shared: nat) {
    shared <= |before| && shared <= |key| && before[..shared] == key[..shared]
  }

  /** Entry `i` is in the data as the layout says. */
  ghost predicate EntryIsAt(data: Bytes, limit: nat, l: Layout, i: nat)
    requires LayoutOk(l) && i < |l.kvs|
  {
    EntryAt(data, l.offsets[i], limit, l.shared[i], l.kvs[i].key[l.shared[i]..], l.kvs[i].value, l.offsets[i + 1])
  }

  ghost predicate EntriesAreAt(data: Bytes, limit: nat, l: Layout)
    requires LayoutOk(l)
  {
    limit == l.offsets[|l.kvs|] && forall i :: 0 <= i < |l.kvs| ==> EntryIsAt(data, limit, l, i)
  }

  /** A well-formed block: entries, restart array, number of restart points. */
  ghost predicate IsBlock(data: Bytes, l: Layout) {
    && LayoutOk(l)
    && var limit := l.offsets[|l.kvs|];
       && |data| == limit + 4 * |l.restarts| + 4 && EntriesAreAt(data, limit, l)
       && (forall j :: 0 <= j < |l.restarts| ==> WordAt(data, limit, j) == l.offsets[l.restarts[j]])
       && WordAt(data, limit, |l.restarts|) == |l.restarts|
  }
}
