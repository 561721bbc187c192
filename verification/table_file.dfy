/** A finished table file: data blocks, a filter, a metaindex, an index and a footer. */
module TableFiles {
  import opened Keys
  import opened Coding
  import opened BlockFormat
  import opened TableFormat
  import opened InternalKeys
  import opened Blooms
  import opened FilterBlocks
  import opened TwoLevelIterators
  import opened TableLayouts

  /** A filter policy: its key in the metaindex ("filter." and its name) and its hash. */
  datatype Policy = Policy(key: Bytes, hash: HashFunction)

  /** What was sealed into a file: the data, and where its index, metaindex and filter are. */
  datatype Sealed = Sealed(h: History, indexKvs: seq<Pair>, indexHandle: Bytes, index: BlockInfo,
                           metaHandle: Bytes, meta: BlockInfo, filterHandle: Bytes, filter: Bytes)

  function NoTable(): Sealed {
    var none := BlockInfo([], Layout([], [], [], []));
    Sealed(NoHistory(), [], [], none, [], none, [], [])
  }

  /** A block of these pairs is in the file under the handle. */
  ghost predicate Kept(file: Bytes, crc: Checksum, handle: Bytes, info: BlockInfo, kvs: seq<Pair>) {
    forall x {:trigger Asked(OfRecord, x)} :: Asked(OfRecord, x) ==>
      IsHandle(handle) && StoredAt(file, crc, handle, info.raw) && InfoOk(info, kvs)
  }

  lemma KeptIs(file: Bytes, crc: Checksum, handle: Bytes, info: BlockInfo, kvs: seq<Pair>)
    ensures Kept(file, crc, handle, info, kvs) <==> IsHandle(handle) && StoredAt(file, crc, handle, info.raw) && InfoOk(info, kvs)
  {
    assert Asked(OfRecord, 0);
  }

  /** The filter lets every key of every block through. */
  ghost predicate LetsThrough(hash: HashFunction, contents: Bytes, h: History) {
    && |h.bounds| == |h.offsets| + 1 && BoundsOk(h.bounds, |h.kvs|)
    && forall i, p :: 0 <= i < |h.offsets| && h.bounds[i] <= p < h.bounds[i + 1] ==>
         FilterSays(hash, contents, h.offsets[i], UserPart(h.kvs[p].key))
  }

  /** The filter is in the file under the handle and lets every key through. */
  ghost predicate Sifted(file: Bytes, crc: Checksum, hash: HashFunction, handle: Bytes, contents: Bytes, h: History) {
    forall x {:trigger Asked(OfRecord, x)} :: Asked(OfRecord, x) ==> StoredAt(file, crc, handle, contents) && LetsThrough(hash, contents, h)
  }

  lemma SiftedIs(file: Bytes, crc: Checksum, hash: HashFunction, handle: Bytes, contents: Bytes, h: History)
    ensures Sifted(file, crc, hash, handle, contents, h) <==> StoredAt(file, crc, handle, contents) && LetsThrough(hash, contents, h)
  {
    assert Asked(OfRecord, 0);
  }

  lemma AppendedKept(before: Bytes, after: Bytes, crc: Checksum, handle: Bytes, info: BlockInfo, kvs: seq<Pair>)
    requires Appended(before, after, crc, handle, info, kvs)
    ensures before <= after && Kept(after, crc, handle, info, kvs)
  {
    AppendedIs(before, after, crc, handle, info, kvs);
    NewlyStored(before, crc, info.raw);
    KeptIs(after, crc, handle, info, kvs);
  }

  lemma StaysKept(before: Bytes, after: Bytes, crc: Checksum, handle: Bytes, info: BlockInfo, kvs: seq<Pair>)
    requires before <= after && Kept(before, crc, handle, info, kvs)
    ensures Kept(after, crc, handle, info, kvs)
  {
    KeptIs(before, crc, handle, info, kvs);
    assert after == before + after[|before|..];
    StaysStored(before, after[|before|..], crc, handle, info.raw);
    KeptIs(after, crc, handle, info, kvs);
  }

  lemma StaysSifted(before: Bytes, after: Bytes, crc: Checksum, hash: HashFunction, handle: Bytes, contents: Bytes, h: History)
    requires before <= after && Sifted(before, crc, hash, handle, contents, h)
    ensures Sifted(after, crc, hash, handle, contents, h)
  {
    SiftedIs(before, crc, hash, handle, contents, h);
    assert after == before + after[|before|..];
    StaysStored(before, after[|before|..], crc, handle, contents);
    SiftedIs(after, crc, hash, handle, contents, h);
  }

  /** The pairs of the metaindex. */
  function MetaKvs(policy: Option<Policy>, filterHandle: Bytes): seq<Pair> {
    if policy == None then [] else [Pair(policy.value.key, filterHandle)]
  }

  /** The file ends in a footer that names the two handles. */
  ghost predicate Ends(file: Bytes, meta: Bytes, index: Bytes) {
    |file| >= FOOTER_SIZE && IsFooter(file[|file| - FOOTER_SIZE..], meta, index)
  }

  /** The file is a table that holds what `t` says. */
  ghost predicate TableFile(file: Bytes, crc: Checksum, policy: Option<Policy>, t: Sealed) {
    forall x {:trigger Asked(OfFile, x)} :: Asked(OfFile, x) ==>
      && Complete(t.h, file, crc, t.indexKvs) && Kept(file, crc, t.indexHandle, t.index, t.indexKvs)
      && Kept(file, crc, t.metaHandle, t.meta, MetaKvs(policy, t.filterHandle))
      && (policy.Some? ==> Sifted(file, crc, policy.value.hash, t.filterHandle, t.filter, t.h))
      && Ends(file, t.metaHandle, t.indexHandle)
  }

  lemma TableFileIs(file: Bytes, crc: Checksum, policy: Option<Policy>, t: Sealed)
    ensures TableFile(file, crc, policy, t)
            <==> Complete(t.h, file, crc, t.indexKvs) && Kept(file, crc, t.indexHandle, t.index, t.indexKvs)
                 && Kept(file, crc, t.metaHandle, t.meta, MetaKvs(policy, t.filterHandle))
                 && (policy.Some? ==> Sifted(file, crc, policy.value.hash, t.filterHandle, t.filter, t.h))
                 && Ends(file, t.metaHandle, t.indexHandle)
  {
    assert Asked(OfFile, 0);
  }

  lemma FooterEnds(file: Bytes, crc: Checksum, meta: Bytes, metaInfo: BlockInfo, metaKvs: seq<Pair>,
                   index: Bytes, indexInfo: BlockInfo, indexKvs: seq<Pair>)
    requires Kept(file, crc, meta, metaInfo, metaKvs) && Kept(file, crc, index, indexInfo, indexKvs)
    ensures |meta| + |index| <= 40 && Ends(file + EncodeFooter(meta, index), meta, index)
  {
    KeptIs(file, crc, meta, metaInfo, metaKvs);
    KeptIs(file, crc, index, indexInfo, indexKvs);
    var all := file + EncodeFooter(meta, index);
    assert all[|all| - FOOTER_SIZE..] == EncodeFooter(meta, index);
  }

  /** With the footer behind it the file is complete. */
  lemma Sealing(file: Bytes, crc: Checksum, policy: Option<Policy>, t: Sealed)
    requires Complete(t.h, file, crc, t.indexKvs) && Kept(file, crc, t.indexHandle, t.index, t.indexKvs)
    requires Kept(file, crc, t.metaHandle, t.meta, MetaKvs(policy, t.filterHandle))
    requires policy.Some? ==> Sifted(file, crc, policy.value.hash, t.filterHandle, t.filter, t.h)
    ensures |t.metaHandle| + |t.indexHandle| <= 40
    ensures TableFile(file + EncodeFooter(t.metaHandle, t.indexHandle), crc, policy, t)
  {
    FooterEnds(file, crc, t.metaHandle, t.meta, MetaKvs(policy, t.filterHandle), t.indexHandle, t.index, t.indexKvs);
    var footer := EncodeFooter(t.metaHandle, t.indexHandle);
    StaysComplete(t.h, file, file + footer, crc, t.indexKvs);
    StaysKept(file, file + footer, crc, t.indexHandle, t.index, t.indexKvs);
    StaysKept(file, file + footer, crc, t.metaHandle, t.meta, MetaKvs(policy, t.filterHandle));
    if policy.Some? {
      StaysSifted(file, file + footer, crc, policy.value.hash, t.filterHandle, t.filter, t.h);
    }
    TableFileIs(file + footer, crc, policy, t);
  }
}
