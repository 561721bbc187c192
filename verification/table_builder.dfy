/** Building a table file: pairs go into data blocks; each finished block gets an index
    entry, whose key is only chosen when the next key is known; behind the data come the
    filter, the metaindex, the index and the footer. */
module TableBuilders {
  import opened Keys
  import opened Coding
  import opened Varints
  import opened Entries
  import opened BlockFormat
  import opened BlockBuilders
  import opened TableFormat
  import opened InternalKeys
  import opened BlockCursors
  import opened Blooms
  import opened FilterBlocks
  import opened TwoLevelIterators
  import opened TableLayouts
  import opened TableFiles

  // ---- Filters ----

  /** The filter block knows every user key added, under the offset of its block. */
  ghost predicate FilterGood(filter: FilterBlockBuilder?, h: History, size: nat)
    reads filter
  {
    forall x {:trigger Asked(OfPart, x)} :: Asked(OfPart, x) ==> filter != null ==> FilterKnows(filter, h, size)
  }

  ghost predicate FilterKnows(filter: FilterBlockBuilder, h: History, size: nat)
    reads filter
  {
    && filter.Ok() && |filter.filters| == FilterIndex(size) && |filter.added| == |h.kvs| && BoundsOk(h.bounds, |h.kvs|) && |h.bounds| == |h.offsets| + 1
    && FilterCovers(filter.added, h.kvs, h.offsets, h.bounds, size)
  }

  lemma EmptyFilter(filter: FilterBlockBuilder?)
    requires filter != null ==> filter.Ok() && filter.filters == [] && filter.added == []
    ensures FilterGood(filter, NoHistory(), 0)
  {
  }

  method AddToFilter(filter: FilterBlockBuilder?, ghost h: History, ghost h2: History, ghost size: nat, kv: Pair)
    requires FilterGood(filter, h, size) && OnePairMore(h, h2, kv)
    modifies filter
    ensures FilterGood(filter, h2, size)
  {
    OnePairMoreIs(h, h2, kv);
    if filter != null {
      assert Asked(OfPart, 0);
      FilterGrows(filter.added, h.kvs, h.offsets, h.bounds, size, kv);
      filter.AddKey(UserPart(kv.key));
    }
  }

  method StartFilter(filter: FilterBlockBuilder?, ghost h: History, ghost h2: History, ghost size: nat, next: nat)
    requires FilterGood(filter, h, size) && size <= next && |h.bounds| == |h.offsets| + 1 && BoundsOk(h.bounds, |h.kvs|)
    requires h.bounds[|h.offsets|] < |h.kvs| && OneBlockMore(h, h2, size)
    modifies filter
    ensures FilterGood(filter, h2, next)
  {
    if filter != null {
      assert Asked(OfPart, 0);
      OneBlockMoreIs(h, h2, size);
      IndexGrows(size, next);
      filter.StartBlock(next);
      FilterMovesOn(filter.added, h.kvs, h.offsets, h.bounds, size, next);
    }
  }

  method FinishFilter(filter: FilterBlockBuilder, ghost h: History, ghost size: nat) returns (contents: Option<Bytes>)
    requires FilterGood(filter, h, size)
    modifies filter
    ensures contents.Some? ==> LetsThrough(filter.hash, contents.value, h)
    ensures contents == None ==> FilterCost(|h.kvs|, filter.bitsPerKey) >= 0x1_0000_0000
    ensures contents.Some? ==> |contents.value| <= FilterCost(|h.kvs|, filter.bitsPerKey) + 4 * size + 9
  {
    assert Asked(OfPart, 0);
    contents := filter.Finish();
    if contents.Some? {
      AllLetThrough(filter.hash, contents.value, filter.added, h, size);
    }
  }

  lemma AllLetThrough(hash: HashFunction, contents: Bytes, added: seq<(nat, Bytes)>, h: History, size: nat)
    requires |h.bounds| == |h.offsets| + 1 && BoundsOk(h.bounds, |h.kvs|) && FilterCovers(added, h.kvs, h.offsets, h.bounds, size)
    requires forall i, o: nat :: 0 <= i < |added| && FilterIndex(o) == added[i].0 ==> FilterSays(hash, contents, o, added[i].1)
    ensures LetsThrough(hash, contents, h)
  {
    forall i, p | 0 <= i < |h.offsets| && h.bounds[i] <= p < h.bounds[i + 1]
      ensures FilterSays(hash, contents, h.offsets[i], UserPart(h.kvs[p].key))
    {
      var a := (FilterIndex(h.offsets[i]), UserPart(h.kvs[p].key));
      assert a in added;
      var n :| 0 <= n < |added| && added[n] == a;
    }
  }

  // ---- Block builders in use ----

  ghost predicate Fine(b: BlockBuilder)
    reads b
  {
    forall x {:trigger Asked(OfBuilder, x)} :: Asked(OfBuilder, x) ==> b.Ok()
  }

  method NewBlock(interval: nat) returns (b: BlockBuilder)
    requires interval >= 1
    ensures fresh(b) && Fine(b) && b.layout.kvs == [] && |b.buffer| == 0 && |b.restarts| == 1 && b.interval == interval
  {
    b := new BlockBuilder(interval);
  }

  method AddTo(b: BlockBuilder, key: Bytes, value: Bytes)
    requires Fine(b) && |key| < 0x1_0000_0000 && |value| < 0x1_0000_0000
    modifies b
    ensures Fine(b) && b.layout.kvs == old(b.layout).kvs + [Pair(key, value)]
    ensures |b.buffer| <= |old(b.buffer)| + |key| + |value| + 15 && |b.restarts| <= |old(b.restarts)| + 1
  {
    assert Asked(OfBuilder, 0);
    ghost var _ := b.Add(key, value);
  }

  lemma EmptyBlock(b: BlockBuilder)
    requires Fine(b) && |b.buffer| == 0
    ensures b.layout.kvs == []
  {
    assert Asked(OfBuilder, 0);
    if b.layout.kvs != [] {
      FirstOffset(b);
    }
  }

  lemma FineInterval(b: BlockBuilder)
    requires Fine(b)
    ensures b.interval >= 1
  {
    assert Asked(OfBuilder, 0);
  }

  lemma NonEmptyBlock(b: BlockBuilder)
    requires Fine(b) && |b.buffer| > 0
    ensures b.layout.kvs != []
  {
    assert Asked(OfBuilder, 0);
  }

  lemma FirstOffset(b: BlockBuilder)
    requires b.Ok() && b.layout.kvs != []
    ensures |b.buffer| > 0
  {
  }

  /** Finish a block that fits 32-bit offsets, and start it anew. */
  method Taken(b: BlockBuilder) returns (ghost info: BlockInfo, raw: Bytes)
    requires Fine(b) && |b.buffer| < 0x1_0000_0000 && |b.restarts| < 0x1_0000_0000
    modifies b
    ensures Fine(b) && b.layout.kvs == [] && |raw| == |old(b.buffer)| + 4 * |old(b.restarts)| + 4
    ensures |b.buffer| == 0 && |b.restarts| == 1
    ensures info.raw == raw && InfoOk(info, old(b.layout).kvs)
  {
    assert Asked(OfBuilder, 0);
    raw := b.Finish();
    info := BlockInfo(raw, b.layout);
    b.Reset();
  }

  ghost predicate Storable(key: Bytes) {
    forall x {:trigger Asked(OfBuilder, x)} :: Asked(OfBuilder, x) ==> KeyOk(key) && |key| < 0x1_0000_0000
  }

  lemma StorableIs(key: Bytes)
    ensures Storable(key) <==> KeyOk(key) && |key| < 0x1_0000_0000
  {
    assert Asked(OfBuilder, 0);
  }

  // ---- The builder ----

  class TableBuilder {
    const crc: Checksum
    const filter: FilterBlockBuilder?
    const filterKey: Bytes           // "filter." and the policy's name
    const blockSize: nat
    const dataBlock: BlockBuilder
    const indexBlock: BlockBuilder
    var file: Bytes                  // the offset is its length
    var lastKey: Bytes
    var pendingIndexEntry: bool
    var pendingHandle: Bytes
    var failed: bool                 // the status is not ok: something would not fit 32-bit offsets
    ghost var h: History
    ghost var weight: nat            // the weight of the pairs added

    ghost predicate Shape()
      reads this, dataBlock, indexBlock
    {
      && dataBlock != indexBlock && Fine(dataBlock) && Fine(indexBlock)
      && Storable(lastKey) && |pendingHandle| <= 20
      && Growing(h, file, crc, indexBlock.layout.kvs, dataBlock.layout.kvs, lastKey, pendingIndexEntry, pendingHandle)
    }

    function BitsPerKey(): nat {
      if filter == null then 0 else filter.bitsPerKey
    }

    /** Nothing has outgrown the pairs added. */
    ghost predicate Sized()
      reads this, dataBlock, indexBlock
    {
      && Bounded(weight, |file|, |dataBlock.buffer|, |dataBlock.restarts|, |indexBlock.buffer|, |indexBlock.restarts|,
                 pendingIndexEntry, |lastKey|)
      && FilterCost(|h.kvs|, BitsPerKey()) <= weight
    }

    /** The pairs added come to some four gigabytes: the one reason to fail. */
    ghost predicate TooBig()
      reads this
    {
      weight + |filterKey| + 100 >= 0x1_0000_0000
    }

    ghost predicate Ok()
      reads this, dataBlock, indexBlock, filter
    {
      if failed then TooBig() else Shape() && FilterGood(filter, h, |file|) && Sized()
    }

    constructor (crc: Checksum, filter: FilterBlockBuilder?, filterKey: Bytes, interval: nat, blockSize: nat)
      requires interval >= 1 && (filter != null ==> filter.Ok() && filter.filters == [] && filter.added == [])
      ensures Ok() && !failed && h == NoHistory() && weight == 0 && this.filter == filter && this.crc == crc && this.filterKey == filterKey
      ensures fresh(dataBlock) && fresh(indexBlock)
    {
      this.crc, this.filter, this.filterKey, this.blockSize := crc, filter, filterKey, blockSize;
      var data := NewBlock(interval);
      var index := NewBlock(1);
      dataBlock, indexBlock := data, index;
      file, lastKey, pendingIndexEntry, pendingHandle, failed := [], EncodeKey([], 0), false, [], false;
      h, weight := NoHistory(), 0;
      new;
      KeyParts([], 0);
      StorableIs(lastKey);
      EmptyTable(crc, lastKey);
      EmptyFilter(filter);
    }

    /** The due index entry gets a short key between the last one and the next. */
    method AddIndexEntry(key: Bytes) returns (ghost sep: Bytes)
      requires Fine(indexBlock) && Storable(lastKey) && KeyOk(key) && |pendingHandle| <= 20
      modifies this`pendingIndexEntry, indexBlock
      ensures Fine(indexBlock) && indexBlock.layout.kvs == old(indexBlock.layout).kvs + [Pair(sep, pendingHandle)] && !pendingIndexEntry
      ensures Between(lastKey, sep, key)
      ensures |indexBlock.buffer| <= |old(indexBlock.buffer)| + |lastKey| + 35 && |indexBlock.restarts| <= |old(indexBlock.restarts)| + 1
    {
      assert Asked(OfBuilder, 0);
      var short := SeparatorKey(lastKey, key);
      sep := short;
      BetweenIs(lastKey, sep, key);
      AddTo(indexBlock, short, pendingHandle);
      pendingIndexEntry := false;
    }

    method AddPair(kv: Pair, ghost h2: History, ghost before: nat)
      requires !failed && Shape() && Storable(kv.key) && |kv.value| < 0x1_0000_0000 && OnePairMore(h, h2, kv)
      requires Bounded(before, |file|, |dataBlock.buffer|, |dataBlock.restarts|, |indexBlock.buffer|, |indexBlock.restarts|,
                       pendingIndexEntry, |lastKey|)
      requires before + |kv.key| + |kv.value| + 64 <= weight
      modifies this`pendingIndexEntry, this`lastKey, this`h, dataBlock, indexBlock
      ensures Shape() && h == h2
      ensures Bounded(weight, |file|, |dataBlock.buffer|, |dataBlock.restarts|, |indexBlock.buffer|, |indexBlock.restarts|,
                      pendingIndexEntry, |lastKey|)
    {
      ghost var dataKvs, indexKvs := dataBlock.layout.kvs, indexBlock.layout.kvs;
      StorableIs(kv.key);
      if pendingIndexEntry {
        NotYetWritten(h, file, crc, indexKvs, dataKvs, lastKey, true, pendingHandle);
        var sep := AddIndexEntry(kv.key);
        PairAddedWithIndex(h, h2, file, crc, indexKvs, lastKey, pendingHandle, kv, sep);
      } else {
        PairAdded(h, h2, file, crc, indexKvs, dataKvs, lastKey, pendingHandle, kv);
      }
      lastKey := kv.key;
      AddTo(dataBlock, kv.key, kv.value);
      h := h2;
      assert [] + [kv] == [kv];
    }

    /** `Add`: keys come in order. A data block that has reached its size is written. */
    method Add(key: Bytes, value: Bytes)
      requires Ok() && KeyOk(key) && (!failed ==> Sorted(h.list + [EntryOf(Pair(key, value))]))
      modifies this, dataBlock, indexBlock, filter
      ensures Ok() && weight == old(weight) + PairWeight(|key|, |value|, BitsPerKey())
      ensures !failed ==> !old(failed) && h.kvs == old(h).kvs + [Pair(key, value)] && h.list == old(h).list + [EntryOf(Pair(key, value))]
      ensures !failed ==> dataBlock.layout.kvs == [] || dataBlock.CurrentSizeEstimate() < blockSize
    {
      ghost var before := weight;
      weight := weight + PairWeight(|key|, |value|, BitsPerKey());
      if failed {
        return;
      }
      if |key| >= 0x1_0000_0000 || |value| >= 0x1_0000_0000 {
        failed := true;
        return;
      }
      ghost var h0 := h;
      ghost var h2 := PairComes(h, Pair(key, value));
      OnePairMoreIs(h0, h2, Pair(key, value));
      FilterCostGrows(|h0.kvs|, BitsPerKey());
      AddInOrder(Pair(key, value), h2, before);
      EntryComes(h0, h2, Pair(key, value));
    }

    method AddInOrder(kv: Pair, ghost h2: History, ghost before: nat)
      requires !failed && Shape() && FilterGood(filter, h, |file|) && FilterCost(|h2.kvs|, BitsPerKey()) <= weight
      requires Bounded(before, |file|, |dataBlock.buffer|, |dataBlock.restarts|, |indexBlock.buffer|, |indexBlock.restarts|,
                       pendingIndexEntry, |lastKey|)
      requires OnePairMore(h, h2, kv) && |kv.key| < 0x1_0000_0000 && |kv.value| < 0x1_0000_0000
      requires KeyOk(kv.key) && before + |kv.key| + |kv.value| + 64 <= weight
      modifies this, dataBlock, indexBlock, filter
      ensures Ok() && weight == old(weight) && (!failed ==> h.kvs == h2.kvs && h.list == h2.list)
      ensures !failed ==> dataBlock.layout.kvs == [] || dataBlock.CurrentSizeEstimate() < blockSize
    {
      StorableIs(kv.key);
      AddToFilter(filter, h, h2, |file|, kv);
      AddPair(kv, h2, before);
      if dataBlock.CurrentSizeEstimate() >= blockSize {
        Flush();
      }
    }

    /** A block and its trailer go to the end of the file. */
    method WriteRawBlock(raw: Bytes) returns (handle: Bytes)
      modifies this`file
      ensures file == old(file) + BlockBytes(crc, raw) && handle == EncodeHandle(|old(file)|, |raw|)
    {
      var offset := EncodeVarint64(|file|);
      var size := EncodeVarint64(|raw|);
      handle := offset + size;
      var trailer := Fixed32(Mask(crc(raw + [NO_COMPRESSION])));
      file := file + raw;
      file := file + ([NO_COMPRESSION] + trailer);
      assert file == old(file) + (raw + ([NO_COMPRESSION] + trailer));
    }

    method WriteBlock(block: BlockBuilder) returns (handle: Bytes, ghost info: BlockInfo)
      requires Fine(block) && !failed
      modifies this`file, this`failed, block
      ensures failed ==> file == old(file)
                         && (|old(block.buffer)| >= 0x1_0000_0000 || |old(block.restarts)| >= 0x1_0000_0000 || |file| >= TWO_TO_THE_64)
      ensures !failed ==> Fine(block) && block.layout.kvs == [] && |handle| <= 20 && |block.buffer| == 0 && |block.restarts| == 1
      ensures !failed ==> Appended(old(file), file, crc, handle, info, old(block.layout).kvs)
      ensures !failed ==> |file| == |old(file)| + |old(block.buffer)| + 4 * |old(block.restarts)| + 9
    {
      handle := [];
      if |block.buffer| >= 0x1_0000_0000 || |block.restarts| >= 0x1_0000_0000 || |file| >= TWO_TO_THE_64 {
        failed := true;
        info := BlockInfo([], Layout([], [], [], []));
        return;
      }
      ghost var kvs, before := block.layout.kvs, file;
      var raw;
      info, raw := Taken(block);
      HandleRoundTrip(|file|, |raw|);
      handle := WriteRawBlock(raw);
      AppendedIs(before, file, crc, handle, info, kvs);
    }

    method WriteDataBlock()
      requires !failed && Shape() && dataBlock.layout.kvs != [] && !pendingIndexEntry && |dataBlock.buffer| > 0
      requires Bounded(weight, |file|, |dataBlock.buffer|, |dataBlock.restarts|, |indexBlock.buffer|, |indexBlock.restarts|,
                       pendingIndexEntry, |lastKey|)
      modifies this`file, this`failed, this`h, this`pendingHandle, this`pendingIndexEntry, dataBlock
      ensures !failed ==>
                Shape() && OneBlockMore(old(h), h, |old(file)|) && dataBlock.layout.kvs == [] && |file| >= |old(file)|
      ensures if failed then TooBig()
              else Bounded(weight, |file|, |dataBlock.buffer|, |dataBlock.restarts|, |indexBlock.buffer|, |indexBlock.restarts|,
                           pendingIndexEntry, |lastKey|)
    {
      ghost var dataKvs, indexKvs, h0, file0, handle0 := dataBlock.layout.kvs, indexBlock.layout.kvs, h, file, pendingHandle;
      var handle, info := WriteBlock(dataBlock);
      if failed {
        return;
      }
      ghost var h2 := BlockOut(h0, file0, file, crc, indexKvs, dataKvs, lastKey, handle0, info, handle);
      pendingHandle, pendingIndexEntry, h := handle, true, h2;
    }

    /** The data block is written; its index entry has to wait. */
    method Flush()
      requires Ok()
      modifies this, dataBlock, filter
      ensures Ok() && weight == old(weight)
      ensures !failed ==> !old(failed) && h.kvs == old(h).kvs && h.list == old(h).list && dataBlock.layout.kvs == []
    {
      if failed {
        return;
      }
      if |dataBlock.buffer| == 0 {
        EmptyBlock(dataBlock);
        return;
      }
      ghost var h0, size0 := h, |file|;
      NonEmptyBlock(dataBlock);
      NotYetWritten(h, file, crc, indexBlock.layout.kvs, dataBlock.layout.kvs, lastKey, pendingIndexEntry, pendingHandle);
      WriteDataBlock();
      if !failed {
        OneBlockMoreIs(h0, h, size0);
        StartFilter(filter, h0, h, size0, |file|);
      }
    }

    function PolicyUsed(): Option<Policy> {
      if filter == null then None else Some(Policy(filterKey, filter.hash))
    }

    /** The filter block goes behind the data. */
    method WriteFilter(filter: FilterBlockBuilder) returns (handle: Bytes, ghost contents: Bytes)
      requires !failed && FilterGood(filter, h, |file|)
      modifies this`file, this`failed, filter
      ensures |handle| <= 20
      ensures !failed ==> old(file) <= file && Sifted(file, crc, filter.hash, handle, contents, h)
      ensures !failed ==> |file| <= 5 * |old(file)| + FilterCost(|h.kvs|, filter.bitsPerKey) + 14
      ensures failed ==> FilterCost(|h.kvs|, filter.bitsPerKey) >= 0x1_0000_0000 || |old(file)| >= 0x1_0000_0000_0000
    {
      handle, contents := [], [];
      var result := FinishFilter(filter, h, |file|);
      if result == None || |result.value| >= TWO_TO_THE_64 || |file| >= TWO_TO_THE_64 {
        failed := true;
        return;
      }
      contents := result.value;
      NewlyStored(file, crc, contents);
      HandleRoundTrip(|file|, |contents|);
      ghost var before := file;
      handle := WriteRawBlock(result.value);
      SiftedIs(file, crc, filter.hash, handle, contents, h);
    }

    /** The metaindex names the filter, if there is one. */
    method WriteMeta(filterHandle: Bytes) returns (handle: Bytes, ghost info: BlockInfo)
      requires !failed && Fine(dataBlock) && |filterHandle| <= 20
      modifies this`file, this`failed
      ensures !failed ==> old(file) <= file && Kept(file, crc, handle, info, MetaKvs(PolicyUsed(), filterHandle))
      ensures !failed ==> |file| <= |old(file)| + |filterKey| + 64
      ensures failed ==> |filterKey| + 64 >= 0x1_0000_0000 || |old(file)| >= TWO_TO_THE_64
    {
      handle, info := [], BlockInfo([], Layout([], [], [], []));
      FineInterval(dataBlock);
      var metaBlock := NewBlock(dataBlock.interval);
      if filter != null {
        if |filterKey| >= 0x1_0000_0000 {
          failed := true;
          return;
        }
        AddTo(metaBlock, filterKey, filterHandle);
      }
      ghost var before, kvs := file, MetaKvs(PolicyUsed(), filterHandle);
      assert metaBlock.layout.kvs == kvs;
      handle, info := WriteBlock(metaBlock);
      if !failed {
        AppendedKept(before, file, crc, handle, info, kvs);
      }
    }

    ghost predicate IndexBounded()
      reads this, indexBlock
    {
      |indexBlock.buffer| + 4 * |indexBlock.restarts| + (if pendingIndexEntry then |lastKey| + 39 else 0) <= weight + 4
    }

    /** The last index entry needs no next key. */
    method AddLastIndexEntry()
      requires !failed && Shape() && dataBlock.layout.kvs == []
      modifies this`pendingIndexEntry, indexBlock
      ensures Fine(indexBlock) && Complete(h, file, crc, indexBlock.layout.kvs)
      ensures |indexBlock.buffer| + 4 * |indexBlock.restarts|
              <= |old(indexBlock.buffer)| + 4 * |old(indexBlock.restarts)| + if old(pendingIndexEntry) then |lastKey| + 39 else 0
    {
      ghost var indexKvs := indexBlock.layout.kvs;
      if pendingIndexEntry {
        StorableIs(lastKey);
        var short := SuccessorKey(lastKey);
        LastIndexEntry(h, file, crc, indexKvs, lastKey, pendingHandle, short);
        AddTo(indexBlock, short, pendingHandle);
        pendingIndexEntry := false;
      } else {
        NothingAdded(h, file, crc, indexKvs, lastKey, pendingHandle);
      }
    }

    method WriteIndex() returns (handle: Bytes, ghost info: BlockInfo, ghost indexKvs: seq<Pair>)
      requires !failed && Shape() && dataBlock.layout.kvs == []
      requires IndexBounded()
      modifies this`file, this`failed, this`pendingIndexEntry, indexBlock
      ensures failed ==> TooBig() || |old(file)| >= TWO_TO_THE_64
      ensures !failed ==> old(file) <= file && Complete(h, file, crc, indexKvs) && Kept(file, crc, handle, info, indexKvs)
    {
      AddLastIndexEntry();
      ghost var before := file;
      indexKvs := indexBlock.layout.kvs;
      handle, info := WriteBlock(indexBlock);
      if !failed {
        AppendedKept(before, file, crc, handle, info, indexKvs);
        StaysComplete(h, before, file, crc, indexKvs);
      }
    }

    method WriteFilterIfAny() returns (handle: Bytes, ghost contents: Bytes)
      requires !failed && FilterGood(filter, h, |file|)
      modifies this`file, this`failed, filter
      ensures |handle| <= 20
      ensures !failed ==> old(file) <= file && (filter != null ==> Sifted(file, crc, filter.hash, handle, contents, h))
      ensures !failed ==> |file| <= 5 * |old(file)| + FilterCost(|h.kvs|, BitsPerKey()) + 14
      ensures failed ==> FilterCost(|h.kvs|, BitsPerKey()) >= 0x1_0000_0000 || |old(file)| >= 0x1_0000_0000_0000
    {
      handle, contents := [], [];
      if filter != null {
        handle, contents := WriteFilter(filter);
      }
    }

    /** Filter and metaindex. */
    method WriteExtras() returns (filterHandle: Bytes, metaHandle: Bytes, ghost contents: Bytes, ghost meta: BlockInfo)
      requires !failed && Shape() && FilterGood(filter, h, |file|) && |file| <= weight + 4 && FilterCost(|h.kvs|, BitsPerKey()) <= weight
      modifies this`file, this`failed, filter
      ensures if failed then TooBig() else TooBig() || |file| < TWO_TO_THE_64
      ensures !failed ==> Shape() && Kept(file, crc, metaHandle, meta, MetaKvs(PolicyUsed(), filterHandle))
      ensures !failed && filter != null ==> Sifted(file, crc, filter.hash, filterHandle, contents, h)
    {
      metaHandle, meta := [], BlockInfo([], Layout([], [], [], []));
      ghost var start := file;
      filterHandle, contents := WriteFilterIfAny();
      if failed {
        return;
      }
      ghost var before := file;
      metaHandle, meta := WriteMeta(filterHandle);
      if failed {
        return;
      }
      if filter != null {
        StaysSifted(before, file, crc, filter.hash, filterHandle, contents, h);
      }
      StaysGrowing(h, start, file, crc, indexBlock.layout.kvs, dataBlock.layout.kvs, lastKey, pendingIndexEntry, pendingHandle);
    }

    method WriteEnd(filterHandle: Bytes, metaHandle: Bytes, ghost contents: Bytes, ghost meta: BlockInfo) returns (ghost t: Sealed)
      requires !failed && Shape() && dataBlock.layout.kvs == [] && IndexBounded() && (TooBig() || |file| < TWO_TO_THE_64)
      requires Kept(file, crc, metaHandle, meta, MetaKvs(PolicyUsed(), filterHandle))
      requires filter != null ==> Sifted(file, crc, filter.hash, filterHandle, contents, h)
      modifies this`file, this`failed, this`pendingIndexEntry, indexBlock
      ensures if failed then TooBig() else TableFile(file, crc, PolicyUsed(), t) && t.h == h
    {
      ghost var before := file;
      var indexHandle, index, indexKvs := WriteIndex();
      t := Sealed(h, indexKvs, indexHandle, index, metaHandle, meta, filterHandle, contents);
      if failed {
        return;
      }
      StaysKept(before, file, crc, metaHandle, meta, MetaKvs(PolicyUsed(), filterHandle));
      if filter != null {
        StaysSifted(before, file, crc, filter.hash, filterHandle, contents, h);
      }
      Sealing(file, crc, PolicyUsed(), t);
      file := file + EncodeFooter(metaHandle, indexHandle);
    }

    /** The file is a table of everything added. */
    method Finish() returns (ghost t: Sealed)
      requires Ok()
      modifies this, dataBlock, indexBlock, filter
      ensures weight == old(weight)
      ensures if failed then TooBig()
              else !old(failed) && TableFile(file, crc, PolicyUsed(), t) && t.h.kvs == old(h).kvs && t.h.list == old(h).list
    {
      t := NoTable();
      Flush();
      if failed {
        return;
      }
      var filterHandle, metaHandle, contents, meta := WriteExtras();
      if failed {
        return;
      }
      t := WriteEnd(filterHandle, metaHandle, contents, meta);
    }
  }
}
