/** What a table file holds while it is built and when it is finished, in terms of
    entries: data blocks cut from one sorted list, and an index key behind each. */
module TableLayouts {
  import opened Keys
  import opened Coding
  import opened Entries
  import opened BlockFormat
  import opened TableFormat
  import opened InternalKeys
  import opened BlockCursors
  import opened FilterBlocks
  import opened TwoLevelIterators

  // ---- What has been written ----

  /** Where the blocks start, and where the last one ends. */
  ghost predicate BoundsOk(bounds: seq<nat>, size: nat) {
    && bounds != [] && bounds[0] == 0 && bounds[|bounds| - 1] <= size
    && forall i, j :: 0 <= i < j < |bounds| ==> bounds[i] < bounds[j]
  }

  /** Block `i` is in the file under its handle. */
  ghost predicate BlockStored(list: seq<Entry>, blocks: BlockFunction, handles: seq<Bytes>, bounds: seq<nat>, i: nat)
    requires BoundsOk(bounds, |list|) && |bounds| == |handles| + 1 && i < |handles|
  {
    handles[i] in blocks && blocks[handles[i]] == list[bounds[i]..bounds[i + 1]]
  }

  ghost predicate Flushed(list: seq<Entry>, blocks: BlockFunction, handles: seq<Bytes>, bounds: seq<nat>) {
    && BoundsOk(bounds, |list|) && |bounds| == |handles| + 1
    && forall i :: 0 <= i < |handles| ==> BlockStored(list, blocks, handles, bounds, i)
  }

  /** `sep` stands between the last entry of a block and the first of the next. */
  ghost predicate Separates(sep: Entry, list: seq<Entry>, bound: nat)
    requires 0 < bound <= |list|
  {
    var last := list[bound - 1];
    || (sep.key == last.key && Tag(sep) == Tag(last))
    || (last.key < sep.key && (bound < |list| ==> sep.key < list[bound].key))
  }

  ghost predicate Indexed(list: seq<Entry>, index: seq<Entry>, handles: seq<Bytes>, bounds: seq<nat>)
    requires |bounds| == |handles| + 1 && BoundsOk(bounds, |list|)
  {
    |index| <= |handles| && forall i :: 0 <= i < |index| ==> IndexedAt(list, index, handles, bounds, i)
  }

  ghost predicate IndexedAt(list: seq<Entry>, index: seq<Entry>, handles: seq<Bytes>, bounds: seq<nat>, i: nat)
    requires |bounds| == |handles| + 1 && BoundsOk(bounds, |list|) && i < |index| <= |handles|
  {
    assert bounds[i] < bounds[i + 1] <= |list|;
    index[i].value == handles[i] && Separates(index[i], list, bounds[i + 1])
  }

  /** A fully indexed file is a table in the sense of the two-level cursor. */
  lemma IndexedIsTable(list: seq<Entry>, blocks: BlockFunction, index: seq<Entry>, handles: seq<Bytes>, bounds: seq<nat>)
    requires Sorted(list) && Flushed(list, blocks, handles, bounds) && Indexed(list, index, handles, bounds)
    requires |index| == |handles| && bounds[|handles|] == |list|
    ensures IsTable(index, blocks, list)
    ensures forall i :: 0 <= i <= |index| ==> Start(index, blocks, i) == bounds[i]
  {
    forall i | 0 <= i < |index|
      ensures index[i].value in blocks && blocks[index[i].value] == list[bounds[i]..bounds[i + 1]]
    {
      assert IndexedAt(list, index, handles, bounds, i) && BlockStored(list, blocks, handles, bounds, i);
    }
    forall i: nat | i <= |index|
      ensures Start(index, blocks, i) == bounds[i]
    {
      StartsAreBounds(list, blocks, index, bounds, i);
    }
    SeparatorsSorted(list, index, handles, bounds);
    forall i, p: nat | 0 <= i < |index| && Start(index, blocks, i + 1) <= p < |list|
      ensures Before(index[i], list[p])
    {
      SeparatorBeforeNext(list, index, handles, bounds, i, p);
    }
    forall i, p: nat | 0 <= i < |index| && p < |list| && p < Start(index, blocks, i + 1)
      ensures !Before(index[i], list[p])
    {
      SeparatorNotBefore(list, index, handles, bounds, i, p);
    }
    forall i | 0 <= i < |index|
      ensures Holds(index, blocks, list, i)
    {
      assert Start(index, blocks, i) == bounds[i] && Start(index, blocks, i + 1) == bounds[i + 1];
    }
  }

  lemma {:induction false} StartsAreBounds(list: seq<Entry>, blocks: BlockFunction, index: seq<Entry>, bounds: seq<nat>, i: nat)
    requires Opens(index, blocks) && |bounds| == |index| + 1 && BoundsOk(bounds, |list|) && i <= |index|
    requires forall j :: 0 <= j < |index| ==> blocks[index[j].value] == list[bounds[j]..bounds[j + 1]]
    ensures Start(index, blocks, i) == bounds[i]
  {
    if i > 0 {
      StartsAreBounds(list, blocks, index, bounds, i - 1);
      assert blocks[index[i - 1].value] == list[bounds[i - 1]..bounds[i]];
    }
  }

  lemma SeparatorBeforeNext(list: seq<Entry>, index: seq<Entry>, handles: seq<Bytes>, bounds: seq<nat>, i: nat, p: nat)
    requires Sorted(list) && |bounds| == |handles| + 1 && BoundsOk(bounds, |list|) && Indexed(list, index, handles, bounds)
    requires i < |index| && bounds[i + 1] <= p < |list|
    ensures Before(index[i], list[p]) && Precedes(index[i], list[p])
  {
    assert IndexedAt(list, index, handles, bounds, i);
    var b := bounds[i + 1];
    assert Precedes(list[b - 1], list[p]);
    assert b < p ==> Precedes(list[b], list[p]);
  }

  lemma SeparatorNotBefore(list: seq<Entry>, index: seq<Entry>, handles: seq<Bytes>, bounds: seq<nat>, i: nat, p: nat)
    requires Sorted(list) && |bounds| == |handles| + 1 && BoundsOk(bounds, |list|) && Indexed(list, index, handles, bounds)
    requires i < |index| && p < bounds[i + 1]
    ensures !Before(index[i], list[p])
    ensures p == bounds[i + 1] - 1 ==> list[p].key < index[i].key || (list[p].key == index[i].key && list[p].seqno == index[i].seqno)
  {
    assert IndexedAt(list, index, handles, bounds, i);
    var b := bounds[i + 1];
    assert p < b - 1 ==> Precedes(list[p], list[b - 1]);
  }

  lemma SeparatorsSorted(list: seq<Entry>, index: seq<Entry>, handles: seq<Bytes>, bounds: seq<nat>)
    requires Sorted(list) && |bounds| == |handles| + 1 && BoundsOk(bounds, |list|) && Indexed(list, index, handles, bounds)
    ensures Sorted(index)
  {
    forall i, j | 0 <= i < j < |index|
      ensures Precedes(index[i], index[j])
    {
      var p := bounds[j + 1] - 1;
      assert bounds[i + 1] <= bounds[j] <= p < |list|;
      SeparatorBeforeNext(list, index, handles, bounds, i, p);
      SeparatorNotBefore(list, index, handles, bounds, j, p);
    }
  }

  // ---- Growing the table ----

  /** Where the blocks are in the file: their handles name ascending offsets below `offset`. */
  ghost predicate HandlesOk(handles: seq<Bytes>, offsets: seq<nat>, offset: nat) {
    && |offsets| == |handles|
    && (forall i, j :: 0 <= i < j < |offsets| ==> offsets[i] < offsets[j])
    && forall i :: 0 <= i < |offsets| ==> offsets[i] < offset && HandleRange(handles[i]).Some? && HandleRange(handles[i]).value.0 == offsets[i]
  }

  lemma NewHandle(handles: seq<Bytes>, offsets: seq<nat>, offset: nat, handle: Bytes, next: nat)
    requires HandlesOk(handles, offsets, offset) && HandleRange(handle).Some? && HandleRange(handle).value.0 == offset && offset < next
    ensures HandlesOk(handles + [handle], offsets + [offset], next) && handle !in handles
  {
    forall i | 0 <= i < |handles|
      ensures handles[i] != handle
    {
      assert offsets[i] < offset;
    }
  }

  /** One more entry does not disturb what is written. */
  lemma ListGrows(list: seq<Entry>, e: Entry, blocks: BlockFunction, index: seq<Entry>, handles: seq<Bytes>, bounds: seq<nat>)
    requires Flushed(list, blocks, handles, bounds) && Indexed(list, index, handles, bounds)
    requires forall i :: 0 <= i < |index| ==> bounds[i + 1] < |list| || index[i].key < e.key || SameAsLast(index[i], list)
    ensures Flushed(list + [e], blocks, handles, bounds) && Indexed(list + [e], index, handles, bounds)
  {
    var more := list + [e];
    forall i | 0 <= i < |handles|
      ensures BlockStored(more, blocks, handles, bounds, i)
    {
      assert BlockStored(list, blocks, handles, bounds, i);
      assert more[bounds[i]..bounds[i + 1]] == list[bounds[i]..bounds[i + 1]];
    }
    forall i | 0 <= i < |index|
      ensures IndexedAt(more, index, handles, bounds, i)
    {
      assert IndexedAt(list, index, handles, bounds, i);
    }
  }

  ghost predicate SameAsLast(sep: Entry, list: seq<Entry>) {
    list != [] && sep.key == list[|list| - 1].key && Tag(sep) == Tag(list[|list| - 1])
  }

  /** The index entry of the last block, once the key after it is known. */
  lemma EntryIndexed(list: seq<Entry>, e: Entry, blocks: BlockFunction, index: seq<Entry>, handles: seq<Bytes>, bounds: seq<nat>, sep: Entry)
    requires Flushed(list, blocks, handles, bounds) && Indexed(list, index, handles, bounds)
    requires |index| + 1 == |handles| && bounds[|handles|] == |list| && sep.value == handles[|index|]
    requires SameAsLast(sep, list) || (list != [] && list[|list| - 1].key < sep.key < e.key)
    ensures Flushed(list + [e], blocks, handles, bounds) && Indexed(list + [e], index + [sep], handles, bounds)
  {
    ListGrows(list, e, blocks, index, handles, bounds);
    forall i | 0 <= i < |index| + 1
      ensures IndexedAt(list + [e], index + [sep], handles, bounds, i)
    {
      if i < |index| {
        assert IndexedAt(list + [e], index, handles, bounds, i);
      } else {
        assert bounds[i] < bounds[i + 1];
      }
    }
  }

  lemma LastIndexed(list: seq<Entry>, index: seq<Entry>, handles: seq<Bytes>, bounds: seq<nat>, sep: Entry)
    requires |bounds| == |handles| + 1 && BoundsOk(bounds, |list|) && Indexed(list, index, handles, bounds)
    requires |index| + 1 == |handles| && bounds[|handles|] == |list| && sep.value == handles[|index|]
    requires SameAsLast(sep, list) || (list != [] && list[|list| - 1].key < sep.key)
    ensures Indexed(list, index + [sep], handles, bounds)
  {
    forall i | 0 <= i < |index| + 1
      ensures IndexedAt(list, index + [sep], handles, bounds, i)
    {
      if i < |index| {
        assert IndexedAt(list, index, handles, bounds, i);
      } else {
        assert bounds[i] < bounds[i + 1];
      }
    }
  }

  /** The block just filled goes to the file under a handle of its own. */
  lemma BlockWritten(list: seq<Entry>, blocks: BlockFunction, index: seq<Entry>, handles: seq<Bytes>, bounds: seq<nat>, handle: Bytes)
    requires Flushed(list, blocks, handles, bounds) && Indexed(list, index, handles, bounds)
    requires bounds[|handles|] < |list| && handle !in handles
    ensures var blocks2 := blocks[handle := list[bounds[|handles|]..]];
            Flushed(list, blocks2, handles + [handle], bounds + [|list|]) && Indexed(list, index, handles + [handle], bounds + [|list|])
  {
    var blocks2 := blocks[handle := list[bounds[|handles|]..]];
    var h, b := handles + [handle], bounds + [|list|];
    forall i | 0 <= i < |h|
      ensures BlockStored(list, blocks2, h, b, i)
    {
      if i < |handles| {
        assert BlockStored(list, blocks, handles, bounds, i);
      }
    }
    forall i | 0 <= i < |index|
      ensures IndexedAt(list, index, h, b, i)
    {
      assert IndexedAt(list, index, handles, bounds, i);
    }
  }

  // ---- Filters ----

  /** Every key's user key is with the filter of its block. */
  ghost predicate FilterCovers(added: seq<(nat, Bytes)>, kvs: seq<Pair>, offsets: seq<nat>, bounds: seq<nat>, offset: nat)
    requires BoundsOk(bounds, |kvs|) && |bounds| == |offsets| + 1
  {
    && (forall i, p :: 0 <= i < |offsets| && bounds[i] <= p < bounds[i + 1] ==> (FilterIndex(offsets[i]), UserPart(kvs[p].key)) in added)
    && forall p :: bounds[|offsets|] <= p < |kvs| ==> (FilterIndex(offset), UserPart(kvs[p].key)) in added
  }

  lemma IndexGrows(a: nat, b: nat)
    requires a <= b
    ensures FilterIndex(a) <= FilterIndex(b)
  {
  }

  lemma FilterGrows(added: seq<(nat, Bytes)>, kvs: seq<Pair>, offsets: seq<nat>, bounds: seq<nat>, offset: nat, kv: Pair)
    requires BoundsOk(bounds, |kvs|) && |bounds| == |offsets| + 1 && FilterCovers(added, kvs, offsets, bounds, offset)
    ensures FilterCovers(added + [(FilterIndex(offset), UserPart(kv.key))], kvs + [kv], offsets, bounds, offset)
  {
  }

  lemma FilterMovesOn(added: seq<(nat, Bytes)>, kvs: seq<Pair>, offsets: seq<nat>, bounds: seq<nat>, offset: nat, next: nat)
    requires BoundsOk(bounds, |kvs|) && |bounds| == |offsets| + 1 && FilterCovers(added, kvs, offsets, bounds, offset)
    requires bounds[|offsets|] < |kvs|
    ensures FilterCovers(added, kvs, offsets + [offset], bounds + [|kvs|], next)
  {
  }

  // ---- Sizes ----

  /** What is written and what is still to write stay within the weight of the pairs added. */
  predicate Bounded(weight: nat, file: nat, data: nat, dataRestarts: nat, index: nat, indexRestarts: nat, pending: bool, lastKey: nat) {
    && file + data + 4 * dataRestarts + (if data == 0 then 0 else 13) <= weight + 4
    && index + 4 * indexRestarts + (if pending || data > 0 then lastKey + 39 else 0) <= weight + 4
  }

  /** What a pair adds to the weight: its bytes, the most that stands around them, and its
      share of the filters. */
  function PairWeight(key: nat, value: nat, bitsPerKey: nat): nat {
    key + value + bitsPerKey + 64
  }

  lemma FilterCostGrows(keys: nat, bitsPerKey: nat)
    ensures FilterCost(keys + 1, bitsPerKey) == FilterCost(keys, bitsPerKey) + bitsPerKey + 10
  {
  }

  // ---- The table as it grows ----

  /** Everything that was added and where it went. */
  datatype History = History(kvs: seq<Pair>, list: seq<Entry>, blocks: BlockFunction, infos: map<Bytes, BlockInfo>,
                             handles: seq<Bytes>, offsets: seq<nat>, bounds: seq<nat>)

  function NoHistory(): History {
    History([], [], map[], map[], [], [], [0])
  }

  /** The entries are those of the pairs added, in order. */
  ghost predicate Listed(h: History, indexKvs: seq<Pair>) {
    forall x {:trigger Asked(OfPart, x)} :: Asked(OfPart, x) ==>
      KeysOk(h.kvs) && h.list == EntriesOf(h.kvs) && Sorted(h.list) && KeysOk(indexKvs)
  }

  lemma ListedIs(h: History, indexKvs: seq<Pair>)
    ensures Listed(h, indexKvs) <==> KeysOk(h.kvs) && h.list == EntriesOf(h.kvs) && Sorted(h.list) && KeysOk(indexKvs)
  {
    assert Asked(OfPart, 0);
  }

  /** The list is cut into blocks, and the index has keys between them. */
  ghost predicate Placed(h: History, index: seq<Entry>) {
    forall x {:trigger Asked(OfPart, x)} :: Asked(OfPart, x) ==>
      Flushed(h.list, h.blocks, h.handles, h.bounds) && Indexed(h.list, index, h.handles, h.bounds)
  }

  lemma PlacedIs(h: History, index: seq<Entry>)
    ensures Placed(h, index) <==> Flushed(h.list, h.blocks, h.handles, h.bounds) && Indexed(h.list, index, h.handles, h.bounds)
  {
    assert Asked(OfPart, 0);
  }

  ghost predicate HandlesIn(h: History, size: nat) {
    forall x {:trigger Asked(OfPart, x)} :: Asked(OfPart, x) ==> HandlesOk(h.handles, h.offsets, size)
  }

  /** The written blocks are in the file, and the index says where. */
  ghost predicate WrittenSoFar(h: History, file: Bytes, crc: Checksum, indexKvs: seq<Pair>) {
    forall x {:trigger Asked(OfRecord, x)} :: Asked(OfRecord, x) ==>
      Listed(h, indexKvs) && Placed(h, EntriesOf(indexKvs)) && HandlesIn(h, |file|) && Backed(file, crc, h.blocks, h.infos)
  }

  /** The data block holds what is not written yet; behind a written block, an index entry is
      due before anything else. */
  ghost predicate Due(h: History, indexKvs: seq<Pair>, dataKvs: seq<Pair>, lastKey: Bytes, pending: bool, pendingHandle: Bytes) {
    forall x {:trigger Asked(OfRecord, x)} :: Asked(OfRecord, x) ==>
      && |h.bounds| == |h.handles| + 1 && BoundsOk(h.bounds, |h.kvs|)
      && dataKvs == h.kvs[h.bounds[|h.handles|]..] && (h.kvs != [] ==> lastKey == h.kvs[|h.kvs| - 1].key)
      && (if pending then |h.handles| == |indexKvs| + 1 && pendingHandle == h.handles[|indexKvs|] && dataKvs == []
          else |h.handles| == |indexKvs| && (dataKvs == [] ==> h.kvs == []))
  }

  lemma WrittenIs(h: History, file: Bytes, crc: Checksum, indexKvs: seq<Pair>)
    ensures WrittenSoFar(h, file, crc, indexKvs)
            <==> Listed(h, indexKvs) && Placed(h, EntriesOf(indexKvs)) && HandlesIn(h, |file|) && Backed(file, crc, h.blocks, h.infos)
  {
    assert Asked(OfRecord, 0);
  }

  lemma DueIs(h: History, indexKvs: seq<Pair>, dataKvs: seq<Pair>, lastKey: Bytes, pending: bool, pendingHandle: Bytes)
    requires Due(h, indexKvs, dataKvs, lastKey, pending, pendingHandle)
    ensures |h.bounds| == |h.handles| + 1 && BoundsOk(h.bounds, |h.kvs|)
    ensures dataKvs == h.kvs[h.bounds[|h.handles|]..] && (h.kvs != [] ==> lastKey == h.kvs[|h.kvs| - 1].key)
    ensures if pending then |h.handles| == |indexKvs| + 1 && pendingHandle == h.handles[|indexKvs|] && dataKvs == []
            else |h.handles| == |indexKvs| && (dataKvs == [] ==> h.kvs == [])
  {
    assert Asked(OfRecord, 0);
  }

  ghost predicate Growing(h: History, file: Bytes, crc: Checksum, indexKvs: seq<Pair>, dataKvs: seq<Pair>,
                          lastKey: Bytes, pending: bool, pendingHandle: Bytes) {
    forall x {:trigger Asked(OfFile, x)} :: Asked(OfFile, x) ==>
      WrittenSoFar(h, file, crc, indexKvs) && Due(h, indexKvs, dataKvs, lastKey, pending, pendingHandle)
  }

  lemma GrowingIs(h: History, file: Bytes, crc: Checksum, indexKvs: seq<Pair>, dataKvs: seq<Pair>,
                  lastKey: Bytes, pending: bool, pendingHandle: Bytes)
    ensures Growing(h, file, crc, indexKvs, dataKvs, lastKey, pending, pendingHandle)
            <==> WrittenSoFar(h, file, crc, indexKvs) && Due(h, indexKvs, dataKvs, lastKey, pending, pendingHandle)
  {
    assert Asked(OfFile, 0);
  }

  /** While the data block holds pairs, no index entry is due. */
  lemma NotYetWritten(h: History, file: Bytes, crc: Checksum, indexKvs: seq<Pair>, dataKvs: seq<Pair>, lastKey: Bytes, pending: bool, handle: Bytes)
    requires Growing(h, file, crc, indexKvs, dataKvs, lastKey, pending, handle)
    ensures pending ==> dataKvs == []
    ensures |h.bounds| == |h.offsets| + 1 && BoundsOk(h.bounds, |h.kvs|) && (dataKvs != [] ==> h.bounds[|h.offsets|] < |h.kvs|)
  {
    assert Asked(OfRecord, 0);
    GrowingIs(h, file, crc, indexKvs, dataKvs, lastKey, pending, handle);
    assert Asked(OfPart, 0);
  }

  lemma EmptyTable(crc: Checksum, lastKey: Bytes)
    ensures Growing(NoHistory(), [], crc, [], [], lastKey, false, [])
  {
    assert Asked(OfRecord, 0);
  }

  /** `h2` has one pair more than `h`, and it comes in order. */
  ghost predicate OnePairMore(h: History, h2: History, kv: Pair) {
    forall x {:trigger Asked(OfRecord, x)} :: Asked(OfRecord, x) ==>
      KeyOk(kv.key) && h2 == h.(kvs := h.kvs + [kv], list := h.list + [EntryOf(kv)]) && Sorted(h2.list)
  }

  lemma PairComes(h: History, kv: Pair) returns (h2: History)
    requires KeyOk(kv.key) && Sorted(h.list + [EntryOf(kv)])
    ensures OnePairMore(h, h2, kv)
  {
    h2 := h.(kvs := h.kvs + [kv], list := h.list + [EntryOf(kv)]);
  }

  lemma OnePairMoreIs(h: History, h2: History, kv: Pair)
    requires OnePairMore(h, h2, kv)
    ensures h2.kvs == h.kvs + [kv] && h2.handles == h.handles && h2.bounds == h.bounds && h2.offsets == h.offsets
    ensures h2.blocks == h.blocks && h2.infos == h.infos
  {
    assert Asked(OfRecord, 0);
  }

  lemma EntryComes(h: History, h2: History, kv: Pair)
    requires OnePairMore(h, h2, kv)
    ensures h2.list == h.list + [EntryOf(kv)] && KeyOk(kv.key) && Sorted(h2.list)
  {
    assert Asked(OfRecord, 0);
  }

  lemma EntriesSnoc(kvs: seq<Pair>, kv: Pair)
    ensures EntriesOf(kvs + [kv]) == EntriesOf(kvs) + [EntryOf(kv)]
  {
  }

  lemma ListedGrows(h: History, h2: History, indexKvs: seq<Pair>, kv: Pair)
    requires Listed(h, indexKvs) && OnePairMore(h, h2, kv)
    ensures Listed(h2, indexKvs)
  {
    ListedIs(h, indexKvs);
    OnePairMoreIs(h, h2, kv);
    EntryComes(h, h2, kv);
    EntriesSnoc(h.kvs, kv);
    ListedIs(h2, indexKvs);
  }

  lemma PlacedGrows(h: History, h2: History, index: seq<Entry>, kv: Pair)
    requires Placed(h, index) && |h.bounds| == |h.handles| + 1 && |index| <= |h.handles| && OnePairMore(h, h2, kv)
    requires forall i {:trigger index[i]} :: 0 <= i < |index| ==> h.bounds[i + 1] < |h.list|
    ensures Placed(h2, index)
  {
    PlacedIs(h, index);
    OnePairMoreIs(h, h2, kv);
    EntryComes(h, h2, kv);
    ListGrows(h.list, EntryOf(kv), h.blocks, index, h.handles, h.bounds);
    PlacedIs(h2, index);
  }

  /** Without a pending index entry, a pair only goes to the data block. */
  lemma PairAdded(h: History, h2: History, file: Bytes, crc: Checksum, indexKvs: seq<Pair>, dataKvs: seq<Pair>, lastKey: Bytes,
                  handle: Bytes, kv: Pair)
    requires Growing(h, file, crc, indexKvs, dataKvs, lastKey, false, handle) && OnePairMore(h, h2, kv)
    ensures Growing(h2, file, crc, indexKvs, dataKvs + [kv], kv.key, false, handle)
  {
    GrowingIs(h, file, crc, indexKvs, dataKvs, lastKey, false, handle);
    WrittenWithPair(h, h2, file, crc, indexKvs, dataKvs, lastKey, handle, kv);
    DueAdded(h, h2, indexKvs, dataKvs, lastKey, handle, kv);
    GrowingIs(h2, file, crc, indexKvs, dataKvs + [kv], kv.key, false, handle);
  }

  lemma WrittenWithPair(h: History, h2: History, file: Bytes, crc: Checksum, indexKvs: seq<Pair>, dataKvs: seq<Pair>, lastKey: Bytes,
                        handle: Bytes, kv: Pair)
    requires WrittenSoFar(h, file, crc, indexKvs) && Due(h, indexKvs, dataKvs, lastKey, false, handle) && OnePairMore(h, h2, kv)
    ensures WrittenSoFar(h2, file, crc, indexKvs)
  {
    OnePairMoreIs(h, h2, kv);
    WrittenIs(h, file, crc, indexKvs);
    DueIs(h, indexKvs, dataKvs, lastKey, false, handle);
    ListedGrows(h, h2, indexKvs, kv);
    SameLength(h, indexKvs);
    NotPendingGrows(h, indexKvs, dataKvs, kv);
    PlacedGrows(h, h2, EntriesOf(indexKvs), kv);
    HandlesSame(h, h2, |file|);
    WrittenIs(h2, file, crc, indexKvs);
  }

  lemma DueAdded(h: History, h2: History, indexKvs: seq<Pair>, dataKvs: seq<Pair>, lastKey: Bytes, handle: Bytes, kv: Pair)
    requires Due(h, indexKvs, dataKvs, lastKey, false, handle) && OnePairMore(h, h2, kv)
    ensures Due(h2, indexKvs, dataKvs + [kv], kv.key, false, handle)
  {
    DueIs(h, indexKvs, dataKvs, lastKey, false, handle);
    OnePairMoreIs(h, h2, kv);
    assert h2.kvs[h.bounds[|h.handles|]..] == dataKvs + [kv];
  }

  lemma DueOut(h: History, h2: History, indexKvs: seq<Pair>, dataKvs: seq<Pair>, lastKey: Bytes, handle: Bytes, handle2: Bytes)
    requires Due(h, indexKvs, dataKvs, lastKey, false, handle) && dataKvs != []
    requires h2.kvs == h.kvs && h2.handles == h.handles + [handle2] && h2.bounds == h.bounds + [|h.kvs|]
    ensures Due(h2, indexKvs, [], lastKey, true, handle2)
  {
    assert Asked(OfRecord, 0);
  }

  lemma SameLength(h: History, indexKvs: seq<Pair>)
    requires Listed(h, indexKvs)
    ensures |h.list| == |h.kvs|
  {
    ListedIs(h, indexKvs);
  }

  lemma HandlesSame(h: History, h2: History, size: nat)
    requires HandlesIn(h, size) && h2.handles == h.handles && h2.offsets == h.offsets
    ensures HandlesIn(h2, size)
  {
  }

  /** Behind the last index key there is more in the list, or nothing at all. */
  lemma NotPendingGrows(h: History, indexKvs: seq<Pair>, dataKvs: seq<Pair>, kv: Pair)
    requires |h.bounds| == |h.handles| + 1 && BoundsOk(h.bounds, |h.kvs|) && |h.handles| == |indexKvs|
    requires dataKvs == h.kvs[h.bounds[|h.handles|]..] && (dataKvs == [] ==> h.kvs == [])
    ensures forall i {:trigger indexKvs[i]} :: 0 <= i < |indexKvs| ==> h.bounds[i + 1] < |h.kvs|
    ensures forall i {:trigger EntriesOf(indexKvs)[i]} :: 0 <= i < |indexKvs| ==> h.bounds[i + 1] < |h.kvs|
    ensures (h.kvs + [kv])[h.bounds[|h.handles|]..] == dataKvs + [kv]
  {
    forall i {:trigger indexKvs[i]} | 0 <= i < |indexKvs|
      ensures h.bounds[i + 1] < |h.kvs|
    {
      if i + 1 < |h.handles| {
        assert h.bounds[i + 1] < h.bounds[|h.handles|];
      } else {
        assert h.bounds[0] < h.bounds[|h.handles|];
      }
    }
  }

  /** A separator as an index entry of the written block. */
  lemma SeparatorEntry(h: History, lastKey: Bytes, sep: Bytes, handle: Bytes)
    requires KeysOk(h.kvs) && h.list == EntriesOf(h.kvs) && h.kvs != [] && lastKey == h.kvs[|h.kvs| - 1].key && Follows(lastKey, sep)
    ensures var e := EntryOf(Pair(sep, handle)); e.value == handle && (SameAsLast(e, h.list) || h.list[|h.list| - 1].key < e.key)
    ensures sep == lastKey ==> SameAsLast(EntryOf(Pair(sep, handle)), h.list)
  {
    EntryTag(Pair(sep, handle));
    EntryTag(h.kvs[|h.kvs| - 1]);
  }

  /** `sep` can stand between `last` and `next`. */
  ghost predicate Between(last: Bytes, sep: Bytes, next: Bytes) {
    forall x {:trigger Asked(OfRecord, x)} :: Asked(OfRecord, x) ==>
      Follows(last, sep) && (sep == last || Rank(UserPart(sep)) < Rank(UserPart(next)))
  }

  lemma BetweenIs(last: Bytes, sep: Bytes, next: Bytes)
    ensures Between(last, sep, next) <==> Follows(last, sep) && (sep == last || Rank(UserPart(sep)) < Rank(UserPart(next)))
  {
    assert Asked(OfRecord, 0);
  }

  /** The due index entry is made with a key before the new one. */
  lemma PairAddedWithIndex(h: History, h2: History, file: Bytes, crc: Checksum, indexKvs: seq<Pair>, lastKey: Bytes, handle: Bytes,
                           kv: Pair, sep: Bytes)
    requires Growing(h, file, crc, indexKvs, [], lastKey, true, handle) && OnePairMore(h, h2, kv) && Between(lastKey, sep, kv.key)
    ensures Growing(h2, file, crc, indexKvs + [Pair(sep, handle)], [kv], kv.key, false, handle)
  {
    GrowingIs(h, file, crc, indexKvs, [], lastKey, true, handle);
    WrittenWithIndex(h, h2, file, crc, indexKvs, lastKey, handle, kv, sep);
    DueWithIndex(h, h2, indexKvs, lastKey, handle, kv, Pair(sep, handle));
    GrowingIs(h2, file, crc, indexKvs + [Pair(sep, handle)], [kv], kv.key, false, handle);
  }

  lemma DueWithIndex(h: History, h2: History, indexKvs: seq<Pair>, lastKey: Bytes, handle: Bytes, kv: Pair, entry: Pair)
    requires Due(h, indexKvs, [], lastKey, true, handle) && OnePairMore(h, h2, kv)
    ensures Due(h2, indexKvs + [entry], [kv], kv.key, false, handle)
  {
    DueIs(h, indexKvs, [], lastKey, true, handle);
    OnePairMoreIs(h, h2, kv);
    PendingIsWritten(h, indexKvs, kv);
  }

  lemma WrittenWithIndex(h: History, h2: History, file: Bytes, crc: Checksum, indexKvs: seq<Pair>, lastKey: Bytes, handle: Bytes,
                         kv: Pair, sep: Bytes)
    requires WrittenSoFar(h, file, crc, indexKvs) && Due(h, indexKvs, [], lastKey, true, handle) && OnePairMore(h, h2, kv)
    requires Between(lastKey, sep, kv.key)
    ensures WrittenSoFar(h2, file, crc, indexKvs + [Pair(sep, handle)])
  {
    OnePairMoreIs(h, h2, kv);
    WrittenIs(h, file, crc, indexKvs);
    DueIs(h, indexKvs, [], lastKey, true, handle);
    PendingIsWritten(h, indexKvs, kv);
    ListedGrows(h, h2, indexKvs, kv);
    SeparatorListed(h2, indexKvs, lastKey, sep, kv.key, handle);
    SameLength(h, indexKvs);
    PlacedWithIndex(h, h2, indexKvs, lastKey, handle, kv, sep);
    HandlesSame(h, h2, |file|);
    WrittenIs(h2, file, crc, indexKvs + [Pair(sep, handle)]);
  }

  lemma SeparatorListed(h: History, indexKvs: seq<Pair>, lastKey: Bytes, sep: Bytes, next: Bytes, handle: Bytes)
    requires Listed(h, indexKvs) && Between(lastKey, sep, next)
    ensures Listed(h, indexKvs + [Pair(sep, handle)])
  {
    BetweenIs(lastKey, sep, next);
    IndexListed(h, indexKvs, Pair(sep, handle));
  }

  lemma IndexListed(h: History, indexKvs: seq<Pair>, kv: Pair)
    requires Listed(h, indexKvs) && KeyOk(kv.key)
    ensures Listed(h, indexKvs + [kv])
  {
    ListedIs(h, indexKvs);
    ListedIs(h, indexKvs + [kv]);
  }

  lemma PlacedWithIndex(h: History, h2: History, indexKvs: seq<Pair>, lastKey: Bytes, handle: Bytes, kv: Pair, sep: Bytes)
    requires Listed(h, indexKvs) && Placed(h, EntriesOf(indexKvs)) && h.kvs != [] && lastKey == h.kvs[|h.kvs| - 1].key
    requires |h.bounds| == |h.handles| + 1 && |h.handles| == |indexKvs| + 1 && h.bounds[|h.handles|] == |h.kvs| == |h.list|
    requires handle == h.handles[|indexKvs|] && OnePairMore(h, h2, kv) && Between(lastKey, sep, kv.key)
    ensures Placed(h2, EntriesOf(indexKvs + [Pair(sep, handle)]))
  {
    BetweenIs(lastKey, sep, kv.key);
    EntryComes(h, h2, kv);
    OnePairMoreIs(h, h2, kv);
    var e, limit := EntryOf(Pair(sep, handle)), EntryOf(kv);
    SeparatorPlaced(h, indexKvs, lastKey, sep, handle, e);
    EntriesSnoc(indexKvs, Pair(sep, handle));
    assert sep != lastKey ==> e.key < limit.key;
    PlacedEntry(h, h2, EntriesOf(indexKvs), e, limit);
  }

  lemma SeparatorPlaced(h: History, indexKvs: seq<Pair>, lastKey: Bytes, sep: Bytes, handle: Bytes, e: Entry)
    requires Listed(h, indexKvs) && h.kvs != [] && lastKey == h.kvs[|h.kvs| - 1].key && Follows(lastKey, sep) && e == EntryOf(Pair(sep, handle))
    ensures e.value == handle && h.list != [] && (SameAsLast(e, h.list) || (sep != lastKey && h.list[|h.list| - 1].key < e.key))
  {
    ListedIs(h, indexKvs);
    SeparatorEntry(h, lastKey, sep, handle);
  }

  lemma PlacedEntry(h: History, h2: History, index: seq<Entry>, sep: Entry, e: Entry)
    requires Placed(h, index) && |h.bounds| == |h.handles| + 1 && |h.handles| == |index| + 1 && h.bounds[|h.handles|] == |h.list|
    requires sep.value == h.handles[|index|] && (SameAsLast(sep, h.list) || (h.list != [] && h.list[|h.list| - 1].key < sep.key < e.key))
    requires h2.list == h.list + [e] && h2.blocks == h.blocks && h2.handles == h.handles && h2.bounds == h.bounds
    ensures Placed(h2, index + [sep])
  {
    PlacedIs(h, index);
    EntryIndexed(h.list, e, h.blocks, index, h.handles, h.bounds, sep);
    PlacedIs(h2, index + [sep]);
  }

  lemma PlacedLastEntry(h: History, index: seq<Entry>, sep: Entry)
    requires Placed(h, index) && |h.bounds| == |h.handles| + 1 && |h.handles| == |index| + 1 && h.bounds[|h.handles|] == |h.list|
    requires sep.value == h.handles[|index|] && (SameAsLast(sep, h.list) || (h.list != [] && h.list[|h.list| - 1].key < sep.key))
    ensures Placed(h, index + [sep])
  {
    PlacedIs(h, index);
    LastIndexed(h.list, index, h.handles, h.bounds, sep);
    PlacedIs(h, index + [sep]);
  }

  lemma PendingIsWritten(h: History, indexKvs: seq<Pair>, kv: Pair)
    requires |h.bounds| == |h.handles| + 1 && BoundsOk(h.bounds, |h.kvs|) && |h.handles| == |indexKvs| + 1
    requires h.kvs[h.bounds[|h.handles|]..] == []
    ensures h.bounds[|h.handles|] == |h.kvs| && h.kvs != [] && (h.kvs + [kv])[h.bounds[|h.handles|]..] == [kv]
  {
    assert h.bounds[0] < h.bounds[|h.handles|];
    assert |h.kvs[h.bounds[|h.handles|]..]| == 0;
  }

  function BlockBytes(crc: Checksum, raw: Bytes): Bytes {
    raw + TableFormat.Trailer(crc, raw)
  }

  function Out(h: History, file: Bytes, dataKvs: seq<Pair>, info: BlockInfo): History {
    var handle := EncodeHandle(|file|, |info.raw|);
    History(h.kvs, h.list, h.blocks[handle := EntriesOf(dataKvs)], h.infos[handle := info],
            h.handles + [handle], h.offsets + [|file|], h.bounds + [|h.kvs|])
  }

  /** What was in the file stays readable, and so is a block appended. */
  lemma BackedGrows(file: Bytes, more: Bytes, crc: Checksum, blocks: BlockFunction, infos: map<Bytes, BlockInfo>)
    requires Backed(file, crc, blocks, infos)
    ensures Backed(file + more, crc, blocks, infos)
  {
    assert Asked(OfPart, 0);
    forall h | h in blocks
      ensures BackedAt(file + more, crc, blocks, infos, h)
    {
      assert BackedAt(file, crc, blocks, infos, h);
      StaysStored(file, more, crc, h, infos[h].raw);
    }
  }

  lemma NewBacked(file: Bytes, crc: Checksum, blocks: BlockFunction, infos: map<Bytes, BlockInfo>, h: Bytes, kvs: seq<Pair>, info: BlockInfo)
    requires Backed(file, crc, blocks, infos) && StoredAt(file, crc, h, info.raw) && InfoOk(info, kvs) && KeysOk(kvs)
    ensures Backed(file, crc, blocks[h := EntriesOf(kvs)], infos[h := info])
  {
    assert Asked(OfPart, 0);
    var b2, i2 := blocks[h := EntriesOf(kvs)], infos[h := info];
    forall g | g in b2
      ensures BackedAt(file, crc, b2, i2, g)
    {
      if g != h {
        assert BackedAt(file, crc, blocks, infos, g);
      }
    }
  }

  lemma HandlesKept(h: History, a: nat, b: nat)
    requires HandlesIn(h, a) && a <= b
    ensures HandlesIn(h, b)
  {
    assert Asked(OfPart, 0);
  }

  /** `h2` has one block more than `h`, written at `size`. */
  ghost predicate OneBlockMore(h: History, h2: History, size: nat) {
    forall x {:trigger Asked(OfRecord, x)} :: Asked(OfRecord, x) ==>
      h2.kvs == h.kvs && h2.list == h.list && h2.offsets == h.offsets + [size] && h2.bounds == h.bounds + [|h.kvs|]
  }

  lemma OneBlockMoreIs(h: History, h2: History, size: nat)
    requires OneBlockMore(h, h2, size)
    ensures h2.kvs == h.kvs && h2.list == h.list && h2.offsets == h.offsets + [size] && h2.bounds == h.bounds + [|h.kvs|]
  {
    assert Asked(OfRecord, 0);
  }

  /** A block of these pairs was put at the end of a file, under the handle. */
  ghost predicate Appended(before: Bytes, after: Bytes, crc: Checksum, handle: Bytes, info: BlockInfo, kvs: seq<Pair>) {
    forall x {:trigger Asked(OfFile, x)} :: Asked(OfFile, x) ==>
      && |before| < TWO_TO_THE_64 && |info.raw| < TWO_TO_THE_64 && IsHandle(handle) && handle == EncodeHandle(|before|, |info.raw|)
      && after == before + BlockBytes(crc, info.raw) && InfoOk(info, kvs)
  }

  lemma AppendedIs(before: Bytes, after: Bytes, crc: Checksum, handle: Bytes, info: BlockInfo, kvs: seq<Pair>)
    ensures Appended(before, after, crc, handle, info, kvs)
            <==> |before| < TWO_TO_THE_64 && |info.raw| < TWO_TO_THE_64 && IsHandle(handle) && handle == EncodeHandle(|before|, |info.raw|)
                 && after == before + BlockBytes(crc, info.raw) && InfoOk(info, kvs)
  {
    assert Asked(OfFile, 0);
  }

  /** The data block goes to the end of the file. */
  lemma BlockOut(h: History, file: Bytes, file2: Bytes, crc: Checksum, indexKvs: seq<Pair>, dataKvs: seq<Pair>, lastKey: Bytes, handle: Bytes,
                 info: BlockInfo, handle2: Bytes) returns (h2: History)
    requires Growing(h, file, crc, indexKvs, dataKvs, lastKey, false, handle) && dataKvs != []
    requires Appended(file, file2, crc, handle2, info, dataKvs)
    ensures OneBlockMore(h, h2, |file|) && Growing(h2, file2, crc, indexKvs, [], lastKey, true, handle2) && |file| <= |file2|
  {
    assert Asked(OfRecord, 0);
    AppendedIs(file, file2, crc, handle2, info, dataKvs);
    GrowingIs(h, file, crc, indexKvs, dataKvs, lastKey, false, handle);
    TailOk(h, indexKvs, dataKvs);
    h2 := Out(h, file, dataKvs, info);
    OutWritten(h, file, crc, indexKvs, dataKvs, info);
    DueOut(h, h2, indexKvs, dataKvs, lastKey, handle, handle2);
    GrowingIs(h2, file2, crc, indexKvs, [], lastKey, true, handle2);
  }

  lemma OutWritten(h: History, file: Bytes, crc: Checksum, indexKvs: seq<Pair>, dataKvs: seq<Pair>, info: BlockInfo)
    requires WrittenSoFar(h, file, crc, indexKvs) && |h.bounds| == |h.handles| + 1 && h.bounds[|h.handles|] < |h.list| == |h.kvs|
    requires EntriesOf(dataKvs) == h.list[h.bounds[|h.handles|]..] && KeysOk(dataKvs)
    requires InfoOk(info, dataKvs) && |file| < TWO_TO_THE_64 && |info.raw| < TWO_TO_THE_64
    ensures WrittenSoFar(Out(h, file, dataKvs, info), file + BlockBytes(crc, info.raw), crc, indexKvs)
  {
    assert Asked(OfRecord, 0);
    var handle2, file2, h2 := EncodeHandle(|file|, |info.raw|), file + BlockBytes(crc, info.raw), Out(h, file, dataKvs, info);
    NewlyStored(file, crc, info.raw);
    BackedGrows(file, BlockBytes(crc, info.raw), crc, h.blocks, h.infos);
    NewBacked(file2, crc, h.blocks, h.infos, handle2, dataKvs, info);
    OutHandled(h, h2, file, |file2|, handle2);
    OutPlaced(h, h2, EntriesOf(indexKvs), dataKvs, handle2);
    OutListed(h, h2, indexKvs);
  }

  lemma OutListed(h: History, h2: History, indexKvs: seq<Pair>)
    requires Listed(h, indexKvs) && h2.kvs == h.kvs && h2.list == h.list
    ensures Listed(h2, indexKvs)
  {
  }

  lemma OutHandled(h: History, h2: History, file: Bytes, size: nat, handle: Bytes)
    requires HandlesIn(h, |file|) && HandleRange(handle).Some? && HandleRange(handle).value.0 == |file| < size
    requires h2.handles == h.handles + [handle] && h2.offsets == h.offsets + [|file|]
    ensures HandlesIn(h2, size) && handle !in h.handles
  {
    assert Asked(OfPart, 0);
    NewHandle(h.handles, h.offsets, |file|, handle, size);
  }

  lemma OutPlaced(h: History, h2: History, index: seq<Entry>, dataKvs: seq<Pair>, handle: Bytes)
    requires Placed(h, index) && |h.bounds| == |h.handles| + 1 && h.bounds[|h.handles|] < |h.list| && handle !in h.handles
    requires EntriesOf(dataKvs) == h.list[h.bounds[|h.handles|]..] && |h.list| == |h.kvs|
    requires h2.list == h.list && h2.blocks == h.blocks[handle := EntriesOf(dataKvs)] && h2.handles == h.handles + [handle]
    requires h2.bounds == h.bounds + [|h.kvs|]
    ensures Placed(h2, index)
  {
    PlacedIs(h, index);
    BlockWritten(h.list, h.blocks, index, h.handles, h.bounds, handle);
    PlacedIs(h2, index);
  }

  lemma TailOk(h: History, indexKvs: seq<Pair>, dataKvs: seq<Pair>)
    requires Listed(h, indexKvs) && |h.bounds| == |h.handles| + 1 && BoundsOk(h.bounds, |h.kvs|)
    requires dataKvs == h.kvs[h.bounds[|h.handles|]..]
    ensures |h.list| == |h.kvs| && KeysOk(dataKvs) && EntriesOf(dataKvs) == h.list[h.bounds[|h.handles|]..]
    ensures dataKvs != [] ==> h.bounds[|h.handles|] < |h.list|
  {
    ListedIs(h, indexKvs);
  }

  /** Every entry is in a block of the file, and every block in the index. */
  ghost predicate Complete(h: History, file: Bytes, crc: Checksum, indexKvs: seq<Pair>) {
    forall x {:trigger Asked(OfFile, x)} :: Asked(OfFile, x) ==>
      WrittenSoFar(h, file, crc, indexKvs) && |h.bounds| == |h.handles| + 1 && |h.handles| == |indexKvs| && h.bounds[|h.handles|] == |h.kvs|
  }

  lemma CompleteIs(h: History, file: Bytes, crc: Checksum, indexKvs: seq<Pair>)
    ensures Complete(h, file, crc, indexKvs)
            <==> WrittenSoFar(h, file, crc, indexKvs) && |h.bounds| == |h.handles| + 1 && |h.handles| == |indexKvs|
                 && h.bounds[|h.handles|] == |h.kvs|
  {
    assert Asked(OfFile, 0);
  }

  /** At the end the last index entry needs no next key. */
  lemma LastIndexEntry(h: History, file: Bytes, crc: Checksum, indexKvs: seq<Pair>, lastKey: Bytes, handle: Bytes, sep: Bytes)
    requires Growing(h, file, crc, indexKvs, [], lastKey, true, handle) && Follows(lastKey, sep)
    ensures Complete(h, file, crc, indexKvs + [Pair(sep, handle)])
  {
    assert Asked(OfRecord, 0);
    GrowingIs(h, file, crc, indexKvs, [], lastKey, true, handle);
    PendingIsWritten(h, indexKvs, Pair([], []));
    IndexListed(h, indexKvs, Pair(sep, handle));
    SameLength(h, indexKvs);
    LastPlaced(h, indexKvs, lastKey, handle, sep);
    CompleteIs(h, file, crc, indexKvs + [Pair(sep, handle)]);
  }

  lemma LastPlaced(h: History, indexKvs: seq<Pair>, lastKey: Bytes, handle: Bytes, sep: Bytes)
    requires Listed(h, indexKvs) && Placed(h, EntriesOf(indexKvs)) && h.kvs != [] && lastKey == h.kvs[|h.kvs| - 1].key
    requires |h.bounds| == |h.handles| + 1 && |h.handles| == |indexKvs| + 1 && h.bounds[|h.handles|] == |h.kvs| == |h.list|
    requires handle == h.handles[|indexKvs|] && Follows(lastKey, sep)
    ensures Placed(h, EntriesOf(indexKvs + [Pair(sep, handle)]))
  {
    var e := EntryOf(Pair(sep, handle));
    SeparatorPlaced(h, indexKvs, lastKey, sep, handle, e);
    EntriesSnoc(indexKvs, Pair(sep, handle));
    PlacedLastEntry(h, EntriesOf(indexKvs), e);
  }

  lemma NothingAdded(h: History, file: Bytes, crc: Checksum, indexKvs: seq<Pair>, lastKey: Bytes, handle: Bytes)
    requires Growing(h, file, crc, indexKvs, [], lastKey, false, handle)
    ensures Complete(h, file, crc, indexKvs)
  {
    assert Asked(OfRecord, 0);
    GrowingIs(h, file, crc, indexKvs, [], lastKey, false, handle);
    CompleteIs(h, file, crc, indexKvs);
  }

  /** What follows in the file does not disturb what is written. */
  lemma StaysWritten(h: History, before: Bytes, after: Bytes, crc: Checksum, indexKvs: seq<Pair>)
    requires before <= after && WrittenSoFar(h, before, crc, indexKvs)
    ensures WrittenSoFar(h, after, crc, indexKvs)
  {
    WrittenIs(h, before, crc, indexKvs);
    assert after == before + after[|before|..];
    BackedGrows(before, after[|before|..], crc, h.blocks, h.infos);
    HandlesKept(h, |before|, |after|);
    WrittenIs(h, after, crc, indexKvs);
  }

  lemma StaysGrowing(h: History, before: Bytes, after: Bytes, crc: Checksum, indexKvs: seq<Pair>, dataKvs: seq<Pair>, lastKey: Bytes,
                     pending: bool, handle: Bytes)
    requires before <= after && Growing(h, before, crc, indexKvs, dataKvs, lastKey, pending, handle)
    ensures Growing(h, after, crc, indexKvs, dataKvs, lastKey, pending, handle)
  {
    GrowingIs(h, before, crc, indexKvs, dataKvs, lastKey, pending, handle);
    StaysWritten(h, before, after, crc, indexKvs);
    GrowingIs(h, after, crc, indexKvs, dataKvs, lastKey, pending, handle);
  }

  lemma StaysComplete(h: History, before: Bytes, after: Bytes, crc: Checksum, indexKvs: seq<Pair>)
    requires before <= after && Complete(h, before, crc, indexKvs)
    ensures Complete(h, after, crc, indexKvs)
  {
    CompleteIs(h, before, crc, indexKvs);
    StaysWritten(h, before, after, crc, indexKvs);
    CompleteIs(h, after, crc, indexKvs);
  }

  /** A complete table is one in the sense of the two-level cursor. */
  lemma CompleteIsTable(h: History, file: Bytes, crc: Checksum, indexKvs: seq<Pair>)
    requires Complete(h, file, crc, indexKvs)
    ensures IsTable(EntriesOf(indexKvs), h.blocks, h.list) && Backed(file, crc, h.blocks, h.infos) && KeysOk(indexKvs)
  {
    assert Asked(OfRecord, 0);
    CompleteIs(h, file, crc, indexKvs);
    ListedIs(h, indexKvs);
    PlacedIs(h, EntriesOf(indexKvs));
    IndexedIsTable(h.list, h.blocks, EntriesOf(indexKvs), h.handles, h.bounds);
  }
}
