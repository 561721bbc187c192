/** A cursor over a table: an index block leads to data blocks, which are read from the
    file when the index comes to them. */
module TwoLevelIterators {
  import opened Keys
  import opened Entries
  import opened Coding
  import opened Cursors
  import opened TableFormat
  import opened BlockFormat
  import opened BlockIters
  import opened InternalKeys
  import opened BlockCursors

  /** The entries in the block behind each handle. */
  type BlockFunction = map<Bytes, seq<Entry>>

  function Block(index: seq<Entry>, blocks: BlockFunction, i: nat): seq<Entry>
    requires i < |index| && index[i].value in blocks
  {
    blocks[index[i].value]
  }

  ghost predicate Opens(index: seq<Entry>, blocks: BlockFunction) {
    forall i :: 0 <= i < |index| ==> index[i].value in blocks
  }

  /** The number of entries in the blocks before block `i`. */
  function Start(index: seq<Entry>, blocks: BlockFunction, i: nat): nat
    requires Opens(index, blocks) && i <= |index|
  {
    if i == 0 then 0 else Start(index, blocks, i - 1) + |Block(index, blocks, i - 1)|
  }

  /** `list` is cut into the index's blocks, and every separator is at or after its
      own block and before the next ones. */
  ghost predicate IsTable(index: seq<Entry>, blocks: BlockFunction, list: seq<Entry>) {
    && Sorted(list) && Sorted(index) && Opens(index, blocks)
    && Start(index, blocks, |index|) == |list|
    && (forall i :: 0 <= i < |index| ==> Holds(index, blocks, list, i))
    && (forall i, p :: 0 <= i < |index| && Start(index, blocks, i + 1) <= p < |list| ==> Before(index[i], list[p]))
    && (forall i, p :: 0 <= i < |index| && 0 <= p < |list| && p < Start(index, blocks, i + 1) ==> !Before(index[i], list[p]))
  }

  ghost predicate Holds(index: seq<Entry>, blocks: BlockFunction, list: seq<Entry>, i: nat)
    requires Opens(index, blocks) && i < |index|
  {
    && Start(index, blocks, i) <= Start(index, blocks, i + 1) <= |list|
    && Block(index, blocks, i) == list[Start(index, blocks, i)..Start(index, blocks, i + 1)]
  }

  lemma SliceSorted(list: seq<Entry>, a: nat, b: nat)
    requires Sorted(list) && a <= b <= |list|
    ensures Sorted(list[a..b])
  {
  }

  // ---- Blocks in a file ----

  /** A block's bytes, and how they are laid out. */
  datatype BlockInfo = BlockInfo(raw: Bytes, layout: Layout)

  /** The bytes are a block of these pairs. */
  ghost predicate InfoOk(info: BlockInfo, kvs: seq<Pair>) {
    forall x {:trigger Asked(OfPart, x)} :: Asked(OfPart, x) ==> IsBlock(info.raw, info.layout) && info.layout.kvs == kvs
  }

  /** The handle's block is in the file and says the entries. */
  ghost predicate BackedAt(file: Bytes, crc: Checksum, blocks: BlockFunction, infos: map<Bytes, BlockInfo>, h: Bytes)
    requires h in blocks
  {
    && h in infos && StoredAt(file, crc, h, infos[h].raw) && IsBlock(infos[h].raw, infos[h].layout)
    && KeysOk(infos[h].layout.kvs) && blocks[h] == EntriesOf(infos[h].layout.kvs)
  }

  ghost predicate Backed(file: Bytes, crc: Checksum, blocks: BlockFunction, infos: map<Bytes, BlockInfo>) {
    forall x, h {:trigger Asked(OfPart, x), BackedAt(file, crc, blocks, infos, h)} :: Asked(OfPart, x) && h in blocks ==> BackedAt(file, crc, blocks, infos, h)
  }

  /** A cursor over the block behind a handle; null stands for an error or an empty one. */
  method BlockReader(file: Bytes, crc: Checksum, verifyChecksums: bool, handle: Bytes,
                     ghost blocks: BlockFunction, ghost infos: map<Bytes, BlockInfo>) returns (iter: BlockIter?)
    requires Backed(file, crc, blocks, infos)
    ensures iter != null ==> fresh(iter)
    ensures handle in blocks && Sorted(blocks[handle]) ==> iter != null && Walks(iter, blocks[handle]) && !iter.Valid()
  {
    ghost var known := handle in blocks;
    if known {
      assert Asked(OfPart, 0);
      assert BackedAt(file, crc, blocks, infos, handle);
    }
    iter := null;
    var range := DecodeHandle(handle, 0);
    if range == None {
      return;
    }
    var raw := ReadBlock(file, crc, verifyChecksums, range.value.0, range.value.1);
    if raw == None {
      return;
    }
    var block := OpenBlock(INTERNAL, raw.value, if known then Some(infos[handle].layout) else None);
    if block.Open? {
      iter := block.iter;
      if known && Sorted(blocks[handle]) {
        iter.PositionInRange();
        WalksIs(iter, blocks[handle]);
      }
    }
  }

  class TwoLevelIterator {
    const file: Bytes
    const crc: Checksum
    const verifyChecksums: bool
    const index: BlockIter
    ghost const keys: seq<Entry>       // the index, key by key
    ghost const blocks: BlockFunction
    ghost const infos: map<Bytes, BlockInfo>
    ghost const list: seq<Entry>
    var data: BlockIter?
    var dataHandle: Bytes

    ghost function Repr(): set<object>
      reads this
    {
      {this, index} + if data == null then {} else {data}
    }

    /** The open block is the one the index stands at. */
    ghost predicate Shape()
      reads this, index, data
    {
      && Walks(index, keys) && IsTable(keys, blocks, list) && Backed(file, crc, blocks, infos)
      && (data != null ==> data != index && dataHandle in blocks && Walks(data, blocks[dataHandle]))
    }

    ghost predicate Ok()
      reads this, index, data
    {
      && Shape()
      && (data != null <==> index.Valid())
      && (data != null ==> dataHandle == keys[index.pos].value)
    }

    /** Where the cursor stands: the entries of earlier blocks plus those passed in this one. */
    ghost function Frontier(): nat
      requires Ok()
      reads this, index, data
    {
      Start(keys, blocks, index.pos) + if data == null then 0 else data.pos
    }

    /** The cursor's position in the whole list. */
    ghost function Pos(): nat
      requires Ok()
      reads this, index, data
    {
      if Valid() then Frontier() else |list|
    }

    constructor (file: Bytes, crc: Checksum, verifyChecksums: bool, index: BlockIter, ghost keys: seq<Entry>,
                 ghost blocks: BlockFunction, ghost infos: map<Bytes, BlockInfo>, ghost list: seq<Entry>)
      requires Walks(index, keys) && !index.Valid() && IsTable(keys, blocks, list) && Backed(file, crc, blocks, infos)
      ensures Ok() && !Valid() && this.index == index && this.list == list
    {
      this.file, this.crc, this.verifyChecksums, this.index := file, crc, verifyChecksums, index;
      this.keys, this.blocks, this.infos, this.list := keys, blocks, infos, list;
      data := null;
      dataHandle := [];
    }

    predicate Valid()
      reads this, data
    {
      data != null && data.Valid()
    }

    method Current() returns (kv: Pair)
      requires Ok() && Valid()
      ensures Frontier() < |list| && EntryOf(kv) == list[Frontier()] && KeyOk(kv.key)
    {
      kv := Shown(data, blocks[dataHandle]);
      InBlock(data.pos);
    }

    /** A position in the open block is one in the list. */
    lemma InBlock(p: nat)
      requires Shape() && index.Valid() && dataHandle == keys[index.pos].value && dataHandle in blocks && p < |blocks[dataHandle]|
      ensures Start(keys, blocks, index.pos) + p < |list| && list[Start(keys, blocks, index.pos) + p] == blocks[dataHandle][p]
    {
      assert Holds(keys, blocks, list, index.pos);
    }

    /** The block the index stands at. */
    lemma IndexedBlock()
      requires Shape() && index.Valid()
      ensures keys[index.pos].value in blocks && Sorted(blocks[keys[index.pos].value])
    {
      assert Holds(keys, blocks, list, index.pos);
      SliceSorted(list, Start(keys, blocks, index.pos), Start(keys, blocks, index.pos + 1));
    }

    method InitDataBlock()
      requires Shape()
      modifies this
      ensures Ok() && (data == old(data) || data == null || fresh(data))
    {
      if !index.Valid() {
        data := null;
      } else {
        var entry := Shown(index, keys);
        var handle := entry.value;
        if data != null && handle == dataHandle {
          // data is already open on this block
        } else {
          IndexedBlock();
          data := BlockReader(file, crc, verifyChecksums, handle, blocks, infos);
          dataHandle := handle;
        }
      }
    }

    method SkipEmptyDataBlocksForward()
      requires Ok()
      modifies Repr()
      ensures Ok() && fresh(Repr() - old(Repr()))
      ensures Pos() == old(Frontier())
    {
      while data == null || !data.Valid()
        invariant Ok() && fresh(Repr() - old(Repr()))
        invariant Frontier() == old(Frontier())
        decreases |keys| - index.pos
      {
        if !index.Valid() {
          data := null;
          return;
        }
        OpenNextBlock();
      }
    }

    /** To the start of the next block, if there is one. */
    method OpenNextBlock()
      requires Ok() && !Valid() && index.Valid()
      modifies Repr()
      ensures Ok() && fresh(Repr() - old(Repr()))
      ensures Frontier() == old(Frontier()) && index.pos == old(index.pos) + 1
    {
      assert Holds(keys, blocks, list, index.pos);
      NextInBlock(index, keys);
      InitDataBlock();
      if data != null { FirstOfBlock(data, blocks[dataHandle]); }
    }

    /** The position a backward scan is heading for: the current one, or the one
        just before this block when the block gives none. */
    ghost function Backstop(): nat
      requires Ok()
      reads this, index, data
    {
      if Valid() then Frontier() else PrevPos(Start(keys, blocks, if index.Valid() then index.pos else 0), |list|)
    }

    method SkipEmptyDataBlocksBackward()
      requires Ok()
      modifies Repr()
      ensures Ok() && fresh(Repr() - old(Repr()))
      ensures Pos() == old(Backstop())
    {
      while data == null || !data.Valid()
        invariant Ok() && fresh(Repr() - old(Repr()))
        invariant Backstop() == old(Backstop())
        decreases if index.Valid() then index.pos + 1 else 0
      {
        if !index.Valid() {
          data := null;
          return;
        }
        OpenPrevBlock();
      }
    }

    /** To the end of the block before, if there is one. */
    method OpenPrevBlock()
      requires Ok() && !Valid() && index.Valid()
      modifies Repr()
      ensures Ok() && fresh(Repr() - old(Repr()))
      ensures Backstop() == old(Backstop())
      ensures index.Valid() ==> index.pos < old(index.pos)
    {
      PrevInBlock(index, keys);
      InitDataBlock();
      if data != null {
        assert Holds(keys, blocks, list, index.pos);
        LastOfBlock(data, blocks[dataHandle]);
      }
    }

    method SeekToFirst()
      requires Ok()
      modifies Repr()
      ensures Ok() && fresh(Repr() - old(Repr()))
      ensures Pos() == 0
    {
      FirstOfBlock(index, keys);
      InitDataBlock();
      if data != null { FirstOfBlock(data, blocks[dataHandle]); }
      SkipEmptyDataBlocksForward();
    }

    method SeekToLast()
      requires Ok()
      modifies Repr()
      ensures Ok() && fresh(Repr() - old(Repr()))
      ensures Pos() == LastPos(|list|)
    {
      LastOfBlock(index, keys);
      InitDataBlock();
      if data != null {
        assert Holds(keys, blocks, list, index.pos);
        LastOfBlock(data, blocks[dataHandle]);
      }
      SkipEmptyDataBlocksBackward();
    }

    method Next()
      requires Ok() && Valid()
      modifies Repr()
      ensures Ok() && fresh(Repr() - old(Repr()))
      ensures Pos() == old(Pos()) + 1
    {
      NextInBlock(data, blocks[dataHandle]);
      SkipEmptyDataBlocksForward();
    }

    method Prev()
      requires Ok() && Valid()
      modifies Repr()
      ensures Ok() && fresh(Repr() - old(Repr()))
      ensures Pos() == PrevPos(old(Pos()), |list|)
    {
      assert Holds(keys, blocks, list, index.pos);
      PrevInBlock(data, blocks[dataHandle]);
      SkipEmptyDataBlocksBackward();
    }

    method Seek(target: Bytes)
      requires Ok() && KeyOk(target)
      modifies Repr()
      ensures Ok() && fresh(Repr() - old(Repr()))
      ensures IsLowerBound(list, EntryOf(Pair(target, [])), Pos())
    {
      SeekBlock(index, target, keys);
      InitDataBlock();
      if data != null { SeekBlock(data, target, blocks[dataHandle]); }
      SeekLands(EntryOf(Pair(target, [])));
      SkipEmptyDataBlocksForward();
    }

    /** The lower bound inside the indexed block is the lower bound of the whole list. */
    lemma SeekLands(target: Entry)
      requires Ok() && IsLowerBound(keys, target, index.pos)
      requires data != null ==> IsLowerBound(blocks[dataHandle], target, data.pos)
      ensures IsLowerBound(list, target, Frontier())
    {
      var i, p := index.pos, Frontier();
      if i < |keys| { assert Holds(keys, blocks, list, i); }
      forall q | 0 <= q < |list|
        ensures if q < p then Before(list[q], target) else !Before(list[q], target)
      {
        if q < Start(keys, blocks, i) {
          assert !Before(keys[i - 1], list[q]) && Before(keys[i - 1], target);
        } else if i < |keys| {
          if q < Start(keys, blocks, i + 1) {
            assert list[q] == blocks[dataHandle][q - Start(keys, blocks, i)];
          } else {
            assert Before(keys[i], list[q]) && !Before(keys[i], target);
          }
        }
      }
    }
  }
}
