/** Reading a table: one index lookup, one filter check, one block. Shortened index keys
    and filters never hide an entry. */
module Tables {
  import opened Keys
  import opened Coding
  import opened Entries
  import opened Cursors
  import opened BlockFormat
  import opened BlockIters
  import opened TableFormat
  import opened InternalKeys
  import opened BlockCursors
  import opened Blooms
  import opened FilterBlocks
  import opened TwoLevelIterators
  import opened TableLayouts
  import opened TableFiles

  // ---- What one lookup finds ----

  /** The list is cut into blocks, each of them indexed. */
  ghost predicate Whole(h: History, index: seq<Entry>) {
    && Sorted(h.list) && Flushed(h.list, h.blocks, h.handles, h.bounds) && Indexed(h.list, index, h.handles, h.bounds)
    && |index| == |h.handles| && h.bounds[|h.handles|] == |h.list|
  }

  /** The block an index entry leads to. */
  lemma BlockAt(h: History, index: seq<Entry>, i: nat)
    requires Whole(h, index) && i < |index|
    ensures index[i].value in h.blocks && h.bounds[i] < h.bounds[i + 1] <= |h.list|
    ensures h.blocks[index[i].value] == h.list[h.bounds[i]..h.bounds[i + 1]] && Sorted(h.blocks[index[i].value])
    ensures index[i].value == h.handles[i]
  {
    assert IndexedAt(h.list, index, h.handles, h.bounds, i) && BlockStored(h.list, h.blocks, h.handles, h.bounds, i);
    SliceSorted(h.list, h.bounds[i], h.bounds[i + 1]);
  }

  /** Position `p` is where a seek for `k` within block `i` lands. */
  ghost predicate FirstInBlock(h: History, k: Entry, i: nat, p: nat)
    requires i + 1 < |h.bounds|
  {
    && h.bounds[i] <= p <= h.bounds[i + 1] <= |h.list|
    && (forall q :: h.bounds[i] <= q < p ==> Before(h.list[q], k)) && (p < h.bounds[i + 1] ==> !Before(h.list[p], k))
  }

  lemma SoughtInBlock(h: History, k: Entry, i: nat, pos: nat)
    requires i + 1 < |h.bounds| && h.bounds[i] <= h.bounds[i + 1] <= |h.list|
    requires IsLowerBound(h.list[h.bounds[i]..h.bounds[i + 1]], k, pos)
    ensures FirstInBlock(h, k, i, h.bounds[i] + pos)
  {
    var block := h.list[h.bounds[i]..h.bounds[i + 1]];
    forall q | h.bounds[i] <= q < h.bounds[i] + pos
      ensures Before(h.list[q], k)
    {
      assert h.list[q] == block[q - h.bounds[i]];
    }
    assert pos < |block| ==> block[pos] == h.list[h.bounds[i] + pos];
  }

  /** The entries before the block the index leads to come before the key sought. */
  lemma EarlierBlocksBefore(h: History, index: seq<Entry>, k: Entry, i: nat, q: nat)
    requires Whole(h, index) && IsLowerBound(index, k, i) && i > 0 && q < h.bounds[i]
    ensures Before(h.list[q], k)
  {
    SeparatorNotBefore(h.list, index, h.handles, h.bounds, i - 1, q);
  }

  /** The newest visible entry is in the block the index leads to: a shortened key has no
      user key of the table, so it cannot come between. */
  lemma NewestIsInBlock(h: History, index: seq<Entry>, u: UserKey, s: nat, i: nat, p: nat)
    requires Whole(h, index) && IsLowerBound(index, SeekKey(u, s), i) && p < |h.list| && Newest(Elements(h.list), h.list[p], u, s)
    ensures i < |index| && h.bounds[i] <= p < h.bounds[i + 1]
    ensures forall q :: 0 <= q < p ==> Before(h.list[q], SeekKey(u, s))
  {
    var k := SeekKey(u, s);
    forall q | 0 <= q < p
      ensures Before(h.list[q], k)
    {
      assert h.list[q] in Elements(h.list) && Precedes(h.list[q], h.list[p]);
    }
    if p < h.bounds[i] {
      EarlierBlocksBefore(h, index, k, i, p);
    } else if i < |index| && h.bounds[i + 1] <= p {
      var last := BeforeGap(h, index, i, p);
    }
  }

  /** An entry beyond a block has a larger user key than the block's index key, or that is
      the key of the block's last entry. */
  lemma BeforeGap(h: History, index: seq<Entry>, i: nat, p: nat) returns (last: Entry)
    requires Whole(h, index) && i < |index| && h.bounds[i + 1] <= p < |h.list|
    ensures last in Elements(h.list) && Precedes(last, h.list[p])
    ensures index[i].key < h.list[p].key || (last.key == index[i].key && Tag(last) == Tag(index[i]))
  {
    assert IndexedAt(h.list, index, h.handles, h.bounds, i);
    var b := h.bounds[i + 1];
    last := h.list[b - 1];
    assert Precedes(last, h.list[p]) && (b < p ==> Precedes(h.list[b], h.list[p]));
  }

  /** What the lookup did at index position `i`: nothing to find, turned away by the filter,
      or the first entry of the block at or behind the key. */
  ghost predicate LookedUp(h: History, index: seq<Entry>, u: UserKey, s: nat, i: nat, blocked: bool, saved: Option<Entry>)
    requires Whole(h, index)
  {
    i <= |index| &&
    if i == |index| || blocked then saved == None
    else exists p: nat :: FirstInBlock(h, SeekKey(u, s), i, p) && saved == if p < h.bounds[i + 1] then Some(h.list[p]) else None
  }

  /** The block at `i` has no entry of the user key. */
  ghost predicate NotInBlock(h: History, u: UserKey, i: nat) {
    i + 1 < |h.bounds| ==> forall p :: h.bounds[i] <= p < h.bounds[i + 1] && p < |h.list| ==> h.list[p].key != u
  }

  /** The saver is handed the newest visible entry of the key, if there is one. */
  ghost predicate Answers(list: seq<Entry>, u: UserKey, s: nat, saved: Option<Entry>) {
    && (saved.Some? && saved.value.key == u ==> Newest(Elements(list), saved.value, u, s))
    && ((exists e :: e in list && e.key == u && e.seqno <= s) ==> saved.Some? && saved.value.key == u)
  }

  lemma LookupAnswers(h: History, index: seq<Entry>, u: UserKey, s: nat, i: nat, blocked: bool, saved: Option<Entry>)
    requires Whole(h, index) && IsLowerBound(index, SeekKey(u, s), i) && LookedUp(h, index, u, s, i, blocked, saved)
    requires blocked ==> NotInBlock(h, u, i)
    ensures Answers(h.list, u, s, saved)
  {
    if e :| e in h.list && e.key == u && e.seqno <= s {
      var f := NewestExists(Elements(h.list), e, s);
      var p :| 0 <= p < |h.list| && h.list[p] == f;
      NewestIsInBlock(h, index, u, s, i, p);
    } else if saved.Some? {
      assert saved.value in h.list;
    }
  }

  /** A key its filter turns away is not in the block. */
  lemma TurnedAway(h: History, index: seq<Entry>, hash: HashFunction, contents: Bytes, user: Bytes, i: nat)
    requires Whole(h, index) && h.list == EntriesOf(h.kvs) && LetsThrough(hash, contents, h) && i < |h.offsets| == |h.handles|
    requires !FilterSays(hash, contents, h.offsets[i], user)
    ensures NotInBlock(h, Rank(user), i)
  {
    forall p | h.bounds[i] <= p < h.bounds[i + 1] && p < |h.list|
      ensures h.list[p].key != Rank(user)
    {
      assert h.list[p] == EntryOf(h.kvs[p]);
      RankEmbedsOrder(UserPart(h.kvs[p].key), user);
    }
  }

  // ---- The table ----

  lemma CompleteIsWhole(h: History, file: Bytes, crc: Checksum, indexKvs: seq<Pair>)
    requires Complete(h, file, crc, indexKvs)
    ensures Whole(h, EntriesOf(indexKvs)) && KeysOk(indexKvs) && Sorted(EntriesOf(indexKvs)) && h.list == EntriesOf(h.kvs)
    ensures |h.offsets| == |h.handles| && forall i :: 0 <= i < |h.handles| ==> HandleStart(h.handles[i]) == Some(h.offsets[i])
    ensures Backed(file, crc, h.blocks, h.infos) && IsTable(EntriesOf(indexKvs), h.blocks, h.list)
  {
    CompleteIs(h, file, crc, indexKvs);
    WrittenIs(h, file, crc, indexKvs);
    ListedIs(h, indexKvs);
    PlacedIs(h, EntriesOf(indexKvs));
    CompleteIsTable(h, file, crc, indexKvs);
    assert Asked(OfPart, 0);
  }

  /** The offset a handle names. */
  function HandleStart(handle: Bytes): Option<nat> {
    var r := HandleRange(handle);
    if r == None then None else Some(r.value.0)
  }

  /** A cursor over an index block. */
  method OpenIndex(raw: Bytes, ghost info: BlockInfo, ghost kvs: seq<Pair>) returns (iter: BlockIter?)
    requires raw == info.raw && InfoOk(info, kvs) && KeysOk(kvs) && Sorted(EntriesOf(kvs))
    ensures iter != null && fresh(iter) && Walks(iter, EntriesOf(kvs)) && !iter.Valid()
  {
    assert Asked(OfPart, 0);
    iter := null;
    var block := OpenBlock(INTERNAL, raw, Some(info.layout));
    if block.Open? {
      iter := block.iter;
      iter.PositionInRange();
      WalksIs(iter, EntriesOf(kvs));
    }
  }

  /** The reader lets every key through. */
  ghost predicate FilterFits(filter: FilterBlockReader?, h: History) {
    forall x {:trigger Asked(OfPart, x)} :: Asked(OfPart, x) ==> filter != null ==> filter.Ok() && LetsThrough(filter.hash, filter.contents, h)
  }

  /** Whether the filter turns the key away from the block. */
  method FilterRejects(filter: FilterBlockReader?, handle: Bytes, user: Bytes, ghost h: History, ghost index: seq<Entry>, ghost i: nat)
    returns (blocked: bool)
    requires FilterFits(filter, h) && Whole(h, index) && h.list == EntriesOf(h.kvs) && i < |index| && handle == h.handles[i]
    requires |h.offsets| == |h.handles| && forall j :: 0 <= j < |h.handles| ==> HandleStart(h.handles[j]) == Some(h.offsets[j])
    ensures blocked ==> NotInBlock(h, Rank(user), i)
    ensures blocked <==> filter != null && !FilterSays(filter.hash, filter.contents, h.offsets[i], user)
  {
    blocked := false;
    if filter != null {
      assert Asked(OfPart, 0);
      var range := DecodeHandle(handle, 0);
      assert HandleStart(handle) == Some(h.offsets[i]);
      if range.Some? {
        var may := filter.KeyMayMatch(range.value.0, user);
        blocked := !may;
        if blocked {
          TurnedAway(h, index, filter.hash, filter.contents, user, i);
        }
      }
    }
  }

  class Table {
    const file: Bytes
    const crc: Checksum
    const verifyChecksums: bool
    const index: Bytes                   // the index block's contents
    const filter: FilterBlockReader?
    ghost const t: Sealed

    ghost predicate Ok() {
      Complete(t.h, file, crc, t.indexKvs) && index == t.index.raw && InfoOk(t.index, t.indexKvs) && FilterFits(filter, t.h)
    }

    constructor (file: Bytes, crc: Checksum, verifyChecksums: bool, index: Bytes, filter: FilterBlockReader?, ghost t: Sealed)
      ensures this.file == file && this.crc == crc && this.index == index && this.filter == filter && this.t == t
    {
      this.file, this.crc, this.verifyChecksums, this.index, this.filter, this.t := file, crc, verifyChecksums, index, filter, t;
    }

    /** A cursor over the whole table. */
    method NewIterator() returns (iter: TwoLevelIterator)
      requires Ok()
      ensures fresh(iter) && fresh(iter.Repr()) && iter.Ok() && !iter.Valid() && iter.list == t.h.list
    {
      CompleteIsTable(t.h, file, crc, t.indexKvs);
      var indexIter := OpenIndex(index, t.index, t.indexKvs);
      iter := new TwoLevelIterator(file, crc, verifyChecksums, indexIter, EntriesOf(t.indexKvs), t.h.blocks, t.h.infos, t.h.list);
    }

    /** The first pair of the block at or behind the key; `None` at its end. */
    method SeekInBlock(handle: Bytes, k: Bytes, ghost i: nat) returns (saved: Option<Pair>)
      requires Ok() && KeyOk(k) && Whole(t.h, EntriesOf(t.indexKvs)) && i < |t.indexKvs| && handle == EntriesOf(t.indexKvs)[i].value
      requires Backed(file, crc, t.h.blocks, t.h.infos)
      ensures exists p: nat :: FirstInBlock(t.h, EntryOf(Pair(k, [])), i, p)
                               && Said(saved) == if p < t.h.bounds[i + 1] then Some(t.h.list[p]) else None
    {
      ghost var keys := EntriesOf(t.indexKvs);
      BlockAt(t.h, keys, i);
      var blockIter := BlockReader(file, crc, verifyChecksums, handle, t.h.blocks, t.h.infos);
      SeekBlock(blockIter, k, t.h.blocks[handle]);
      SoughtInBlock(t.h, EntryOf(Pair(k, [])), i, blockIter.pos);
      saved := None;
      if blockIter.Valid() {
        var kv := Shown(blockIter, t.h.blocks[handle]);
        saved := Some(kv);
      }
      assert FirstInBlock(t.h, EntryOf(Pair(k, [])), i, t.h.bounds[i] + blockIter.pos);
    }

    /** Seek the index and then one block; what the saver is handed, if anything. The saver
        looks at the user key. */
    method InternalGet(user: Bytes, s: nat) returns (saved: Option<Pair>, ghost i: nat)
      requires Ok() && s <= MAX_SEQUENCE
      ensures Answers(t.h.list, Rank(user), s, Said(saved))
      ensures IsLowerBound(EntriesOf(t.indexKvs), SeekKey(Rank(user), s), i)
      ensures i < |t.h.offsets| && filter != null && !FilterSays(filter.hash, filter.contents, t.h.offsets[i], user) ==> saved == None
    {
      LookupKeySeeks(user, s);
      CompleteIsWhole(t.h, file, crc, t.indexKvs);
      ghost var keys := EntriesOf(t.indexKvs);
      var k := EncodeKey(user, 256 * s + 1);
      var iiter := OpenIndex(index, t.index, t.indexKvs);
      SeekBlock(iiter, k, keys);
      i := iiter.pos;
      saved := None;
      var blocked := false;
      if iiter.Valid() {
        BlockAt(t.h, keys, i);
        var kv := Shown(iiter, keys);
        blocked := FilterRejects(filter, kv.value, user, t.h, keys, i);
        if !blocked {
          saved := SeekInBlock(kv.value, k, i);
        }
      }
      LookupAnswers(t.h, keys, Rank(user), s, i, blocked, Said(saved));
    }
  }

  /** What a saved pair says. */
  function Said(saved: Option<Pair>): Option<Entry> {
    if saved == None then None else Some(EntryOf(saved.value))
  }

  // ---- Opening ----

  const BYTEWISE: Comparator := Rank

  method ReadFilter(file: Bytes, crc: Checksum, paranoid: bool, hash: HashFunction, handle: Bytes,
                    ghost contents: Bytes, ghost h: History, ghost known: bool) returns (filter: FilterBlockReader?)
    requires known ==> Sifted(file, crc, hash, handle, contents, h)
    ensures filter != null ==> fresh(filter)
    ensures known ==> filter != null && FilterFits(filter, h)
  {
    if known {
      SiftedIs(file, crc, hash, handle, contents, h);
    }
    filter := null;
    var range := DecodeHandle(handle, 0);
    if range == None {
      return;
    }
    var raw := ReadBlock(file, crc, paranoid, range.value.0, range.value.1);
    if raw == None {
      return;
    }
    filter := new FilterBlockReader(hash, raw.value);
  }

  /** The metaindex leads to the filter of the policy; without one every key may be there. */
  method ReadMeta(file: Bytes, crc: Checksum, paranoid: bool, policy: Policy, offset: nat, size: nat,
                  ghost written: Option<Policy>, ghost t: Sealed, ghost known: bool) returns (filter: FilterBlockReader?)
    requires known ==> Kept(file, crc, t.metaHandle, t.meta, MetaKvs(written, t.filterHandle))
    requires known ==> HandleRange(t.metaHandle) == Some((offset, size))
    requires known && written.Some? ==> Sifted(file, crc, written.value.hash, t.filterHandle, t.filter, t.h)
    requires written.Some? && written.value.key == policy.key ==> written == Some(policy)
    ensures filter != null ==> fresh(filter)
    ensures known ==> FilterFits(filter, t.h)
    ensures known && written == Some(policy) ==> filter != null
  {
    filter := null;
    if known {
      KeptIs(file, crc, t.metaHandle, t.meta, MetaKvs(written, t.filterHandle));
    }
    var raw := ReadBlock(file, crc, paranoid, offset, size);
    if raw == None {
      // Do not propagate errors since meta info is not needed for operation
      return;
    }
    assert Asked(OfPart, 0);
    var meta := OpenBlock(BYTEWISE, raw.value, if known then Some(t.meta.layout) else None);
    if !meta.Open? {
      return;
    }
    var found := SeekMeta(meta.iter, policy.key);
    if found.Some? {
      filter := ReadFilter(file, crc, paranoid, policy.hash, found.value, t.filter, t.h, known);
    }
  }

  /** The value of the metaindex under `key`. */
  method SeekMeta(iter: BlockIter, key: Bytes) returns (found: Option<Bytes>)
    requires iter.Ok() && iter.rank == BYTEWISE
    modifies iter
    ensures iter.layout.Some? && iter.Kvs() == [] ==> found == None
    ensures iter.layout.Some? && |iter.Kvs()| == 1 ==>
              found == if iter.Kvs()[0].key == key then Some(iter.Kvs()[0].value) else None
  {
    found := None;
    iter.Seek(key);
    if iter.layout.Some? {
      iter.PositionInRange();
      if iter.Valid() {
        iter.ShowsPair();
      }
    }
    if iter.Valid() && iter.key == key {
      found := Some(iter.Value());
    }
  }

  /** Whether the file ends in a footer. */
  predicate HasFooter(file: Bytes) {
    && |file| >= FOOTER_SIZE
    && DecodeFixed32(file[|file| - FOOTER_SIZE..][40..]) == MAGIC_LOW && DecodeFixed32(file[|file| - FOOTER_SIZE..][44..]) == MAGIC_HIGH
  }

  /** `Table::Open`: every file that was built as a table opens, and shows what was added. */
  method Open(file: Bytes, crc: Checksum, paranoid: bool, verifyChecksums: bool, policy: Option<Policy>,
              ghost written: Option<Policy>, ghost t: Option<Sealed>) returns (table: Table?)
    requires t.Some? ==> TableFile(file, crc, written, t.value)
    requires policy.Some? && written.Some? && written.value.key == policy.value.key ==> written == policy
    ensures table != null ==> fresh(table) && table.file == file && HasFooter(file)
    ensures t.Some? ==> table != null && table.Ok() && table.t == t.value
  {
    table := null;
    ghost var known, sealed := t.Some?, t.GetOr(NoTable());
    if known {
      TableFileIs(file, crc, written, sealed);
      KeptIs(file, crc, sealed.indexHandle, sealed.index, sealed.indexKvs);
      KeptIs(file, crc, sealed.metaHandle, sealed.meta, MetaKvs(written, sealed.filterHandle));
    }
    if |file| < FOOTER_SIZE {
      // file is too short to be an sstable
      return;
    }
    var footer := DecodeFooter(file[|file| - FOOTER_SIZE..]);
    if footer == None {
      return;
    }
    var (metaRange, indexRange) := footer.value;
    var index := ReadBlock(file, crc, paranoid, indexRange.0, indexRange.1);
    if index == None {
      return;
    }
    var filter: FilterBlockReader? := null;
    if policy.Some? {
      filter := ReadMeta(file, crc, paranoid, policy.value, metaRange.0, metaRange.1, written, sealed, known);
    }
    table := new Table(file, crc, verifyChecksums, index.value, filter, sealed);
  }
}
