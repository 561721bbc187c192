/** Blocks of internal keys as cursors over sorted entries. */
module BlockCursors {
  import opened Keys
  import opened Coding
  import opened Entries
  import opened Cursors
  import opened BlockFormat
  import opened BlockIters
  import opened InternalKeys

  /** The comparator of internal keys, as ranks. */
  const INTERNAL: Comparator := InternalRank

  ghost predicate KeysOk(kvs: seq<Pair>) {
    forall i :: 0 <= i < |kvs| ==> KeyOk(kvs[i].key)
  }

  /** The block holds internal keys that say `list`. */
  ghost predicate Says(iter: BlockIter, list: seq<Entry>)
    reads iter
  {
    && iter.Ok() && iter.layout.Some? && iter.rank == INTERNAL
    && KeysOk(iter.Kvs()) && list == EntriesOf(iter.Kvs()) && Sorted(list)
  }

  /** `iter` walks over a block of internal keys that say `list`. */
  ghost predicate Walks(iter: BlockIter, list: seq<Entry>)
    reads iter
  {
    && iter.pos <= |list| && (iter.Valid() <==> iter.pos < |list|)
    && forall x {:trigger Asked(OfPart, x)} :: Asked(OfPart, x) ==> Says(iter, list)
  }

  lemma WalksIs(iter: BlockIter, list: seq<Entry>)
    ensures Walks(iter, list) <==> Says(iter, list) && iter.pos <= |list| && (iter.Valid() <==> iter.pos < |list|)
  {
    assert Asked(OfPart, 0);
  }

  /** What the cursor shows is the entry it stands at. */
  method Shown(iter: BlockIter, ghost list: seq<Entry>) returns (kv: Pair)
    requires Walks(iter, list) && iter.Valid()
    ensures EntryOf(kv) == list[iter.pos] && KeyOk(kv.key)
  {
    WalksIs(iter, list);
    iter.ShowsPair();
    kv := iter.Current();
  }

  lemma SortedKeysAscend(kvs: seq<Pair>)
    requires KeysOk(kvs) && Sorted(EntriesOf(kvs))
    ensures KeysAscend(INTERNAL, kvs)
  {
    SortedFacts(EntriesOf(kvs));
    forall i, j | 0 <= i < j < |kvs|
      ensures INTERNAL(kvs[i].key) < INTERNAL(kvs[j].key)
    {
      RankIsBefore(kvs[i], kvs[j]);
    }
  }

  lemma LowerBoundOfEntries(kvs: seq<Pair>, target: Bytes, p: nat)
    requires KeysOk(kvs) && KeyOk(target) && LowerBound(INTERNAL, kvs, target, p)
    ensures IsLowerBound(EntriesOf(kvs), EntryOf(Pair(target, [])), p)
  {
    forall i | 0 <= i < |kvs|
      ensures Before(EntryOf(kvs[i]), EntryOf(Pair(target, []))) <==> i < p
    {
      RankIsBefore(kvs[i], Pair(target, []));
    }
  }

  /** Seeking a block finds the lower bound of the entries. */
  method SeekBlock(iter: BlockIter, target: Bytes, ghost list: seq<Entry>)
    requires Walks(iter, list) && KeyOk(target)
    modifies iter
    ensures Walks(iter, list) && IsLowerBound(list, EntryOf(Pair(target, [])), iter.pos)
  {
    WalksIs(iter, list);
    SortedKeysAscend(iter.Kvs());
    iter.Seek(target);
    iter.PositionInRange();
    LowerBoundOfEntries(iter.Kvs(), target, iter.pos);
    WalksIs(iter, list);
  }

  method FirstOfBlock(iter: BlockIter, ghost list: seq<Entry>)
    requires Walks(iter, list)
    modifies iter
    ensures Walks(iter, list) && iter.pos == 0
  {
    WalksIs(iter, list);
    iter.SeekToFirst();
    iter.PositionInRange();
    WalksIs(iter, list);
  }

  method LastOfBlock(iter: BlockIter, ghost list: seq<Entry>)
    requires Walks(iter, list)
    modifies iter
    ensures Walks(iter, list) && iter.pos == LastPos(|list|)
  {
    WalksIs(iter, list);
    iter.SeekToLast();
    iter.PositionInRange();
    WalksIs(iter, list);
  }

  method NextInBlock(iter: BlockIter, ghost list: seq<Entry>)
    requires Walks(iter, list) && iter.Valid()
    modifies iter
    ensures Walks(iter, list) && iter.pos == old(iter.pos) + 1
  {
    WalksIs(iter, list);
    iter.Next();
    iter.PositionInRange();
    WalksIs(iter, list);
  }

  method PrevInBlock(iter: BlockIter, ghost list: seq<Entry>)
    requires Walks(iter, list) && iter.Valid()
    modifies iter
    ensures Walks(iter, list) && iter.pos == PrevPos(old(iter.pos), |list|)
  {
    WalksIs(iter, list);
    iter.Prev();
    iter.PositionInRange();
    WalksIs(iter, list);
  }
}
