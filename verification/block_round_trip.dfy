/** Blocks as a whole: whatever pairs are built into a block are what a reader finds. */
module BlockRoundTrips {
  import opened Keys
  import opened Coding
  import opened BlockFormat
  import opened BlockBuilders
  import opened BlockIters

  /** The most that pairs take in a block: an entry's header has three varints, and a restart
      point four bytes. */
  function BlockWeight(kvs: seq<Pair>): nat {
    if kvs == [] then 0
    else var last := kvs[|kvs| - 1]; BlockWeight(kvs[..|kvs| - 1]) + |last.key| + |last.value| + 19
  }

  lemma WeightOfOneMore(kvs: seq<Pair>, i: nat)
    requires i < |kvs|
    ensures kvs[..i + 1] == kvs[..i] + [kvs[i]]
    ensures BlockWeight(kvs[..i + 1]) == BlockWeight(kvs[..i]) + |kvs[i].key| + |kvs[i].value| + 19
  {
    assert kvs[..i + 1][..i] == kvs[..i];
  }

  /** Build a block from `kvs` and open it; `None` only if it may not fit 32-bit offsets. */
  method BuildAndOpen(rank: Comparator, kvs: seq<Pair>, interval: nat) returns (iter: Option<BlockIter>)
    requires interval >= 1
    requires forall i :: 0 <= i < |kvs| ==> |kvs[i].key| < 0x1_0000_0000 && |kvs[i].value| < 0x1_0000_0000
    ensures iter == None ==> BlockWeight(kvs) + 4 >= 0x1_0000_0000
    ensures iter.Some? ==> fresh(iter.value) && iter.value.Ok() && !iter.value.Valid() && iter.value.rank == rank
    ensures iter.Some? ==> iter.value.layout.Some? && iter.value.Kvs() == kvs
  {
    var builder := new BlockBuilder(interval);
    for i := 0 to |kvs|
      invariant builder.Ok() && fresh(builder) && builder.layout.kvs == kvs[..i]
      invariant |builder.buffer| + 4 * |builder.restarts| <= BlockWeight(kvs[..i]) + 4
    {
      WeightOfOneMore(kvs, i);
      ghost var _ := builder.Add(kvs[i].key, kvs[i].value);
    }
    assert kvs[..|kvs|] == kvs;
    if |builder.buffer| >= 0x1_0000_0000 || |builder.restarts| >= 0x1_0000_0000 {
      return None;
    }
    var data := builder.Finish();
    var result := OpenBlock(rank, data, Some(builder.layout));
    iter := Some(result.iter);
  }

  lemma OneMore(all: seq<Pair>, kvs: seq<Pair>, kv: Pair)
    requires kvs < all && all[|kvs|] == kv
    ensures kvs + [kv] <= all
  {
  }

  /** A full walk reads the pairs back in order. */
  method ReadAll(iter: BlockIter) returns (kvs: seq<Pair>)
    requires iter.Ok() && iter.layout.Some?
    modifies iter
    ensures iter.Ok() && kvs == iter.Kvs()
  {
    kvs := [];
    iter.SeekToFirst();
    iter.PositionInRange();
    while iter.Valid()
      invariant iter.Ok() && kvs <= iter.Kvs() && |kvs| == iter.pos && (!iter.Valid() ==> iter.pos == |iter.Kvs()|)
      decreases |iter.Kvs()| - iter.pos
    {
      iter.ShowsPair();
      OneMore(iter.Kvs(), kvs, iter.Current());
      kvs := kvs + [iter.Current()];
      iter.Next();
      iter.PositionInRange();
    }
  }
}
