/** Building a table from a sorted run of pairs, and opening what was written. */
module BuildTables {
  import opened Keys
  import opened Coding
  import opened Entries
  import opened BlockFormat
  import opened InternalKeys
  import opened BlockCursors
  import opened Blooms
  import opened FilterBlocks
  import opened TwoLevelIterators
  import opened TableLayouts
  import opened TableFiles
  import opened TableBuilders
  import opened Tables

  function TotalWeight(kvs: seq<Pair>, bitsPerKey: nat): nat {
    if kvs == [] then 0
    else var last := kvs[|kvs| - 1]; TotalWeight(kvs[..|kvs| - 1], bitsPerKey) + PairWeight(|last.key|, |last.value|, bitsPerKey)
  }

  lemma WeightOfPrefix(kvs: seq<Pair>, i: nat, bitsPerKey: nat)
    requires i < |kvs|
    ensures TotalWeight(kvs[..i + 1], bitsPerKey)
            == TotalWeight(kvs[..i], bitsPerKey) + PairWeight(|kvs[i].key|, |kvs[i].value|, bitsPerKey)
  {
    assert kvs[..i + 1][..i] == kvs[..i];
  }

  lemma NextEntry(kvs: seq<Pair>, i: nat)
    requires Sorted(EntriesOf(kvs)) && i < |kvs|
    ensures kvs[..i + 1] == kvs[..i] + [kvs[i]]
    ensures EntriesOf(kvs[..i]) + [EntryOf(kvs[i])] == EntriesOf(kvs[..i + 1]) && Sorted(EntriesOf(kvs[..i + 1]))
  {
    assert EntriesOf(kvs[..i + 1]) == EntriesOf(kvs)[..i + 1];
  }

  /** Add the pairs to an empty builder and finish. */
  method Fill(builder: TableBuilder, kvs: seq<Pair>) returns (ghost t: Sealed)
    requires builder.Ok() && !builder.failed && builder.h == NoHistory() && builder.weight == 0
    requires KeysOk(kvs) && Sorted(EntriesOf(kvs))
    modifies builder, builder.dataBlock, builder.indexBlock, builder.filter
    ensures builder.weight == TotalWeight(kvs, builder.BitsPerKey())
    ensures if builder.failed then builder.TooBig()
            else TableFile(builder.file, builder.crc, builder.PolicyUsed(), t) && t.h.kvs == kvs && t.h.list == EntriesOf(kvs)
  {
    for i := 0 to |kvs|
      invariant builder.Ok() && builder.weight == TotalWeight(kvs[..i], builder.BitsPerKey())
      invariant !builder.failed ==> builder.h.kvs == kvs[..i] && builder.h.list == EntriesOf(kvs[..i])
    {
      NextEntry(kvs, i);
      WeightOfPrefix(kvs, i, builder.BitsPerKey());
      builder.Add(kvs[i].key, kvs[i].value);
    }
    assert kvs[..|kvs|] == kvs;
    t := builder.Finish();
  }

  method NewBuilder(crc: Checksum, policy: Option<Policy>, bitsPerKey: nat, k: Byte, interval: nat, blockSize: nat)
    returns (builder: TableBuilder)
    requires 1 <= k <= 30 && interval >= 1
    ensures fresh(builder) && fresh(builder.dataBlock) && fresh(builder.indexBlock) && (builder.filter != null ==> fresh(builder.filter))
    ensures builder.Ok() && !builder.failed && builder.h == NoHistory() && builder.weight == 0 && builder.crc == crc
    ensures builder.PolicyUsed() == policy && builder.BitsPerKey() == if policy == None then 0 else bitsPerKey
    ensures policy.Some? ==> builder.filterKey == policy.value.key
    ensures policy == None ==> builder.filterKey == []
  {
    var filter: FilterBlockBuilder? := null;
    if policy.Some? {
      filter := new FilterBlockBuilder(policy.value.hash, bitsPerKey, k);
      filter.StartBlock(0);
    }
    builder := new TableBuilder(crc, filter, if policy == None then [] else policy.value.key, interval, blockSize);
  }

  /** Why a table may not be built: the pairs, the filters and what stands around them come
      to four gigabytes. */
  predicate TooMuch(kvs: seq<Pair>, policy: Option<Policy>, bitsPerKey: nat) {
    var (key, bits) := if policy == None then ([], 0) else (policy.value.key, bitsPerKey);
    TotalWeight(kvs, bits) + |key| + 100 >= 0x1_0000_0000
  }

  /** `BuildTable`: the bytes of a table with these pairs. No file is kept for no pairs. */
  method BuildTable(kvs: seq<Pair>, crc: Checksum, policy: Option<Policy>, bitsPerKey: nat, k: Byte, interval: nat, blockSize: nat)
    returns (file: Option<Bytes>, table: Table?)
    requires KeysOk(kvs) && Sorted(EntriesOf(kvs)) && 1 <= k <= 30 && interval >= 1
    ensures file == None ==> kvs == [] || TooMuch(kvs, policy, bitsPerKey)
    ensures file.Some? ==> table != null && fresh(table) && table.Ok() && table.file == file.value && table.t.h.list == EntriesOf(kvs)
  {
    file, table := None, null;
    if |kvs| == 0 {
      return;
    }
    var builder := NewBuilder(crc, policy, bitsPerKey, k, interval, blockSize);
    var t := Fill(builder, kvs);
    if builder.failed {
      return;
    }
    file := Some(builder.file);
    // Verify that the table is usable
    table := Open(builder.file, crc, false, false, policy, policy, Some(t));
  }
}
