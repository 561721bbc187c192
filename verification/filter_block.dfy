/** The filter block of a table: one filter for every two kilobytes of data, found by
    the offset of a data block. */
module FilterBlocks {
  import opened Keys
  import opened Coding
  import opened Blooms

  const BASE_LG: Byte := 11

  /** The filter that covers a data block at `offset`. */
  function FilterIndex(offset: nat): nat {
    offset / 2048
  }

  /** `filter` is empty for no keys and admits all its keys otherwise. */
  ghost predicate Admits(hash: HashFunction, filter: Bytes, keys: seq<Bytes>) {
    (keys == [] ==> filter == []) && forall i :: 0 <= i < |keys| ==> MayMatch(hash, keys[i], filter)
  }

  /** The end of filter `i` in the filter data. */
  function EndOfFilter(offsets: seq<nat>, i: nat, size: nat): nat
    requires i < |offsets|
  {
    if i + 1 < |offsets| then offsets[i + 1] else size
  }

  /** The filters generated so far lie one after the other in `result`. */
  ghost predicate Laid(hash: HashFunction, result: Bytes, offsets: seq<nat>, filters: seq<seq<Bytes>>) {
    && |offsets| == |filters|
    && (forall i, j :: 0 <= i < j < |offsets| ==> offsets[i] <= offsets[j])
    && (forall i :: 0 <= i < |offsets| ==> offsets[i] <= |result|)
    && forall i :: 0 <= i < |offsets| ==> FilterLaid(hash, result, offsets, filters, i)
  }

  ghost predicate FilterLaid(hash: HashFunction, result: Bytes, offsets: seq<nat>, filters: seq<seq<Bytes>>, i: nat)
    requires i < |offsets| == |filters|
  {
    && offsets[i] <= EndOfFilter(offsets, i, |result|) <= |result|
    && Admits(hash, result[offsets[i]..EndOfFilter(offsets, i, |result|)], filters[i])
  }

  lemma FilterAppended(hash: HashFunction, result: Bytes, offsets: seq<nat>, filters: seq<seq<Bytes>>, filter: Bytes, keys: seq<Bytes>)
    requires Laid(hash, result, offsets, filters) && Admits(hash, filter, keys)
    ensures Laid(hash, result + filter, offsets + [|result|], filters + [keys])
  {
    var r, o, f := result + filter, offsets + [|result|], filters + [keys];
    forall i | 0 <= i < |o|
      ensures FilterLaid(hash, r, o, f, i)
    {
      if i < |offsets| {
        assert FilterLaid(hash, result, offsets, filters, i);
        assert EndOfFilter(o, i, |r|) == EndOfFilter(offsets, i, |result|);
        assert r[o[i]..EndOfFilter(o, i, |r|)] == result[o[i]..EndOfFilter(offsets, i, |result|)];
      } else {
        assert r[|result|..|r|] == filter;
      }
    }
  }

  /** Keys flattened into one string, with the place where each starts. */
  ghost predicate Flattened(flat: Bytes, start: seq<nat>, keys: seq<Bytes>) {
    && |start| == |keys|
    && (forall i :: 0 <= i < |keys| ==> start[i] <= KeyEnd(start, i, |flat|) <= |flat|)
    && forall i :: 0 <= i < |keys| ==> flat[start[i]..KeyEnd(start, i, |flat|)] == keys[i]
  }

  function KeyEnd(start: seq<nat>, i: nat, size: nat): nat
    requires i < |start|
  {
    if i + 1 < |start| then start[i + 1] else size
  }

  lemma KeyFlattened(flat: Bytes, start: seq<nat>, keys: seq<Bytes>, key: Bytes)
    requires Flattened(flat, start, keys)
    ensures Flattened(flat + key, start + [|flat|], keys + [key])
  {
    forall i | 0 <= i < |keys| + 1
      ensures (start + [|flat|])[i] <= KeyEnd(start + [|flat|], i, |flat + key|) <= |flat + key|
      ensures (flat + key)[(start + [|flat|])[i]..KeyEnd(start + [|flat|], i, |flat + key|)] == (keys + [key])[i]
    {
      if i < |keys| {
        assert KeyEnd(start + [|flat|], i, |flat + key|) == KeyEnd(start, i, |flat|);
        assert (flat + key)[start[i]..KeyEnd(start, i, |flat|)] == flat[start[i]..KeyEnd(start, i, |flat|)];
      } else {
        assert (flat + key)[|flat|..] == key;
      }
    }
  }

  class FilterBlockBuilder {
    const hash: HashFunction
    const bitsPerKey: nat
    const k: Byte
    var keys: Bytes
    var start: seq<nat>
    var result: Bytes
    var filterOffsets: seq<nat>
    ghost var pending: seq<Bytes>           // the keys flattened in `keys`
    ghost var filters: seq<seq<Bytes>>      // the keys of each filter generated
    ghost var added: seq<(nat, Bytes)>      // every key added, with the filter it belongs to

    ghost predicate Ok()
      reads this
    {
      && 1 <= k <= 30 && Flattened(keys, start, pending) && Laid(hash, result, filterOffsets, filters)
      && Filed(added, filters, pending) && Small(|result|, |added|, |pending|, bitsPerKey)
    }

    constructor (hash: HashFunction, bitsPerKey: nat, k: Byte)
      requires 1 <= k <= 30
      ensures Ok() && filters == [] && added == [] && this.hash == hash && this.bitsPerKey == bitsPerKey
    {
      this.hash, this.bitsPerKey, this.k := hash, bitsPerKey, k;
      keys, start, result, filterOffsets := [], [], [], [];
      pending, filters, added := [], [], [];
      SmallIs(0, 0, 0, bitsPerKey);
    }

    /** The keys to build the next filter from, cut out of the flattened string. */
    method TmpKeys() returns (tmpKeys: seq<Bytes>)
      requires Ok()
      ensures tmpKeys == pending
    {
      tmpKeys := [];
      for i := 0 to |start|
        invariant tmpKeys == pending[..i]
      {
        tmpKeys := tmpKeys + [keys[start[i]..if i + 1 < |start| then start[i + 1] else |keys|]];
      }
    }

    method GenerateFilter()
      requires Ok()
      modifies this
      ensures Ok() && filters == old(filters) + [old(pending)] && pending == [] && added == old(added)
    {
      FiledOn(added, filters, pending);
      if |start| == 0 {
        // Fast path if there are no keys for this filter
        FilterAppended(hash, result, filterOffsets, filters, [], pending);
        assert result + [] == result;
        filterOffsets := filterOffsets + [|result|];
        filters, pending := filters + [pending], [];
        return;
      }
      var tmpKeys := TmpKeys();
      var filter := CreateFilter(hash, bitsPerKey, k, tmpKeys);
      forall i | 0 <= i < |tmpKeys|
        ensures MayMatch(hash, tmpKeys[i], filter)
      {
        NoFalseNegatives(hash, tmpKeys, k, filter, i);
      }
      FilterAppended(hash, result, filterOffsets, filters, filter, pending);
      FilterIsSmall(|result|, |filter|, |added|, |pending|, bitsPerKey);
      filterOffsets := filterOffsets + [|result|];
      result := result + filter;
      filters, pending := filters + [pending], [];
      keys, start := [], [];
    }

    /** Filters for the windows passed since the last block are closed. */
    method StartBlock(offset: nat)
      requires Ok() && FilterIndex(offset) >= |filterOffsets|
      modifies this
      ensures Ok() && |filters| == FilterIndex(offset) && added == old(added)
    {
      var index := FilterIndex(offset);
      while index > |filterOffsets|
        invariant Ok() && |filterOffsets| <= index && added == old(added)
      {
        GenerateFilter();
      }
    }

    method AddKey(key: Bytes)
      requires Ok()
      modifies this
      ensures Ok() && filters == old(filters) && added == old(added) + [(|filters|, key)]
    {
      KeyFlattened(keys, start, pending, key);
      FiledMore(added, filters, pending, key);
      StaysSmall(|result|, |added|, |pending|, bitsPerKey);
      start := start + [|keys|];
      keys := keys + key;
      pending := pending + [key];
      added := added + [(|filters|, key)];
    }

    /** Close the last filter and append the array of offsets; `None` where those would not
        fit in 32 bits, which takes that many bytes of filters. */
    method Finish() returns (contents: Option<Bytes>)
      requires Ok()
      modifies this
      ensures added == old(added)
      ensures contents == None ==> FilterCost(|added|, bitsPerKey) >= 0x1_0000_0000
      ensures contents.Some? ==> |contents.value| <= FilterCost(|added|, bitsPerKey) + 4 * |old(filters)| + 9
      ensures contents.Some? ==> forall i, offset: nat :: 0 <= i < |added| && FilterIndex(offset) == added[i].0 ==>
                FilterSays(hash, contents.value, offset, added[i].1)
    {
      if |start| != 0 {
        GenerateFilter();
      }
      FiledFinally(added, filters, pending);
      SmallIs(|result|, |added|, 0, bitsPerKey);
      if |result| >= 0x1_0000_0000 {
        return None;
      }
      OffsetsFit(hash, result, filterOffsets, filters);
      var offsets := PutFixed32s(filterOffsets + [|result|]);
      contents := Some(result + offsets + [BASE_LG]);
      forall i, offset: nat | 0 <= i < |added| && FilterIndex(offset) == added[i].0
        ensures FilterSays(hash, contents.value, offset, added[i].1)
      {
        if added[i].0 < |filters| {
          ReadsBack(hash, result, filterOffsets, filters, offset, added[i].1);
        }
      }
    }
  }

  /** Every key added is in its filter, or among the keys of the next one. */
  ghost predicate Filed(added: seq<(nat, Bytes)>, filters: seq<seq<Bytes>>, pending: seq<Bytes>) {
    forall i :: 0 <= i < |added| ==>
      added[i].0 <= |filters| && added[i].1 in (if added[i].0 < |filters| then filters[added[i].0] else pending)
  }

  function FilterCost(keys: nat, bitsPerKey: nat): nat {
    if keys == 0 then 0 else FilterCost(keys - 1, bitsPerKey) + bitsPerKey + 10
  }

  lemma {:induction false} FilterCostIs(keys: nat, bitsPerKey: nat)
    ensures FilterCost(keys, bitsPerKey) == keys * (bitsPerKey + 10)
  {
    if keys > 0 {
      FilterCostIs(keys - 1, bitsPerKey);
      assert keys * (bitsPerKey + 10) == (keys - 1) * (bitsPerKey + 10) + bitsPerKey + 10;
    }
  }

  /** Filters take no more than so many bytes for each key. */
  ghost predicate Small(size: nat, added: nat, pending: nat, bitsPerKey: nat) {
    forall x {:trigger Asked(OfPart, x)} :: Asked(OfPart, x) ==> pending <= added && size <= FilterCost(added - pending, bitsPerKey)
  }

  lemma SmallIs(size: nat, added: nat, pending: nat, bitsPerKey: nat)
    ensures Small(size, added, pending, bitsPerKey) <==> pending <= added && size <= FilterCost(added - pending, bitsPerKey)
  {
    assert Asked(OfPart, 0);
  }

  lemma StaysSmall(size: nat, added: nat, pending: nat, bitsPerKey: nat)
    requires Small(size, added, pending, bitsPerKey)
    ensures Small(size, added + 1, pending + 1, bitsPerKey)
  {
    SmallIs(size, added, pending, bitsPerKey);
    SmallIs(size, added + 1, pending + 1, bitsPerKey);
  }

  lemma FilterIsSmall(size: nat, filter: nat, added: nat, pending: nat, bitsPerKey: nat)
    requires Small(size, added, pending, bitsPerKey) && pending > 0 && 8 * filter <= pending * bitsPerKey + 80
    ensures Small(size + filter, added, 0, bitsPerKey)
  {
    SmallIs(size, added, pending, bitsPerKey);
    SmallIs(size + filter, added, 0, bitsPerKey);
    FilterCostIs(added - pending, bitsPerKey);
    FilterCostIs(added, bitsPerKey);
    KeyCosts(added, pending, bitsPerKey);
  }

  /** Keys cost each their part. */
  lemma KeyCosts(added: nat, pending: nat, bitsPerKey: nat)
    requires pending <= added
    ensures (added - pending) * (bitsPerKey + 10) + (pending * bitsPerKey + 10 * pending) == added * (bitsPerKey + 10)
  {
    var perKey := bitsPerKey + 10;
    assert pending * perKey == pending * bitsPerKey + 10 * pending;
    assert (added - pending) * perKey + pending * perKey == added * perKey;
  }

  lemma FiledOn(added: seq<(nat, Bytes)>, filters: seq<seq<Bytes>>, pending: seq<Bytes>)
    requires Filed(added, filters, pending)
    ensures Filed(added, filters + [pending], [])
  {
  }

  lemma FiledMore(added: seq<(nat, Bytes)>, filters: seq<seq<Bytes>>, pending: seq<Bytes>, key: Bytes)
    requires Filed(added, filters, pending)
    ensures Filed(added + [(|filters|, key)], filters, pending + [key])
  {
  }

  lemma FiledFinally(added: seq<(nat, Bytes)>, filters: seq<seq<Bytes>>, pending: seq<Bytes>)
    requires Filed(added, filters, pending) && pending == []
    ensures forall i :: 0 <= i < |added| ==> added[i].0 < |filters| && added[i].1 in filters[added[i].0]
  {
  }

  lemma OffsetsFit(hash: HashFunction, result: Bytes, offsets: seq<nat>, filters: seq<seq<Bytes>>)
    requires Laid(hash, result, offsets, filters) && |result| < 0x1_0000_0000
    ensures AllWords(offsets + [|result|])
  {
  }

  // ---- Reading ----

  function ShiftRight(x: nat, lg: nat): nat
    decreases lg
  {
    if lg == 0 then x else ShiftRight(x / 2, lg - 1)
  }

  /** What a reader answers for a key and the offset of a data block. Whatever it cannot
      make sense of counts as a match. */
  ghost predicate FilterSays(hash: HashFunction, contents: Bytes, offset: nat, key: Bytes) {
    var n := |contents|;
    n >= 5 ==>
      var words := DecodeFixed32(contents[n - 5..]);
      words <= n - 5 ==>
        var index := ShiftRight(offset, contents[n - 1]);
        index < (n - 5 - words) / 4 ==> SliceSays(hash, contents, words, index, key)
  }

  /** The answer of the filter between two offsets of the array at `words`. */
  ghost predicate SliceSays(hash: HashFunction, contents: Bytes, words: nat, index: nat, key: Bytes)
    requires words + 4 * index + 8 <= |contents|
  {
    var start, limit := WordAt(contents, words, index), WordAt(contents, words, index + 1);
    if start <= limit && limit <= words then MayMatch(hash, key, contents[start..limit]) else start != limit
  }

  class FilterBlockReader {
    const hash: HashFunction
    const contents: Bytes
    const offset: nat
    const num: nat
    const baseLg: Byte

    constructor (hash: HashFunction, contents: Bytes)
      ensures this.hash == hash && this.contents == contents && Ok()
    {
      this.hash, this.contents := hash, contents;
      offset, num, baseLg := 0, 0, 0;
      var n := |contents|;
      if n >= 5 {
        baseLg := contents[n - 1];
        var lastWord := DecodeFixed32(contents[n - 5..]);
        if lastWord <= n - 5 {
          offset := lastWord;
          num := (n - 5 - lastWord) / 4;
        }
      }
    }

    /** The fields are those of the contents. */
    ghost predicate Ok() {
      var n := |contents|;
      if n < 5 then num == 0
      else
        && baseLg == contents[n - 1]
        && if DecodeFixed32(contents[n - 5..]) > n - 5 then num == 0
           else offset == DecodeFixed32(contents[n - 5..]) && num == (n - 5 - offset) / 4
    }

    method KeyMayMatch(blockOffset: nat, key: Bytes) returns (r: bool)
      requires Ok()
      ensures r <==> FilterSays(hash, contents, blockOffset, key)
    {
      var index := ShiftRight(blockOffset, baseLg);
      if index < num {
        r := SliceMayMatch(index, key);
      } else {
        // Errors are treated as potential matches
        r := true;
      }
    }

    method SliceMayMatch(index: nat, key: Bytes) returns (r: bool)
      requires offset + 4 * index + 8 <= |contents|
      ensures r <==> SliceSays(hash, contents, offset, index, key)
    {
      var start := WordAt(contents, offset, index);
      var limit := WordAt(contents, offset, index + 1);
      if start <= limit && limit <= offset {
        r := Blooms.KeyMayMatch(hash, key, contents[start..limit]);
      } else if start == limit {
        // Empty filters do not match any keys
        r := false;
      } else {
        r := true;
      }
    }
  }

  lemma FilterReadsBack(hash: HashFunction, result: Bytes, offsets: seq<nat>, filters: seq<seq<Bytes>>, index: nat, key: Bytes)
    requires Laid(hash, result, offsets, filters) && |result| < 0x1_0000_0000 && AllWords(offsets + [|result|])
    requires index < |filters| && key in filters[index]
    ensures SliceSays(hash, result + Fixed32s(offsets + [|result|]) + [BASE_LG], |result|, index, key)
  {
    var words := offsets + [|result|];
    var contents := result + Fixed32s(words) + [BASE_LG];
    Fixed32sDecode(result, words, [BASE_LG], index);
    Fixed32sDecode(result, words, [BASE_LG], index + 1);
    assert FilterLaid(hash, result, offsets, filters, index);
    var start, limit := words[index], words[index + 1];
    assert limit == EndOfFilter(offsets, index, |result|);
    assert contents[start..limit] == result[start..limit];
  }

  /** What `Finish` writes answers for every filter as the filter itself would. */
  lemma ReadsBack(hash: HashFunction, result: Bytes, offsets: seq<nat>, filters: seq<seq<Bytes>>, offset: nat, key: Bytes)
    requires Laid(hash, result, offsets, filters) && |result| < 0x1_0000_0000 && AllWords(offsets + [|result|])
    requires FilterIndex(offset) < |filters| && key in filters[FilterIndex(offset)]
    ensures FilterSays(hash, result + Fixed32s(offsets + [|result|]) + [BASE_LG], offset, key)
  {
    FilterReadsBack(hash, result, offsets, filters, FilterIndex(offset), key);
    Trailer(hash, result, offsets, result + Fixed32s(offsets + [|result|]) + [BASE_LG], offset, key);
  }

  /** The last five bytes lead to the array of offsets. */
  lemma Trailer(hash: HashFunction, result: Bytes, offsets: seq<nat>, contents: Bytes, offset: nat, key: Bytes)
    requires |result| < 0x1_0000_0000 && AllWords(offsets + [|result|])
    requires contents == result + Fixed32s(offsets + [|result|]) + [BASE_LG]
    requires FilterIndex(offset) < |offsets| ==> SliceSays(hash, contents, |result|, FilterIndex(offset), key)
    ensures FilterSays(hash, contents, offset, key)
  {
    Fixed32sDecode(result, offsets + [|result|], [BASE_LG], |offsets|);
    assert |contents| - 5 == |result| + 4 * |offsets|;
    ShiftByBase(offset);
  }

  lemma ShiftByBase(offset: nat)
    ensures ShiftRight(offset, 11) == FilterIndex(offset)
  {
    var x1 := offset / 2;
    var x2 := x1 / 2;
    var x3 := x2 / 2;
    var x4 := x3 / 2;
    assert x4 == offset / 16 && ShiftRight(offset, 11) == ShiftRight(x4, 7);
    var y1 := x4 / 2;
    var y2 := y1 / 2;
    var y3 := y2 / 2;
    var y4 := y3 / 2;
    assert y4 == x4 / 16 && ShiftRight(x4, 7) == ShiftRight(y4, 3);
    assert ShiftRight(y4, 3) == y4 / 8;
  }
}
