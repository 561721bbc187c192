/** Building a block: keys share prefixes with the key before, except at restart points. */
module BlockBuilders {
  import opened Keys
  import opened Coding
  import opened Varints
  import opened BlockFormat

  /** Entry `i` was appended where the layout says. */
  ghost predicate WrittenAt(buffer: Bytes, l: Layout, i: nat)
    requires LayoutOk(l) && i < |l.kvs|
  {
    && l.offsets[i] < l.offsets[i + 1] <= |buffer|
    && ReadsAsEntry(buffer[l.offsets[i]..l.offsets[i + 1]], l.shared[i], l.kvs[i].key[l.shared[i]..], l.kvs[i].value)
  }

  ghost predicate Written(buffer: Bytes, l: Layout) {
    LayoutOk(l) && |buffer| == l.offsets[|l.kvs|] && forall i :: 0 <= i < |l.kvs| ==> WrittenAt(buffer, l, i)
  }

  /** The layout with one more entry. */
  ghost function Extend(l: Layout, kv: Pair, shared: nat, isRestart: bool, end: nat): Layout {
    Layout(l.kvs + [kv], l.offsets + [end], l.shared + [shared], if isRestart then l.restarts + [|l.kvs|] else l.restarts)
  }

  lemma ExtendRestarts(restarts: seq<nat>, shared: seq<nat>, x: nat, isRestart: bool)
    requires RestartsOk(restarts, shared) && (shared == [] ==> x == 0)
    requires isRestart ==> x == 0 && restarts[|restarts| - 1] < |shared|
    ensures RestartsOk(if isRestart then restarts + [|shared|] else restarts, shared + [x])
  {
  }

  lemma ExtendSharing(kvs: seq<Pair>, shared: seq<nat>, kv: Pair, x: nat)
    requires |shared| == |kvs| && SharingOk(kvs, shared) && x <= |kv.key|
    requires kvs != [] ==> SharesPrefix(kvs[|kvs| - 1].key, kv.key, x)
    ensures SharingOk(kvs + [kv], shared + [x])
  {
  }

  lemma ExtendOffsets(offsets: seq<nat>, end: nat)
    requires offsets != [] && Ascend(offsets) && offsets[|offsets| - 1] < end
    ensures Ascend(offsets + [end])
  {
  }

  lemma ExtendOk(l: Layout, kv: Pair, shared: nat, isRestart: bool, end: nat)
    requires LayoutOk(l) && l.offsets[|l.kvs|] < end && shared <= |kv.key|
    requires if l.kvs == [] then shared == 0 else SharesPrefix(l.kvs[|l.kvs| - 1].key, kv.key, shared)
    requires isRestart ==> shared == 0 && l.restarts[|l.restarts| - 1] < |l.kvs|
    ensures LayoutOk(Extend(l, kv, shared, isRestart, end))
  {
    ExtendRestarts(l.restarts, l.shared, shared, isRestart);
    ExtendSharing(l.kvs, l.shared, kv, shared);
    ExtendOffsets(l.offsets, end);
  }

  lemma EntryAppended(buffer: Bytes, l: Layout, kv: Pair, shared: nat, isRestart: bool, bytes: Bytes)
    requires Written(buffer, l) && shared <= |kv.key| && ReadsAsEntry(bytes, shared, kv.key[shared..], kv.value)
    requires LayoutOk(Extend(l, kv, shared, isRestart, |buffer + bytes|))
    ensures Written(buffer + bytes, Extend(l, kv, shared, isRestart, |buffer + bytes|))
  {
    var l2, all := Extend(l, kv, shared, isRestart, |buffer + bytes|), buffer + bytes;
    forall i | 0 <= i < |l2.kvs|
      ensures WrittenAt(all, l2, i)
    {
      if i < |l.kvs| {
        assert WrittenAt(buffer, l, i);
        assert all[l.offsets[i]..l.offsets[i + 1]] == buffer[l.offsets[i]..l.offsets[i + 1]];
      } else {
        assert all[|buffer|..|all|] == bytes;
      }
    }
  }

  lemma RestartAppended(restarts: seq<nat>, l: Layout, kv: Pair, shared: nat, isRestart: bool, end: nat)
    requires LayoutOk(l) && RestartsAre(restarts, l) && LayoutOk(Extend(l, kv, shared, isRestart, end))
    ensures RestartsAre(if isRestart then restarts + [l.offsets[|l.kvs|]] else restarts, Extend(l, kv, shared, isRestart, end))
  {
  }

  /** The offsets kept are those of the restart points. */
  ghost predicate RestartsAre(restarts: seq<nat>, l: Layout)
    requires LayoutOk(l)
  {
    && |restarts| == |l.restarts|
    && forall j :: 0 <= j < |restarts| ==> 0 <= l.restarts[j] <= |l.kvs| && restarts[j] == l.offsets[l.restarts[j]]
  }

  lemma RestartsFit(restarts: seq<nat>, l: Layout, size: nat)
    requires LayoutOk(l) && RestartsAre(restarts, l) && l.offsets[|l.kvs|] == size
    ensures forall j :: 0 <= j < |restarts| ==> restarts[j] <= size
  {
  }

  /** The fields of a builder that has laid out its entries as `l` says. */
  ghost predicate Built(buffer: Bytes, restarts: seq<nat>, counter: nat, lastKey: Bytes, l: Layout, interval: nat) {
    && Written(buffer, l) && RestartsAre(restarts, l)
    && lastKey == (if l.kvs == [] then [] else l.kvs[|l.kvs| - 1].key)
    && counter <= interval && counter == |l.kvs| - l.restarts[|l.restarts| - 1]
  }

  lemma EntryAdded(buffer: Bytes, restarts: seq<nat>, counter: nat, lastKey: Bytes, l: Layout, interval: nat,
                   kv: Pair, shared: nat, bytes: Bytes, restarts2: seq<nat>, counter2: nat) returns (l2: Layout)
    requires Built(buffer, restarts, counter, lastKey, l, interval) && interval >= 1
    requires SharesPrefix(lastKey, kv.key, shared) && (counter == interval ==> shared == 0)
    requires ReadsAsEntry(bytes, shared, kv.key[shared..], kv.value)
    requires if counter == interval then restarts2 == restarts + [|buffer|] && counter2 == 1
             else restarts2 == restarts && counter2 == counter + 1
    ensures Built(buffer + bytes, restarts2, counter2, kv.key, l2, interval) && l2.kvs == l.kvs + [kv]
    ensures l2.shared == l.shared + [shared] && l2.restarts == if counter == interval then l.restarts + [|l.kvs|] else l.restarts
  {
    var isRestart := counter == interval;
    l2 := Extend(l, kv, shared, isRestart, |buffer + bytes|);
    ExtendOk(l, kv, shared, isRestart, |buffer + bytes|);
    EntryAppended(buffer, l, kv, shared, isRestart, bytes);
    RestartAppended(restarts, l, kv, shared, isRestart, |buffer + bytes|);
  }

  class BlockBuilder {
    const interval: nat
    var buffer: Bytes
    var restarts: seq<nat>
    var counter: nat
    var finished: bool
    var lastKey: Bytes
    ghost var layout: Layout

    ghost predicate Ok()
      reads this
    {
      interval >= 1 && !finished && Built(buffer, restarts, counter, lastKey, layout, interval)
    }

    constructor (interval: nat)
      requires interval >= 1
      ensures Ok() && layout.kvs == [] && this.interval == interval && |buffer| == 0 && |restarts| == 1
    {
      this.interval := interval;
      buffer, restarts, counter, finished, lastKey := [], [0], 0, false, [];
      layout := Layout([], [0], [], [0]);
    }

    method Reset()
      requires interval >= 1
      modifies this
      ensures Ok() && layout.kvs == [] && |buffer| == 0 && |restarts| == 1
    {
      buffer, restarts, counter, finished, lastKey := [], [0], 0, false, [];
      layout := Layout([], [0], [], [0]);
    }

    /** How much of `key` the entry takes from the key before. */
    method Sharing(key: Bytes) returns (shared: nat)
      requires Ok()
      ensures SharesPrefix(lastKey, key, shared) && (counter == interval ==> shared == 0)
      ensures counter < interval ==> shared == |lastKey| || shared == |key| || lastKey[shared] != key[shared]
    {
      shared := 0;
      if counter < interval {
        // See how much sharing to do with previous string
        var minLength := if |lastKey| < |key| then |lastKey| else |key|;
        while shared < minLength && lastKey[shared] == key[shared]
          invariant SharesPrefix(lastKey, key, shared)
        {
          shared := shared + 1;
        }
      }
    }

    /** One more entry: behind `interval` entries a restart point, else as much of the key
        before is shared as there is. */
    method Add(key: Bytes, value: Bytes) returns (ghost shared: nat)
      requires Ok() && |key| < 0x1_0000_0000 && |value| < 0x1_0000_0000
      modifies this
      ensures Ok() && layout.kvs == old(layout).kvs + [Pair(key, value)]
      ensures layout.shared == old(layout.shared) + [shared]
      ensures if old(counter) == interval then shared == 0 && layout.restarts == old(layout.restarts) + [|old(layout.kvs)|]
              else && SharesPrefix(old(lastKey), key, shared)
                   && (shared == |old(lastKey)| || shared == |key| || old(lastKey)[shared] != key[shared])
                   && layout.restarts == old(layout.restarts)
      ensures |buffer| <= |old(buffer)| + |key| + |value| + 15 && |restarts| <= |old(restarts)| + 1
    {
      ghost var l := layout;
      var sharing := Sharing(key);
      shared := sharing;
      ghost var bytes := Append(sharing, key, value);
      layout := EntryAdded(old(buffer), old(restarts), old(counter), old(lastKey), l, interval, Pair(key, value), sharing, bytes,
                           restarts, counter);
    }

    /** The entry goes to the buffer, at a restart point if it is time for one. */
    method Append(sharing: nat, key: Bytes, value: Bytes) returns (ghost bytes: Bytes)
      requires SharesPrefix(lastKey, key, sharing) && |key| < 0x1_0000_0000 && |value| < 0x1_0000_0000
      modifies `buffer, `restarts, `counter, `lastKey
      ensures ReadsAsEntry(bytes, sharing, key[sharing..], value) && |bytes| <= |key| + |value| + 15
      ensures buffer == old(buffer) + bytes && lastKey == key
      ensures if old(counter) == interval then restarts == old(restarts) + [|old(buffer)|] && counter == 1
              else restarts == old(restarts) && counter == old(counter) + 1
    {
      var entry := AppendEntry(sharing, key[sharing..], value);
      bytes := entry;
      if counter == interval {
        // Restart compression
        restarts := restarts + [|buffer|];
        counter := 0;
      }
      buffer := buffer + entry;
      lastKey := Resized(lastKey, key, sharing);
      counter := counter + 1;
    }

    /** The size of the block if it were finished now. */
    function CurrentSizeEstimate(): nat
      reads this
    {
      |buffer| + 4 * |restarts| + 4
    }

    /** Appends the restart array and its length. */
    method Finish() returns (data: Bytes)
      requires Ok() && |buffer| < 0x1_0000_0000 && |restarts| < 0x1_0000_0000
      modifies this`buffer, this`finished
      ensures finished && data == buffer && IsBlock(data, layout) && |data| == old(CurrentSizeEstimate())
    {
      ghost var entries := buffer;
      RestartsFit(restarts, layout, |buffer|);
      var points := PutFixed32s(restarts);
      buffer := buffer + points;
      buffer := buffer + Fixed32(|restarts|);
      finished := true;
      data := buffer;
      FinishedBlock(entries, layout, restarts);
    }
  }

  lemma FinishedBlock(entries: Bytes, l: Layout, restarts: seq<nat>)
    requires Written(entries, l) && RestartsAre(restarts, l) && |entries| < 0x1_0000_0000 && |restarts| < 0x1_0000_0000
    requires AllWords(restarts)
    ensures IsBlock(entries + Fixed32s(restarts) + Fixed32(|restarts|), l)
  {
    ArrayIsReadable(entries, restarts, Fixed32(|restarts|));
    CountDecodes(entries + Fixed32s(restarts), |restarts|);
    BlockIsReadable(entries, l, restarts, Fixed32s(restarts), Fixed32(|restarts|));
  }

  /** The last key cut to the shared part, and the rest of the new key. */
  function Resized(lastKey: Bytes, key: Bytes, shared: nat): (r: Bytes)
    requires SharesPrefix(lastKey, key, shared)
    ensures r == key
  {
    lastKey[..shared] + key[shared..]
  }

  method AppendEntry(shared: Word, delta: Bytes, value: Bytes) returns (bytes: Bytes)
    requires |delta| < 0x1_0000_0000 && |value| < 0x1_0000_0000
    ensures ReadsAsEntry(bytes, shared, delta, value) && |bytes| <= |delta| + |value| + 15
  {
    VarintLength(shared);
    VarintLength(|delta|);
    VarintLength(|value|);
    var a := EncodeVarint32(shared);
    var b := EncodeVarint32(|delta|);
    var c := EncodeVarint32(|value|);
    bytes := a + b + c + delta + value;
    EntryBytesRead(shared, delta, value);
  }

  lemma EntryIsReadable(entries: Bytes, l: Layout, tail: Bytes, i: nat)
    requires Written(entries, l) && i < |l.kvs|
    ensures EntryIsAt(entries + tail, |entries|, l, i)
  {
    assert WrittenAt(entries, l, i);
    assert i + 1 < |l.kvs| ==> l.offsets[i + 1] < l.offsets[|l.kvs|];
    var bytes := entries[l.offsets[i]..l.offsets[i + 1]];
    assert (entries + tail)[l.offsets[i]..l.offsets[i + 1]] == bytes;
    assert Fits(bytes, entries + tail, l.offsets[i], |entries|);
  }

  lemma CountDecodes(front: Bytes, n: Word)
    ensures DecodeFixed32((front + Fixed32(n))[|front|..]) == n
  {
    assert (front + Fixed32(n))[|front|..] == Fixed32(n) + [];
    Fixed32RoundTrip(n, []);
  }

  lemma ArrayIsReadable(entries: Bytes, restarts: seq<nat>, tail: Bytes)
    requires AllWords(restarts)
    ensures forall j :: 0 <= j < |restarts| ==> WordAt(entries + Fixed32s(restarts) + tail, |entries|, j) == restarts[j]
  {
    forall j | 0 <= j < |restarts|
      ensures WordAt(entries + Fixed32s(restarts) + tail, |entries|, j) == restarts[j]
    {
      Fixed32sDecode(entries, restarts, tail, j);
    }
  }

  /** What `Finish` leaves is a well-formed block. */
  lemma BlockIsReadable(entries: Bytes, l: Layout, restarts: seq<nat>, points: Bytes, count: Bytes)
    requires Written(entries, l) && RestartsAre(restarts, l) && |points| == 4 * |restarts| && |count| == 4
    requires forall j :: 0 <= j < |restarts| ==> WordAt(entries + points + count, |entries|, j) == restarts[j]
    requires DecodeFixed32((entries + points + count)[|entries + points|..]) == |restarts|
    ensures IsBlock(entries + points + count, l)
  {
    assert entries + points + count == entries + (points + count);
    forall i | 0 <= i < |l.kvs|
      ensures EntryIsAt(entries + points + count, |entries|, l, i)
    {
      EntryIsReadable(entries, l, points + count, i);
    }
  }
}
