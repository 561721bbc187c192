/** Reading a block: a cursor over its pairs that decodes forwards from restart points
    and goes back by scanning again. Any bytes may be read; what is read back is what
    was built when the bytes are a block that `BlockBuilders` made. */
module BlockIters {
  import opened Keys
  import opened Coding
  import opened Varints
  import opened BlockFormat

  /** The order of the comparator, as ranks. */
  type Comparator = Bytes -> UserKey

  ghost predicate KeysAscend(rank: Comparator, kvs: seq<Pair>) {
    forall i, j :: 0 <= i < j < |kvs| ==> rank(kvs[i].key) < rank(kvs[j].key)
  }

  /** `p` is the first pair whose key is not before `target`. */
  ghost predicate LowerBound(rank: Comparator, kvs: seq<Pair>, target: Bytes, p: nat) {
    && p <= |kvs|
    && (forall i :: 0 <= i < p ==> rank(kvs[i].key) < rank(target))
    && (forall i :: p <= i < |kvs| ==> rank(target) <= rank(kvs[i].key))
  }

  ghost predicate AllBelow(rank: Comparator, kvs: seq<Pair>, target: Bytes, p: nat) {
    forall i :: 0 <= i < p && i < |kvs| ==> rank(kvs[i].key) < rank(target)
  }

  class BlockIter {
    const rank: Comparator
    const data: Bytes
    const restarts: nat       // where the restart array starts
    const numRestarts: nat
    ghost const layout: Option<Layout>   // what the bytes are, if they are a block
    var current: nat
    var restartIndex: nat
    var key: Bytes
    var valueStart: nat
    var valueSize: nat
    var corrupt: bool
    ghost var pos: nat        // the pair stood at, in a block

    /** What the bytes are taken to be. */
    ghost predicate Bounds() {
      && numRestarts > 0 && |data| == restarts + 4 * numRestarts + 4
      && (layout.Some? ==> IsBlock(data, layout.value) && restarts == layout.value.offsets[|layout.value.kvs|]
                           && numRestarts == |layout.value.restarts|)
    }

    /** True on any bytes: a valid cursor stays inside the entries. */
    ghost predicate Shape()
      reads this
    {
      Bounds() && (current < restarts ==> restartIndex < numRestarts && current < NextEntryOffset() <= restarts)
    }

    function NextEntryOffset(): nat
      reads `valueStart, `valueSize
    {
      valueStart + valueSize
    }

    predicate Valid()
      reads `current
    {
      current < restarts
    }

    function Value(): Bytes
      requires Shape() && Valid()
      reads this
    {
      data[valueStart..NextEntryOffset()]
    }

    ghost function Kvs(): seq<Pair>
      requires layout.Some?
    {
      layout.value.kvs
    }

    /** The cursor stands at pair `p`, or past the end. */
    ghost predicate Stands(p: nat)
      requires Shape() && layout.Some?
      reads this
    {
      var l := layout.value;
      && p <= |Kvs()| && current == l.offsets[p]
      && (p < |Kvs()| ==> current < restarts && AtPair(p))
    }

    ghost predicate AtPair(p: nat)
      requires Shape() && Valid() && layout.Some? && p < |Kvs()|
      reads this
    {
      var l := layout.value;
      && key == l.kvs[p].key && Value() == l.kvs[p].value && NextEntryOffset() == l.offsets[p + 1]
      && l.restarts[restartIndex] <= p
    }

    /** Everything a cursor over a block keeps. */
    ghost predicate Ok()
      reads this
    {
      Shape() && (layout.Some? ==> Stands(pos) && !corrupt)
    }

    /** What the cursor shows. */
    function Current(): Pair
      requires Shape() && Valid()
      reads this
    {
      Pair(key, Value())
    }

    lemma ShowsPair()
      requires Ok() && Valid() && layout.Some?
      ensures pos < |Kvs()| && Current() == Kvs()[pos]
    {
    }

    lemma PositionInRange()
      requires Ok() && layout.Some?
      ensures pos <= |Kvs()| && (pos < |Kvs()| <==> Valid())
    {
    }

    /** The next parse will find pair `q`. */
    ghost predicate About(q: nat)
      requires Bounds() && layout.Some?
      reads this
    {
      var l := layout.value;
      && q <= |Kvs()| && NextEntryOffset() == l.offsets[q] && restartIndex < numRestarts && l.restarts[restartIndex] <= q
      && (q < |Kvs()| ==> SharesPrefix(key, l.kvs[q].key, l.shared[q]) || l.shared[q] == 0)
    }

    function GetRestartPoint(index: nat): nat
      requires Bounds() && index < numRestarts
    {
      WordAt(data, restarts, index)
    }

    method SeekToRestartPoint(index: nat)
      requires Bounds() && index < numRestarts
      modifies `restartIndex, `key, `valueStart, `valueSize
      ensures NextEntryOffset() == GetRestartPoint(index) && restartIndex == index && key == []
      ensures layout.Some? ==> About(layout.value.restarts[index])
    {
      key := [];
      restartIndex := index;
      // Parsing starts at the end of the value
      valueStart, valueSize := GetRestartPoint(index), 0;
    }

    method CorruptionError()
      requires Bounds()
      modifies `current, `restartIndex, `key, `valueStart, `valueSize, `corrupt
      ensures Shape() && !Valid() && corrupt
    {
      current, restartIndex := restarts, numRestarts;
      corrupt := true;
      key, valueStart, valueSize := [], 0, 0;
    }

    /** What the header at pair `q` says. */
    lemma HeaderOfPair(q: nat)
      requires Bounds() && layout.Some? && q < |Kvs()|
      ensures var l := layout.value;
              && l.offsets[q] < l.offsets[q + 1] <= restarts && DecodeHeader(data, l.offsets[q], restarts).Some?
              && var h := DecodeHeader(data, l.offsets[q], restarts).value;
                 && h.shared == l.shared[q] <= |l.kvs[q].key| && data[h.start..h.start + h.nonShared] == l.kvs[q].key[h.shared..]
                 && data[h.start + h.nonShared..h.start + h.nonShared + h.valueLength] == l.kvs[q].value
                 && h.start + h.nonShared + h.valueLength == l.offsets[q + 1]
    {
      assert EntryIsAt(data, restarts, layout.value, q);
    }

    /** Move the restart index up to the restart point at or before the entry. */
    method CatchUp(ghost q: nat)
      requires Bounds() && restartIndex < numRestarts
      modifies `restartIndex
      ensures restartIndex < numRestarts
      ensures old(BehindPair(q)) ==> BehindPair(q)
    {
      while restartIndex + 1 < numRestarts && GetRestartPoint(restartIndex + 1) < current
        invariant restartIndex < numRestarts
        invariant old(BehindPair(q)) ==> BehindPair(q)
      {
        restartIndex := restartIndex + 1;
      }
    }

    /** The entry is pair `q`, and its restart point is not after it. */
    ghost predicate BehindPair(q: nat)
      requires Bounds()
      reads `current, `restartIndex
    {
      && layout.Some? && q <= |Kvs()| && current == layout.value.offsets[q]
      && restartIndex < numRestarts && layout.value.restarts[restartIndex] <= q
    }

    method ParseNextKey(ghost q: nat) returns (ok: bool)
      requires Bounds() && restartIndex < numRestarts
      modifies `current, `restartIndex, `key, `valueStart, `valueSize, `corrupt
      ensures Shape() && ok == Valid() && (ok ==> current == old(NextEntryOffset()))
      ensures layout.Some? && old(About(q)) ==> ok == (q < |Kvs()|) && Stands(q) && corrupt == old(corrupt)
    {
      current := NextEntryOffset();
      if current >= restarts {
        // No more entries to return
        current, restartIndex := restarts, numRestarts;
        return false;
      }
      ok := DecodeHere(q);
      if ok {
        CatchUp(q);
      }
    }

    lemma KeyRebuilt(before: Bytes, next: Bytes, shared: nat)
      requires shared <= |next| && (SharesPrefix(before, next, shared) || shared == 0)
      ensures shared <= |before| && before[..shared] + next[shared..] == next
    {
    }

    /** Decode the entry at `current`, or find it corrupt. */
    method DecodeHere(ghost q: nat) returns (ok: bool)
      requires Bounds() && restartIndex < numRestarts && current < restarts && current == NextEntryOffset()
      modifies `current, `restartIndex, `key, `valueStart, `valueSize, `corrupt
      ensures Shape() && ok == Valid() && (ok ==> current == old(current))
      ensures layout.Some? && old(About(q)) ==>
                && ok && q < |Kvs()| && corrupt == old(corrupt) && restartIndex == old(restartIndex)
                && key == Kvs()[q].key && Value() == Kvs()[q].value && NextEntryOffset() == layout.value.offsets[q + 1]
    {
      if layout.Some? && About(q) {
        HeaderOfPair(q);
        KeyRebuilt(key, Kvs()[q].key, layout.value.shared[q]);
      }
      var header := DecodeEntry(data, current, restarts);
      if header == None || |key| < header.value.shared {
        CorruptionError();
        return false;
      }
      var h := header.value;
      key := key[..h.shared] + data[h.start..h.start + h.nonShared];
      valueStart, valueSize := h.start + h.nonShared, h.valueLength;
      ok := true;
    }

    constructor (rank: Comparator, data: Bytes, restarts: nat, numRestarts: nat, ghost layout: Option<Layout>)
      requires numRestarts > 0 && |data| == restarts + 4 * numRestarts + 4
      requires layout.Some? ==> IsBlock(data, layout.value) && restarts == layout.value.offsets[|layout.value.kvs|]
                                && numRestarts == |layout.value.restarts|
      ensures Ok() && !Valid() && this.rank == rank && this.data == data && this.layout == layout
    {
      this.rank, this.data, this.restarts, this.numRestarts, this.layout := rank, data, restarts, numRestarts, layout;
      current, restartIndex, key, valueStart, valueSize, corrupt := restarts, numRestarts, [], 0, 0, false;
      pos := if layout.Some? then |layout.value.kvs| else 0;
    }

    /** Parse on from a valid position. */
    method ParseOn() returns (ok: bool)
      requires Ok() && Valid()
      modifies this
      ensures Ok() && ok == Valid() && (ok ==> current > old(current)) && (layout.Some? ==> pos == old(pos) + 1)
    {
      ok := ParseNextKey(pos + 1);
      pos := pos + 1;
    }

    method Next()
      requires Ok() && Valid()
      modifies this
      ensures Ok() && (Valid() ==> current > old(current)) && (layout.Some? ==> pos == old(pos) + 1)
    {
      var _ := ParseOn();
    }

    /** Offsets compare as positions do, those of restart points included. */
    lemma OffsetsOrder(i: nat, j: nat)
      requires Bounds() && layout.Some? && i <= |Kvs()| && j <= |Kvs()|
      ensures layout.value.offsets[i] < layout.value.offsets[j] <==> i < j
    {
    }

    lemma RestartsOrder(index: nat)
      requires Bounds() && layout.Some? && index < numRestarts
      ensures GetRestartPoint(index) == layout.value.offsets[layout.value.restarts[index]]
      ensures layout.value.restarts[index] <= |Kvs()| && (Kvs() != [] ==> layout.value.restarts[index] < |Kvs()|)
      ensures index > 0 ==> layout.value.restarts[index - 1] < layout.value.restarts[index]
      ensures index == 0 ==> layout.value.restarts[index] == 0
    {
    }

    /** The last restart point before the entry, if it is not the first entry. */
    method BackUp() returns (found: bool)
      requires Ok() && Valid()
      modifies `restartIndex
      ensures restartIndex < numRestarts
      ensures layout.Some? ==> found == (pos > 0) && (found ==> layout.value.restarts[restartIndex] < pos)
    {
      var original := current;
      while GetRestartPoint(restartIndex) >= original
        invariant restartIndex < numRestarts
        invariant layout.Some? ==> layout.value.restarts[restartIndex] <= pos
        decreases restartIndex
      {
        if layout.Some? {
          RestartsOrder(restartIndex);
          OffsetsOrder(layout.value.restarts[restartIndex], pos);
        }
        if restartIndex == 0 {
          return false;
        }
        restartIndex := restartIndex - 1;
      }
      if layout.Some? {
        RestartsOrder(restartIndex);
        OffsetsOrder(layout.value.restarts[restartIndex], pos);
      }
      found := true;
    }

    /** The first parse after a jump to a restart point. */
    method ParseFirst(ghost q: nat) returns (ok: bool)
      requires Bounds() && restartIndex < numRestarts && (layout.Some? ==> About(q) && !corrupt)
      modifies this
      ensures Ok() && ok == Valid() && (layout.Some? ==> pos == q && (ok <==> q < |Kvs()|))
    {
      pos := q;
      ok := ParseNextKey(q);
    }

    /** Parse on until the end of the entry hits `limit`, where pair `target` starts. */
    method ScanOn(limit: nat, ghost target: nat)
      requires Ok()
      requires layout.Some? ==> target <= |Kvs()| && limit == layout.value.offsets[target] && (pos < target || Kvs() == [])
      modifies this
      ensures Ok() && (layout.Some? ==> pos == if target == 0 then 0 else target - 1)
    {
      while Valid() && NextEntryOffset() < limit
        invariant Ok() && (layout.Some? ==> pos < target || Kvs() == [])
        decreases if Valid() then restarts + 1 - current else 0
      {
        if layout.Some? { OffsetsOrder(pos + 1, target); }
        var _ := ParseOn();
      }
      if layout.Some? && Valid() { OffsetsOrder(pos + 1, target); }
    }

    method ScanTo(limit: nat, ghost from: nat, ghost target: nat)
      requires Bounds() && restartIndex < numRestarts
      requires layout.Some? ==> About(from) && !corrupt && target <= |Kvs()| && limit == layout.value.offsets[target]
                                && (from < target || Kvs() == [])
      modifies this
      ensures Ok() && (layout.Some? ==> pos == if target == 0 then 0 else target - 1)
    {
      var _ := ParseFirst(from);
      ScanOn(limit, target);
    }

    /** Back up to a restart point before the entry, and forward to the entry just before it. */
    method Prev()
      requires Ok() && Valid()
      modifies this
      ensures Ok() && (layout.Some? ==> pos == if old(pos) == 0 then |Kvs()| else old(pos) - 1)
    {
      var original := current;
      var found := BackUp();
      if !found {
        // No more entries
        current, restartIndex := restarts, numRestarts;
        pos := if layout.Some? then |Kvs()| else 0;
        return;
      }
      SeekToRestartPoint(restartIndex);
      ScanTo(original, if layout.Some? then layout.value.restarts[restartIndex] else 0, pos);
    }

    method SeekToFirst()
      requires Ok()
      modifies this
      ensures Ok() && (layout.Some? ==> pos == 0)
    {
      SeekToRestartPoint(0);
      var _ := ParseFirst(0);
    }

    method SeekToLast()
      requires Ok()
      modifies this
      ensures Ok() && (layout.Some? ==> pos == if Kvs() == [] then 0 else |Kvs()| - 1)
    {
      if layout.Some? { RestartsOrder(numRestarts - 1); }
      SeekToRestartPoint(numRestarts - 1);
      ScanTo(restarts, if layout.Some? then layout.value.restarts[numRestarts - 1] else 0, if layout.Some? then |Kvs()| else 0);
    }

    /** The key at restart point `index` comes before the target. */
    ghost predicate RestartBelow(index: nat, target: Bytes)
      requires Bounds() && layout.Some? && index < numRestarts
    {
      layout.value.restarts[index] < |Kvs()| && rank(Kvs()[layout.value.restarts[index]].key) < rank(target)
    }

    /** Whether the key at a restart point comes before the target, or the entry there is bad. */
    method RestartKeyBelow(index: nat, target: Bytes) returns (below: Option<bool>)
      requires Bounds() && index < numRestarts
      ensures layout.Some? && Kvs() != [] ==> below == Some(RestartBelow(index, target))
    {
      if layout.Some? && Kvs() != [] {
        RestartsOrder(index);
        HeaderOfPair(layout.value.restarts[index]);
      }
      var header := DecodeEntry(data, GetRestartPoint(index), restarts);
      if header == None || header.value.shared != 0 {
        return None;
      }
      var midKey := data[header.value.start..header.value.start + header.value.nonShared];
      below := Some(rank(midKey) < rank(target));
    }

    /** Binary search for the last restart point with a key before the target. */
    method FindRestart(target: Bytes) returns (left: Option<nat>)
      requires Bounds()
      ensures left.Some? ==> left.value < numRestarts
      ensures layout.Some? ==> left.Some? && (left.value > 0 ==> RestartBelow(left.value, target))
    {
      var lo: nat, hi: nat := 0, numRestarts - 1;
      if layout.Some? && Kvs() == [] { RestartsOrder(numRestarts - 1); }
      while lo < hi
        invariant lo <= hi < numRestarts
        invariant layout.Some? && lo > 0 ==> RestartBelow(lo, target)
      {
        var mid := (lo + hi + 1) / 2;
        if layout.Some? { RestartsOrder(mid); }
        var below := RestartKeyBelow(mid, target);
        if below == None {
          return None;
        }
        if below.value {
          lo := mid;
        } else {
          hi := mid - 1;
        }
      }
      left := Some(lo);
    }

    /** In a sorted block, no pair before the cursor is at or after the target. */
    ghost predicate Passed(target: Bytes)
      reads `pos
    {
      layout.Some? && KeysAscend(rank, Kvs()) ==> AllBelow(rank, Kvs(), target, pos)
    }

    /** One pair on, if the one stood at is below the target. */
    method PassOne(target: Bytes) returns (more: bool)
      requires Ok() && Valid() && Passed(target) && rank(key) < rank(target)
      modifies this
      ensures Ok() && Passed(target) && more == Valid() && (more ==> current > old(current))
    {
      if layout.Some? { ShowsPair(); }
      more := ParseOn();
    }

    lemma Found(target: Bytes)
      requires Ok() && layout.Some? && KeysAscend(rank, Kvs()) && AllBelow(rank, Kvs(), target, pos)
      requires Valid() ==> rank(target) <= rank(key)
      ensures LowerBound(rank, Kvs(), target, pos)
    {
      PositionInRange();
      if Valid() {
        ShowsPair();
      }
    }

    method LinearSearch(target: Bytes)
      requires Ok() && Passed(target)
      modifies this
      ensures Ok() && (layout.Some? && KeysAscend(rank, Kvs()) ==> LowerBound(rank, Kvs(), target, pos))
    {
      while Valid() && rank(key) < rank(target)
        invariant Ok() && Passed(target)
        decreases if Valid() then restarts + 1 - current else 0
      {
        var _ := PassOne(target);
      }
      if layout.Some? && KeysAscend(rank, Kvs()) { Found(target); }
    }

    lemma RestartPasses(index: nat, target: Bytes)
      requires Bounds() && layout.Some? && index < numRestarts && KeysAscend(rank, Kvs())
      requires index > 0 ==> RestartBelow(index, target)
      ensures AllBelow(rank, Kvs(), target, layout.value.restarts[index])
    {
      RestartsOrder(index);
    }

    /** The first pair at or after the target: the restart point by binary search, the rest
        by scanning. */
    method Seek(target: Bytes)
      requires Ok()
      modifies this
      ensures Ok() && (layout.Some? && KeysAscend(rank, Kvs()) ==> LowerBound(rank, Kvs(), target, pos))
    {
      var left := FindRestart(target);
      if left == None {
        CorruptionError();
        return;
      }
      SeekToRestartPoint(left.value);
      if layout.Some? && KeysAscend(rank, Kvs()) { RestartPasses(left.value, target); }
      var _ := ParseFirst(if layout.Some? then layout.value.restarts[left.value] else 0);
      LinearSearch(target);
    }
  }

  /** What opening a block gives: an error, a cursor over nothing, or a cursor. */
  datatype Opened = Bad | Empty | Open(iter: BlockIter)

  /** Check the number of restart points against the size, and place a cursor past the end. */
  method OpenBlock(rank: Comparator, data: Bytes, ghost layout: Option<Layout>) returns (r: Opened)
    requires layout.Some? ==> IsBlock(data, layout.value)
    ensures r.Open? ==> fresh(r.iter) && r.iter.Ok() && !r.iter.Valid() && r.iter.data == data && r.iter.rank == rank && r.iter.layout == layout
    ensures layout.Some? ==> r.Open?
  {
    if |data| < 4 {
      return Bad;
    }
    var numRestarts := DecodeFixed32(data[|data| - 4..]);
    if layout.Some? { CountIsStored(data, layout.value); }
    if numRestarts > (|data| - 4) / 4 {
      // The size is too small
      return Bad;
    }
    if numRestarts == 0 {
      return Empty;
    }
    var iter := new BlockIter(rank, data, |data| - (1 + numRestarts) * 4, numRestarts, layout);
    r := Open(iter);
  }

  lemma CountIsStored(data: Bytes, l: Layout)
    requires IsBlock(data, l)
    ensures |data| >= 8 && DecodeFixed32(data[|data| - 4..]) == |l.restarts| > 0
    ensures l.offsets[|l.kvs|] == |data| - (1 + |l.restarts|) * 4
  {
    var limit := l.offsets[|l.kvs|];
    assert limit + 4 * |l.restarts| == |data| - 4;
    assert WordAt(data, limit, |l.restarts|) == DecodeFixed32(data[|data| - 4..]);
  }
}
