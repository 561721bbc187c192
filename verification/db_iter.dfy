/** The user's cursor: it hides sequence numbers, overwritten values and deletion
    markers of an internal cursor, and moves in both directions. */
module DBIterators {
  import opened Keys
  import opened Entries
  import opened Cursors
  import opened InternalIterators

  datatype Direction = Forward | Reverse

  // ---- Positions in the user's map ----

  /** `cur` is the least key of `v` that `pick` admits, or there is none. */
  ghost predicate IsLeast(v: map<UserKey, Bytes>, pick: UserKey -> bool, cur: Option<UserKey>) {
    match cur
    case None => forall u :: u in v ==> !pick(u)
    case Some(k) => k in v && pick(k) && forall u :: u in v && pick(u) ==> k <= u
  }

  /** `cur` is the greatest key of `v` that `pick` admits, or there is none. */
  ghost predicate IsGreatest(v: map<UserKey, Bytes>, pick: UserKey -> bool, cur: Option<UserKey>) {
    match cur
    case None => forall u :: u in v ==> !pick(u)
    case Some(k) => k in v && pick(k) && forall u :: u in v && pick(u) ==> u <= k
  }

  ghost function AnyKey(): UserKey -> bool { _ => true }
  ghost function AtLeast(k: UserKey): UserKey -> bool { u => k <= u }
  ghost function Above(k: UserKey): UserKey -> bool { u => k < u }
  ghost function Below(k: UserKey): UserKey -> bool { u => u < k }

  // ---- Which list positions the user sees ----

  /** Position `i` holds the newest entry of its user key that snapshot `s` can see. */
  ghost predicate NewestAt(list: seq<Entry>, s: nat, i: nat) {
    && i < |list| && list[i].seqno <= s
    && forall j :: 0 <= j < i && list[j].key == list[i].key ==> list[j].seqno > s
  }

  ghost predicate Shown(list: seq<Entry>, s: nat, i: nat) {
    NewestAt(list, s, i) && list[i].kind.Put?
  }

  lemma ShownIsVisible(list: seq<Entry>, s: nat, i: nat)
    requires Sorted(list) && Shown(list, s, i)
    ensures var v := Visible(Elements(list), s);
            list[i].key in v && v[list[i].key] == list[i].value
  {
    SortedFacts(list);
    assert Newest(Elements(list), list[i], list[i].key, s);
    ReadOfNewest(Elements(list), list[i], list[i].key, s);
  }

  lemma VisibleIsShown(list: seq<Entry>, s: nat, u: UserKey) returns (i: nat)
    requires Sorted(list) && u in Visible(Elements(list), s)
    ensures Shown(list, s, i) && list[i].key == u
  {
    var e := ReadWitness(Elements(list), u, s);
    i :| 0 <= i < |list| && list[i] == e;
    forall j | 0 <= j < i && list[j].key == u
      ensures list[j].seqno > s
    {
      assert list[j] in Elements(list) && Precedes(list[j], list[i]);
    }
  }

  /** The first shown position with an admitted key gives the least admitted key. */
  lemma LeastOfShown(list: seq<Entry>, s: nat, pick: UserKey -> bool, end: nat)
    requires Sorted(list) && end <= |list|
    requires end < |list| ==> Shown(list, s, end) && pick(list[end].key)
    requires forall j :: 0 <= j < end && Shown(list, s, j) ==> !pick(list[j].key)
    ensures IsLeast(Visible(Elements(list), s), pick, if end < |list| then Some(list[end].key) else None)
  {
    if end < |list| { ShownIsVisible(list, s, end); }
    forall u | u in Visible(Elements(list), s) && pick(u)
      ensures end < |list| && list[end].key <= u
    {
      var i := VisibleIsShown(list, s, u);
      assert end < i ==> Precedes(list[end], list[i]);
    }
  }

  /** The last shown position with an admitted key gives the greatest admitted key. */
  lemma GreatestOfShown(list: seq<Entry>, s: nat, pick: UserKey -> bool, start: int)
    requires Sorted(list) && -1 <= start < |list|
    requires start >= 0 ==> Shown(list, s, start) && pick(list[start].key)
    requires forall j :: start < j < |list| && Shown(list, s, j) ==> !pick(list[j].key)
    ensures IsGreatest(Visible(Elements(list), s), pick, if start >= 0 then Some(list[start].key) else None)
  {
    if start >= 0 { ShownIsVisible(list, s, start); }
    forall u | u in Visible(Elements(list), s) && pick(u)
      ensures start >= 0 && u <= list[start].key
    {
      var i := VisibleIsShown(list, s, u);
      assert i < start ==> Precedes(list[i], list[start]);
    }
  }

  /** A scan backward from `start` has come to `at`: the entry at `q` is saved, nothing behind
      it is shown, and nothing between is visible in time; or nothing passed is shown. */
  ghost predicate Scanned(list: seq<Entry>, s: nat, at: int, start: int, kind: Kind, q: int, key: UserKey, value: Bytes) {
    forall x {:trigger Asked(OfScan, x)} :: Asked(OfScan, x) ==>
      && -1 <= at <= start < |list|
      && if kind.Deletion? then forall j: nat :: at < j <= start ==> !Shown(list, s, j)
         else
           && at < q && 0 <= q <= start && list[q].seqno <= s && list[q].kind.Put? && key == list[q].key && value == list[q].value
           && (forall j: nat :: q < j <= start ==> !Shown(list, s, j))
           && forall j: nat :: at < j < q ==> list[j].seqno > s
  }

  lemma ScanStarts(list: seq<Entry>, s: nat, start: int, q: int, key: UserKey, value: Bytes)
    requires -1 <= start < |list|
    ensures Scanned(list, s, start, start, Deletion, q, key, value)
  {
  }

  lemma SkipInvisible(list: seq<Entry>, s: nat, at: int, start: int, kind: Kind, q: int, key: UserKey, value: Bytes)
    requires 0 <= at < |list| && Scanned(list, s, at, start, kind, q, key, value) && list[at].seqno > s
    ensures Scanned(list, s, at - 1, start, kind, q, key, value)
  {
    assert Asked(OfScan, 0);
  }

  /** A visible entry takes the place of what was saved. */
  lemma TakeVisible(list: seq<Entry>, s: nat, at: int, start: int, kind: Kind, q: int, key: UserKey, value: Bytes)
    requires Sorted(list) && 0 <= at < |list| && Scanned(list, s, at, start, kind, q, key, value) && list[at].seqno <= s
    requires kind.Put? ==> !(list[at].key < key)
    ensures var e := list[at]; Scanned(list, s, at - 1, start, e.kind, at, e.key, e.value)
    ensures var e := list[at]; e.kind.Deletion? ==> Scanned(list, s, at - 1, start, Deletion, at, 0.0, [])
  {
    assert Asked(OfScan, 0);
    forall j: nat | at < j <= start
      ensures !Shown(list, s, j)
    {
      if kind.Put? && j <= q {
        assert Precedes(list[at], list[q]);
      }
    }
  }

  /** Where a saved entry's key ends, it is the newest of its key. */
  lemma ScanEnds(list: seq<Entry>, s: nat, at: int, start: int, q: int, key: UserKey, value: Bytes)
    requires Sorted(list) && at < |list| && Scanned(list, s, at, start, Put, q, key, value)
    requires at >= 0 ==> list[at].seqno <= s && list[at].key < key
    ensures -1 <= at < q && 0 <= q <= start < |list| && Shown(list, s, q) && key == list[q].key && value == list[q].value
    ensures forall j: nat :: at < j < q ==> list[j].seqno > s
    ensures forall j: nat :: q < j <= start ==> !Shown(list, s, j)
  {
    assert Asked(OfScan, 0);
    forall j | 0 <= j <= at
      ensures list[j].key < key
    {
      assert j < at ==> Precedes(list[j], list[at]);
    }
  }

  lemma ScanFindsNothing(list: seq<Entry>, s: nat, start: int, q: int, key: UserKey, value: Bytes)
    requires Scanned(list, s, -1, start, Deletion, q, key, value)
    ensures forall j: nat :: j <= start < |list| ==> !Shown(list, s, j)
  {
    assert Asked(OfScan, 0);
  }

  class DBIter {
    const iter: InternalIterator
    const sequence: nat
    var savedKey: UserKey
    var savedValue: Bytes
    var direction: Direction
    var valid: bool

    constructor (iter: InternalIterator, sequence: nat)
      requires iter.Ok()
      ensures Ok() && !valid && fresh(this)
      ensures this.iter == iter && this.sequence == sequence
    {
      this.iter := iter;
      this.sequence := sequence;
      direction := Forward;
      valid := false;
      savedKey, savedValue := 0.0, [];
    }

    /** The map being walked. */
    ghost function View(): map<UserKey, Bytes> {
      Visible(Elements(iter.list), sequence)
    }

    function Key(): UserKey
      requires iter.Ok() && valid && (direction.Forward? ==> iter.Valid())
      reads this, iter, iter.inner, iter.inner.children
    {
      if direction.Forward? then iter.Current().key else savedKey
    }

    function Value(): Bytes
      requires iter.Ok() && valid && (direction.Forward? ==> iter.Valid())
      reads this, iter, iter.inner, iter.inner.children
    {
      if direction.Forward? then iter.Current().value else savedValue
    }

    /** Going backwards, the internal cursor stands on the last visible-in-time
        entry before `q`, or nowhere when there is none. */
    ghost predicate BehindOf(q: nat)
      reads this, iter, iter.inner, iter.inner.children
    {
      && q < |iter.list|
      && iter.pos != q
      && (iter.Valid() ==> iter.pos < q && iter.list[iter.pos].seqno <= sequence && iter.list[iter.pos].key < iter.list[q].key)
      && forall j :: (if iter.Valid() then iter.pos < j else 0 <= j) && j < q ==> iter.list[j].seqno > sequence
    }

    /** Position `i` holds a visible-in-time entry of the user key at `j`. */
    ghost predicate SameVisibleKey(i: nat, j: nat)
      requires i < |iter.list| && j < |iter.list|
    {
      iter.list[i].key == iter.list[j].key && iter.list[i].seqno <= sequence
    }

    ghost predicate Ok()
      reads this, iter, iter.inner, iter.inner.children
    {
      && iter.Ok()
      && (valid && direction.Forward? ==> Shown(iter.list, sequence, iter.pos))
      && (valid && direction.Reverse? ==>
            exists q: nat :: Shown(iter.list, sequence, q) && BehindOf(q)
                        && savedKey == iter.list[q].key && savedValue == iter.list[q].value)
    }

    /** Where the cursor stands in the user's map. */
    ghost function Position(): Option<UserKey>
      requires Ok()
      reads this, iter, iter.inner, iter.inner.children
    {
      if valid then Some(Key()) else None
    }

    /** A valid cursor shows an entry of the user's map. */
    lemma PositionIsVisible()
      requires Ok() && valid
      ensures Key() in View() && View()[Key()] == Value()
    {
      if direction.Forward? {
        ShownIsVisible(iter.list, sequence, iter.pos);
      } else {
        var q: nat :| Shown(iter.list, sequence, q) && savedKey == iter.list[q].key && savedValue == iter.list[q].value;
        ShownIsVisible(iter.list, sequence, q);
      }
    }

    /** Scan forward to the first shown entry, past everything up to `skip` when `skipping`. */
    method FindNextUserEntry(skipping: bool, skip: UserKey)
      requires iter.Ok() && iter.Valid() && direction.Forward?
      requires forall i, j :: 0 <= i < iter.pos <= j < |iter.list| && SameVisibleKey(i, j) ==> skipping && iter.list[j].key <= skip
      requires skipping ==> forall j :: iter.pos <= j < |iter.list| && iter.list[j].seqno <= sequence ==> skip <= iter.list[j].key
      modifies this, iter, iter.inner, iter.inner.children
      ensures Ok() && direction.Forward?
      ensures valid ==> old(iter.pos) <= iter.pos && (skipping ==> skip < iter.list[iter.pos].key)
      ensures forall j :: old(iter.pos) <= j < (if valid then iter.pos else |iter.list|) ==>
                !(Shown(iter.list, sequence, j) && (skipping ==> skip < iter.list[j].key))
    {
      ghost var start := iter.pos;
      var skipping', skip' := skipping, skip;
      while iter.Valid()
        invariant iter.Ok() && start <= iter.pos && direction.Forward?
        invariant forall i, j :: 0 <= i < iter.pos <= j < |iter.list| && SameVisibleKey(i, j) ==> skipping' && iter.list[j].key <= skip'
        invariant skipping ==> skipping' && skip <= skip'
        invariant skipping' ==> (skipping && skip' == skip)
                                || exists i :: 0 <= i < iter.pos && iter.list[i].key == skip' && iter.list[i].seqno <= sequence
        invariant forall j :: start <= j < iter.pos ==>
                !(Shown(iter.list, sequence, j) && (skipping ==> skip < iter.list[j].key))
        decreases |iter.list| - iter.pos
      {
        var e := iter.Current();
        if e.seqno <= sequence {
          match e.kind
          case Deletion =>
            skip' := e.key;
            skipping' := true;
          case Put =>
            if skipping' && e.key <= skip' {
              // Entry hidden
            } else {
              valid := true;
              savedKey := 0.0;
              forall i | 0 <= i < iter.pos && iter.list[i].key == e.key
                ensures iter.list[i].seqno > sequence
              {
                assert !SameVisibleKey(i, iter.pos);
              }
              return;
            }
        }
        iter.Next();
      }
      savedKey := 0.0;
      valid := false;
    }

    /** The internal cursor's position, -1 before the first entry. */
    ghost function At(): int
      reads iter, iter.inner
    {
      if iter.Valid() then iter.pos else -1
    }

    /** Scan backward to the last shown entry at or before the internal cursor. */
    method FindPrevUserEntry() returns (ghost q: int)
      requires iter.Ok() && direction.Reverse?
      modifies this, iter, iter.inner, iter.inner.children
      ensures Ok() && (valid ==> direction.Reverse?)
      ensures -1 <= q && (valid <==> q >= 0)
      ensures valid ==> q <= old(iter.pos) < |iter.list| && Shown(iter.list, sequence, q) && iter.list[q].key == savedKey
      ensures forall j: nat :: q < j <= old(iter.pos) < |iter.list| ==> !Shown(iter.list, sequence, j)
    {
      var valueType := Deletion;
      ghost var start := At();
      q := -1;
      ScanStarts(iter.list, sequence, start, q, savedKey, savedValue);
      while iter.Valid()
        invariant iter.Ok() && direction.Reverse?
        invariant Scanned(iter.list, sequence, At(), start, valueType, q, savedKey, savedValue)
        decreases At()
      {
        var e := iter.Current();
        ghost var at := At();
        if e.seqno <= sequence {
          if valueType != Deletion && e.key < savedKey {
            // We encountered a non-deleted value in entries for previous keys
            break;
          }
          TakeVisible(iter.list, sequence, at, start, valueType, q, savedKey, savedValue);
          valueType := e.kind;
          if valueType == Deletion {
            savedKey, savedValue := 0.0, [];
          } else {
            savedKey, savedValue := e.key, e.value;
          }
          q := at;
        } else {
          SkipInvisible(iter.list, sequence, at, start, valueType, q, savedKey, savedValue);
        }
        iter.Prev();
      }
      if valueType == Deletion {
        ScanFindsNothing(iter.list, sequence, start, q, savedKey, savedValue);
        valid := false;
        savedKey, savedValue := 0.0, [];
        direction := Forward;
        q := -1;
      } else {
        valid := true;
        ScanEnds(iter.list, sequence, At(), start, q, savedKey, savedValue);
        assert Shown(iter.list, sequence, q) && BehindOf(q);
      }
    }

    /** Around position `p` the keys snapshot `sequence` sees pass from below `k` to `k` and above. */
    ghost predicate Parted(p: nat, k: UserKey) {
      && p <= |iter.list|
      && (forall j :: 0 <= j < p && iter.list[j].seqno <= sequence ==> iter.list[j].key <= k)
      && (forall j :: p <= j < |iter.list| && iter.list[j].seqno <= sequence ==> k <= iter.list[j].key)
    }

    /** Going backwards, the internal cursor's next position is where the current key begins. */
    lemma ReverseParted()
      requires Ok() && valid && direction.Reverse?
      ensures Parted(if iter.Valid() then iter.pos + 1 else 0, savedKey)
      ensures iter.Valid() ==> iter.pos + 1 < |iter.list|
      ensures |iter.list| > 0
    {
      var q: nat :| Shown(iter.list, sequence, q) && BehindOf(q) && savedKey == iter.list[q].key;
      forall j | 0 <= j < |iter.list| && iter.list[j].seqno <= sequence && j >= (if iter.Valid() then iter.pos + 1 else 0)
        ensures savedKey <= iter.list[j].key
      {
        assert j > q ==> Precedes(iter.list[q], iter.list[j]);
      }
      if iter.Valid() {
        forall j | 0 <= j < iter.pos + 1
          ensures iter.list[j].key <= savedKey
        {
          assert j < iter.pos ==> Precedes(iter.list[j], iter.list[iter.pos]);
        }
      }
    }

    method Next()
      requires Ok() && valid
      modifies this, iter, iter.inner, iter.inner.children
      ensures Ok() && IsLeast(View(), Above(old(Key())), Position())
    {
      if direction == Reverse {
        ReverseParted();
        direction := Forward;
        if !iter.Valid() {
          iter.SeekToFirst();
        } else {
          iter.Next();
        }
        if !iter.Valid() {
          // The early exit for a vanished entry: the entry shown is still ahead
          assert false;
        }
      } else {
        savedKey := iter.Current().key;
      }
      AdvancePast(savedKey);
    }

    method AdvancePast(k0: UserKey)
      requires iter.Ok() && iter.Valid() && direction.Forward? && Parted(iter.pos, k0)
      modifies this, iter, iter.inner, iter.inner.children
      ensures Ok() && IsLeast(View(), Above(k0), Position())
    {
      FindNextUserEntry(true, k0);
      LeastOfShown(iter.list, sequence, Above(k0), if valid then iter.pos else |iter.list|);
    }

    /** From a shown entry, step back to the first entry of a smaller user key. */
    method LeaveKeyBackward()
      requires Ok() && valid && direction.Forward?
      modifies this, iter, iter.inner, iter.inner.children
      ensures iter.Ok() && direction == old(direction) && savedKey == old(Key())
      ensures Parted(if iter.Valid() then iter.pos + 1 else 0, old(Key()))
      ensures iter.Valid() ==> iter.Current().key < old(Key())
    {
      ghost var top := iter.pos;
      savedKey := iter.Current().key;
      while true
        invariant iter.Ok() && iter.Valid() && iter.pos <= top && savedKey == old(Key()) && direction == old(direction)
        invariant forall j :: iter.pos <= j < |iter.list| ==> savedKey <= iter.list[j].key
        decreases iter.pos
      {
        iter.Prev();
        if !iter.Valid() || iter.Current().key < savedKey {
          break;
        }
      }
    }

    method Prev()
      requires Ok() && valid
      modifies this, iter, iter.inner, iter.inner.children
      ensures Ok() && IsGreatest(View(), Below(old(Key())), Position())
    {
      ghost var k0 := Key();
      if direction == Forward {
        LeaveKeyBackward();
        if !iter.Valid() {
          valid := false;
          savedKey, savedValue := 0.0, [];
          GreatestOfShown(iter.list, sequence, Below(k0), -1);
          return;
        }
        direction := Reverse;
      } else {
        ReverseParted();
      }
      RetreatBelow(k0);
    }

    method RetreatBelow(ghost k0: UserKey)
      requires iter.Ok() && direction.Reverse? && Parted(if iter.Valid() then iter.pos + 1 else 0, k0)
      requires iter.Valid() ==> iter.Current().key < k0
      modifies this, iter, iter.inner, iter.inner.children
      ensures Ok() && IsGreatest(View(), Below(k0), Position())
    {
      ghost var start := iter.pos;
      ghost var q := FindPrevUserEntry();
      if q >= 0 { assert q < start ==> Precedes(iter.list[q], iter.list[start]); }
      GreatestOfShown(iter.list, sequence, Below(k0), q);
    }

    method Seek(target: UserKey)
      requires iter.Ok()
      modifies this, iter, iter.inner, iter.inner.children
      ensures Ok() && IsLeast(View(), AtLeast(target), Position())
    {
      direction := Forward;
      savedValue := [];
      iter.Seek(SeekKey(target, sequence));
      if iter.Valid() {
        FindNextUserEntry(false, savedKey);
      } else {
        valid := false;
      }
      LeastOfShown(iter.list, sequence, AtLeast(target), if valid then iter.pos else |iter.list|);
    }

    method SeekToFirst()
      requires iter.Ok()
      modifies this, iter, iter.inner, iter.inner.children
      ensures Ok() && IsLeast(View(), AnyKey(), Position())
    {
      direction := Forward;
      savedValue := [];
      iter.SeekToFirst();
      if iter.Valid() {
        FindNextUserEntry(false, savedKey);
      } else {
        valid := false;
      }
      LeastOfShown(iter.list, sequence, AnyKey(), if valid then iter.pos else |iter.list|);
    }

    method SeekToLast()
      requires iter.Ok()
      modifies this, iter, iter.inner, iter.inner.children
      ensures Ok() && IsGreatest(View(), AnyKey(), Position())
    {
      direction := Reverse;
      savedValue := [];
      iter.SeekToLast();
      ghost var q := FindPrevUserEntry();
      GreatestOfShown(iter.list, sequence, AnyKey(), q);
    }
  }
}
