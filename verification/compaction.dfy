/** Compaction: which entries the merge of a compaction's inputs may drop, the
    loop that drops them, and why no reader can tell. */
module Compactions {
  import opened Keys
  import opened Entries
  import opened InternalIterators
  import opened Files

  /** No file two or more levels below `level` covers `u`. */
  ghost predicate IsBase(version: Version, level: nat, u: UserKey) {
    forall lvl, i :: level + 2 <= lvl < NUM_LEVELS && 0 <= i < |version[lvl]| ==> !Covers(version[lvl][i], u)
  }

  /** Rule (A): a newer entry of the same user key is already visible to the oldest snapshot. */
  predicate Hidden(list: seq<Entry>, i: nat, snap: nat)
    requires i < |list|
  {
    i > 0 && list[i - 1].key == list[i].key && list[i - 1].seqno <= snap
  }

  /** The deletion marker shadows nothing below and every snapshot sees it. */
  ghost predicate Obsolete(list: seq<Entry>, i: nat, snap: nat, version: Version, level: nat)
    requires i < |list|
  {
    list[i].kind.Deletion? && list[i].seqno <= snap && IsBase(version, level, list[i].key)
  }

  ghost predicate Kept(list: seq<Entry>, i: nat, snap: nat, version: Version, level: nat)
    requires i < |list|
  {
    !Hidden(list, i, snap) && !Obsolete(list, i, snap, version, level)
  }

  /** The kept ones of the first `n` entries. */
  ghost function Survivors(list: seq<Entry>, n: nat, snap: nat, version: Version, level: nat): seq<Entry>
    requires n <= |list|
  {
    if n == 0 then []
    else Survivors(list, n - 1, snap, version, level) +
         if Kept(list, n - 1, snap, version, level) then [list[n - 1]] else []
  }

  lemma {:induction false} SurvivorsAre(list: seq<Entry>, n: nat, snap: nat, version: Version, level: nat)
    requires Sorted(list) && n <= |list|
    ensures var out := Survivors(list, n, snap, version, level);
            && Sorted(out)
            && (forall e :: e in out <==> exists i :: 0 <= i < n && list[i] == e && Kept(list, i, snap, version, level))
  {
    if n > 0 {
      SurvivorsAre(list, n - 1, snap, version, level);
      var before := Survivors(list, n - 1, snap, version, level);
      forall k | 0 <= k < |before|
        ensures Precedes(before[k], list[n - 1])
      {
        assert before[k] in before;
      }
    }
  }

  class Compaction {
    const level: nat
    const version: Version
    var levelPtrs: seq<nat>
    /** The last user key asked about. */
    ghost var asked: Option<UserKey>

    ghost predicate Ok()
      reads this
    {
      && level + 2 <= NUM_LEVELS && |levelPtrs| == NUM_LEVELS
      && forall lvl :: level + 2 <= lvl < NUM_LEVELS ==>
           && LevelOk(version[lvl]) && levelPtrs[lvl] <= |version[lvl]|
           && Passed(version[lvl], levelPtrs[lvl])
    }

    /** Every file before `ptr` ends before the last key asked about. */
    ghost predicate Passed(files: seq<File>, ptr: nat)
      requires ptr <= |files|
      reads this
    {
      forall i :: 0 <= i < ptr ==> asked.Some? && files[i].largest.key < asked.value
    }

    constructor (level: nat, version: Version)
      requires level + 2 <= NUM_LEVELS
      requires forall lvl :: level + 2 <= lvl < NUM_LEVELS ==> LevelOk(version[lvl])
      ensures Ok() && asked == None && this.level == level && this.version == version
    {
      this.level := level;
      this.version := version;
      levelPtrs := seq(NUM_LEVELS, _ => 0);
      asked := None;
    }

    /** For keys asked in ascending order, the advancing pointers answer as a full search would. */
    method IsBaseLevelForKey(u: UserKey) returns (base: bool)
      requires Ok() && (asked.Some? ==> asked.value <= u)
      modifies this
      ensures Ok() && asked == Some(u)
      ensures base <==> IsBase(version, level, u)
      ensures base <==> forall lvl, f :: level + 2 <= lvl < NUM_LEVELS && f in version[lvl] ==> u < f.smallest.key || f.largest.key < u
    {
      asked := Some(u);
      for lvl := level + 2 to NUM_LEVELS
        invariant Ok() && asked == Some(u)
        invariant forall l, i :: level + 2 <= l < lvl && 0 <= i < |version[l]| ==> !Covers(version[l][i], u)
      {
        var files := version[lvl];
        while levelPtrs[lvl] < |files|
          invariant Ok() && asked == Some(u)
          invariant levelPtrs[lvl] < |files| || forall i :: 0 <= i < |files| ==> !Covers(files[i], u)
          decreases |files| - levelPtrs[lvl]
        {
          var f := files[levelPtrs[lvl]];
          if u <= f.largest.key {
            if u >= f.smallest.key {
              return false;
            }
            LaterFilesMiss(files, levelPtrs[lvl], u);
            break;
          }
          levelPtrs := levelPtrs[lvl := levelPtrs[lvl] + 1];
        }
        assert forall i :: 0 <= i < |files| ==> !Covers(files[i], u);
      }
      base := true;
    }

    lemma LaterFilesMiss(files: seq<File>, ptr: nat, u: UserKey)
      requires LevelOk(files) && ptr < |files| && Passed(files, ptr) && asked == Some(u)
      requires u < files[ptr].smallest.key
      ensures forall i :: 0 <= i < |files| ==> !Covers(files[i], u)
    {
      forall i | 0 <= i < |files|
        ensures !Covers(files[i], u)
      {
        if i > ptr {
          FileRange(files[ptr], files[ptr].largest);
          FileRange(files[i], files[i].smallest);
        }
      }
    }
  }

  /** The entries of a sequence of output files, in order. */
  function OutputEntries(outputs: seq<File>): seq<Entry> {
    if outputs == [] then []
    else OutputEntries(outputs[..|outputs| - 1]) + outputs[|outputs| - 1].entries
  }

  /** Well-formed tables with consecutive file numbers. */
  ghost predicate OutputsOk(outputs: seq<File>, firstNumber: nat) {
    forall i :: 0 <= i < |outputs| ==> FileOk(outputs[i]) && outputs[i].number == firstNumber + i
  }

  lemma OutputAdded(outputs: seq<File>, file: File, firstNumber: nat)
    requires OutputsOk(outputs, firstNumber) && FileOk(file) && file.number == firstNumber + |outputs|
    ensures OutputsOk(outputs + [file], firstNumber)
    ensures OutputEntries(outputs + [file]) == OutputEntries(outputs) + file.entries
  {
    var all := outputs + [file];
    assert all[..|outputs|] == outputs;
    forall i | 0 <= i < |all|
      ensures FileOk(all[i]) && all[i].number == firstNumber + i
    {
      assert i < |outputs| ==> all[i] == outputs[i];
    }
  }

  /** The tables written so far and the one being built, if any. */
  class CompactionState {
    const firstNumber: nat
    var outputs: seq<File>
    var building: bool
    var smallest: Entry
    var largest: Entry
    var entries: seq<Entry>

    constructor (firstNumber: nat)
      ensures Ok() && Written() == [] && !building && this.firstNumber == firstNumber
    {
      this.firstNumber := firstNumber;
      outputs, building := [], false;
      smallest, largest, entries := SeekKey(0.0, 0), SeekKey(0.0, 0), [];
    }

    /** Everything added, in order. */
    ghost function Written(): seq<Entry>
      reads this
    {
      OutputEntries(outputs) + if building then entries else []
    }

    ghost predicate Ok()
      reads this
    {
      && (building ==> entries != [] && smallest == entries[0] && largest == entries[|entries| - 1])
      && OutputsOk(outputs, firstNumber)
    }

    /** `FinishCompactionOutputFile`, when a table is open. */
    method Finish()
      requires Ok() && Sorted(Written())
      modifies this
      ensures Ok() && !building && Written() == old(Written())
    {
      if building {
        SortedParts(OutputEntries(outputs), entries);
        var size: nat := *;
        var file := File(firstNumber + |outputs|, size, smallest, largest, entries);
        OutputAdded(outputs, file, firstNumber);
        outputs := outputs + [file];
        building := false;
      }
    }

    method Add(e: Entry)
      requires Ok()
      modifies this
      ensures Ok() && building && Written() == old(Written()) + [e]
    {
      if !building {
        // OpenCompactionOutputFile
        building := true;
        entries := [];
      }
      if |entries| == 0 {
        smallest := e;
      }
      largest := e;
      entries := entries + [e];
    }
  }

  lemma SortedParts(a: seq<Entry>, b: seq<Entry>)
    requires Sorted(a + b)
    ensures Sorted(a) && Sorted(b)
  {
    forall i, j | 0 <= i < j < |b| ensures Precedes(b[i], b[j]) {
      assert (a + b)[|a| + i] == b[i] && (a + b)[|a| + j] == b[j];
    }
    forall i, j | 0 <= i < j < |a| ensures Precedes(a[i], a[j]) {
      assert (a + b)[i] == a[i] && (a + b)[j] == a[j];
    }
  }

  /** Rule (A), then the base-level rule for markers every snapshot sees. */
  method ShouldDrop(c: Compaction, ikey: Entry, lastSequenceForKey: nat, snap: nat) returns (drop: bool)
    requires c.Ok() && (c.asked.Some? ==> c.asked.value <= ikey.key)
    modifies c
    ensures c.Ok() && (c.asked == old(c.asked) || c.asked == Some(ikey.key))
    ensures drop <==> lastSequenceForKey <= snap
                      || (ikey.kind.Deletion? && ikey.seqno <= snap && IsBase(c.version, c.level, ikey.key))
  {
    drop := false;
    if lastSequenceForKey <= snap {
      drop := true;
    } else if ikey.kind.Deletion? && ikey.seqno <= snap {
      drop := c.IsBaseLevelForKey(ikey.key);
    }
  }

  lemma SurvivorsExtend(list: seq<Entry>, n: nat, snap: nat, version: Version, level: nat)
    requires Sorted(list) && n <= |list|
    ensures Sorted(Survivors(list, n, snap, version, level))
    ensures n < |list| ==> Sorted(Survivors(list, n, snap, version, level) + [list[n]])
    ensures n > 0 && n < |list| ==> list[n - 1].key <= list[n].key
  {
    var out := Survivors(list, n, snap, version, level);
    SurvivorsAre(list, n, snap, version, level);
    if n < |list| {
      forall k | 0 <= k < |out|
        ensures Precedes(out[k], list[n])
      {
        assert out[k] in out;
      }
    }
  }

  /** One turn of the loop: perhaps close the open table, add the entry unless it is
      dropped, and perhaps close the table because it is big enough. */
  method ProcessEntry(c: Compaction, state: CompactionState, ikey: Entry, lastSequenceForKey: nat, snap: nat)
    returns (drop: bool)
    requires c.Ok() && (c.asked.Some? ==> c.asked.value <= ikey.key)
    requires state.Ok() && Sorted(state.Written()) && Sorted(state.Written() + [ikey])
    modifies c, state
    ensures c.Ok() && (c.asked == old(c.asked) || c.asked == Some(ikey.key)) && state.Ok()
    ensures drop <==> lastSequenceForKey <= snap
                      || (ikey.kind.Deletion? && ikey.seqno <= snap && IsBase(c.version, c.level, ikey.key))
    ensures state.Written() == old(state.Written()) + if drop then [] else [ikey]
  {
    var shouldStopBefore: bool := *;
    if shouldStopBefore {
      state.Finish();
    }
    drop := ShouldDrop(c, ikey, lastSequenceForKey, snap);
    if !drop {
      state.Add(ikey);
      var bigEnough: bool := *;
      if bigEnough {
        state.Finish();
      }
    }
  }

  /** The loop's variables describe the entry before `p`. */
  ghost predicate Behind(list: seq<Entry>, p: nat, has: bool, key: UserKey, last: nat, asked: Option<UserKey>) {
    && p <= |list| && (has <==> p > 0)
    && (p > 0 ==> key == list[p - 1].key && last == list[p - 1].seqno)
    && (asked.Some? ==> p > 0 && asked.value <= list[p - 1].key)
  }

  lemma SurvivorsNext(list: seq<Entry>, n: nat, snap: nat, version: Version, level: nat, drop: bool)
    requires n < |list|
    requires drop <==> Hidden(list, n, snap)
                       || (list[n].kind.Deletion? && list[n].seqno <= snap && IsBase(version, level, list[n].key))
    ensures Survivors(list, n + 1, snap, version, level) == Survivors(list, n, snap, version, level) + if drop then [] else [list[n]]
  {
  }

  /** One entry of the merged input. */
  method TakeEntry(c: Compaction, state: CompactionState, ikey: Entry, has: bool, key: UserKey, last: nat, snap: nat,
                   ghost list: seq<Entry>, ghost p: nat) returns (last2: nat)
    requires c.Ok() && state.Ok() && Sorted(list) && p < |list| && ikey == list[p] && snap < MAX_SEQUENCE
    requires Behind(list, p, has, key, last, c.asked) && state.Written() == Survivors(list, p, snap, c.version, c.level)
    modifies c, state
    ensures c.Ok() && state.Ok() && Behind(list, p + 1, true, ikey.key, last2, c.asked)
    ensures state.Written() == Survivors(list, p + 1, snap, c.version, c.level)
  {
    last2 := last;
    if !has || ikey.key != key {
      // First occurrence of this user key
      last2 := MAX_SEQUENCE;
    }
    assert last2 <= snap <==> Hidden(list, p, snap);
    SurvivorsExtend(list, p, snap, c.version, c.level);
    var drop := ProcessEntry(c, state, ikey, last2, snap);
    SurvivorsNext(list, p, snap, c.version, c.level, drop);
    last2 := ikey.seqno;
  }

  /** The compaction loop. The outputs, whatever the points at which one table is
      closed and the next begun, hold exactly the survivors in order. */
  method DoCompactionWork(c: Compaction, input: InternalIterator, snap: nat, firstNumber: nat) returns (outputs: seq<File>)
    requires c.Ok() && c.asked == None && input.Ok() && snap < MAX_SEQUENCE
    modifies c, input, input.inner, input.inner.children
    ensures OutputsOk(outputs, firstNumber)
    ensures OutputEntries(outputs) == Survivors(input.list, |input.list|, snap, c.version, c.level)
  {
    var state := new CompactionState(firstNumber);
    var hasCurrentUserKey, currentUserKey := false, 0.0;
    var lastSequenceForKey: nat := MAX_SEQUENCE;
    ghost var list := input.list;
    input.SeekToFirst();
    while input.Valid()
      invariant input.Ok() && c.Ok() && state.Ok() && fresh(state) && state.firstNumber == firstNumber
      invariant Behind(list, input.pos, hasCurrentUserKey, currentUserKey, lastSequenceForKey, c.asked)
      invariant state.Written() == Survivors(list, input.pos, snap, c.version, c.level)
      decreases |list| - input.pos
    {
      var ikey := input.Current();
      lastSequenceForKey := TakeEntry(c, state, ikey, hasCurrentUserKey, currentUserKey, lastSequenceForKey, snap, list, input.pos);
      currentUserKey, hasCurrentUserKey := ikey.key, true;
      input.Next();
    }
    SurvivorsExtend(list, input.pos, snap, c.version, c.level);
    state.Finish();
    outputs := state.outputs;
  }

  // ---- Meaning ----

  /** The condition a compaction pick must meet: where a marker is dropped because
      nothing lies below it, no older value of its key is left beside the inputs as
      the newest one the oldest snapshot would see there. */
  ghost predicate NoOlderSibling(list: seq<Entry>, rest: set<Entry>, snap: nat, version: Version, level: nat) {
    forall i, e | 0 <= i < |list| && !Hidden(list, i, snap) && Obsolete(list, i, snap, version, level)
                  && Newest(rest, e, list[i].key, snap) && e.seqno < list[i].seqno :: e.kind.Deletion?
  }

  /** All reads at snapshots from `snap` on agree. */
  ghost predicate SameReads(a: set<Entry>, b: set<Entry>, snap: nat) {
    forall u: UserKey, s: nat :: snap <= s ==> Read(a, u, s) == Read(b, u, s)
  }

  ghost predicate CompactionContext(list: seq<Entry>, rest: set<Entry>, deep: set<Entry>, version: Version, level: nat) {
    && Sorted(list) && Distinct(Elements(list) + rest + deep)
    && (forall e :: e in deep ==> !IsBase(version, level, e.key))
    && Elements(list) !! rest
  }

  lemma SafePickKeepsRead(list: seq<Entry>, rest: set<Entry>, deep: set<Entry>, snap: nat, version: Version, level: nat,
                          u: UserKey, s: nat)
    requires CompactionContext(list, rest, deep, version, level) && snap <= s
    requires NoOlderSibling(list, rest, snap, version, level)
    ensures var out := Elements(Survivors(list, |list|, snap, version, level));
            Read(Elements(list) + rest + deep, u, s) == Read(out + rest + deep, u, s)
  {
    var out := Elements(Survivors(list, |list|, snap, version, level));
    var a, b := Elements(list) + rest + deep, out + rest + deep;
    SurvivorsAre(list, |list|, snap, version, level);
    assert b <= a;
    if f :| f in a && f.key == u && f.seqno <= s {
      var e := NewestExists(a, f, s);
      ReadOfNewest(a, e, u, s);
      if e in b {
        ReadOfNewest(b, e, u, s);
      } else {
        DroppedNewestIsAbsent(list, rest, deep, snap, version, level, e, u, s);
      }
    }
  }

  /** A newest entry that compaction drops is a marker, and nothing shows in its place. */
  lemma DroppedNewestIsAbsent(list: seq<Entry>, rest: set<Entry>, deep: set<Entry>, snap: nat, version: Version, level: nat,
                              e: Entry, u: UserKey, s: nat)
    requires CompactionContext(list, rest, deep, version, level) && snap <= s
    requires NoOlderSibling(list, rest, snap, version, level)
    requires Newest(Elements(list) + rest + deep, e, u, s)
    requires e !in Elements(Survivors(list, |list|, snap, version, level)) + rest + deep
    ensures e.kind.Deletion?
    ensures Read(Elements(Survivors(list, |list|, snap, version, level)) + rest + deep, u, s) == None
  {
    var b := Elements(Survivors(list, |list|, snap, version, level)) + rest + deep;
    SurvivorsAre(list, |list|, snap, version, level);
    var i :| 0 <= i < |list| && list[i] == e;
    NewestIsNotHidden(list, Elements(list) + rest + deep, i, snap, s);
    assert Obsolete(list, i, snap, version, level);
    forall g | g in b && g.key == u && g.seqno <= s
      ensures g in rest && g.seqno <= snap && g.seqno < e.seqno
    {
      DroppedLeavesSiblings(list, rest, deep, snap, version, level, i, g);
    }
    NothingShows(list, rest, b, snap, version, level, i, u, s);
  }

  lemma NothingShows(list: seq<Entry>, rest: set<Entry>, b: set<Entry>, snap: nat, version: Version, level: nat, i: nat, u: UserKey, s: nat)
    requires NoOlderSibling(list, rest, snap, version, level) && i < |list| && list[i].key == u && snap <= s && rest <= b
    requires Obsolete(list, i, snap, version, level) && !Hidden(list, i, snap)
    requires forall g :: g in b && g.key == u && g.seqno <= s ==> g in rest && g.seqno <= snap && g.seqno < list[i].seqno
    ensures Read(b, u, s) == None
  {
    if Read(b, u, s).Some? {
      var g := ReadWitness(b, u, s);
      assert Newest(rest, g, u, snap);
    }
  }

  lemma NewestIsNotHidden(list: seq<Entry>, a: set<Entry>, i: nat, snap: nat, s: nat)
    requires Sorted(list) && Elements(list) <= a && i < |list| && snap <= s && Newest(a, list[i], list[i].key, s)
    ensures !Hidden(list, i, snap)
  {
    assert i > 0 ==> list[i - 1] in a && Precedes(list[i - 1], list[i]);
  }

  /** An entry at or below the oldest snapshot hides the older ones of its user key. */
  lemma MarkerHides(list: seq<Entry>, snap: nat, i: nat, j: nat)
    requires Sorted(list) && i < j < |list| && list[i].key == list[j].key && list[i].seqno <= snap
    ensures Hidden(list, j, snap)
  {
    assert Precedes(list[i], list[j]);
    if i < j - 1 {
      assert Precedes(list[i], list[j - 1]) && Precedes(list[j - 1], list[j]);
    }
  }

  /** Below a dropped marker no survivor of its key is left at or below the oldest snapshot. */
  lemma NoSurvivorBesideMarker(list: seq<Entry>, snap: nat, version: Version, level: nat, i: nat, j: nat)
    requires Sorted(list) && i < |list| && j < |list| && Obsolete(list, i, snap, version, level)
    ensures !Hidden(list, i, snap) && Kept(list, j, snap, version, level) ==> list[j].key != list[i].key || list[j].seqno > snap
  {
    if list[j].key == list[i].key && list[j].seqno <= snap {
      if i < j {
        MarkerHides(list, snap, i, j);
      } else if j < i {
        MarkerHides(list, snap, j, i);
      }
    }
  }

  /** Below a dropped marker only the files beside the inputs can still hold the key. */
  lemma DroppedLeavesSiblings(list: seq<Entry>, rest: set<Entry>, deep: set<Entry>, snap: nat, version: Version, level: nat,
                              i: nat, g: Entry)
    requires CompactionContext(list, rest, deep, version, level)
    requires i < |list| && Obsolete(list, i, snap, version, level) && !Hidden(list, i, snap)
    requires g in Elements(Survivors(list, |list|, snap, version, level)) + rest + deep
    requires g.key == list[i].key && g.seqno <= snap
    ensures g in rest
  {
    SurvivorsAre(list, |list|, snap, version, level);
    if j :| 0 <= j < |list| && list[j] == g && Kept(list, j, snap, version, level) {
      NoSurvivorBesideMarker(list, snap, version, level, i, j);
    }
  }

  /** Compaction preserves meaning exactly when the pick leaves no older sibling. */
  lemma CompactionPreservesMeaning(list: seq<Entry>, rest: set<Entry>, deep: set<Entry>, snap: nat, version: Version, level: nat)
    requires CompactionContext(list, rest, deep, version, level)
    ensures SameReads(Elements(list) + rest + deep, Elements(Survivors(list, |list|, snap, version, level)) + rest + deep, snap)
            <==> NoOlderSibling(list, rest, snap, version, level)
  {
    var out := Elements(Survivors(list, |list|, snap, version, level));
    var a, b := Elements(list) + rest + deep, out + rest + deep;
    if NoOlderSibling(list, rest, snap, version, level) {
      forall u: UserKey, s: nat | snap <= s
        ensures Read(a, u, s) == Read(b, u, s)
      {
        SafePickKeepsRead(list, rest, deep, snap, version, level, u, s);
      }
    } else {
      var i, e :| 0 <= i < |list| && !Hidden(list, i, snap) && Obsolete(list, i, snap, version, level)
                  && Newest(rest, e, list[i].key, snap) && e.seqno < list[i].seqno && e.kind.Put?;
      ResurrectedRead(list, rest, deep, snap, version, level, i, e);
      assert Read(a, list[i].key, snap) != Read(b, list[i].key, snap);
    }
  }

  /** An older sibling value comes back once the marker above it is dropped. */
  lemma ResurrectedRead(list: seq<Entry>, rest: set<Entry>, deep: set<Entry>, snap: nat, version: Version, level: nat,
                        i: nat, e: Entry)
    requires CompactionContext(list, rest, deep, version, level)
    requires i < |list| && !Hidden(list, i, snap) && Obsolete(list, i, snap, version, level)
    requires Newest(rest, e, list[i].key, snap) && e.seqno < list[i].seqno && e.kind.Put?
    ensures Read(Elements(list) + rest + deep, list[i].key, snap) == None
    ensures Read(Elements(Survivors(list, |list|, snap, version, level)) + rest + deep, list[i].key, snap) == Some(e.value)
  {
    var out := Elements(Survivors(list, |list|, snap, version, level));
    var a, b, u := Elements(list) + rest + deep, out + rest + deep, list[i].key;
    SurvivorsAre(list, |list|, snap, version, level);
    MarkerIsNewest(list, rest, deep, snap, version, level, i, e);
    ReadOfNewest(a, list[i], u, snap);
    forall f | f in b && f.key == u && f.seqno <= snap
      ensures f in rest
    {
      DroppedLeavesSiblings(list, rest, deep, snap, version, level, i, f);
    }
    assert b <= a;
    assert Newest(b, e, u, snap);
    ReadOfNewest(b, e, u, snap);
  }

  lemma MarkerIsNewest(list: seq<Entry>, rest: set<Entry>, deep: set<Entry>, snap: nat, version: Version, level: nat,
                       i: nat, e: Entry)
    requires CompactionContext(list, rest, deep, version, level)
    requires i < |list| && !Hidden(list, i, snap) && Obsolete(list, i, snap, version, level)
    requires Newest(rest, e, list[i].key, snap) && e.seqno < list[i].seqno
    ensures Newest(Elements(list) + rest + deep, list[i], list[i].key, snap)
  {
    forall f | f in Elements(list) + rest + deep && f.key == list[i].key && f.seqno <= snap
      ensures f.seqno <= list[i].seqno
    {
      if f in list {
        var j :| 0 <= j < |list| && list[j] == f;
        assert j >= i;
      }
    }
  }

  /** A pick whose siblings hold only newer entries of its user keys is safe. */
  lemma ClosedPickIsSafe(list: seq<Entry>, rest: set<Entry>, snap: nat, version: Version, level: nat)
    requires forall e, i :: e in rest && 0 <= i < |list| && e.key == list[i].key ==> e.seqno > list[i].seqno
    ensures NoOlderSibling(list, rest, snap, version, level)
  {
  }
}
