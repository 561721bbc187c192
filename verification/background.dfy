/** The background work of the store: a full memtable becomes a table, or one compaction is
    chosen and carried out, and what reads and the order of the levels are like after it. */
module BackgroundCompactions {
  import opened Keys
  import opened Entries
  import opened Files
  import opened InternalIterators
  import opened Overlaps
  import opened Layerings
  import opened Versions
  import opened VersionBuilders
  import opened Compactions
  import opened CompactionSearches
  import opened Picks
  import opened PickGaps
  import opened CompactionChoices
  import opened Installs
  import opened InstalledSearches
  import opened SortedRuns

  /** `MaxFileSizeForLevel`, `ExpandedCompactionByteSizeLimit`, `MaxGrandParentOverlapBytes` */
  datatype Limits = Limits(range: nat, expand: nat, overlap: nat)

  datatype Manual = Manual(level: nat, begin: Bound, end: Bound)

  datatype Outcome =
    | Nothing
    | Flushed(level: nat, file: File)
    | Moved(file: File)
    | Rewritten(outputs: seq<File>)

  // ---- A full memtable ----

  /** Room for a table with the next file number. */
  ghost predicate RoomFor(v: Version, number: nat) {
    && (forall l, g :: 0 <= l < NUM_LEVELS && g in v[l] ==> g.number < number)
    && (forall l :: 0 < l < NUM_LEVELS ==> SequencesFit(v[l]))
  }

  /** `v2` is `v` with table `f` on `level`. */
  ghost predicate AddedTo(v: Version, level: nat, f: File, v2: Version) {
    && level < NUM_LEVELS && (forall l :: 0 <= l < NUM_LEVELS && l != level ==> v2[l] == v[l])
    && Ascending(v2[level]) && (forall g :: g in v2[level] <==> g in v[level] || g == f)
  }

  /** Whatever version has the table on its level is in order, and holds the memtable's entries
      beside those it had. */
  ghost predicate Flushes(imm: seq<Entry>, v: Version, level: nat, f: File) {
    && f.entries == imm && level < NUM_LEVELS
    && forall v2 :: AddedTo(v, level, f, v2) ==> VersionOrdered(v2) && AllEntries(v2) == AllEntries(v) + Elements(imm)
  }

  lemma FlushOutcome(imm: seq<Entry>, v: Version, level: nat, f: File, limit: nat)
    requires VersionOrdered(v) && NewerThan(Elements(imm), AllEntries(v)) && RoomFor(v, f.number)
    requires FileOk(f) && f.entries == imm && MayPush(v, f.smallest.key, f.largest.key, limit, level)
    ensures Flushes(imm, v, level, f)
  {
    forall v2 | AddedTo(v, level, f, v2)
      ensures VersionOrdered(v2) && AllEntries(v2) == AllEntries(v) + Elements(imm)
    {
      assert TableAdded(v, level, f, v2);
      AddedEntries(v, level, f, v2);
      AddKeepsOrder(v, level, f, v2);
    }
  }

  /** A table of what the memtable holds, unless it holds nothing, and its level: as deep as
      the rules allow. */
  method WriteLevel0Table(mem: seq<Entry>, base: Version, number: nat, limit: nat) returns (level: nat, file: Option<File>)
    requires Sorted(mem) && LevelsSorted(base) && RoomFor(base, number)
    ensures file == None <==> mem == []
    ensures file.Some? ==> FileOk(file.value) && file.value.entries == mem && file.value.number == number
    ensures file.Some? ==> MayPush(base, file.value.smallest.key, file.value.largest.key, limit, level)
    ensures file.Some? ==> forall l :: l > level ==> !MayPush(base, file.value.smallest.key, file.value.largest.key, limit, l)
  {
    level, file := 0, None;
    if mem != [] {
      var size: nat := *;
      var meta := File(number, size, mem[0], mem[|mem| - 1], mem);
      level := PickLevelForMemTableOutput(base, meta.smallest.key, meta.largest.key, limit);
      file := Some(meta);
    }
  }

  method CompactMemTable(imm: seq<Entry>, v: Version, number: nat, limit: nat) returns (outcome: Outcome)
    requires Sorted(imm) && VersionOrdered(v) && NewerThan(Elements(imm), AllEntries(v)) && RoomFor(v, number)
    ensures if imm == [] then outcome == Nothing
            else outcome.Flushed? && outcome.file.number == number && Flushes(imm, v, outcome.level, outcome.file)
  {
    var level, file := WriteLevel0Table(imm, v, number, limit);
    outcome := Nothing;
    if file.Some? {
      FlushOutcome(imm, v, level, file.value, limit);
      outcome := Flushed(level, file.value);
    }
  }

  // ---- A compaction ----

  /** What lies above a version, newer than it. */
  ghost predicate OnTopOf(tops: seq<set<Entry>>, v: Version) {
    LayersOrdered(tops) && NewerThan(Union(tops), AllEntries(v)) && Distinct(Union(tops) + AllEntries(v))
  }

  /** `VersionSet::MakeInputIterator` */
  method MakeInputIterator(level: nat, inputs0: seq<File>, inputs1: seq<File>) returns (input: InternalIterator)
    requires InOrder(inputs0, level) && InOrder(inputs1, level + 1) && NewerThan(FileEntries(inputs0), FileEntries(inputs1))
    requires Distinct(FileEntries(inputs0) + FileEntries(inputs1))
    ensures fresh(input) && fresh(input.inner) && fresh(input.inner.children)
    ensures input.Ok() && Elements(input.list) == FileEntries(inputs0) + FileEntries(inputs1)
  {
    var runs0 := RunsOf(inputs0, level);
    var runs1 := RunsOf(inputs1, level + 1);
    RunsAre(inputs0, level);
    RunsAre(inputs1, level + 1);
    HoldBoth(runs0, runs1, FileEntries(inputs0), FileEntries(inputs1));
    input := MergeRuns(runs0 + runs1, FileEntries(inputs0) + FileEntries(inputs1));
  }

  /** The outputs hold what the drop rules keep. And this holds of whatever version has the
      outputs in the inputs' place, for readers at snapshots from `snap` on. Nothing new is in it,
      and each level can be searched. Reading everything at once gives what it gave exactly when
      no marker that is dropped has an older value of its key beside the inputs. Point reads find that exactly when, besides, no entry
      that moves has an older one above it that answers differently. And entries are newest
      first from level to level exactly when none left above is older than an output of its
      key: always, on level 0. */
  ghost predicate Rewrites(tops: seq<set<Entry>>, v: Version, level: nat, inputs0: seq<File>, inputs1: seq<File>,
                           list: seq<Entry>, snap: nat, outputs: seq<File>)
    requires level + 1 < NUM_LEVELS
  {
    && Sorted(list) && Elements(list) == FileEntries(inputs0 + inputs1)
    && OutputEntries(outputs) == Survivors(list, |list|, snap, v, level)
    && forall v2 :: OutputsInstalled(v, level, inputs0, inputs1, outputs, v2) ==>
         AfterRewrite(tops, v, level, inputs0, inputs1, list, snap, outputs, v2)
  }

  ghost predicate AfterRewrite(tops: seq<set<Entry>>, v: Version, level: nat, inputs0: seq<File>, inputs1: seq<File>,
                               list: seq<Entry>, snap: nat, outputs: seq<File>, v2: Version)
    requires level + 1 < NUM_LEVELS
  {
    var all := Union(tops) + AllEntries(v);
    var safe := NoOlderSibling(list, Rest(Union(tops), v, level, inputs0, inputs1), snap, v, level);
    && AllEntries(v2) <= AllEntries(v) && LevelsSorted(v2)
    && (SameReads(all, Union(tops) + AllEntries(v2), snap) <==> safe)
    && (FindsNewest(tops + Layers(v2), all, snap)
        <==> safe && NoStaleSibling(list, Surroundings(Union(tops), v, level, inputs0, inputs1), snap))
    && (VersionOrdered(v2) <==> NewerThan(Unpicked(v[level], inputs0), FileEntries(outputs)))
    && (level == 0 ==> VersionOrdered(v2))
  }

  lemma RewriteOutcomeIn(tops: seq<set<Entry>>, v: Version, level: nat, inputs0: seq<File>, lo: UserKey, hi: UserKey,
                         inputs1: seq<File>, list: seq<Entry>, snap: nat, outputs: seq<File>, firstNumber: nat, v2: Version)
    requires VersionOrdered(v) && OnTopOf(tops, v) && Chosen(v, level, inputs0, lo, hi, inputs1)
    requires level == 0 ==> ClosedSelection(v[0], inputs0)
    requires Sorted(list) && Elements(list) == FileEntries(inputs0 + inputs1)
    requires OutputsInstalled(v, level, inputs0, inputs1, outputs, v2)
    requires OutputsOk(outputs, firstNumber) && OutputEntries(outputs) == Survivors(list, |list|, snap, v, level)
    ensures AfterRewrite(tops, v, level, inputs0, inputs1, list, snap, outputs, v2)
  {
    OutputsAreDrawn(list, inputs0 + inputs1, snap, v, level, outputs);
    WrittenEntries(outputs, inputs0 + inputs1);
    InstallMeaning(Union(tops), v, level, inputs0, lo, hi, inputs1, list, snap, outputs, v2);
    InstallKeepsSearches(tops, v, level, inputs0, lo, hi, inputs1, list, snap, outputs, v2);
    InstallOrder(v, level, inputs0, lo, hi, inputs1, outputs, firstNumber, v2);
    InstallShrinks(v, level, inputs0, lo, hi, inputs1, outputs, v2);
    if level == 0 {
      Level0PickIsNewer(v, inputs0, lo, hi, inputs1, FileEntries(outputs));
    }
  }

  lemma RewriteOutcome(tops: seq<set<Entry>>, v: Version, level: nat, inputs0: seq<File>, lo: UserKey, hi: UserKey,
                       inputs1: seq<File>, list: seq<Entry>, snap: nat, outputs: seq<File>, firstNumber: nat)
    requires VersionOrdered(v) && OnTopOf(tops, v) && Chosen(v, level, inputs0, lo, hi, inputs1)
    requires level == 0 ==> ClosedSelection(v[0], inputs0)
    requires Sorted(list) && Elements(list) == FileEntries(inputs0 + inputs1)
    requires OutputsOk(outputs, firstNumber) && OutputEntries(outputs) == Survivors(list, |list|, snap, v, level)
    ensures Rewrites(tops, v, level, inputs0, inputs1, list, snap, outputs)
  {
    forall v2 | OutputsInstalled(v, level, inputs0, inputs1, outputs, v2)
      ensures AfterRewrite(tops, v, level, inputs0, inputs1, list, snap, outputs, v2)
    {
      RewriteOutcomeIn(tops, v, level, inputs0, lo, hi, inputs1, list, snap, outputs, firstNumber, v2);
    }
  }

  /** The same of a file that moves: at all snapshots, and no entry is lost. */
  ghost predicate Moves(tops: seq<set<Entry>>, v: Version, level: nat, f: File)
    requires level + 1 < NUM_LEVELS
  {
    forall v2 :: OutputsInstalled(v, level, [f], [], [f], v2) ==> AfterMove(tops, v, level, f, v2)
  }

  ghost predicate AfterMove(tops: seq<set<Entry>>, v: Version, level: nat, f: File, v2: Version)
    requires level + 1 < NUM_LEVELS
  {
    && AllEntries(v2) == AllEntries(v) && LevelsSorted(v2)
    && (FindsNewest(tops + Layers(v2), Union(tops) + AllEntries(v), 0)
        <==> NoStaleMove(f.entries, Surroundings(Union(tops), v, level, [f], [])))
    && (VersionOrdered(v2) <==> NewerThan(Unpicked(v[level], [f]), Elements(f.entries)))
    && (level == 0 ==> VersionOrdered(v2))
  }

  lemma MoveOutcome(tops: seq<set<Entry>>, v: Version, level: nat, f: File)
    requires VersionOrdered(v) && OnTopOf(tops, v) && Chosen(v, level, [f], f.smallest.key, f.largest.key, [])
    requires level == 0 ==> ClosedSelection(v[0], [f])
    ensures Moves(tops, v, level, f)
  {
    assert f in [f];
    FileOfLevel(v, level);
    OneFile(f);
    forall v2 | OutputsInstalled(v, level, [f], [], [f], v2)
      ensures AfterMove(tops, v, level, f, v2)
    {
      MoveKeepsPointReads(tops, v, level, f, v2);
      MoveKeepsEntries(v, level, f, v2);
      MoveOrder(v, level, f, v2);
      if level == 0 {
        Level0PickIsNewer(v, [f], f.smallest.key, f.largest.key, [], Elements(f.entries));
      }
    }
  }

  method MergeAndDrop(v: Version, level: nat, inputs0: seq<File>, inputs1: seq<File>, snap: nat, firstNumber: nat)
    returns (outputs: seq<File>, ghost list: seq<Entry>)
    requires InOrder(inputs0, level) && InOrder(inputs1, level + 1) && NewerThan(FileEntries(inputs0), FileEntries(inputs1))
    requires Distinct(FileEntries(inputs0) + FileEntries(inputs1))
    requires VersionOrdered(v) && level + 1 < NUM_LEVELS && snap < MAX_SEQUENCE
    ensures Sorted(list) && Elements(list) == FileEntries(inputs0) + FileEntries(inputs1)
    ensures OutputsOk(outputs, firstNumber) && OutputEntries(outputs) == Survivors(list, |list|, snap, v, level)
  {
    var input := MakeInputIterator(level, inputs0, inputs1);
    list := input.list;
    var c := new Compaction(level, v);
    outputs := DoCompactionWork(c, input, snap, firstNumber);
  }

  lemma InputsReady(v: Version, level: nat, inputs0: seq<File>, lo: UserKey, hi: UserKey, inputs1: seq<File>, top: set<Entry>)
    requires VersionOrdered(v) && Chosen(v, level, inputs0, lo, hi, inputs1) && Distinct(top + AllEntries(v))
    ensures InOrder(inputs1, level + 1) && NewerThan(FileEntries(inputs0), FileEntries(inputs1))
    ensures FileEntries(inputs0 + inputs1) == FileEntries(inputs0) + FileEntries(inputs1)
    ensures Distinct(FileEntries(inputs0) + FileEntries(inputs1))
  {
    SelectInLevel(v[level + 1], Some(lo), Some(hi));
    InOrderIs(inputs1, level + 1);
    SelectIs(v[level + 1], Some(lo), Some(hi));
    SplitEntries(v[level], inputs0);
    SplitEntries(v[level + 1], inputs1);
    JoinedEntries(inputs0, inputs1);
    NewerSubsets(FileEntries(v[level]), FileEntries(v[level + 1]), FileEntries(inputs0), FileEntries(inputs1));
    assert FileEntries(v[level]) <= AllEntries(v) && FileEntries(v[level + 1]) <= AllEntries(v);
  }

  /** No file in the range asked for; or no level holds too much and no file is worn out. */
  ghost predicate NothingToDo(v: Version, manual: Option<Manual>, score: Score)
    requires manual.Some? ==> manual.value.level < NUM_LEVELS
  {
    if manual.Some? then forall f :: f in v[manual.value.level] ==> !Overlapping(f, manual.value.begin, manual.value.end)
    else score.sizeLevel == None && score.seek == None
  }

  /** What a compaction begins with: the files of the range asked for, or the file whose
      turn it is, or the one that is worn out. */
  ghost predicate Begun(v: Version, manual: Option<Manual>, score: Score, pointers: seq<Option<Entry>>, limits: Limits,
                        level: nat, begun: seq<File>)
    requires level + 1 < NUM_LEVELS && |pointers| == NUM_LEVELS
  {
    if manual.Some? then
      level == manual.value.level && RangeBegunWith(v, level, manual.value.begin, manual.value.end, limits.range, begun)
    else if score.sizeLevel.Some? then
      level == score.sizeLevel.value
      && exists i :: 0 <= i < |v[level]| && InTurn(v[level], pointers[level], i) && BegunWith(v, level, v[level][i], begun)
    else
      score.seek.Some? && level == score.seek.value.0 && BegunWith(v, level, score.seek.value.1, begun)
  }

  /** The compaction asked for, or the one whose turn it is. */
  method ChooseCompaction(v: Version, manual: Option<Manual>, score: Score, pointers: seq<Option<Entry>>, limits: Limits)
    returns (pick: CompactionPick?, ghost begun: seq<File>, ghost lo: UserKey, ghost hi: UserKey, ghost g: Growth)
    requires LevelsSorted(v) && ScoreOk(v, score) && |pointers| == NUM_LEVELS && (manual.Some? ==> manual.value.level + 1 < NUM_LEVELS)
    ensures pick != null ==> fresh(pick) && SetUp(pick, v, lo, hi)
    ensures pick != null ==> Begun(v, manual, score, pointers, limits, pick.level, begun) && pick.GrownFrom(begun, limits.expand, g)
    ensures (pick == null <==> NothingToDo(v, manual, score)) && (manual == None && pick != null ==> Gapless(pick.inputs0 + pick.inputs1))
  {
    if manual.Some? {
      pick, begun, lo, hi, g := CompactRange(v, manual.value.level, manual.value.begin, manual.value.end, limits.range, limits.expand);
    } else {
      ghost var first;
      pick, first, begun, lo, hi, g := PickCompaction(v, score, pointers, limits.expand);
    }
  }

  /** What carrying out a pick led to. */
  ghost predicate CarriedOut(outcome: Outcome, pick: CompactionPick, tops: seq<set<Entry>>, list: seq<Entry>,
                             snap: nat, number: nat)
    requires pick.level + 1 < NUM_LEVELS
    reads pick
  {
    match outcome
    case Moved(f) => pick.inputs0 == [f] && pick.inputs1 == [] && Moves(tops, pick.version, pick.level, f)
    case Rewritten(outputs) =>
      OutputsOk(outputs, number) && Rewrites(tops, pick.version, pick.level, pick.inputs0, pick.inputs1, list, snap, outputs)
    case _ => false
  }

  /** A pick is carried out: one file with nothing to merge moves, unless the compaction was
      asked for; everything else is merged and written anew. */
  method CarryOut(pick: CompactionPick, manual: bool, overlapLimit: nat, snap: nat, number: nat, ghost tops: seq<set<Entry>>,
                  ghost lo: UserKey, ghost hi: UserKey)
    returns (outcome: Outcome, ghost list: seq<Entry>)
    requires VersionOrdered(pick.version) && OnTopOf(tops, pick.version)
    requires SetUp(pick, pick.version, lo, hi) && snap < MAX_SEQUENCE
    ensures outcome.Moved? <==> !manual && |pick.inputs0| == 1 && pick.inputs1 == [] && TotalFileSize(pick.grandparents) <= overlapLimit
    ensures CarriedOut(outcome, pick, tops, list, snap, number)
  {
    ghost var v := pick.version;
    if !manual && pick.IsTrivialMove(overlapLimit) {
      var f := pick.inputs0[0];
      list := f.entries;
      OneInput(pick, f, lo, hi);
      MoveOutcome(tops, v, pick.level, f);
      outcome := Moved(f);
    } else {
      InputsReady(v, pick.level, pick.inputs0, lo, hi, pick.inputs1, Union(tops));
      var outputs;
      outputs, list := MergeAndDrop(pick.version, pick.level, pick.inputs0, pick.inputs1, snap, number);
      RewriteOutcome(tops, v, pick.level, pick.inputs0, lo, hi, pick.inputs1, list, snap, outputs, number);
      outcome := Rewritten(outputs);
    }
  }

  lemma OneInput(pick: CompactionPick, f: File, lo: UserKey, hi: UserKey)
    requires SetUp(pick, pick.version, lo, hi) && |pick.inputs0| == 1 && pick.inputs1 == [] && f == pick.inputs0[0]
    ensures pick.inputs0 == [f] && Chosen(pick.version, pick.level, [f], f.smallest.key, f.largest.key, [])
  {
  }

  // ---- One turn of the background work ----

  ghost predicate MemtableOk(imm: Option<seq<Entry>>, v: Version) {
    imm.Some? ==> Sorted(imm.value) && NewerThan(Elements(imm.value), AllEntries(v))
  }

  /** A compaction, if there is one to do. */
  method CompactLevels(v: Version, manual: Option<Manual>, score: Score, pointers: seq<Option<Entry>>, limits: Limits,
                       snap: nat, number: nat, ghost tops: seq<set<Entry>>)
    returns (outcome: Outcome, pick: CompactionPick?, ghost list: seq<Entry>, ghost begun: seq<File>,
             ghost lo: UserKey, ghost hi: UserKey, ghost g: Growth)
    requires VersionOrdered(v) && OnTopOf(tops, v) && snap < MAX_SEQUENCE
    requires ScoreOk(v, score) && |pointers| == NUM_LEVELS && (manual.Some? ==> manual.value.level + 1 < NUM_LEVELS)
    ensures (pick == null <==> NothingToDo(v, manual, score)) && (outcome == Nothing <==> pick == null)
    ensures pick != null ==> SetUp(pick, v, lo, hi) && CarriedOut(outcome, pick, tops, list, snap, number)
    ensures pick != null ==> Begun(v, manual, score, pointers, limits, pick.level, begun) && pick.GrownFrom(begun, limits.expand, g)
    ensures pick != null ==>
              && (outcome.Moved? <==> manual == None && |pick.inputs0| == 1 && pick.inputs1 == []
                                      && TotalFileSize(pick.grandparents) <= limits.overlap)
              && (manual == None ==> Gapless(pick.inputs0 + pick.inputs1))
  {
    pick, begun, lo, hi, g := ChooseCompaction(v, manual, score, pointers, limits);
    if pick == null {
      outcome, list := Nothing, [];
    } else {
      outcome, list := CarryOut(pick, manual.Some?, limits.overlap, snap, number, tops, lo, hi);
    }
  }

  /** A full memtable comes first; else a compaction, if there is one to do. */
  method BackgroundCompaction(imm: Option<seq<Entry>>, v: Version, manual: Option<Manual>, score: Score,
                              pointers: seq<Option<Entry>>, limits: Limits, snap: nat, number: nat, ghost tops: seq<set<Entry>>)
    returns (outcome: Outcome, pick: CompactionPick?, ghost list: seq<Entry>, ghost begun: seq<File>,
             ghost lo: UserKey, ghost hi: UserKey, ghost g: Growth)
    requires VersionOrdered(v) && OnTopOf(tops, v) && RoomFor(v, number) && MemtableOk(imm, v) && snap < MAX_SEQUENCE
    requires ScoreOk(v, score) && |pointers| == NUM_LEVELS && (manual.Some? ==> manual.value.level + 1 < NUM_LEVELS)
    ensures imm.Some? && imm.value == [] ==> outcome == Nothing
    ensures imm.Some? && imm.value != [] ==>
              outcome.Flushed? && outcome.file.number == number && Flushes(imm.value, v, outcome.level, outcome.file)
    ensures imm == None ==> (pick == null <==> NothingToDo(v, manual, score)) && (outcome == Nothing <==> pick == null)
    ensures imm == None && pick != null ==> SetUp(pick, v, lo, hi) && CarriedOut(outcome, pick, tops, list, snap, number)
    ensures imm == None && pick != null ==>
              Begun(v, manual, score, pointers, limits, pick.level, begun) && pick.GrownFrom(begun, limits.expand, g)
    ensures imm == None && pick != null ==>
              && (outcome.Moved? <==> manual == None && |pick.inputs0| == 1 && pick.inputs1 == []
                                      && TotalFileSize(pick.grandparents) <= limits.overlap)
              && (manual == None ==> Gapless(pick.inputs0 + pick.inputs1))
  {
    if imm.Some? {
      pick, list, begun, lo, hi, g := null, [], [], 0.0, 0.0, NoGrowth();
      outcome := CompactMemTable(imm.value, v, number, limits.overlap);
    } else {
      outcome, pick, list, begun, lo, hi, g := CompactLevels(v, manual, score, pointers, limits, snap, number, tops);
    }
  }
}
