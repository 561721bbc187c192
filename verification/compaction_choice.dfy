/** Where a compaction begins: the next file in turn of a level that holds too much, a file
    that seeks have worn out, or the files of a range that the user asked for. */
module CompactionChoices {
  import opened Keys
  import opened Entries
  import opened Files
  import opened Overlaps
  import opened Layerings
  import opened Versions
  import opened Picks
  import opened PickGaps

  /** The files of a level are in turn behind `pointer`, and from the first one on again. */
  ghost predicate InTurn(files: seq<File>, pointer: Option<Entry>, i: nat)
    requires i < |files|
  {
    if pointer == None then i == 0
    else if Before(pointer.value, files[i].largest) then forall j :: 0 <= j < i ==> !Before(pointer.value, files[j].largest)
    else i == 0 && forall j :: 0 <= j < |files| ==> !Before(pointer.value, files[j].largest)
  }

  /** With the pointer at the end of one file the next one is in turn, round and round. */
  lemma TurnGoesRound(files: seq<File>, i: nat, j: nat)
    requires LevelOk(files) && i < |files| && j < |files| && InTurn(files, Some(files[i].largest), j)
    ensures j == (i + 1) % |files|
  {
    forall a, b | 0 <= a < b < |files|
      ensures Before(files[a].largest, files[b].largest)
    {
      FileRange(files[b], files[b].smallest);
    }
    if i + 1 < |files| {
      assert Before(files[i].largest, files[i + 1].largest);
    }
  }

  /** The first file that comes after the compaction pointer, or the first of all. */
  method NextInTurn(files: seq<File>, pointer: Option<Entry>) returns (f: File, ghost at: nat)
    requires files != []
    ensures at < |files| && f == files[at] && InTurn(files, pointer, at)
  {
    for i := 0 to |files|
      invariant pointer == None ==> i == 0
      invariant forall j :: 0 <= j < i ==> !Before(pointer.value, files[j].largest)
    {
      if pointer == None || Before(pointer.value, files[i].largest) {
        return files[i], i;
      }
    }
    // Wrap-around to the beginning of the key space
    f, at := files[0], 0;
  }

  lemma FileOfLevel(v: Version, level: nat)
    requires LevelsSorted(v) && level < NUM_LEVELS
    ensures InOrder(v[level], level) && forall f :: f in v[level] ==> FileOk(f)
    ensures level > 0 ==> LevelOk(v[level])
  {
    InOrderIs(v[level], level);
    LevelFilesOk(v, level);
  }

  lemma OneInOrder(f: File, level: nat)
    requires FileOk(f)
    ensures InOrder([f], level)
  {
    InOrderIs([f], level);
  }

  /** One file, and on level 0 every file it drags in. */
  method WithOverlapping(v: Version, level: nat, f: File) returns (inputs: seq<File>, ghost lo: Bound, ghost hi: Bound)
    requires LevelsSorted(v) && level < NUM_LEVELS && f in v[level]
    ensures InOrder(inputs, level) && f in inputs && forall g :: g in inputs ==> g in v[level]
    ensures Gapless(inputs) && if level == 0 then ClosedSelection(v[0], inputs) else inputs == [f]
    ensures level == 0 ==> inputs == Select(v[0], lo, hi) && LeastClosed(v[0], Some(f.smallest.key), Some(f.largest.key), lo, hi)
  {
    FileOfLevel(v, level);
    OneInOrder(f, level);
    OneGapless(f);
    inputs, lo, hi := [f], None, None;
    if level == 0 {
      var smallest, largest := GetRange(inputs);
      inputs, lo, hi := GetOverlappingInputs(v[0], 0, Some(smallest.key), Some(largest.key));
      SelectIs(v[0], lo, hi);
      SelectInOrder(v[0], 0, lo, hi);
      FileRange(f, f.smallest);
      DraggedInGapless(v[0], f, lo, hi);
    }
  }

  /** What `VersionSet::PickCompaction` starts from. */
  datatype Score = Score(sizeLevel: Option<nat>, seek: Option<(nat, File)>)

  ghost predicate ScoreOk(v: Version, score: Score) {
    && (score.sizeLevel.Some? ==> score.sizeLevel.value + 1 < NUM_LEVELS && v[score.sizeLevel.value] != [])
    && (score.seek.Some? ==> score.seek.value.0 + 1 < NUM_LEVELS && score.seek.value.1 in v[score.seek.value.0])
  }

  /** `pick` is set up on `v`: its inputs are those of the level within their range, and what
      they meet on the next level. */
  ghost predicate SetUp(pick: CompactionPick, v: Version, lo: UserKey, hi: UserKey)
    reads pick
  {
    pick.Ok() && pick.version == v && pick.Meets(pick.inputs0, lo, hi) && (pick.level + 2 < NUM_LEVELS ==> pick.Watches())
  }

  /** What a pick on `v` began with: one file, and on level 0 all that this one drags in. */
  ghost predicate BegunWith(v: Version, level: nat, f: File, begun: seq<File>)
    requires level < NUM_LEVELS
  {
    if level > 0 then begun == [f]
    else exists lo, hi :: begun == Select(v[0], lo, hi) && LeastClosed(v[0], Some(f.smallest.key), Some(f.largest.key), lo, hi)
  }

  /** Too much data in a level comes before too many seeks. The inputs leave no gap. */
  method PickCompaction(v: Version, score: Score, pointers: seq<Option<Entry>>, limit: nat)
    returns (pick: CompactionPick?, ghost first: Option<File>, ghost begun: seq<File>, ghost lo: UserKey, ghost hi: UserKey, ghost g: Growth)
    requires LevelsSorted(v) && ScoreOk(v, score) && |pointers| == NUM_LEVELS
    ensures (pick == null <==> score.sizeLevel == None && score.seek == None) && (pick == null <==> first == None)
    ensures pick != null ==> fresh(pick) && SetUp(pick, v, lo, hi) && first.value in pick.inputs0 && Gapless(pick.inputs0 + pick.inputs1)
    ensures pick != null ==> BegunWith(v, pick.level, first.value, begun) && pick.GrownFrom(begun, limit, g)
    ensures pick != null ==> if score.sizeLevel.Some? then pick.level == score.sizeLevel.value else (pick.level, first.value) == score.seek.value
    ensures score.sizeLevel.Some? ==>
              exists i :: 0 <= i < |v[score.sizeLevel.value]| && v[score.sizeLevel.value][i] == first.value
                          && InTurn(v[score.sizeLevel.value], pointers[score.sizeLevel.value], i)
  {
    pick, first, begun, lo, hi, g := null, None, [], 0.0, 0.0, NoGrowth();
    if score.sizeLevel == None && score.seek == None {
      return;
    }
    var level, f;
    if score.sizeLevel.Some? {
      ghost var at;
      level := score.sizeLevel.value;
      f, at := NextInTurn(v[level], pointers[level]);
    } else {
      level, f := score.seek.value.0, score.seek.value.1;
    }
    ghost var b, e;
    var inputs;
    inputs, b, e := WithOverlapping(v, level, f);
    first, begun := Some(f), inputs;
    ghost var lo0, hi0;
    pick, lo0, hi0, lo, hi, g := SetUpInputs(v, level, inputs, limit);
  }

  method SetUpInputs(v: Version, level: nat, inputs: seq<File>, limit: nat)
    returns (pick: CompactionPick, ghost lo0: UserKey, ghost hi0: UserKey, ghost lo: UserKey, ghost hi: UserKey, ghost g: Growth)
    requires LevelsSorted(v) && level + 1 < NUM_LEVELS && InOrder(inputs, level) && inputs != []
    requires (forall f :: f in inputs ==> f in v[level]) && (level == 0 ==> ClosedSelection(v[0], inputs))
    ensures fresh(pick) && SetUp(pick, v, lo, hi) && pick.level == level && forall f :: f in inputs ==> f in pick.inputs0
    ensures pick.Meets(inputs, lo0, hi0) && (Gapless(inputs) ==> Gapless(pick.inputs0 + pick.inputs1))
    ensures pick.GrownFrom(inputs, limit, g)
  {
    FileOfLevel(v, level);
    FileOfLevel(v, level + 1);
    pick := new CompactionPick(level, v, inputs);
    lo0, hi0, lo, hi, g := pick.SetupOtherInputs(limit);
    if Gapless(inputs) {
      SetUpGapless(pick, inputs, lo0, hi0, limit, g);
    }
  }

  /** The inputs stop behind the one with which their sizes reach the limit. */
  ghost predicate CutAt(inputs: seq<File>, n: nat, limit: nat)
    requires n <= |inputs|
  {
    && (forall i :: 0 < i < n ==> TotalFileSize(inputs[..i]) < limit)
    && (n < |inputs| ==> n > 0 && TotalFileSize(inputs[..n]) >= limit)
  }

  lemma {:induction false} SizesAdd(files: seq<File>, f: File)
    ensures TotalFileSize(files + [f]) == TotalFileSize(files) + f.size
  {
    if files != [] {
      SizesAdd(files[1..], f);
      assert (files + [f])[1..] == files[1..] + [f];
    } else {
      assert [] + [f] == [f] && [f][1..] == [];
    }
  }

  method CutInputs(inputs: seq<File>, limit: nat) returns (n: nat)
    ensures n <= |inputs| && CutAt(inputs, n, limit) && (inputs != [] ==> n > 0)
  {
    var total := 0;
    for i := 0 to |inputs|
      invariant total == TotalFileSize(inputs[..i]) && forall j :: 0 < j <= i ==> TotalFileSize(inputs[..j]) < limit
    {
      SizesAdd(inputs[..i], inputs[i]);
      assert inputs[..i + 1] == inputs[..i] + [inputs[i]];
      total := total + inputs[i].size;
      if total >= limit {
        return i + 1;
      }
    }
    n := |inputs|;
  }

  lemma PrefixInOrder(files: seq<File>, n: nat, level: nat)
    requires InOrder(files, level) && n <= |files| && level > 0
    ensures InOrder(files[..n], level)
  {
    InOrderIs(files, level);
    InOrderIs(files[..n], level);
  }

  /** The first of the files, as many as the limit lets in at once. */
  ghost predicate FirstOf(inputs: seq<File>, all: seq<File>, limit: nat) {
    |inputs| > 0 && inputs <= all && CutAt(all, |inputs|, limit)
  }

  /** A range that no file touches does not grow. */
  lemma NothingSelected(files: seq<File>, level: nat, begin: Bound, end: Bound, lo: Bound, hi: Bound)
    requires if level == 0 then LeastClosed(files, begin, end, lo, hi) else lo == begin && hi == end
    ensures Select(files, lo, hi) == [] <==> forall f :: f in files ==> !Overlapping(f, begin, end)
  {
    SelectIs(files, lo, hi);
    if forall f :: f in files ==> !Overlapping(f, begin, end) {
      assert forall i :: 0 <= i < |files| ==> files[i] in files;
      assert Closed(files, begin, end);
      if Select(files, lo, hi) != [] {
        assert Select(files, lo, hi)[0] in files;
      }
    }
  }

  /** What a compaction of a range begins with: the files in it, on levels above 0 no more
      than the limit lets in at once. */
  ghost predicate RangeBegunWith(v: Version, level: nat, begin: Bound, end: Bound, fileLimit: nat, begun: seq<File>)
    requires level < NUM_LEVELS
  {
    if level > 0 then FirstOf(begun, Select(v[level], begin, end), fileLimit)
    else exists lo, hi :: begun == Select(v[0], lo, hi) && LeastClosed(v[0], begin, end, lo, hi)
  }

  /** The files in a range; on levels above 0 no more than the limit lets in at once. */
  method RangeInputs(v: Version, level: nat, begin: Bound, end: Bound, fileLimit: nat) returns (inputs: seq<File>)
    requires LevelsSorted(v) && level < NUM_LEVELS
    ensures inputs == [] <==> forall f :: f in v[level] ==> !Overlapping(f, begin, end)
    ensures InOrder(inputs, level) && (forall f :: f in inputs ==> f in v[level]) && (level == 0 ==> ClosedSelection(v[0], inputs))
    ensures level == 0 ==> forall f :: f in v[0] && Overlapping(f, begin, end) ==> f in inputs
    ensures inputs != [] ==> RangeBegunWith(v, level, begin, end, fileLimit, inputs)
  {
    FileOfLevel(v, level);
    ghost var b, e;
    inputs, b, e := GetOverlappingInputs(v[level], level, begin, end);
    SelectIs(v[level], b, e);
    SelectInOrder(v[level], level, b, e);
    NothingSelected(v[level], level, begin, end, b, e);
    if inputs != [] {
      if level > 0 {
        var n := CutInputs(inputs, fileLimit);
        PrefixInOrder(inputs, n, level);
        inputs := inputs[..n];
      }
    }
  }

  /** A manual compaction of a range. */
  method CompactRange(v: Version, level: nat, begin: Bound, end: Bound, fileLimit: nat, limit: nat)
    returns (pick: CompactionPick?, ghost begun: seq<File>, ghost lo: UserKey, ghost hi: UserKey, ghost g: Growth)
    requires LevelsSorted(v) && level + 1 < NUM_LEVELS
    ensures pick == null <==> forall f :: f in v[level] ==> !Overlapping(f, begin, end)
    ensures pick != null ==> fresh(pick) && SetUp(pick, v, lo, hi) && pick.level == level
    ensures pick != null && level == 0 ==> forall f :: f in v[0] && Overlapping(f, begin, end) ==> f in pick.inputs0
    ensures pick != null ==> (forall f :: f in begun ==> f in pick.inputs0)
                             && RangeBegunWith(v, level, begin, end, fileLimit, begun) && pick.GrownFrom(begun, limit, g)
  {
    var inputs := RangeInputs(v, level, begin, end, fileLimit);
    pick, begun, lo, hi, g := null, inputs, 0.0, 0.0, NoGrowth();
    if inputs != [] {
      ghost var lo0, hi0;
      pick, lo0, hi0, lo, hi, g := SetUpInputs(v, level, inputs, limit);
    }
  }
}
