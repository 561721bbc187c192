/** Choosing the inputs of a compaction, and why its outputs fit between the files
    that stay. */
module Picks {
  import opened Keys
  import opened Entries
  import opened Files
  import opened Overlaps
  import opened Layerings
  import opened Versions
  import opened VersionBuilders
  import opened Compactions

  /** `[lo, hi]` is the smallest range of user keys around the files. */
  ghost predicate IsRange(files: seq<File>, lo: UserKey, hi: UserKey) {
    && (exists i :: 0 <= i < |files| && files[i].smallest.key == lo)
    && (exists i :: 0 <= i < |files| && files[i].largest.key == hi)
    && forall i :: 0 <= i < |files| ==> lo <= files[i].smallest.key && files[i].largest.key <= hi
  }

  /** The smallest and largest internal keys of a list of files. */
  method GetRange(files: seq<File>) returns (smallest: Entry, largest: Entry)
    requires files != []
    ensures IsRange(files, smallest.key, largest.key)
    ensures exists i :: 0 <= i < |files| && files[i].smallest == smallest
    ensures exists i :: 0 <= i < |files| && files[i].largest == largest
    ensures forall i :: 0 <= i < |files| ==> !Before(files[i].smallest, smallest) && !Before(largest, files[i].largest)
  {
    smallest, largest := files[0].smallest, files[0].largest;
    for i := 1 to |files|
      invariant exists j :: 0 <= j < i && files[j].smallest == smallest
      invariant exists j :: 0 <= j < i && files[j].largest == largest
      invariant forall j :: 0 <= j < i ==> !Before(files[j].smallest, smallest) && !Before(largest, files[j].largest)
    {
      if Before(files[i].smallest, smallest) {
        smallest := files[i].smallest;
      }
      if Before(largest, files[i].largest) {
        largest := files[i].largest;
      }
    }
  }

  /** The files are all of level 0 that touch some range none of the others reaches into. */
  ghost predicate ClosedSelection(files: seq<File>, inputs: seq<File>) {
    exists lo, hi :: Closed(files, lo, hi) && inputs == Select(files, lo, hi)
  }

  /** A wider range selects no fewer files, and the same number only if the same files. */
  lemma {:induction false} WiderSelects(files: seq<File>, lo: Bound, hi: Bound, lo2: Bound, hi2: Bound)
    requires Inside(lo, hi, lo2, hi2)
    ensures |Select(files, lo, hi)| <= |Select(files, lo2, hi2)|
    ensures |Select(files, lo, hi)| == |Select(files, lo2, hi2)| ==> Select(files, lo, hi) == Select(files, lo2, hi2)
  {
    if files != [] {
      WiderSelects(files[..|files| - 1], lo, hi, lo2, hi2);
    }
  }

  /** The files of a level, or some of them, listed in order. */
  ghost predicate InOrder(files: seq<File>, level: nat) {
    forall x {:trigger Asked(OfPart, x)} :: Asked(OfPart, x) ==> if level == 0 then Level0Ok(files) else LevelOk(files)
  }

  lemma InOrderIs(files: seq<File>, level: nat)
    ensures InOrder(files, level) <==> if level == 0 then Level0Ok(files) else LevelOk(files)
  {
    assert Asked(OfPart, 0);
  }

  lemma OneMoreInLevel(some: seq<File>, last: File)
    requires LevelOk(some) && FileOk(last) && forall f :: f in some ==> Precedes(f.largest, last.smallest)
    ensures LevelOk(some + [last])
  {
  }

  lemma OneMoreInLevel0(some: seq<File>, last: File)
    requires Level0Ok(some) && FileOk(last) && forall f :: f in some ==> f.number != last.number
    requires forall f :: f in some && f.number > last.number ==> NewerThan(Elements(f.entries), Elements(last.entries))
    requires forall f :: f in some && f.number < last.number ==> NewerThan(Elements(last.entries), Elements(f.entries))
    ensures Level0Ok(some + [last])
  {
    forall i, j | 0 <= i < j < |some + [last]|
      ensures (some + [last])[i].number != (some + [last])[j].number
    {
      assert j == |some| ==> some[i] in some;
    }
  }

  /** What is selected stays in order. */
  lemma {:induction false} SelectInLevel(files: seq<File>, lo: Bound, hi: Bound)
    requires LevelOk(files)
    ensures LevelOk(Select(files, lo, hi))
  {
    if files != [] {
      var rest, last := files[..|files| - 1], files[|files| - 1];
      SelectInLevel(rest, lo, hi);
      SelectIs(rest, lo, hi);
      OneMoreInLevel(Select(rest, lo, hi), last);
    }
  }

  lemma WithoutLastInLevel0(files: seq<File>)
    requires Level0Ok(files) && files != []
    ensures var rest, last := files[..|files| - 1], files[|files| - 1];
            && Level0Ok(rest) && FileOk(last) && (forall f :: f in rest ==> f.number != last.number)
            && (forall f :: f in rest && f.number > last.number ==> NewerThan(Elements(f.entries), Elements(last.entries)))
            && forall f :: f in rest && f.number < last.number ==> NewerThan(Elements(last.entries), Elements(f.entries))
  {
    var rest, last := files[..|files| - 1], files[|files| - 1];
    assert last in files && forall f :: f in rest ==> f in files;
  }

  lemma {:induction false} SelectInLevel0(files: seq<File>, lo: Bound, hi: Bound)
    requires Level0Ok(files)
    ensures Level0Ok(Select(files, lo, hi))
  {
    if files != [] {
      var rest, last := files[..|files| - 1], files[|files| - 1];
      WithoutLastInLevel0(files);
      SelectInLevel0(rest, lo, hi);
      SelectIs(rest, lo, hi);
      OneMoreInLevel0(Select(rest, lo, hi), last);
    }
  }

  lemma SelectInOrder(files: seq<File>, level: nat, lo: Bound, hi: Bound)
    requires InOrder(files, level)
    ensures InOrder(Select(files, lo, hi), level)
  {
    InOrderIs(files, level);
    if level == 0 {
      SelectInLevel0(files, lo, hi);
    } else {
      SelectInLevel(files, lo, hi);
    }
    InOrderIs(Select(files, lo, hi), level);
  }

  /** What the inputs of a level may grow to: the files that overlap the range from `start`
      to `limit` (on level 0 those of the least closed range around it, `begin` to `end`);
      they reach from `lo` to `hi`. */
  datatype Growth = Growth(start: UserKey, limit: UserKey, begin: Bound, end: Bound, files: seq<File>, lo: UserKey, hi: UserKey)

  ghost function NoGrowth(): Growth {
    Growth(0.0, 0.0, None, None, [], 0.0, 0.0)
  }

  class CompactionPick {
    const level: nat
    const version: Version
    var inputs0: seq<File>
    var inputs1: seq<File>
    var grandparents: seq<File>
    var compactPointer: Entry

    /** The version is in order around `level`, and the inputs come from it. */
    ghost predicate Ok()
      reads `inputs0
    {
      && level + 1 < NUM_LEVELS && LevelOk(version[level + 1]) && InOrder(version[level], level) && InOrder(inputs0, level)
      && (forall f :: f in version[level] ==> FileOk(f))
      && inputs0 != [] && (forall f :: f in inputs0 ==> f in version[level])
      && (level == 0 ==> ClosedSelection(version[0], inputs0))
    }

    constructor (level: nat, version: Version, inputs: seq<File>)
      requires level + 1 < NUM_LEVELS && LevelOk(version[level + 1]) && InOrder(version[level], level) && InOrder(inputs, level)
      requires forall f :: f in version[level] ==> FileOk(f)
      requires inputs != [] && forall f :: f in inputs ==> f in version[level]
      requires level == 0 ==> ClosedSelection(version[0], inputs)
      ensures Ok() && this.level == level && this.version == version && inputs0 == inputs
    {
      this.level, this.version := level, version;
      inputs0, inputs1, grandparents := inputs, [], [];
      compactPointer := SeekKey(0.0, 0);
    }

    /** `inputs1` is what the inputs of the level meet on the next one. */
    ghost predicate Meets(files: seq<File>, lo: UserKey, hi: UserKey)
      requires level + 1 < NUM_LEVELS
      reads `inputs1
    {
      IsRange(files, lo, hi) && inputs1 == Select(version[level + 1], Some(lo), Some(hi))
    }

    /** `wide` is all of the level that overlaps the range of the compaction so far. */
    ghost predicate WidenedIn(narrow: seq<File>, wide: seq<File>, lo: UserKey, hi: UserKey, b: Bound, e: Bound)
      requires level < NUM_LEVELS
      reads `inputs1
    {
      && IsRange(narrow + inputs1, lo, hi) && wide == Select(version[level], b, e)
      && if level == 0 then LeastClosed(version[0], Some(lo), Some(hi), b, e) else b == Some(lo) && e == Some(hi)
    }

    ghost predicate MayBecome(narrow: seq<File>, g: Growth)
      requires level < NUM_LEVELS
      reads `inputs1
    {
      WidenedIn(narrow, g.files, g.start, g.limit, g.begin, g.end) && IsRange(g.files, g.lo, g.hi)
    }

    /** The inputs of the level have grown from `narrow` if that was allowed. */
    ghost predicate GrownFrom(narrow: seq<File>, limit: nat, g: Growth)
      requires level + 1 < NUM_LEVELS
      reads `inputs0, `inputs1
    {
      if inputs1 == [] then inputs0 == narrow
      else
        && MayBecome(narrow, g)
        && inputs0 == if |g.files| > |narrow| && TotalFileSize(inputs1) + TotalFileSize(g.files) < limit
                         && |Select(version[level + 1], Some(g.lo), Some(g.hi))| == |inputs1| then g.files else narrow
    }

    /** Take in more files of the level if that meets no more files on the next. */
    method Expand(smallest: Entry, largest: Entry, allStart: Entry, allLimit: Entry, limit: nat)
      returns (largestInput: Entry, ghost lo: UserKey, ghost hi: UserKey, ghost g: Growth)
      requires Ok() && Meets(inputs0, smallest.key, largest.key) && IsRange(inputs0 + inputs1, allStart.key, allLimit.key)
      modifies this`inputs0, this`inputs1
      ensures Ok() && inputs1 == old(inputs1) && Meets(inputs0, lo, hi) && largestInput.key == hi
      ensures forall f :: f in old(inputs0) ==> f in inputs0
      ensures MayBecome(old(inputs0), g)
      ensures inputs0 == if |g.files| > |old(inputs0)| && TotalFileSize(inputs1) + TotalFileSize(g.files) < limit
                            && |Select(version[level + 1], Some(g.lo), Some(g.hi))| == |inputs1| then g.files else old(inputs0)
    {
      largestInput, lo, hi := largest, smallest.key, largest.key;
      var expanded0;
      expanded0, g := Expanded(allStart.key, allLimit.key);
      if |expanded0| > |inputs0| && TotalFileSize(inputs1) + TotalFileSize(expanded0) < limit {
        var newStart, newLimit := GetRange(expanded0);
        OneRange(expanded0, newStart.key, newLimit.key, g.lo, g.hi);
        var expanded1, _, _ := GetOverlappingInputs(version[level + 1], level + 1, Some(newStart.key), Some(newLimit.key));
        if |expanded1| == |inputs1| {
          GrowthMeetsNoMore(smallest.key, largest.key, expanded0, newStart.key, newLimit.key);
          largestInput, lo, hi := newLimit, newStart.key, newLimit.key;
          inputs0, inputs1 := expanded0, expanded1;
        }
      }
    }

    lemma GrowthMeetsNoMore(lo: UserKey, hi: UserKey, wide: seq<File>, lo2: UserKey, hi2: UserKey)
      requires level + 1 < NUM_LEVELS && Meets(inputs0, lo, hi) && IsRange(wide, lo2, hi2) && forall f :: f in inputs0 ==> f in wide
      requires |Select(version[level + 1], Some(lo2), Some(hi2))| == |inputs1|
      ensures Select(version[level + 1], Some(lo2), Some(hi2)) == inputs1
    {
      RangeGrows(inputs0, lo, hi, wide, lo2, hi2);
      WiderSelects(version[level + 1], Some(lo), Some(hi), Some(lo2), Some(hi2));
    }

    /** The files of the level that overlap the whole range of the compaction. */
    method Expanded(allStart: UserKey, allLimit: UserKey) returns (expanded0: seq<File>, ghost g: Growth)
      requires Ok() && IsRange(inputs0 + inputs1, allStart, allLimit)
      ensures forall f :: f in inputs0 ==> f in expanded0
      ensures (forall f :: f in expanded0 ==> f in version[level]) && InOrder(expanded0, level)
      ensures MayBecome(inputs0, g) && g.files == expanded0
      ensures level == 0 ==> ClosedSelection(version[0], expanded0)
    {
      ghost var b, e;
      expanded0, b, e := GetOverlappingInputs(version[level], level, Some(allStart), Some(allLimit));
      SelectIs(version[level], b, e);
      SelectInOrder(version[level], level, b, e);
      InputsAreSelected(allStart, allLimit, b, e);
      assert inputs0[0] in expanded0;
      ghost var lo, hi := HasRange(expanded0);
      g := Growth(allStart, allLimit, b, e, expanded0, lo, hi);
    }

    /** The files already picked lie in any range around them. */
    lemma InputsAreSelected(lo: UserKey, hi: UserKey, b: Bound, e: Bound)
      requires Ok() && IsRange(inputs0 + inputs1, lo, hi) && Inside(Some(lo), Some(hi), b, e)
      ensures forall f :: f in inputs0 ==> Overlapping(f, b, e)
    {
      forall f | f in inputs0
        ensures Overlapping(f, b, e)
      {
        var i :| 0 <= i < |inputs0| && inputs0[i] == f;
        assert (inputs0 + inputs1)[i] == f;
        FileRange(f, f.smallest);
      }
    }

    /** What the inputs meet on the next level, and more files of this one where that is free. */
    method MeetAndGrow(smallest: Entry, largest: Entry, limit: nat)
      returns (largestInput: Entry, ghost lo: UserKey, ghost hi: UserKey, ghost g: Growth)
      requires Ok() && IsRange(inputs0, smallest.key, largest.key)
      modifies this`inputs0, this`inputs1
      ensures Ok() && forall f :: f in old(inputs0) ==> f in inputs0
      ensures Meets(old(inputs0), smallest.key, largest.key) && Meets(inputs0, lo, hi) && largestInput.key == hi
      ensures GrownFrom(old(inputs0), limit, g)
    {
      MeetNext(smallest, largest);
      largestInput, lo, hi := largest, smallest.key, largest.key;
      g := NoGrowth();
      if inputs1 != [] {
        var allStart, allLimit := GetRange(inputs0 + inputs1);
        largestInput, lo, hi, g := Expand(smallest, largest, allStart, allLimit, limit);
      }
    }

    /** Everything the chosen inputs drag in: the overlapping files of the next level, the
        files to watch one level further down, and all files of this level in the range of
        the inputs so far, just when there are more of them, all sizes together stay below
        the limit, and the range of these meets no more files on the next level. */
    method SetupOtherInputs(limit: nat)
      returns (ghost lo0: UserKey, ghost hi0: UserKey, ghost lo: UserKey, ghost hi: UserKey, ghost g: Growth)
      requires Ok()
      modifies `inputs0, `inputs1, `grandparents, `compactPointer
      ensures Ok() && forall f :: f in old(inputs0) ==> f in inputs0
      ensures Meets(old(inputs0), lo0, hi0) && Meets(inputs0, lo, hi) && compactPointer.key == hi
      ensures GrownFrom(old(inputs0), limit, g)
      ensures inputs1 == [] ==> inputs0 == old(inputs0)
      ensures inputs1 != [] ==> IsRange(old(inputs0) + inputs1, g.start, g.limit) && IsRange(g.files, g.lo, g.hi)
      ensures inputs1 != [] && level > 0 ==> g.files == Select(version[level], Some(g.start), Some(g.limit))
      ensures inputs1 != [] && level == 0 ==>
                g.files == Select(version[0], g.begin, g.end) && LeastClosed(version[0], Some(g.start), Some(g.limit), g.begin, g.end)
      ensures inputs1 != [] ==>
                inputs0 == if |g.files| > |old(inputs0)| && TotalFileSize(inputs1) + TotalFileSize(g.files) < limit
                              && |Select(version[level + 1], Some(g.lo), Some(g.hi))| == |inputs1| then g.files else old(inputs0)
      ensures level + 2 < NUM_LEVELS ==> Watches()
    {
      var smallest, largest := GetRange(inputs0);
      lo0, hi0 := smallest.key, largest.key;
      largest, lo, hi, g := MeetAndGrow(smallest, largest, limit);
      WatchGrandparents(largest);
    }

    method MeetNext(smallest: Entry, largest: Entry)
      requires level + 1 < NUM_LEVELS && IsRange(inputs0, smallest.key, largest.key)
      modifies `inputs1
      ensures Meets(inputs0, smallest.key, largest.key)
    {
      var overlapping, _, _ := GetOverlappingInputs(version[level + 1], level + 1, Some(smallest.key), Some(largest.key));
      inputs1 := overlapping;
    }

    /** One file that meets nothing on the next level and not too much on the one below. */
    predicate IsTrivialMove(overlapLimit: nat)
      reads `inputs0, `inputs1, `grandparents
    {
      |inputs0| == 1 && |inputs1| == 0 && TotalFileSize(grandparents) <= overlapLimit
    }

    method WatchGrandparents(largest: Entry)
      requires level + 1 < NUM_LEVELS && inputs0 != []
      modifies `grandparents, `compactPointer
      ensures compactPointer == largest && (level + 2 < NUM_LEVELS ==> Watches())
    {
      compactPointer := largest;
      if level + 2 < NUM_LEVELS {
        var allStart, allLimit := GetRange(inputs0 + inputs1);
        var watched, _, _ := GetOverlappingInputs(version[level + 2], level + 2, Some(allStart.key), Some(allLimit.key));
        grandparents := watched;
        assert WatchesIn(allStart.key, allLimit.key);
      }
    }

    /** The grandparents are the files two levels down that overlap the inputs. */
    ghost predicate Watches()
      requires level + 2 < NUM_LEVELS
      reads `inputs0, `inputs1, `grandparents
    {
      exists a, b :: WatchesIn(a, b)
    }

    ghost predicate WatchesIn(a: UserKey, b: UserKey)
      requires level + 2 < NUM_LEVELS
      reads `inputs0, `inputs1, `grandparents
    {
      IsRange(inputs0 + inputs1, a, b) && grandparents == Select(version[level + 2], Some(a), Some(b))
    }
  }

  lemma {:induction false} HasRange(files: seq<File>) returns (lo: UserKey, hi: UserKey)
    requires files != []
    ensures IsRange(files, lo, hi)
  {
    lo, hi := files[0].smallest.key, files[0].largest.key;
    if |files| > 1 {
      var rest := files[1..];
      var lo2, hi2 := HasRange(rest);
      var i :| 0 <= i < |rest| && rest[i].smallest.key == lo2;
      var j :| 0 <= j < |rest| && rest[j].largest.key == hi2;
      lo, hi := if lo2 < lo then lo2 else lo, if hi2 > hi then hi2 else hi;
      assert files[i + 1] == rest[i] && files[j + 1] == rest[j];
      assert files[0].smallest.key == lo || files[i + 1].smallest.key == lo;
      assert files[0].largest.key == hi || files[j + 1].largest.key == hi;
    }
  }

  lemma OneRange(files: seq<File>, lo: UserKey, hi: UserKey, lo2: UserKey, hi2: UserKey)
    requires IsRange(files, lo, hi) && IsRange(files, lo2, hi2)
    ensures lo == lo2 && hi == hi2
  {
  }

  lemma RangeGrows(files: seq<File>, lo: UserKey, hi: UserKey, files2: seq<File>, lo2: UserKey, hi2: UserKey)
    requires IsRange(files, lo, hi) && IsRange(files2, lo2, hi2) && forall f :: f in files ==> f in files2
    ensures lo2 <= lo && hi <= hi2
  {
    var i :| 0 <= i < |files| && files[i].smallest.key == lo;
    var j :| 0 <= j < |files| && files[j].largest.key == hi;
    assert files[i] in files2 && files[j] in files2;
  }

  // ---- Fit ----

  /** A level-0 file that was not picked shares no user key with those that were. */
  lemma ClosedSelectionSharesNoKey(files: seq<File>, inputs: seq<File>, f: File, g: File, u: UserKey)
    requires ClosedSelection(files, inputs) && f in inputs && g in files && g !in inputs
    ensures !(Covers(f, u) && Covers(g, u))
  {
    var lo, hi :| Closed(files, lo, hi) && inputs == Select(files, lo, hi);
    SelectIs(files, lo, hi);
    var i :| 0 <= i < |files| && files[i] == f;
    assert Within(files[i], lo, hi);
  }

  ghost predicate AllBeyond(files: seq<File>, g: File) {
    forall f :: f in files ==> Precedes(g.largest, f.smallest)
  }

  ghost predicate AllBefore(files: seq<File>, g: File) {
    forall f :: f in files ==> Precedes(f.largest, g.smallest)
  }

  /** A file of the next level that was not picked lies wholly before or wholly after
      all inputs, in internal-key order. */
  lemma UnpickedFileIsClear(next: seq<File>, inputs0: seq<File>, lo: UserKey, hi: UserKey, g: File)
    requires LevelOk(next) && IsRange(inputs0, lo, hi) && lo <= hi
    requires g in next && g !in Select(next, Some(lo), Some(hi))
    ensures AllBeyond(inputs0 + Select(next, Some(lo), Some(hi)), g) || AllBefore(inputs0 + Select(next, Some(lo), Some(hi)), g)
  {
    var inputs1 := Select(next, Some(lo), Some(hi));
    SelectIs(next, Some(lo), Some(hi));
    assert !Overlapping(g, Some(lo), Some(hi));
    forall f | f in inputs1
      ensures if g.largest.key < lo then Precedes(g.largest, f.smallest) else Precedes(f.largest, g.smallest)
    {
      PickedOnOneSide(next, lo, hi, f, g);
    }
    forall f | f in inputs0
      ensures lo <= f.smallest.key && f.largest.key <= hi
    {
    }
    if g.largest.key < lo {
      assert AllBeyond(inputs0 + inputs1, g);
    } else {
      assert AllBefore(inputs0 + inputs1, g);
    }
  }

  lemma PickedOnOneSide(next: seq<File>, lo: UserKey, hi: UserKey, f: File, g: File)
    requires LevelOk(next) && f in next && g in next && lo <= hi
    requires Overlapping(f, Some(lo), Some(hi)) && !Overlapping(g, Some(lo), Some(hi))
    ensures if g.largest.key < lo then Precedes(g.largest, f.smallest) else Precedes(f.largest, g.smallest)
  {
    var i :| 0 <= i < |next| && next[i] == f;
    var j :| 0 <= j < |next| && next[j] == g;
    FileRange(f, f.smallest);
    FileRange(g, g.smallest);
  }

  ghost predicate Apart(f: File, g: File) {
    Precedes(f.largest, g.smallest) || Precedes(g.largest, f.smallest)
  }

  /** Of two disjoint files the one listed first is the lower one. */
  lemma ListedInOrder(f: File, g: File)
    requires FileOk(f) && FileOk(g) && FileLess(f, g) && Apart(f, g)
    ensures Precedes(f.largest, g.smallest)
  {
    FileRange(f, f.smallest);
    FileRange(g, g.smallest);
  }

  lemma {:induction false} OutputEntriesAre(outputs: seq<File>, k: nat)
    requires k < |outputs|
    ensures forall e :: e in outputs[k].entries ==> e in OutputEntries(outputs)
  {
    if k < |outputs| - 1 {
      OutputEntriesAre(outputs[..|outputs| - 1], k);
    }
  }

  lemma {:induction false} OutputsInOrder(outputs: seq<File>, firstNumber: nat, i: nat, j: nat)
    requires OutputsOk(outputs, firstNumber) && Sorted(OutputEntries(outputs)) && i < j < |outputs|
    ensures Precedes(outputs[i].largest, outputs[j].smallest)
  {
    var before, last := outputs[..|outputs| - 1], outputs[|outputs| - 1];
    SortedParts(OutputEntries(before), last.entries);
    if j < |outputs| - 1 {
      OutputsInOrder(before, firstNumber, i, j);
    } else {
      OutputEntriesAre(before, i);
      assert outputs[i].largest in before[i].entries;
      var all := OutputEntries(before) + last.entries;
      var p :| 0 <= p < |OutputEntries(before)| && OutputEntries(before)[p] == outputs[i].largest;
      assert all[p] == outputs[i].largest && all[|OutputEntries(before)|] == outputs[j].smallest;
    }
  }

  /** Everything written came from an input. */
  ghost predicate DrawnFrom(outputs: seq<File>, inputs: seq<File>) {
    forall e :: e in OutputEntries(outputs) ==> exists f :: f in inputs && e in f.entries
  }

  lemma OutputClearOfUnpicked(inputs: seq<File>, outputs: seq<File>, k: nat, g: File)
    requires k < |outputs| && FileOk(outputs[k]) && DrawnFrom(outputs, inputs) && forall f :: f in inputs ==> FileOk(f)
    requires AllBeyond(inputs, g) || AllBefore(inputs, g)
    ensures Apart(outputs[k], g)
  {
    OutputEntriesAre(outputs, k);
    var o := outputs[k];
    assert o.smallest in o.entries && o.largest in o.entries;
    var f :| f in inputs && o.smallest in f.entries;
    var h :| h in inputs && o.largest in h.entries;
    FileRange(f, o.smallest);
    FileRange(h, o.largest);
  }

  /** No output overlaps a file of the next level that stays there. */
  ghost predicate ClearOf(outputs: seq<File>, next: seq<File>, inputs1: seq<File>) {
    forall o, g :: o in outputs && g in next && g !in inputs1 ==> Apart(o, g)
  }

  /** Sorted outputs fit between the files that stay, if they overlap none. */
  lemma OutputsFit(next: seq<File>, inputs1: seq<File>, outputs: seq<File>, firstNumber: nat, installed: seq<File>)
    requires LevelOk(next) && OutputsOk(outputs, firstNumber) && Sorted(OutputEntries(outputs)) && ClearOf(outputs, next, inputs1)
    requires Ascending(installed) && forall f :: f in installed <==> (f in next && f !in inputs1) || f in outputs
    ensures LevelOk(installed)
  {
    forall i | 0 <= i < |installed|
      ensures FileOk(installed[i])
    {
      assert installed[i] in installed;
    }
    forall i, j | 0 <= i < j < |installed|
      ensures Precedes(installed[i].largest, installed[j].smallest)
    {
      assert installed[i] in installed && installed[j] in installed && FileLess(installed[i], installed[j]);
      InstalledApart(next, inputs1, outputs, firstNumber, installed[i], installed[j]);
      ListedInOrder(installed[i], installed[j]);
    }
  }

  lemma InstalledApart(next: seq<File>, inputs1: seq<File>, outputs: seq<File>, firstNumber: nat, f: File, g: File)
    requires LevelOk(next) && OutputsOk(outputs, firstNumber) && Sorted(OutputEntries(outputs)) && ClearOf(outputs, next, inputs1)
    requires (f in next && f !in inputs1) || f in outputs
    requires (g in next && g !in inputs1) || g in outputs
    requires f != g
    ensures Apart(f, g)
  {
    if f in outputs && g in outputs {
      var i :| 0 <= i < |outputs| && outputs[i] == f;
      var j :| 0 <= j < |outputs| && outputs[j] == g;
      OutputsInOrder(outputs, firstNumber, if i < j then i else j, if i < j then j else i);
    } else if f !in outputs && g !in outputs {
      var i :| 0 <= i < |next| && next[i] == f;
      var j :| 0 <= j < |next| && next[j] == g;
    } else {
      assert Apart(f, g) <==> Apart(g, f);
    }
  }

  /** Taking files out leaves a level in order. */
  lemma RemainingFilesFit(files: seq<File>, remaining: seq<File>)
    requires LevelOk(files) && Ascending(remaining) && forall f :: f in remaining ==> f in files
    ensures LevelOk(remaining)
  {
    forall i | 0 <= i < |remaining|
      ensures FileOk(remaining[i])
    {
      assert remaining[i] in files;
    }
    forall i, j | 0 <= i < j < |remaining|
      ensures Precedes(remaining[i].largest, remaining[j].smallest)
    {
      assert remaining[i] in files && remaining[j] in files;
      assert FileLess(remaining[i], remaining[j]);
      var a :| 0 <= a < |files| && files[a] == remaining[i];
      var b :| 0 <= b < |files| && files[b] == remaining[j];
      ListedInOrder(remaining[i], remaining[j]);
    }
  }

  /** `remaining` and `installed` are the two levels once the inputs are replaced by `outputs`. */
  ghost predicate Replaced(files: seq<File>, next: seq<File>, inputs0: seq<File>, inputs1: seq<File>, outputs: seq<File>,
                           remaining: seq<File>, installed: seq<File>) {
    && Ascending(remaining) && (forall f :: f in remaining <==> f in files && f !in inputs0)
    && Ascending(installed) && (forall f :: f in installed <==> (f in next && f !in inputs1) || f in outputs)
  }

  /** What is made of the inputs' entries overlaps no file of the next level that was not picked. */
  lemma OutputsAreClear(next: seq<File>, inputs0: seq<File>, lo: UserKey, hi: UserKey, outputs: seq<File>, firstNumber: nat)
    requires LevelOk(next) && IsRange(inputs0, lo, hi) && forall f :: f in inputs0 ==> FileOk(f)
    requires OutputsOk(outputs, firstNumber) && DrawnFrom(outputs, inputs0 + Select(next, Some(lo), Some(hi)))
    ensures ClearOf(outputs, next, Select(next, Some(lo), Some(hi)))
  {
    var inputs1 := Select(next, Some(lo), Some(hi));
    SelectIs(next, Some(lo), Some(hi));
    RangeOrdered(inputs0, lo, hi);
    forall o, g | o in outputs && g in next && g !in inputs1
      ensures Apart(o, g)
    {
      UnpickedFileIsClear(next, inputs0, lo, hi, g);
      var k :| 0 <= k < |outputs| && outputs[k] == o;
      OutputClearOfUnpicked(inputs0 + inputs1, outputs, k, g);
    }
  }

  /** Whatever sorted tables are made of the inputs' entries, installing them in place
      of the inputs keeps both levels sorted and disjoint. */
  lemma InstallKeepsLevels(files: seq<File>, next: seq<File>, level: nat, inputs0: seq<File>, lo: UserKey, hi: UserKey,
                           outputs: seq<File>, firstNumber: nat, remaining: seq<File>, installed: seq<File>)
    requires LevelOk(next) && (level > 0 ==> LevelOk(files))
    requires IsRange(inputs0, lo, hi) && forall f :: f in inputs0 ==> f in files && FileOk(f)
    requires OutputsOk(outputs, firstNumber) && Sorted(OutputEntries(outputs))
    requires DrawnFrom(outputs, inputs0 + Select(next, Some(lo), Some(hi)))
    requires Replaced(files, next, inputs0, Select(next, Some(lo), Some(hi)), outputs, remaining, installed)
    ensures LevelOk(installed) && (level > 0 ==> LevelOk(remaining))
  {
    OutputsAreClear(next, inputs0, lo, hi, outputs, firstNumber);
    OutputsFit(next, Select(next, Some(lo), Some(hi)), outputs, firstNumber, installed);
    if level > 0 {
      RemainingFilesFit(files, remaining);
    }
  }

  /** The outputs of a compaction are sorted tables made of its inputs' entries. */
  lemma OutputsAreDrawn(list: seq<Entry>, inputs: seq<File>, snap: nat, version: Version, level: nat, outputs: seq<File>)
    requires Sorted(list) && Elements(list) == FileEntries(inputs)
    requires OutputEntries(outputs) == Survivors(list, |list|, snap, version, level)
    ensures Sorted(OutputEntries(outputs)) && DrawnFrom(outputs, inputs)
  {
    SurvivorsAre(list, |list|, snap, version, level);
    forall e | e in OutputEntries(outputs)
      ensures exists f :: f in inputs && e in f.entries
    {
      assert e in Elements(list);
      var i :| 0 <= i < |inputs| && e in inputs[i].entries;
      assert inputs[i] in inputs;
    }
  }

  lemma RangeOrdered(files: seq<File>, lo: UserKey, hi: UserKey)
    requires IsRange(files, lo, hi) && forall f :: f in files ==> FileOk(f)
    ensures lo <= hi
  {
    assert files[0] in files;
    FileRange(files[0], files[0].smallest);
  }
}
