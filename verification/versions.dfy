/** Reading from a version: level by level, stopping at the first file that knows the key. */
module Versions {
  import opened Keys
  import opened Entries
  import opened Cursors
  import opened Files
  import opened Layerings
  import opened Overlaps

  ghost function AllEntries(v: Version): set<Entry> {
    set level, e | 0 <= level < NUM_LEVELS && e in FileEntries(v[level]) :: e
  }

  /** Level-0 files with higher numbers are newer, and no two share a number. */
  ghost predicate Level0Ok(files: seq<File>) {
    && (forall i :: 0 <= i < |files| ==> FileOk(files[i]))
    && (forall f, g :: f in files && g in files && f.number > g.number ==> NewerThan(Elements(f.entries), Elements(g.entries)))
    && (forall i, j :: 0 <= i < j < |files| ==> files[i].number != files[j].number)
  }

  /** What every version of a running store satisfies: entries never hop across levels. */
  ghost predicate VersionOrdered(v: Version) {
    && Level0Ok(v[0]) && (forall level :: 0 < level < NUM_LEVELS ==> LevelOk(v[level]))
    && (forall a, b :: 0 <= a < b < NUM_LEVELS ==> NewerThan(FileEntries(v[a]), FileEntries(v[b])))
  }

  /** The levels as layers. */
  ghost function Layers(v: Version): (layers: seq<set<Entry>>)
    ensures |layers| == NUM_LEVELS && forall l :: 0 <= l < NUM_LEVELS ==> layers[l] == FileEntries(v[l])
  {
    seq(NUM_LEVELS, l requires 0 <= l < NUM_LEVELS => FileEntries(v[l]))
  }

  /** Each level for itself can be searched. */
  ghost predicate LevelsSorted(v: Version) {
    Level0Ok(v[0]) && forall level :: 0 < level < NUM_LEVELS ==> LevelOk(v[level])
  }

  lemma LevelFilesOk(v: Version, level: nat)
    requires LevelsSorted(v) && level < NUM_LEVELS
    ensures (level > 0 ==> LevelOk(v[level])) && forall f :: f in v[level] ==> FileOk(f)
  {
    forall f | f in v[level]
      ensures FileOk(f)
    {
      var i :| 0 <= i < |v[level]| && v[level][i] == f;
    }
  }

  lemma VersionLayers(v: Version)
    ensures VersionOrdered(v) <==> LevelsSorted(v) && LayersOrdered(Layers(v))
    ensures Union(Layers(v)) == AllEntries(v)
  {
    forall e | e in Union(Layers(v))
      ensures e in AllEntries(v)
    {
      var l :| 0 <= l < |Layers(v)| && e in Layers(v)[l];
      assert e in FileEntries(v[l]);
    }
    forall e | e in AllEntries(v)
      ensures e in Union(Layers(v))
    {
      var l :| 0 <= l < NUM_LEVELS && e in FileEntries(v[l]);
      assert e in Layers(v)[l];
    }
  }

  /** A version with files on levels 1 and 2 only. */
  lemma TwoLevels(v: Version, upper: seq<File>, lower: seq<File>)
    requires v == [[], upper, lower, [], [], [], []]
    ensures AllEntries(v) == FileEntries(upper) + FileEntries(lower)
    ensures LevelOk(upper) && LevelOk(lower) && NewerThan(FileEntries(upper), FileEntries(lower)) ==> VersionOrdered(v)
  {
    assert forall l :: 0 <= l < NUM_LEVELS && l != 1 && l != 2 ==> v[l] == [];
    assert v[1] == upper && v[2] == lower;
    assert forall e :: e in FileEntries(upper) + FileEntries(lower) ==> e in AllEntries(v);
  }

  /** The sought entry of a memtable, and the one a table hands to the saver: where the
      seek lands, if it is of the same user key. */
  method NewestIn(list: seq<Entry>, u: UserKey, s: nat) returns (found: Option<Entry>)
    requires Sorted(list)
    ensures found == None ==> Lacks(Elements(list), u, s)
    ensures found.Some? ==> Newest(Elements(list), found.value, u, s)
  {
    var iter := new EntryCursor(list);
    iter.Seek(SeekKey(u, s));
    found := None;
    if iter.Valid() && iter.Current().key == u {
      found := Some(iter.Current());
    }
  }

  /** The loop over the files chosen at one level. */
  method SearchFiles(files: seq<File>, u: UserKey, s: nat) returns (found: Option<Entry>, ghost at: nat)
    requires forall i :: 0 <= i < |files| ==> FileOk(files[i])
    ensures found == None ==> forall i :: 0 <= i < |files| ==> Lacks(Elements(files[i].entries), u, s)
    ensures found.Some? ==> at < |files| && Newest(Elements(files[at].entries), found.value, u, s)
                            && forall i :: 0 <= i < at ==> Lacks(Elements(files[i].entries), u, s)
  {
    for i := 0 to |files|
      invariant forall j :: 0 <= j < i ==> Lacks(Elements(files[j].entries), u, s)
    {
      found := NewestIn(files[i].entries, u, s);
      if found.Some? {
        at := i;
        return;
      }
    }
    found, at := None, 0;
  }

  ghost predicate NewestFirst(files: seq<File>) {
    forall i, j :: 0 <= i < j < |files| ==> files[i].number > files[j].number
  }

  function InsertByNumber(files: seq<File>, f: File): seq<File> {
    if files == [] || f.number > files[0].number then [f] + files else [files[0]] + InsertByNumber(files[1..], f)
  }

  lemma {:induction false} InsertByNumberIs(files: seq<File>, f: File)
    requires NewestFirst(files) && forall g :: g in files ==> g.number != f.number
    ensures NewestFirst(InsertByNumber(files, f)) && forall g :: g in InsertByNumber(files, f) <==> g in files || g == f
  {
    if files != [] && f.number < files[0].number {
      var rest := files[1..];
      assert files == [files[0]] + rest;
      InsertByNumberIs(rest, f);
      forall i | 0 <= i < |InsertByNumber(rest, f)|
        ensures files[0].number > InsertByNumber(rest, f)[i].number
      {
        assert InsertByNumber(rest, f)[i] in InsertByNumber(rest, f);
      }
    } else if files != [] {
      assert files[0] in files;
    }
  }

  /** The level-0 files whose range covers `u`, newest first. */
  method Level0Candidates(files: seq<File>, u: UserKey) returns (tmp: seq<File>)
    requires forall i, j :: 0 <= i < j < |files| ==> files[i].number != files[j].number
    ensures NewestFirst(tmp) && forall f :: f in tmp <==> f in files && Covers(f, u)
  {
    tmp := [];
    for i := 0 to |files|
      invariant NewestFirst(tmp) && forall f :: f in tmp <==> f in files[..i] && Covers(f, u)
    {
      assert files[..i + 1] == files[..i] + [files[i]];
      if u >= files[i].smallest.key && u <= files[i].largest.key {
        InsertByNumberIs(tmp, files[i]);
        tmp := InsertByNumber(tmp, files[i]);
      }
    }
    assert files[..|files|] == files;
  }

  /** Binary search for the first file whose largest key is at or after `target`. */
  method FindFile(files: seq<File>, target: Entry) returns (index: nat)
    requires LevelOk(files)
    ensures index <= |files|
    ensures forall i :: 0 <= i < index ==> Before(files[i].largest, target)
    ensures forall i :: index <= i < |files| ==> !Before(files[i].largest, target)
  {
    var left, right := 0, |files|;
    while left < right
      invariant 0 <= left <= right <= |files|
      invariant forall i :: 0 <= i < left ==> Before(files[i].largest, target)
      invariant forall i :: right <= i < |files| ==> !Before(files[i].largest, target)
    {
      var mid := (left + right) / 2;
      assert forall i :: 0 <= i < |files| && i != mid ==>
               if i < mid then Precedes(files[i].largest, files[mid].largest) else Precedes(files[mid].largest, files[i].largest) by {
        LargestAscend(files);
      }
      if Before(files[mid].largest, target) {
        left := mid + 1;
      } else {
        right := mid;
      }
    }
    index := right;
  }

  lemma LargestAscend(files: seq<File>)
    requires LevelOk(files)
    ensures forall i, j :: 0 <= i < j < |files| ==> Precedes(files[i].largest, files[j].largest)
  {
    forall i, j | 0 <= i < j < |files|
      ensures Precedes(files[i].largest, files[j].largest)
    {
      FileRange(files[j], files[j].largest);
    }
  }

  /** Of a sorted level one file is enough: it has the newest entry, or nobody has one. */
  lemma OneFileIsEnough(files: seq<File>, index: nat, u: UserKey, s: nat, e: Entry, j: nat)
    requires LevelOk(files) && index <= |files| && j < |files| && e in files[j].entries && e.key == u && e.seqno <= s
    requires forall i :: 0 <= i < index ==> Before(files[i].largest, SeekKey(u, s))
    requires forall i :: index <= i < |files| ==> !Before(files[i].largest, SeekKey(u, s))
    ensures index <= j && Covers(files[index], u)
    ensures index < j ==> files[index].largest.key == u && e.seqno < files[index].largest.seqno <= s
  {
    FileRange(files[j], e);
    if index < j {
      assert Precedes(files[index].largest, files[j].smallest);
      FileRange(files[index], files[index].smallest);
    }
  }

  /** The one file of a sorted level worth reading, if any. */
  method LevelCandidates(files: seq<File>, u: UserKey, s: nat) returns (candidates: seq<File>)
    requires LevelOk(files)
    ensures |candidates| <= 1 && forall i :: 0 <= i < |candidates| ==> FileOk(candidates[i])
    ensures candidates == [] ==> Lacks(FileEntries(files), u, s)
    ensures candidates != [] ==>
              && (Lacks(Elements(candidates[0].entries), u, s) ==> Lacks(FileEntries(files), u, s))
              && forall e :: Newest(Elements(candidates[0].entries), e, u, s) ==> Newest(FileEntries(files), e, u, s)
  {
    var index := FindFile(files, SeekKey(u, s));
    forall e, j: nat | j < |files| && e in files[j].entries && e.key == u && e.seqno <= s
      ensures index <= j && Covers(files[index], u)
      ensures index < j ==> files[index].largest.key == u && e.seqno < files[index].largest.seqno <= s
    {
      OneFileIsEnough(files, index, u, s, e, j);
    }
    candidates := [];
    if index < |files| && !(u < files[index].smallest.key) {
      candidates := [files[index]];
      assert files[index].largest in files[index].entries;
    }
  }

  lemma LevelDistinct(v: Version, level: nat)
    requires level < NUM_LEVELS && Distinct(AllEntries(v))
    ensures Distinct(FileEntries(v[level]))
  {
    assert FileEntries(v[level]) <= AllEntries(v);
  }

  /** Level by level, stopping at the first that knows the key. */
  method SearchLevels(v: Version, u: UserKey, s: nat, ghost layers: seq<set<Entry>>) returns (value: Option<Bytes>)
    requires LevelsSorted(v) && Distinct(AllEntries(v)) && layers == Layers(v)
    ensures value == Search(layers, u, s)
  {
    for level := 0 to NUM_LEVELS
      invariant Search(layers, u, s) == Search(layers[level..], u, s)
    {
      SearchNext(layers, level, u, s);
      var found := SearchLevel(v[level], level, u, s);
      if found.Some? {
        LevelDistinct(v, level);
        ReadOfNewest(FileEntries(v[level]), found.value, u, s);
        value := if found.value.kind.Put? then Some(found.value.value) else None;
        return;
      }
    }
    value := None;
  }

  /** The first level that knows the key decides; in a version in order that is the newest
      entry of all. */
  method Get(v: Version, u: UserKey, s: nat) returns (value: Option<Bytes>)
    requires LevelsSorted(v) && Distinct(AllEntries(v))
    ensures value == Search(Layers(v), u, s)
    ensures VersionOrdered(v) ==> value == Read(AllEntries(v), u, s)
  {
    VersionLayers(v);
    if VersionOrdered(v) {
      OrderedSearchReads(Layers(v), u, s);
    }
    value := SearchLevels(v, u, s, Layers(v));
  }

  method SearchLevel(files: seq<File>, level: nat, u: UserKey, s: nat) returns (found: Option<Entry>)
    requires if level == 0 then Level0Ok(files) else LevelOk(files)
    ensures found == None ==> Lacks(FileEntries(files), u, s)
    ensures found.Some? ==> Newest(FileEntries(files), found.value, u, s)
  {
    ghost var at: nat;
    if level == 0 {
      var tmp := Level0Candidates(files, u);
      assert forall i :: 0 <= i < |tmp| ==> tmp[i] in files;
      found, at := SearchFiles(tmp, u, s);
      Level0Answer(files, tmp, u, s, found, at);
    } else {
      var candidates := LevelCandidates(files, u, s);
      found, at := SearchFiles(candidates, u, s);
    }
  }

  /** An entry in a level-0 file is in a candidate, and in one before `at` or older than what `at` has. */
  lemma InCandidate(files: seq<File>, tmp: seq<File>, u: UserKey, f: File, e: Entry) returns (i: nat)
    requires Level0Ok(files) && NewestFirst(tmp) && forall f :: f in tmp <==> f in files && Covers(f, u)
    requires f in files && e in f.entries && e.key == u
    ensures i < |tmp| && e in Elements(tmp[i].entries)
    ensures forall at :: 0 <= at < i ==> NewerThan(Elements(tmp[at].entries), Elements(tmp[i].entries))
  {
    FileRange(f, e);
    i :| 0 <= i < |tmp| && tmp[i] == f;
    forall at | 0 <= at < i
      ensures NewerThan(Elements(tmp[at].entries), Elements(tmp[i].entries))
    {
      assert tmp[at] in tmp && tmp[at].number > tmp[i].number;
    }
  }

  lemma Level0Answer(files: seq<File>, tmp: seq<File>, u: UserKey, s: nat, found: Option<Entry>, at: nat)
    requires Level0Ok(files) && NewestFirst(tmp) && forall f :: f in tmp <==> f in files && Covers(f, u)
    requires found == None ==> forall i :: 0 <= i < |tmp| ==> Lacks(Elements(tmp[i].entries), u, s)
    requires found.Some? ==> at < |tmp| && Newest(Elements(tmp[at].entries), found.value, u, s)
                             && forall i :: 0 <= i < at ==> Lacks(Elements(tmp[i].entries), u, s)
    ensures found == None ==> Lacks(FileEntries(files), u, s)
    ensures found.Some? ==> Newest(FileEntries(files), found.value, u, s)
  {
    forall f, e | f in files && e in f.entries && e.key == u && e.seqno <= s
      ensures found.Some? && e.seqno <= found.value.seqno
    {
      var i := InCandidate(files, tmp, u, f, e);
    }
    if found.Some? {
      var f := tmp[at];
      assert f in tmp;
      assert found.value in FileEntries(files);
    }
  }

  // ---- Where a memtable's table goes ----

  ghost predicate NoOverlap(files: seq<File>, lo: Bound, hi: Bound) {
    forall i :: 0 <= i < |files| ==> !Overlapping(files[i], lo, hi)
  }

  /** Sequence numbers share 64 bits with the kind, so they are at most `MAX_SEQUENCE`. */
  ghost predicate SequencesFit(files: seq<File>) {
    forall i :: 0 <= i < |files| ==> files[i].largest.seqno <= MAX_SEQUENCE
  }

  /** `AfterFile`: the range begins behind the file. */
  predicate AfterFile(lo: Bound, f: File) {
    lo.Some? && lo.value > f.largest.key
  }

  /** `BeforeFile`: the range ends before the file. */
  predicate BeforeFile(hi: Bound, f: File) {
    hi.Some? && hi.value < f.smallest.key
  }

  /** The scan of level 0, or the binary search of a sorted level; either end may be open. */
  method SomeFileOverlapsRange(files: seq<File>, level: nat, lo: Bound, hi: Bound) returns (overlap: bool)
    requires level > 0 ==> LevelOk(files) && SequencesFit(files)
    ensures overlap <==> !NoOverlap(files, lo, hi)
  {
    if level == 0 {
      for i := 0 to |files|
        invariant forall j :: 0 <= j < i ==> !Overlapping(files[j], lo, hi)
      {
        if !(AfterFile(lo, files[i]) || BeforeFile(hi, files[i])) {
          return true;
        }
      }
      return false;
    }
    var index := 0;
    if lo.Some? {
      index := FindFile(files, SeekKey(lo.value, MAX_SEQUENCE));
    }
    if index >= |files| {
      // Beginning of range is after all files
      overlap := false;
    } else {
      LaterFilesBeyond(files, index);
      overlap := !BeforeFile(hi, files[index]);
    }
  }

  lemma LaterFilesBeyond(files: seq<File>, index: nat)
    requires LevelOk(files) && index < |files|
    ensures forall i :: index < i < |files| ==> files[index].smallest.key <= files[i].smallest.key
  {
    forall i | index < i < |files|
      ensures files[index].smallest.key <= files[i].smallest.key
    {
      assert Precedes(files[index].largest, files[i].smallest);
      FileRange(files[index], files[index].largest);
    }
  }

  function TotalFileSize(files: seq<File>): nat {
    if files == [] then 0 else files[0].size + TotalFileSize(files[1..])
  }

  const MAX_MEM_COMPACT_LEVEL: nat := 2

  /** A table over `[lo, hi]` may go to `level`: it overlaps nothing down to there, and not
      too much of the level below any level it was pushed to. */
  ghost predicate MayPush(v: Version, lo: UserKey, hi: UserKey, limit: nat, level: nat) {
    && level <= MAX_MEM_COMPACT_LEVEL
    && (level > 0 ==> forall l :: 0 <= l <= level ==> NoOverlap(v[l], Some(lo), Some(hi)))
    && (forall l :: 1 <= l <= level ==> FewBytesBelow(v, l, lo, hi, limit))
  }

  predicate FewBytesBelow(v: Version, level: nat, lo: UserKey, hi: UserKey, limit: nat)
    requires level + 1 < NUM_LEVELS
  {
    TotalFileSize(Select(v[level + 1], Some(lo), Some(hi))) <= limit
  }

  /** The deepest level the rules allow. */
  method PickLevelForMemTableOutput(v: Version, lo: UserKey, hi: UserKey, limit: nat) returns (level: nat)
    requires forall l :: 0 < l < NUM_LEVELS ==> LevelOk(v[l]) && SequencesFit(v[l])
    ensures MayPush(v, lo, hi, limit, level) && forall l :: l > level ==> !MayPush(v, lo, hi, limit, l)
  {
    level := 0;
    var overlap := SomeFileOverlapsRange(v[0], 0, Some(lo), Some(hi));
    if !overlap {
      while level < MAX_MEM_COMPACT_LEVEL
        invariant MayPush(v, lo, hi, limit, level) && NoOverlap(v[0], Some(lo), Some(hi))
      {
        overlap := SomeFileOverlapsRange(v[level + 1], level + 1, Some(lo), Some(hi));
        if overlap {
          assert !NoOverlap(v[level + 1], Some(lo), Some(hi));
          break;
        }
        if level + 2 < NUM_LEVELS {
          // Check that file does not overlap too many grandparent bytes
          var overlaps, _, _ := GetOverlappingInputs(v[level + 2], level + 2, Some(lo), Some(hi));
          if TotalFileSize(overlaps) > limit {
            assert !FewBytesBelow(v, level + 1, lo, hi, limit);
            break;
          }
        }
        level := level + 1;
      }
    }
  }
}
