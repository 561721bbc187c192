/** What becomes of a version's entries, and of the order between its levels, when a
    memtable's table or a compaction's outputs are installed. */
module Installs {
  import opened Keys
  import opened Entries
  import opened Files
  import opened Overlaps
  import opened Layerings
  import opened Versions
  import opened VersionBuilders
  import opened Compactions
  import opened Picks

  // ---- A memtable's table ----

  /** `v2` is `v` with table `f` on `level`, a place the rules for new tables allow. */
  ghost predicate TableAdded(v: Version, level: nat, f: File, v2: Version) {
    && level < NUM_LEVELS && FileOk(f)
    && (level > 0 ==> forall l :: 0 <= l <= level ==> NoOverlap(v[l], Some(f.smallest.key), Some(f.largest.key)))
    && (forall l, g :: 0 <= l < NUM_LEVELS && g in v[l] ==> g.number < f.number)
    && (forall l :: 0 <= l < NUM_LEVELS && l != level ==> v2[l] == v[l])
    && Ascending(v2[level]) && (forall g :: g in v2[level] <==> g in v[level] || g == f)
  }

  lemma AddedEntries(v: Version, level: nat, f: File, v2: Version)
    requires TableAdded(v, level, f, v2)
    ensures FileEntries(v2[level]) == FileEntries(v[level]) + Elements(f.entries)
    ensures AllEntries(v2) == AllEntries(v) + Elements(f.entries)
  {
    FileEntriesOf(v2[level]);
    FileEntriesOf(v[level]);
    forall l, e | 0 <= l < NUM_LEVELS && e in FileEntries(v[l])
      ensures e in FileEntries(v2[l])
    {
    }
  }

  lemma FileEntriesOf(files: seq<File>)
    ensures forall e :: e in FileEntries(files) <==> exists f :: f in files && e in f.entries
  {
    forall e | e in FileEntries(files)
      ensures exists f :: f in files && e in f.entries
    {
      var i :| 0 <= i < |files| && e in files[i].entries;
      assert files[i] in files;
    }
  }

  /** Files that do not overlap share no user key. */
  lemma NoSharedKey(files: seq<File>, f: File)
    requires (forall g :: g in files ==> FileOk(g)) && FileOk(f) && NoOverlap(files, Some(f.smallest.key), Some(f.largest.key))
    ensures NewerThan(FileEntries(files), Elements(f.entries)) && NewerThan(Elements(f.entries), FileEntries(files))
  {
    forall d, e | d in FileEntries(files) && e in f.entries
      ensures d.key != e.key
    {
      var i :| 0 <= i < |files| && d in files[i].entries;
      assert files[i] in files;
      FileRange(files[i], d);
      FileRange(f, e);
    }
  }

  /** A level above 0 with a table that overlaps none of its files. */
  lemma AddedLevelOk(files: seq<File>, f: File, files2: seq<File>)
    requires LevelOk(files) && FileOk(f) && NoOverlap(files, Some(f.smallest.key), Some(f.largest.key))
    requires Ascending(files2) && forall g :: g in files2 <==> g in files || g == f
    ensures LevelOk(files2)
  {
    forall i | 0 <= i < |files2|
      ensures FileOk(files2[i])
    {
      assert files2[i] in files2;
    }
    forall i, j | 0 <= i < j < |files2|
      ensures Precedes(files2[i].largest, files2[j].smallest)
    {
      assert files2[i] in files2 && files2[j] in files2 && FileLess(files2[i], files2[j]);
      AddedApart(files, f, files2[i], files2[j]);
      ListedInOrder(files2[i], files2[j]);
    }
  }

  lemma AddedApart(files: seq<File>, f: File, g: File, h: File)
    requires LevelOk(files) && FileOk(f) && NoOverlap(files, Some(f.smallest.key), Some(f.largest.key))
    requires (g in files || g == f) && (h in files || h == f) && g != h
    ensures Apart(g, h)
  {
    if g in files {
      var i :| 0 <= i < |files| && files[i] == g;
      if h in files {
        var j :| 0 <= j < |files| && files[j] == h;
      }
    } else {
      var j :| 0 <= j < |files| && files[j] == h;
    }
  }

  lemma AddedLevel0Ok(files: seq<File>, f: File, files2: seq<File>)
    requires Level0Ok(files) && FileOk(f) && NewerThan(Elements(f.entries), FileEntries(files))
    requires forall g :: g in files ==> g.number < f.number
    requires Ascending(files2) && forall g :: g in files2 <==> g in files || g == f
    ensures Level0Ok(files2)
  {
    forall i | 0 <= i < |files2|
      ensures FileOk(files2[i])
    {
      assert files2[i] in files2;
    }
    forall g, h | g in files2 && h in files2 && g.number > h.number
      ensures NewerThan(Elements(g.entries), Elements(h.entries))
    {
      if g == f {
        FileEntriesOf(files);
      }
    }
    DistinctNumbers(files, f.number, files2);
  }

  lemma DistinctNumbers(files: seq<File>, extra: nat, files2: seq<File>)
    requires (forall i, j :: 0 <= i < j < |files| ==> files[i].number != files[j].number)
    requires forall g, h :: g in files2 && h in files2 && g.number == h.number && g.number == extra ==> g == h
    requires Ascending(files2) && forall g :: g in files2 ==> g in files || g.number == extra
    ensures forall i, j :: 0 <= i < j < |files2| ==> files2[i].number != files2[j].number
  {
    forall i, j | 0 <= i < j < |files2|
      ensures files2[i].number != files2[j].number
    {
      var g, h := files2[i], files2[j];
      assert g in files2 && h in files2 && FileLess(g, h);
      if g in files && h in files {
        var a :| 0 <= a < |files| && files[a] == g;
        var b :| 0 <= b < |files| && files[b] == h;
      }
    }
  }

  lemma NewerParts(a: set<Entry>, b: set<Entry>, c: set<Entry>)
    ensures NewerThan(a, b) && NewerThan(a, c) ==> NewerThan(a, b + c)
    ensures NewerThan(a, c) && NewerThan(b, c) ==> NewerThan(a + b, c)
  {
  }

  lemma NewerSubsets(a: set<Entry>, b: set<Entry>, a2: set<Entry>, b2: set<Entry>)
    requires NewerThan(a, b) && a2 <= a && b2 <= b
    ensures NewerThan(a2, b2)
  {
  }

  lemma AddedPairOrdered(v: Version, level: nat, f: File, v2: Version, a: nat, b: nat)
    requires VersionOrdered(v) && TableAdded(v, level, f, v2) && NewerThan(Elements(f.entries), AllEntries(v))
    requires FileEntries(v2[level]) == FileEntries(v[level]) + Elements(f.entries) && a < b < NUM_LEVELS
    ensures NewerThan(FileEntries(v2[a]), FileEntries(v2[b]))
  {
    assert NewerThan(FileEntries(v[a]), FileEntries(v[b]));
    if b == level {
      assert forall g :: g in v[a] ==> FileOk(g);
      NoSharedKey(v[a], f);
      NewerParts(FileEntries(v[a]), FileEntries(v[b]), Elements(f.entries));
    } else if a == level {
      assert NewerThan(Elements(f.entries), FileEntries(v[b]));
      NewerParts(FileEntries(v[a]), Elements(f.entries), FileEntries(v[b]));
    }
  }

  lemma NewerThanEachLevel(es: set<Entry>, v: Version, l: nat)
    requires NewerThan(es, AllEntries(v)) && l < NUM_LEVELS
    ensures NewerThan(es, FileEntries(v[l]))
  {
    assert FileEntries(v[l]) <= AllEntries(v);
  }

  lemma AddedLevelsOk(v: Version, level: nat, f: File, v2: Version)
    requires VersionOrdered(v) && TableAdded(v, level, f, v2) && NewerThan(Elements(f.entries), FileEntries(v[0]))
    ensures Level0Ok(v2[0]) && forall l :: 0 < l < NUM_LEVELS ==> LevelOk(v2[l])
  {
    if level == 0 {
      AddedLevel0Ok(v[0], f, v2[0]);
    } else {
      AddedLevelOk(v[level], f, v2[level]);
    }
  }

  /** A new table whose entries are newer than all in the version keeps entries from
      hopping across levels. */
  lemma AddKeepsOrder(v: Version, level: nat, f: File, v2: Version)
    requires VersionOrdered(v) && TableAdded(v, level, f, v2) && NewerThan(Elements(f.entries), AllEntries(v))
    ensures VersionOrdered(v2)
  {
    AddedEntries(v, level, f, v2);
    NewerThanEachLevel(Elements(f.entries), v, 0);
    AddedLevelsOk(v, level, f, v2);
    forall a, b | 0 <= a < b < NUM_LEVELS
      ensures NewerThan(FileEntries(v2[a]), FileEntries(v2[b]))
    {
      AddedPairOrdered(v, level, f, v2, a, b);
    }
  }

  // ---- A compaction's outputs ----

  /** The entries of the files beside the inputs. */
  ghost function Unpicked(files: seq<File>, inputs: seq<File>): set<Entry> {
    set f, e | f in files && f !in inputs && e in f.entries :: e
  }

  /** The premise on the pick: beside the inputs, no file of the two levels holds an older
      entry of one of their user keys. */
  ghost predicate NoOlderLeft(v: Version, level: nat, inputs0: seq<File>, inputs1: seq<File>)
    requires level + 1 < NUM_LEVELS
  {
    NewerThan(Unpicked(v[level], inputs0) + Unpicked(v[level + 1], inputs1), FileEntries(inputs0 + inputs1))
  }

  /** What `CompactionPick.SetupOtherInputs` leaves. */
  ghost predicate Chosen(v: Version, level: nat, inputs0: seq<File>, lo: UserKey, hi: UserKey, inputs1: seq<File>) {
    && level + 1 < NUM_LEVELS && (forall f :: f in inputs0 ==> f in v[level])
    && IsRange(inputs0, lo, hi) && inputs1 == Select(v[level + 1], Some(lo), Some(hi))
  }

  /** The inputs come from the level and the next one. */
  ghost predicate InputsOf(v: Version, level: nat, inputs0: seq<File>, inputs1: seq<File>) {
    level + 1 < NUM_LEVELS && (forall f :: f in inputs0 ==> f in v[level]) && (forall f :: f in inputs1 ==> f in v[level + 1])
  }

  lemma ChosenInputs(v: Version, level: nat, inputs0: seq<File>, lo: UserKey, hi: UserKey, inputs1: seq<File>)
    requires Chosen(v, level, inputs0, lo, hi, inputs1)
    ensures InputsOf(v, level, inputs0, inputs1)
  {
    SelectIs(v[level + 1], Some(lo), Some(hi));
  }

  /** A choice that meets the premise. */
  ghost predicate Picked(v: Version, level: nat, inputs0: seq<File>, lo: UserKey, hi: UserKey, inputs1: seq<File>) {
    Chosen(v, level, inputs0, lo, hi, inputs1) && NoOlderLeft(v, level, inputs0, inputs1)
  }

  /** `v2` is `v` with the inputs replaced by `outputs`. */
  ghost predicate OutputsInstalled(v: Version, level: nat, inputs0: seq<File>, inputs1: seq<File>, outputs: seq<File>, v2: Version)
    requires level + 1 < NUM_LEVELS
  {
    && Replaced(v[level], v[level + 1], inputs0, inputs1, outputs, v2[level], v2[level + 1])
    && forall l :: 0 <= l < NUM_LEVELS && l != level && l != level + 1 ==> v2[l] == v[l]
  }

  lemma InstalledEntries(v: Version, level: nat, inputs0: seq<File>, inputs1: seq<File>, outputs: seq<File>, v2: Version)
    requires level + 1 < NUM_LEVELS && OutputsInstalled(v, level, inputs0, inputs1, outputs, v2)
    ensures FileEntries(v2[level]) == Unpicked(v[level], inputs0)
    ensures FileEntries(v2[level + 1]) == Unpicked(v[level + 1], inputs1) + FileEntries(outputs)
  {
    FileEntriesOf(v2[level]);
    FileEntriesOf(v2[level + 1]);
    FileEntriesOf(outputs);
  }

  lemma SplitEntries(files: seq<File>, inputs: seq<File>)
    requires forall f :: f in inputs ==> f in files
    ensures FileEntries(files) == Unpicked(files, inputs) + FileEntries(inputs)
  {
    FileEntriesOf(files);
    FileEntriesOf(inputs);
  }

  lemma JoinedEntries(a: seq<File>, b: seq<File>)
    ensures FileEntries(a + b) == FileEntries(a) + FileEntries(b)
  {
    FileEntriesOf(a);
    FileEntriesOf(b);
    FileEntriesOf(a + b);
  }

  /** Entries moving one level down keep the layers in order, if nothing older of their
      user keys stays behind. */
  lemma LayersStayOrdered(layers: seq<set<Entry>>, layers2: seq<set<Entry>>, level: nat, kept: set<Entry>, out: set<Entry>)
    requires LayersOrdered(layers) && |layers2| == |layers| && level + 1 < |layers|
    requires forall l :: 0 <= l < |layers| && l != level && l != level + 1 ==> layers2[l] == layers[l]
    requires layers2[level] <= layers[level] && NewerThan(layers2[level], out)
    requires layers2[level + 1] == kept + out && kept <= layers[level + 1] && out <= layers[level] + layers[level + 1]
    ensures LayersOrdered(layers2)
  {
    forall a, b | 0 <= a < b < |layers|
      ensures NewerThan(layers2[a], layers2[b])
    {
      assert NewerThan(layers[a], layers[b]);
      if b == level {
        assert NewerThan(layers[a], layers[level]);
      } else if a == level || a == level + 1 {
        assert b > level + 1 ==> NewerThan(layers[level], layers[b]) && NewerThan(layers[level + 1], layers[b]);
      } else if b == level + 1 {
        assert NewerThan(layers[a], layers[level]) && NewerThan(layers[a], layers[level + 1]);
      }
    }
  }

  /** The hypotheses of the layering argument, for an installed compaction. */
  lemma InstalledLayers(v: Version, level: nat, inputs0: seq<File>, inputs1: seq<File>, outputs: seq<File>, v2: Version)
    requires InputsOf(v, level, inputs0, inputs1) && OutputsInstalled(v, level, inputs0, inputs1, outputs, v2)
    requires FileEntries(outputs) <= FileEntries(inputs0 + inputs1)
    ensures FileEntries(v2[level]) == Unpicked(v[level], inputs0) <= FileEntries(v[level])
    ensures FileEntries(v2[level + 1]) == Unpicked(v[level + 1], inputs1) + FileEntries(outputs)
    ensures Unpicked(v[level + 1], inputs1) <= FileEntries(v[level + 1])
    ensures FileEntries(inputs0 + inputs1) <= FileEntries(v[level]) + FileEntries(v[level + 1])
  {
    InstalledEntries(v, level, inputs0, inputs1, outputs, v2);
    SplitEntries(v[level], inputs0);
    SplitEntries(v[level + 1], inputs1);
    JoinedEntries(inputs0, inputs1);
  }

  lemma InstalledOrdered(v: Version, level: nat, inputs0: seq<File>, inputs1: seq<File>, outputs: seq<File>, v2: Version)
    requires LayersOrdered(Layers(v)) && InputsOf(v, level, inputs0, inputs1)
    requires OutputsInstalled(v, level, inputs0, inputs1, outputs, v2) && FileEntries(outputs) <= FileEntries(inputs0 + inputs1)
    ensures LayersOrdered(Layers(v2)) <==> NewerThan(Unpicked(v[level], inputs0), FileEntries(outputs))
  {
    var layers, layers2 := Layers(v), Layers(v2);
    InstalledLayers(v, level, inputs0, inputs1, outputs, v2);
    if LayersOrdered(layers2) {
      assert NewerThan(layers2[level], layers2[level + 1]);
    }
    if NewerThan(Unpicked(v[level], inputs0), FileEntries(outputs)) {
      UpperPartNewer(layers, level, layers2[level], Unpicked(v[level + 1], inputs1), FileEntries(outputs));
      LayersStayOrdered(layers, layers2, level, Unpicked(v[level + 1], inputs1), FileEntries(outputs));
    }
  }

  lemma UpperPartNewer(layers: seq<set<Entry>>, level: nat, upper: set<Entry>, kept: set<Entry>, out: set<Entry>)
    requires LayersOrdered(layers) && level + 1 < |layers| && upper <= layers[level] && kept <= layers[level + 1]
    ensures NewerThan(upper, kept)
  {
    assert NewerThan(layers[level], layers[level + 1]);
  }

  lemma StillNewer(a: set<Entry>, b: set<Entry>, c: set<Entry>, d: set<Entry>)
    requires NewerThan(a + b, c) && d <= c
    ensures NewerThan(a, d) && NewerThan(b, d)
  {
  }

  lemma RemainingLevel0Ok(files: seq<File>, remaining: seq<File>)
    requires Level0Ok(files) && Ascending(remaining) && forall f :: f in remaining ==> f in files
    ensures Level0Ok(remaining)
  {
    forall i | 0 <= i < |remaining|
      ensures FileOk(remaining[i])
    {
      assert remaining[i] in files;
    }
    forall i, j | 0 <= i < j < |remaining|
      ensures remaining[i].number != remaining[j].number
    {
      var g, h := remaining[i], remaining[j];
      assert g in files && h in files && FileLess(g, h);
      var a :| 0 <= a < |files| && files[a] == g;
      var b :| 0 <= b < |files| && files[b] == h;
    }
  }

  /** Any pick's sorted outputs, once installed, leave levels that are sorted and disjoint.
      Entries are newest first from level to level exactly when nothing left on the upper
      level is older than an output of its user key. */
  lemma InstallOrder(v: Version, level: nat, inputs0: seq<File>, lo: UserKey, hi: UserKey, inputs1: seq<File>,
                     outputs: seq<File>, firstNumber: nat, v2: Version)
    requires VersionOrdered(v) && Chosen(v, level, inputs0, lo, hi, inputs1)
    requires OutputsOk(outputs, firstNumber) && Sorted(OutputEntries(outputs)) && DrawnFrom(outputs, inputs0 + inputs1)
    requires OutputsInstalled(v, level, inputs0, inputs1, outputs, v2)
    ensures LevelsSorted(v2)
    ensures VersionOrdered(v2) <==> NewerThan(Unpicked(v[level], inputs0), FileEntries(outputs))
  {
    InstallSorts(v, level, inputs0, lo, hi, inputs1, outputs, firstNumber, v2);
    WrittenEntries(outputs, inputs0 + inputs1);
    VersionLayers(v);
    ChosenInputs(v, level, inputs0, lo, hi, inputs1);
    InstalledOrdered(v, level, inputs0, inputs1, outputs, v2);
    VersionLayers(v2);
  }

  /** On level 0 the pick takes in every file that shares a key with it, so order is kept. */
  lemma Level0PickIsNewer(v: Version, inputs0: seq<File>, lo: UserKey, hi: UserKey, inputs1: seq<File>, out: set<Entry>)
    requires VersionOrdered(v) && Chosen(v, 0, inputs0, lo, hi, inputs1) && ClosedSelection(v[0], inputs0)
    requires out <= FileEntries(inputs0 + inputs1)
    ensures NewerThan(Unpicked(v[0], inputs0), out)
  {
    JoinedEntries(inputs0, inputs1);
    SelectIs(v[1], Some(lo), Some(hi));
    SplitEntries(v[1], inputs1);
    SplitEntries(v[0], inputs0);
    NewerSubsets(FileEntries(v[0]), FileEntries(v[1]), Unpicked(v[0], inputs0), FileEntries(inputs1));
    FileEntriesOf(inputs0);
    forall e, g | e in Unpicked(v[0], inputs0) && g in FileEntries(inputs0)
      ensures e.key != g.key
    {
      var f :| f in v[0] && f !in inputs0 && e in f.entries;
      var h :| h in inputs0 && g in h.entries;
      ClosedSelectionSharesNoKey(v[0], inputs0, h, f, e.key);
      FileRange(f, e);
      FileRange(h, g);
    }
    NewerParts(Unpicked(v[0], inputs0), FileEntries(inputs0), FileEntries(inputs1));
  }

  lemma InstallSorts(v: Version, level: nat, inputs0: seq<File>, lo: UserKey, hi: UserKey, inputs1: seq<File>,
                     outputs: seq<File>, firstNumber: nat, v2: Version)
    requires VersionOrdered(v) && Chosen(v, level, inputs0, lo, hi, inputs1)
    requires OutputsOk(outputs, firstNumber) && Sorted(OutputEntries(outputs)) && DrawnFrom(outputs, inputs0 + inputs1)
    requires OutputsInstalled(v, level, inputs0, inputs1, outputs, v2)
    ensures LevelsSorted(v2)
  {
    LevelFilesOk(v, level);
    InstallKeepsLevels(v[level], v[level + 1], level, inputs0, lo, hi, outputs, firstNumber, v2[level], v2[level + 1]);
    if level == 0 {
      RemainingLevel0Ok(v[0], v2[0]);
    }
  }

  lemma WrittenEntries(outputs: seq<File>, inputs: seq<File>)
    requires DrawnFrom(outputs, inputs)
    ensures FileEntries(outputs) == Elements(OutputEntries(outputs)) && FileEntries(outputs) <= FileEntries(inputs)
  {
    OutputEntriesFrom(outputs);
    FileEntriesOf(outputs);
    FileEntriesOf(inputs);
    forall e | e in FileEntries(outputs)
      ensures e in OutputEntries(outputs)
    {
      var k :| 0 <= k < |outputs| && e in outputs[k].entries;
      OutputEntriesAre(outputs, k);
    }
  }

  lemma {:induction false} OutputEntriesFrom(outputs: seq<File>)
    ensures forall e :: e in OutputEntries(outputs) ==> exists f :: f in outputs && e in f.entries
  {
    if outputs != [] {
      OutputEntriesFrom(outputs[..|outputs| - 1]);
      assert outputs == outputs[..|outputs| - 1] + [outputs[|outputs| - 1]];
    }
  }

  // ---- Reads ----

  ghost function Shallow(v: Version, level: nat): set<Entry>
    requires level < NUM_LEVELS
  {
    set l, e | 0 <= l < level && e in FileEntries(v[l]) :: e
  }

  ghost function Deep(v: Version, level: nat): set<Entry> {
    set l, e | level + 2 <= l < NUM_LEVELS && e in FileEntries(v[l]) :: e
  }

  lemma SplitLevels(v: Version, level: nat)
    requires level + 1 < NUM_LEVELS
    ensures AllEntries(v) == Shallow(v, level) + FileEntries(v[level]) + FileEntries(v[level + 1]) + Deep(v, level)
  {
    forall e | e in AllEntries(v)
      ensures e in Shallow(v, level) + FileEntries(v[level]) + FileEntries(v[level + 1]) + Deep(v, level)
    {
      var l :| 0 <= l < NUM_LEVELS && e in FileEntries(v[l]);
    }
  }

  lemma SameSurroundings(v: Version, level: nat, inputs0: seq<File>, inputs1: seq<File>, outputs: seq<File>, v2: Version)
    requires level + 1 < NUM_LEVELS && OutputsInstalled(v, level, inputs0, inputs1, outputs, v2)
    ensures Shallow(v2, level) == Shallow(v, level) && Deep(v2, level) == Deep(v, level)
  {
  }

  /** Everything a reader may meet beside the inputs and above the levels below them. */
  ghost function Rest(top: set<Entry>, v: Version, level: nat, inputs0: seq<File>, inputs1: seq<File>): set<Entry>
    requires level + 1 < NUM_LEVELS
  {
    top + Shallow(v, level) + Unpicked(v[level], inputs0) + Unpicked(v[level + 1], inputs1)
  }

  lemma PickSplits(top: set<Entry>, v: Version, level: nat, inputs0: seq<File>, lo: UserKey, hi: UserKey, inputs1: seq<File>)
    requires Chosen(v, level, inputs0, lo, hi, inputs1)
    ensures top + AllEntries(v) == FileEntries(inputs0 + inputs1) + Rest(top, v, level, inputs0, inputs1) + Deep(v, level)
  {
    SplitLevels(v, level);
    SelectIs(v[level + 1], Some(lo), Some(hi));
    SplitEntries(v[level], inputs0);
    SplitEntries(v[level + 1], inputs1);
    JoinedEntries(inputs0, inputs1);
  }

  lemma InstallSplits(top: set<Entry>, v: Version, level: nat, inputs0: seq<File>, inputs1: seq<File>, outputs: seq<File>, v2: Version)
    requires level + 1 < NUM_LEVELS && OutputsInstalled(v, level, inputs0, inputs1, outputs, v2)
    ensures top + AllEntries(v2) == FileEntries(outputs) + Rest(top, v, level, inputs0, inputs1) + Deep(v, level)
  {
    SplitLevels(v2, level);
    SameSurroundings(v, level, inputs0, inputs1, outputs, v2);
    InstalledEntries(v, level, inputs0, inputs1, outputs, v2);
  }

  lemma InputsInLevels(v: Version, level: nat, inputs0: seq<File>, lo: UserKey, hi: UserKey, inputs1: seq<File>)
    requires Chosen(v, level, inputs0, lo, hi, inputs1)
    ensures FileEntries(inputs0 + inputs1) <= FileEntries(v[level]) + FileEntries(v[level + 1])
  {
    SelectIs(v[level + 1], Some(lo), Some(hi));
    SplitEntries(v[level], inputs0);
    SplitEntries(v[level + 1], inputs1);
    JoinedEntries(inputs0, inputs1);
  }

  lemma TopIsNewer(top: set<Entry>, v: Version, level: nat)
    requires NewerThan(top, AllEntries(v)) && level + 1 < NUM_LEVELS
    ensures NewerThan(top, FileEntries(v[level]) + FileEntries(v[level + 1]))
  {
    assert FileEntries(v[level]) + FileEntries(v[level + 1]) <= AllEntries(v);
  }

  /** What lies beside and above the inputs is newer than they are. */
  lemma RestIsNewer(top: set<Entry>, v: Version, level: nat, inputs0: seq<File>, lo: UserKey, hi: UserKey, inputs1: seq<File>)
    requires VersionOrdered(v) && Picked(v, level, inputs0, lo, hi, inputs1) && NewerThan(top, AllEntries(v))
    ensures NewerThan(Rest(top, v, level, inputs0, inputs1), FileEntries(inputs0 + inputs1))
  {
    InputsInLevels(v, level, inputs0, lo, hi, inputs1);
    TopIsNewer(top, v, level);
    ShallowIsNewer(v, level);
    RestParts(top, Shallow(v, level), Unpicked(v[level], inputs0), Unpicked(v[level + 1], inputs1),
              FileEntries(v[level]) + FileEntries(v[level + 1]), FileEntries(inputs0 + inputs1));
  }

  lemma RestParts(a: set<Entry>, b: set<Entry>, c: set<Entry>, d: set<Entry>, big: set<Entry>, small: set<Entry>)
    requires NewerThan(a, big) && NewerThan(b, big) && small <= big && NewerThan(c + d, small)
    ensures NewerThan(a + b + c + d, small)
  {
  }

  lemma ShallowIsNewer(v: Version, level: nat)
    requires VersionOrdered(v) && level + 1 < NUM_LEVELS
    ensures NewerThan(Shallow(v, level), FileEntries(v[level]) + FileEntries(v[level + 1]))
  {
    forall l | 0 <= l < level
      ensures NewerThan(FileEntries(v[l]), FileEntries(v[level])) && NewerThan(FileEntries(v[l]), FileEntries(v[level + 1]))
    {
    }
  }

  lemma DeepIsNotBase(v: Version, level: nat, e: Entry)
    requires VersionOrdered(v) && e in Deep(v, level)
    ensures !IsBase(v, level, e.key)
  {
    var l :| level + 2 <= l < NUM_LEVELS && e in FileEntries(v[l]);
    var i :| 0 <= i < |v[l]| && e in v[l][i].entries;
    FileRange(v[l][i], e);
  }

  /** Readers at snapshots the compaction took into account see no difference once its
      outputs are installed. */
  lemma InstallKeepsReads(top: set<Entry>, v: Version, level: nat, inputs0: seq<File>, lo: UserKey, hi: UserKey, inputs1: seq<File>,
                          list: seq<Entry>, snap: nat, outputs: seq<File>, v2: Version)
    requires VersionOrdered(v) && NewerThan(top, AllEntries(v)) && Distinct(top + AllEntries(v))
    requires Picked(v, level, inputs0, lo, hi, inputs1) && OutputsInstalled(v, level, inputs0, inputs1, outputs, v2)
    requires Sorted(list) && Elements(list) == FileEntries(inputs0 + inputs1)
    requires OutputEntries(outputs) == Survivors(list, |list|, snap, v, level)
    ensures SameReads(top + AllEntries(v), top + AllEntries(v2), snap)
    ensures AllEntries(v2) <= AllEntries(v)
  {
    var rest, deep := Rest(top, v, level, inputs0, inputs1), Deep(v, level);
    PickSplits(top, v, level, inputs0, lo, hi, inputs1);
    InstallSplits(top, v, level, inputs0, inputs1, outputs, v2);
    PickSplits({}, v, level, inputs0, lo, hi, inputs1);
    InstallSplits({}, v, level, inputs0, inputs1, outputs, v2);
    OutputsAreDrawn(list, inputs0 + inputs1, snap, v, level, outputs);
    WrittenEntries(outputs, inputs0 + inputs1);
    RestIsNewer(top, v, level, inputs0, lo, hi, inputs1);
    PickIsSafe(list, rest, deep, snap, v, level);
  }

  lemma PickIsSafe(list: seq<Entry>, rest: set<Entry>, deep: set<Entry>, snap: nat, v: Version, level: nat)
    requires Sorted(list) && NewerThan(rest, Elements(list)) && Distinct(Elements(list) + rest + deep)
    requires VersionOrdered(v) && deep == Deep(v, level)
    ensures SameReads(Elements(list) + rest + deep, Elements(Survivors(list, |list|, snap, v, level)) + rest + deep, snap)
  {
    forall e | e in deep
      ensures !IsBase(v, level, e.key)
    {
      DeepIsNotBase(v, level, e);
    }
    assert Elements(list) !! rest;
    forall e, i | e in rest && 0 <= i < |list| && e.key == list[i].key
      ensures e.seqno > list[i].seqno
    {
      assert list[i] in Elements(list);
    }
    ClosedPickIsSafe(list, rest, snap, v, level);
    CompactionPreservesMeaning(list, rest, deep, snap, v, level);
  }

  /** Nothing is in the version that was not there before. */
  lemma InstallShrinks(v: Version, level: nat, inputs0: seq<File>, lo: UserKey, hi: UserKey, inputs1: seq<File>, outputs: seq<File>, v2: Version)
    requires Chosen(v, level, inputs0, lo, hi, inputs1) && OutputsInstalled(v, level, inputs0, inputs1, outputs, v2)
    requires FileEntries(outputs) <= FileEntries(inputs0 + inputs1)
    ensures AllEntries(v2) <= AllEntries(v)
  {
    PickSplits({}, v, level, inputs0, lo, hi, inputs1);
    InstallSplits({}, v, level, inputs0, inputs1, outputs, v2);
  }

  // ---- A file that only moves ----

  lemma OneFile(f: File)
    ensures [f] + [] == [f] && FileEntries([f]) == Elements(f.entries)
  {
    FileEntriesOf([f]);
    assert f in [f];
  }

  lemma MovedOutputs(f: File)
    requires FileOk(f)
    ensures OutputsOk([f], f.number) && OutputEntries([f]) == f.entries && DrawnFrom([f], [f] + [])
  {
    assert [f][..0] == [];
    assert f in [f] + [];
  }

  lemma MoveKeepsEntries(v: Version, level: nat, f: File, v2: Version)
    requires Chosen(v, level, [f], f.smallest.key, f.largest.key, []) && OutputsInstalled(v, level, [f], [], [f], v2)
    ensures AllEntries(v2) == AllEntries(v)
  {
    OneFile(f);
    PickSplits({}, v, level, [f], f.smallest.key, f.largest.key, []);
    InstallSplits({}, v, level, [f], [], [f], v2);
  }

  lemma MoveOrder(v: Version, level: nat, f: File, v2: Version)
    requires VersionOrdered(v) && Chosen(v, level, [f], f.smallest.key, f.largest.key, []) && FileOk(f)
    requires OutputsInstalled(v, level, [f], [], [f], v2)
    ensures LevelsSorted(v2) && (VersionOrdered(v2) <==> NewerThan(Unpicked(v[level], [f]), Elements(f.entries)))
  {
    OneFile(f);
    MovedOutputs(f);
    InstallOrder(v, level, [f], f.smallest.key, f.largest.key, [], [f], f.number, v2);
  }

  // ---- Exactly when reads are kept ----

  /** Files left beside the inputs share no entry with them. */
  lemma UnpickedApart(files: seq<File>, inputs: seq<File>, level: nat)
    requires InOrder(files, level) && forall f :: f in inputs ==> f in files
    ensures Unpicked(files, inputs) !! FileEntries(inputs)
  {
    InOrderIs(files, level);
    forall e | e in Unpicked(files, inputs) && e in FileEntries(inputs)
      ensures false
    {
      var f :| f in files && f !in inputs && e in f.entries;
      FileEntriesOf(inputs);
      var g :| g in inputs && e in g.entries;
      OneFileEach(files, level, f, g, e);
    }
  }

  lemma OneFileEach(files: seq<File>, level: nat, f: File, g: File, e: Entry)
    requires (if level == 0 then Level0Ok(files) else LevelOk(files)) && f in files && g in files && e in f.entries && e in g.entries
    ensures f == g
  {
    if level == 0 {
      OneFileOnLevel0(files, f, g, e);
    } else {
      var i :| 0 <= i < |files| && files[i] == f;
      var j :| 0 <= j < |files| && files[j] == g;
      FileRange(f, e);
      FileRange(g, e);
    }
  }

  lemma OneFileOnLevel0(files: seq<File>, f: File, g: File, e: Entry)
    requires Level0Ok(files) && f in files && g in files && e in f.entries && e in g.entries
    ensures f == g
  {
    assert e in Elements(f.entries) && e in Elements(g.entries);
    var i :| 0 <= i < |files| && files[i] == f;
    var j :| 0 <= j < |files| && files[j] == g;
    assert f.number == g.number;
  }

  lemma RestApart(top: set<Entry>, v: Version, level: nat, inputs0: seq<File>, lo: UserKey, hi: UserKey, inputs1: seq<File>)
    requires VersionOrdered(v) && NewerThan(top, AllEntries(v)) && Chosen(v, level, inputs0, lo, hi, inputs1)
    ensures FileEntries(inputs0 + inputs1) !! Rest(top, v, level, inputs0, inputs1)
  {
    InputsInLevels(v, level, inputs0, lo, hi, inputs1);
    TopIsNewer(top, v, level);
    ShallowIsNewer(v, level);
    InOrderIs(v[level], level);
    InOrderIs(v[level + 1], level + 1);
    SelectIs(v[level + 1], Some(lo), Some(hi));
    UnpickedApart(v[level], inputs0, level);
    UnpickedApart(v[level + 1], inputs1, level + 1);
    SplitEntries(v[level], inputs0);
    SplitEntries(v[level + 1], inputs1);
    JoinedEntries(inputs0, inputs1);
    NewerIsApart(top, FileEntries(inputs0 + inputs1), FileEntries(v[level]) + FileEntries(v[level + 1]));
    NewerIsApart(Shallow(v, level), FileEntries(inputs0 + inputs1), FileEntries(v[level]) + FileEntries(v[level + 1]));
    NewerIsApart(FileEntries(v[level]), FileEntries(v[level + 1]), FileEntries(v[level + 1]));
  }

  lemma NewerIsApart(a: set<Entry>, b: set<Entry>, c: set<Entry>)
    requires NewerThan(a, c) && b <= c
    ensures a !! b
  {
  }

  /** A pick's inputs filtered by the drop rules, with all the rest as it was: reads are kept
      exactly when no marker that is dropped has an older value of its key left beside the inputs. */
  lemma PickMeaning(top: set<Entry>, v: Version, level: nat, inputs0: seq<File>, lo: UserKey, hi: UserKey, inputs1: seq<File>,
                    list: seq<Entry>, snap: nat)
    requires VersionOrdered(v) && NewerThan(top, AllEntries(v)) && Distinct(top + AllEntries(v))
    requires Chosen(v, level, inputs0, lo, hi, inputs1) && Sorted(list) && Elements(list) == FileEntries(inputs0 + inputs1)
    ensures SameReads(top + AllEntries(v),
                      Elements(Survivors(list, |list|, snap, v, level)) + Rest(top, v, level, inputs0, inputs1) + Deep(v, level), snap)
            <==> NoOlderSibling(list, Rest(top, v, level, inputs0, inputs1), snap, v, level)
  {
    var rest, deep := Rest(top, v, level, inputs0, inputs1), Deep(v, level);
    PickSplits(top, v, level, inputs0, lo, hi, inputs1);
    RestApart(top, v, level, inputs0, lo, hi, inputs1);
    forall e | e in deep
      ensures !IsBase(v, level, e.key)
    {
      DeepIsNotBase(v, level, e);
    }
    CompactionPreservesMeaning(list, rest, deep, snap, v, level);
  }

  /** So when the outputs have taken the inputs' place. */
  lemma InstallMeaning(top: set<Entry>, v: Version, level: nat, inputs0: seq<File>, lo: UserKey, hi: UserKey, inputs1: seq<File>,
                       list: seq<Entry>, snap: nat, outputs: seq<File>, v2: Version)
    requires VersionOrdered(v) && NewerThan(top, AllEntries(v)) && Distinct(top + AllEntries(v))
    requires Chosen(v, level, inputs0, lo, hi, inputs1) && OutputsInstalled(v, level, inputs0, inputs1, outputs, v2)
    requires Sorted(list) && Elements(list) == FileEntries(inputs0 + inputs1)
    requires OutputEntries(outputs) == Survivors(list, |list|, snap, v, level)
    ensures SameReads(top + AllEntries(v), top + AllEntries(v2), snap)
            <==> NoOlderSibling(list, Rest(top, v, level, inputs0, inputs1), snap, v, level)
  {
    PickMeaning(top, v, level, inputs0, lo, hi, inputs1, list, snap);
    InstallSplits(top, v, level, inputs0, inputs1, outputs, v2);
    OutputsAreDrawn(list, inputs0 + inputs1, snap, v, level, outputs);
    WrittenEntries(outputs, inputs0 + inputs1);
  }
}
