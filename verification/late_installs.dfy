/** A compaction works without the mutex, and a full memtable may become a table meanwhile.
    Its outputs then go into a version that has grown since its inputs were chosen. */
module LateInstalls {
  import opened Keys
  import opened Entries
  import opened Files
  import opened Overlaps
  import opened Layerings
  import opened Versions
  import opened VersionBuilders
  import opened Compactions
  import opened Picks
  import opened PickGaps
  import opened Installs

  /** The entries of the tables that have come since, level by level and all together. */
  ghost function ExtraLayers(base: Version, cur: Version): (layers: seq<set<Entry>>)
    ensures |layers| == NUM_LEVELS && forall l :: 0 <= l < NUM_LEVELS ==> layers[l] == Unpicked(cur[l], base[l])
  {
    seq(NUM_LEVELS, l requires 0 <= l < NUM_LEVELS => Unpicked(cur[l], base[l]))
  }

  ghost function Extra(base: Version, cur: Version): set<Entry> {
    Union(ExtraLayers(base, cur))
  }

  /** `cur` is `base` with tables of newer entries. */
  ghost predicate Grown(base: Version, cur: Version) {
    && VersionOrdered(base) && (forall l, f :: 0 <= l < NUM_LEVELS && f in base[l] ==> f in cur[l])
    && NewerThan(Extra(base, cur), AllEntries(base))
  }

  lemma GrownEntries(base: Version, cur: Version)
    requires Grown(base, cur)
    ensures AllEntries(cur) == AllEntries(base) + Extra(base, cur)
  {
    forall l | 0 <= l < NUM_LEVELS
      ensures Layers(cur)[l] == Layers(base)[l] + ExtraLayers(base, cur)[l]
    {
      SplitEntries(cur[l], base[l]);
    }
    UnionOfSums(Layers(base), ExtraLayers(base, cur), Layers(cur));
    VersionLayers(base);
    VersionLayers(cur);
  }

  lemma NotGrownYet(v: Version)
    requires VersionOrdered(v)
    ensures Grown(v, v) && Extra(v, v) == {}
  {
  }

  lemma ExtraGrows(base: Version, cur: Version, level: nat, f: File, v: Version)
    requires TableAdded(cur, level, f, v)
    ensures Extra(base, v) <= Extra(base, cur) + Elements(f.entries)
  {
    forall e | e in Extra(base, v)
      ensures e in Extra(base, cur) + Elements(f.entries)
    {
      var l :| 0 <= l < NUM_LEVELS && e in ExtraLayers(base, v)[l];
      var g :| g in v[l] && g !in base[l] && e in g.entries;
      assert g in cur[l] ==> e in ExtraLayers(base, cur)[l];
    }
  }

  /** One more table. */
  lemma GrowsByTable(base: Version, cur: Version, level: nat, f: File, v: Version)
    requires Grown(base, cur) && TableAdded(cur, level, f, v) && NewerThan(Elements(f.entries), AllEntries(cur))
    ensures Grown(base, v)
  {
    GrownEntries(base, cur);
    NewerSubsets(Elements(f.entries), AllEntries(cur), Elements(f.entries), AllEntries(base));
    ExtraGrows(base, cur, level, f, v);
    NewerParts(Extra(base, cur), Elements(f.entries), AllEntries(base));
    NewerSubsets(Extra(base, cur) + Elements(f.entries), AllEntries(base), Extra(base, v), AllEntries(base));
  }

  // ---- What readers see ----

  /** What is left of a level, in two parts: what was there and what has come. */
  lemma LeftInParts(files: seq<File>, files2: seq<File>, inputs: seq<File>)
    requires (forall f :: f in inputs ==> f in files) && (forall f :: f in files ==> f in files2)
    ensures Unpicked(files2, inputs) == Unpicked(files, inputs) + Unpicked(files2, files)
  {
  }

  /** What the compaction makes of the levels of the version it began with. */
  ghost function LeftLayers(base: Version, level: nat, inputs0: seq<File>, inputs1: seq<File>,
                            outputs: seq<File>): (layers: seq<set<Entry>>)
    requires level + 1 < NUM_LEVELS
    ensures |layers| == NUM_LEVELS
    ensures layers[level] == Unpicked(base[level], inputs0)
    ensures layers[level + 1] == Unpicked(base[level + 1], inputs1) + FileEntries(outputs)
    ensures forall l :: 0 <= l < NUM_LEVELS && l != level && l != level + 1 ==> layers[l] == FileEntries(base[l])
  {
    Layers(base)[level := Unpicked(base[level], inputs0)][level + 1 := Unpicked(base[level + 1], inputs1) + FileEntries(outputs)]
  }

  lemma LateLevel(base: Version, cur: Version, level: nat, inputs0: seq<File>, inputs1: seq<File>,
                  outputs: seq<File>, v: Version, l: nat)
    requires Grown(base, cur) && InputsOf(base, level, inputs0, inputs1)
    requires OutputsInstalled(cur, level, inputs0, inputs1, outputs, v)
    requires l < NUM_LEVELS
    ensures FileEntries(v[l]) == LeftLayers(base, level, inputs0, inputs1, outputs)[l] + Unpicked(cur[l], base[l])
  {
    InstalledEntries(cur, level, inputs0, inputs1, outputs, v);
    if l == level {
      LeftInParts(base[l], cur[l], inputs0);
    } else if l == level + 1 {
      LeftInParts(base[l], cur[l], inputs1);
    } else {
      SplitEntries(cur[l], base[l]);
    }
  }

  lemma LeftUnion(base: Version, level: nat, inputs0: seq<File>, inputs1: seq<File>, outputs: seq<File>)
    requires level + 1 < NUM_LEVELS
    ensures Union(LeftLayers(base, level, inputs0, inputs1, outputs))
            == FileEntries(outputs) + Rest({}, base, level, inputs0, inputs1) + Deep(base, level)
  {
    var layers := LeftLayers(base, level, inputs0, inputs1, outputs);
    forall e | e in Union(layers)
      ensures e in FileEntries(outputs) + Rest({}, base, level, inputs0, inputs1) + Deep(base, level)
    {
      var l :| 0 <= l < |layers| && e in layers[l];
    }
    forall e | e in Shallow(base, level) + Deep(base, level)
      ensures e in Union(layers)
    {
      var l :| 0 <= l < NUM_LEVELS && l != level && l != level + 1 && e in FileEntries(base[l]);
      assert e in layers[l];
    }
    assert layers[level] <= Union(layers) && layers[level + 1] <= Union(layers);
  }

  lemma LateEntries(base: Version, cur: Version, level: nat, inputs0: seq<File>, inputs1: seq<File>,
                    outputs: seq<File>, v: Version)
    requires Grown(base, cur) && InputsOf(base, level, inputs0, inputs1)
    requires OutputsInstalled(cur, level, inputs0, inputs1, outputs, v)
    ensures AllEntries(v) == FileEntries(outputs) + Rest({}, base, level, inputs0, inputs1) + Deep(base, level) + Extra(base, cur)
  {
    var left := LeftLayers(base, level, inputs0, inputs1, outputs);
    forall l | 0 <= l < NUM_LEVELS
      ensures Layers(v)[l] == left[l] + ExtraLayers(base, cur)[l]
    {
      LateLevel(base, cur, level, inputs0, inputs1, outputs, v, l);
    }
    UnionOfSums(left, ExtraLayers(base, cur), Layers(v));
    VersionLayers(v);
    LeftUnion(base, level, inputs0, inputs1, outputs);
  }

  lemma ExtraOnTop(top: set<Entry>, base: Version, cur: Version)
    requires Grown(base, cur) && NewerThan(top, AllEntries(cur)) && Distinct(top + AllEntries(cur))
    ensures NewerThan(top + Extra(base, cur), AllEntries(base)) && Distinct(top + Extra(base, cur) + AllEntries(base))
    ensures top + Extra(base, cur) + AllEntries(base) == top + AllEntries(cur)
  {
    GrownEntries(base, cur);
    NewerSubsets(top, AllEntries(cur), top, AllEntries(base));
    NewerParts(top, Extra(base, cur), AllEntries(base));
    assert top + Extra(base, cur) + AllEntries(base) == top + AllEntries(cur);
  }

  lemma RestOnTop(top: set<Entry>, extra: set<Entry>, v: Version, level: nat, inputs0: seq<File>, inputs1: seq<File>,
                  out: set<Entry>)
    requires level + 1 < NUM_LEVELS
    ensures top + (out + Rest({}, v, level, inputs0, inputs1) + Deep(v, level) + extra)
            == out + Rest(top + extra, v, level, inputs0, inputs1) + Deep(v, level)
  {
  }

  /** The tables that came meanwhile count as lying above the inputs. */
  lemma LateMeaning(top: set<Entry>, base: Version, cur: Version, level: nat, inputs0: seq<File>, lo: UserKey, hi: UserKey,
                    inputs1: seq<File>, list: seq<Entry>, snap: nat, outputs: seq<File>, v: Version)
    requires Grown(base, cur) && NewerThan(top, AllEntries(cur)) && Distinct(top + AllEntries(cur))
    requires Chosen(base, level, inputs0, lo, hi, inputs1) && OutputsInstalled(cur, level, inputs0, inputs1, outputs, v)
    requires Sorted(list) && Elements(list) == FileEntries(inputs0 + inputs1)
    requires OutputEntries(outputs) == Survivors(list, |list|, snap, base, level)
    ensures SameReads(top + AllEntries(cur), top + AllEntries(v), snap)
            <==> NoOlderSibling(list, Rest(top + Extra(base, cur), base, level, inputs0, inputs1), snap, base, level)
    ensures AllEntries(v) <= AllEntries(cur)
  {
    ExtraOnTop(top, base, cur);
    PickMeaning(top + Extra(base, cur), base, level, inputs0, lo, hi, inputs1, list, snap);
    ChosenInputs(base, level, inputs0, lo, hi, inputs1);
    OutputsAreDrawn(list, inputs0 + inputs1, snap, base, level, outputs);
    WrittenEntries(outputs, inputs0 + inputs1);
    LateEntries(base, cur, level, inputs0, inputs1, outputs, v);
    RestOnTop(top, Extra(base, cur), base, level, inputs0, inputs1, FileEntries(outputs));
    LateShrinks(base, cur, level, inputs0, lo, hi, inputs1, outputs, v);
  }

  lemma LateShrinks(base: Version, cur: Version, level: nat, inputs0: seq<File>, lo: UserKey, hi: UserKey, inputs1: seq<File>,
                    outputs: seq<File>, v: Version)
    requires Grown(base, cur) && Chosen(base, level, inputs0, lo, hi, inputs1)
    requires FileEntries(outputs) <= FileEntries(inputs0 + inputs1)
    requires AllEntries(v) == FileEntries(outputs) + Rest({}, base, level, inputs0, inputs1) + Deep(base, level) + Extra(base, cur)
    ensures AllEntries(v) <= AllEntries(cur)
  {
    GrownEntries(base, cur);
    PickSplits({}, base, level, inputs0, lo, hi, inputs1);
    SmallerUnion(AllEntries(base), FileEntries(inputs0 + inputs1), FileEntries(outputs), Rest({}, base, level, inputs0, inputs1),
                 Deep(base, level), Extra(base, cur));
  }

  lemma SmallerUnion(all: set<Entry>, moved: set<Entry>, out: set<Entry>, rest: set<Entry>, deep: set<Entry>, extra: set<Entry>)
    requires {} + all == moved + rest + deep && out <= moved
    ensures out + rest + deep + extra <= all + extra
  {
    assert {} + all == all;
  }

  // ---- Order ----

  /** Whether the outputs fit between the tables that came to their level meanwhile. */
  ghost predicate FitsBeside(base: Version, cur: Version, level: nat, outputs: seq<File>)
    requires level + 1 < NUM_LEVELS
  {
    ClearOf(outputs, cur[level + 1], base[level + 1])
  }

  /** The files of the level they were chosen beside never stand in the outputs' way. */
  lemma ClearOfRest(base: Version, cur: Version, level: nat, inputs0: seq<File>, lo: UserKey, hi: UserKey, inputs1: seq<File>,
                    outputs: seq<File>, firstNumber: nat)
    requires Grown(base, cur) && Chosen(base, level, inputs0, lo, hi, inputs1)
    requires OutputsOk(outputs, firstNumber) && DrawnFrom(outputs, inputs0 + inputs1) && FitsBeside(base, cur, level, outputs)
    ensures ClearOf(outputs, cur[level + 1], inputs1)
  {
    LevelFilesOk(base, level);
    LevelFilesOk(base, level + 1);
    OutputsAreClear(base[level + 1], inputs0, lo, hi, outputs, firstNumber);
  }

  lemma ExtraIsNew(base: Version, cur: Version, level: nat, g: File, e: Entry)
    requires Grown(base, cur) && level < NUM_LEVELS && g in cur[level] && g !in base[level] && e in g.entries
    ensures e in Extra(base, cur) && e !in AllEntries(base)
  {
    assert e in Unpicked(cur[level], base[level]);
    assert e in ExtraLayers(base, cur)[level];
  }

  lemma NotTheSame(base: Version, cur: Version, level: nat, inputs: seq<File>, outputs: seq<File>, o: File, g: File)
    requires Grown(base, cur) && level < NUM_LEVELS && FileEntries(inputs) <= AllEntries(base)
    requires FileEntries(outputs) <= FileEntries(inputs)
    requires o in outputs && o.entries != [] && g in cur[level] && g !in base[level]
    ensures o != g
  {
    var e := o.entries[0];
    FileEntriesOf(outputs);
    assert e in FileEntries(outputs);
    if e in g.entries {
      ExtraIsNew(base, cur, level, g, e);
    }
  }

  lemma SortedMeansClear(base: Version, cur: Version, level: nat, inputs0: seq<File>, lo: UserKey, hi: UserKey,
                         inputs1: seq<File>, outputs: seq<File>, firstNumber: nat, v: Version)
    requires Grown(base, cur) && Chosen(base, level, inputs0, lo, hi, inputs1)
    requires OutputsInstalled(cur, level, inputs0, inputs1, outputs, v)
    requires OutputsOk(outputs, firstNumber) && FileEntries(outputs) <= FileEntries(inputs0 + inputs1) && LevelOk(v[level + 1])
    ensures FitsBeside(base, cur, level, outputs)
  {
    ChosenInputs(base, level, inputs0, lo, hi, inputs1);
    InputsAreEntries(base, level, inputs0, lo, hi, inputs1);
    forall o, g | o in outputs && g in cur[level + 1] && g !in base[level + 1]
      ensures Apart(o, g)
    {
      NotTheSame(base, cur, level + 1, inputs0 + inputs1, outputs, o, g);
      TwoOfLevel(v[level + 1], o, g);
    }
  }

  lemma InputsAreEntries(base: Version, level: nat, inputs0: seq<File>, lo: UserKey, hi: UserKey, inputs1: seq<File>)
    requires Chosen(base, level, inputs0, lo, hi, inputs1)
    ensures FileEntries(inputs0 + inputs1) <= AllEntries(base)
  {
    PickSplits({}, base, level, inputs0, lo, hi, inputs1);
    assert {} + AllEntries(base) == AllEntries(base);
  }

  lemma TwoOfLevel(files: seq<File>, f: File, g: File)
    requires LevelOk(files) && f in files && g in files && f != g
    ensures Apart(f, g)
  {
    var i :| 0 <= i < |files| && files[i] == f;
    var j :| 0 <= j < |files| && files[j] == g;
  }

  lemma ClearMeansSorted(base: Version, cur: Version, level: nat, inputs0: seq<File>, lo: UserKey, hi: UserKey,
                         inputs1: seq<File>, outputs: seq<File>, firstNumber: nat, v: Version)
    requires Grown(base, cur) && VersionOrdered(cur) && Chosen(base, level, inputs0, lo, hi, inputs1)
    requires OutputsInstalled(cur, level, inputs0, inputs1, outputs, v) && FitsBeside(base, cur, level, outputs)
    requires OutputsOk(outputs, firstNumber) && Sorted(OutputEntries(outputs)) && DrawnFrom(outputs, inputs0 + inputs1)
    ensures LevelsSorted(v)
  {
    ClearOfRest(base, cur, level, inputs0, lo, hi, inputs1, outputs, firstNumber);
    OutputsFit(cur[level + 1], inputs1, outputs, firstNumber, v[level + 1]);
    if level == 0 {
      RemainingLevel0Ok(cur[0], v[0]);
    } else {
      RemainingFilesFit(cur[level], v[level]);
    }
  }

  /** Once the outputs are installed in the version as it is by then, levels are sorted exactly
      when the outputs overlap no table that came to their level meanwhile; and entries are
      newest first exactly when, besides, nothing left above is older than an output. */
  lemma LateOrder(base: Version, cur: Version, level: nat, inputs0: seq<File>, lo: UserKey, hi: UserKey, inputs1: seq<File>,
                  outputs: seq<File>, firstNumber: nat, v: Version)
    requires Grown(base, cur) && VersionOrdered(cur) && Chosen(base, level, inputs0, lo, hi, inputs1)
    requires OutputsInstalled(cur, level, inputs0, inputs1, outputs, v)
    requires OutputsOk(outputs, firstNumber) && Sorted(OutputEntries(outputs)) && DrawnFrom(outputs, inputs0 + inputs1)
    ensures LevelsSorted(v) <==> FitsBeside(base, cur, level, outputs)
    ensures VersionOrdered(v) <==> FitsBeside(base, cur, level, outputs) && NewerThan(Unpicked(cur[level], inputs0), FileEntries(outputs))
  {
    WrittenEntries(outputs, inputs0 + inputs1);
    if FitsBeside(base, cur, level, outputs) {
      ClearMeansSorted(base, cur, level, inputs0, lo, hi, inputs1, outputs, firstNumber, v);
    } else if LevelsSorted(v) {
      SortedMeansClear(base, cur, level, inputs0, lo, hi, inputs1, outputs, firstNumber, v);
    }
    ChosenInputs(base, level, inputs0, lo, hi, inputs1);
    VersionLayers(cur);
    VersionLayers(v);
    InstalledOrdered(cur, level, inputs0, inputs1, outputs, v);
  }

  // ---- Inputs without a gap ----

  /** `g` overlaps no file of `base` on the levels down to `level`. */
  ghost predicate ClearDownTo(base: Version, level: nat, g: File)
    requires level < NUM_LEVELS
  {
    FileOk(g) && forall k, f :: 0 <= k <= level && f in base[k] ==> !Overlapping(f, Some(g.smallest.key), Some(g.largest.key))
  }

  /** The tables that came overlap no file of the version the compaction began with, on their
      level or above; tables on level 0 may. */
  ghost predicate Placed(base: Version, cur: Version) {
    forall l, g :: 0 < l < NUM_LEVELS && g in cur[l] && g !in base[l] ==> ClearDownTo(base, l, g)
  }

  lemma NewTableIsClear(base: Version, cur: Version, level: nat, t: File, v: Version)
    requires TableAdded(cur, level, t, v) && 0 < level && forall l, f :: 0 <= l < NUM_LEVELS && f in base[l] ==> f in cur[l]
    ensures ClearDownTo(base, level, t)
  {
    forall k, f | 0 <= k <= level && f in base[k]
      ensures !Overlapping(f, Some(t.smallest.key), Some(t.largest.key))
    {
      assert f in cur[k] && NoOverlap(cur[k], Some(t.smallest.key), Some(t.largest.key));
      var i :| 0 <= i < |cur[k]| && cur[k][i] == f;
    }
  }

  lemma PlacedByTable(base: Version, cur: Version, level: nat, t: File, v: Version)
    requires Placed(base, cur) && TableAdded(cur, level, t, v) && forall l, f :: 0 <= l < NUM_LEVELS && f in base[l] ==> f in cur[l]
    ensures Placed(base, v)
  {
    if 0 < level {
      NewTableIsClear(base, cur, level, t, v);
    }
  }

  /** A table that overlaps none of the inputs lies outside their range, if they leave no gap. */
  lemma OutsideRange(inputs: seq<File>, lo: UserKey, hi: UserKey, g: File)
    requires IsRange(inputs, lo, hi) && Covered(inputs, lo, hi) && (forall f :: f in inputs ==> FileOk(f)) && FileOk(g)
    requires forall f :: f in inputs ==> !Overlapping(f, Some(g.smallest.key), Some(g.largest.key))
    ensures g.largest.key < lo || hi < g.smallest.key
  {
    FileRange(g, g.smallest);
    var i :| 0 <= i < |inputs| && inputs[i].smallest.key == lo;
    assert inputs[i] in inputs;
    FileRange(inputs[i], inputs[i].smallest);
    forall u | g.smallest.key <= u <= g.largest.key
      ensures !CoveredBy(inputs, u)
    {
    }
    assert !CoveredBy(inputs, g.smallest.key) && !CoveredBy(inputs, g.largest.key);
  }

  lemma OutputOutside(inputs: seq<File>, lo: UserKey, hi: UserKey, outputs: seq<File>, k: nat, g: File)
    requires IsRange(inputs, lo, hi) && (forall f :: f in inputs ==> FileOk(f)) && FileOk(g) && DrawnFrom(outputs, inputs)
    requires k < |outputs| && FileOk(outputs[k]) && (g.largest.key < lo || hi < g.smallest.key)
    ensures Apart(outputs[k], g)
  {
    OutputEntriesAre(outputs, k);
    var o := outputs[k];
    assert o.smallest in o.entries && o.largest in o.entries;
    var f :| f in inputs && o.smallest in f.entries;
    var h :| h in inputs && o.largest in h.entries;
    FileRange(f, o.smallest);
    FileRange(h, o.largest);
  }

  lemma TablesAreOutside(base: Version, cur: Version, level: nat, inputs0: seq<File>, inputs1: seq<File>, g: File)
    requires Placed(base, cur) && LevelsSorted(base) && InputsOf(base, level, inputs0, inputs1) && inputs0 != []
    requires g in cur[level + 1] && g !in base[level + 1]
    ensures FileOk(g) && forall f :: f in inputs0 + inputs1 ==> FileOk(f) && !Overlapping(f, Some(g.smallest.key), Some(g.largest.key))
  {
    LevelFilesOk(base, level);
    LevelFilesOk(base, level + 1);
    assert inputs0[0] in inputs0;
  }

  /** The outputs of such inputs always fit. */
  lemma GaplessFits(base: Version, cur: Version, level: nat, inputs0: seq<File>, lo: UserKey, hi: UserKey, inputs1: seq<File>,
                    outputs: seq<File>, firstNumber: nat)
    requires Grown(base, cur) && Placed(base, cur) && Chosen(base, level, inputs0, lo, hi, inputs1) && Gapless(inputs0 + inputs1)
    requires OutputsOk(outputs, firstNumber) && DrawnFrom(outputs, inputs0 + inputs1)
    ensures FitsBeside(base, cur, level, outputs)
  {
    ChosenInputs(base, level, inputs0, lo, hi, inputs1);
    var a, b :| IsRange(inputs0 + inputs1, a, b) && Covered(inputs0 + inputs1, a, b);
    forall o, g | o in outputs && g in cur[level + 1] && g !in base[level + 1]
      ensures Apart(o, g)
    {
      var k :| 0 <= k < |outputs| && outputs[k] == o;
      TablesAreOutside(base, cur, level, inputs0, inputs1, g);
      OutsideRange(inputs0 + inputs1, a, b, g);
      OutputOutside(inputs0 + inputs1, a, b, outputs, k, g);
    }
  }
}
