/** Point reads from an installed version: the search goes level by level, and finds what it
    found before exactly when the pick leaves nothing behind that answers in place of a newer
    entry. */
module InstalledSearches {
  import opened Keys
  import opened Entries
  import opened Files
  import opened Overlaps
  import opened Layerings
  import opened Versions
  import opened Compactions
  import opened CompactionSearches
  import opened Picks
  import opened Installs

  /** What lies around the inputs of a pick, under the layers of the memtables. */
  ghost function Surroundings(top: set<Entry>, v: Version, level: nat, inputs0: seq<File>, inputs1: seq<File>): (a: Around)
    requires level + 1 < NUM_LEVELS
    ensures Beside(a) == Rest(top, v, level, inputs0, inputs1)
  {
    Around(top + Shallow(v, level), Unpicked(v[level], inputs0), Unpicked(v[level + 1], inputs1), Deep(v, level))
  }

  lemma LevelsNewer(v: Version, level: nat)
    requires VersionOrdered(v) && level + 1 < NUM_LEVELS
    ensures NewerThan(FileEntries(v[level]), FileEntries(v[level + 1]) + Deep(v, level))
    ensures NewerThan(FileEntries(v[level + 1]), Deep(v, level)) && NewerThan(Shallow(v, level), Deep(v, level))
  {
    forall l | level + 2 <= l < NUM_LEVELS
      ensures NewerThan(FileEntries(v[level]), FileEntries(v[l])) && NewerThan(FileEntries(v[level + 1]), FileEntries(v[l]))
      ensures forall k :: 0 <= k < level ==> NewerThan(FileEntries(v[k]), FileEntries(v[l]))
    {
    }
  }

  lemma AboveIsNewer(top: set<Entry>, v: Version, level: nat)
    requires VersionOrdered(v) && NewerThan(top, AllEntries(v)) && level + 1 < NUM_LEVELS
    ensures NewerThan(top + Shallow(v, level), FileEntries(v[level]) + FileEntries(v[level + 1]) + Deep(v, level))
  {
    SplitLevels(v, level);
    NewerSubsets(top, AllEntries(v), top, FileEntries(v[level]) + FileEntries(v[level + 1]) + Deep(v, level));
    ShallowIsNewer(v, level);
    LevelsNewer(v, level);
    NewerParts(Shallow(v, level), FileEntries(v[level]) + FileEntries(v[level + 1]), Deep(v, level));
    NewerParts(top, Shallow(v, level), FileEntries(v[level]) + FileEntries(v[level + 1]) + Deep(v, level));
  }

  lemma PickInLevels(v: Version, level: nat, inputs0: seq<File>, lo: UserKey, hi: UserKey, inputs1: seq<File>)
    requires Chosen(v, level, inputs0, lo, hi, inputs1)
    ensures Unpicked(v[level], inputs0) <= FileEntries(v[level]) && Unpicked(v[level + 1], inputs1) <= FileEntries(v[level + 1])
    ensures FileEntries(inputs0 + inputs1) <= FileEntries(v[level]) + FileEntries(v[level + 1])
  {
    InputsInLevels(v, level, inputs0, lo, hi, inputs1);
    SelectIs(v[level + 1], Some(lo), Some(hi));
    SplitEntries(v[level], inputs0);
    SplitEntries(v[level + 1], inputs1);
  }

  /** The inputs of a pick from the levels below are in place once nothing of them is deeper. */
  lemma SurroundingsNewer(top: set<Entry>, v: Version, level: nat, inputs0: seq<File>, lo: UserKey, hi: UserKey,
                          inputs1: seq<File>)
    requires VersionOrdered(v) && NewerThan(top, AllEntries(v)) && Chosen(v, level, inputs0, lo, hi, inputs1)
    ensures var a, moved := Surroundings(top, v, level, inputs0, inputs1), FileEntries(inputs0 + inputs1);
            NewerThan(a.above, a.upper + a.lower + moved + a.deep) && NewerThan(a.upper, a.lower + a.deep)
              && NewerThan(a.lower + moved, a.deep)
  {
    var a, moved := Surroundings(top, v, level, inputs0, inputs1), FileEntries(inputs0 + inputs1);
    var upper, lower := FileEntries(v[level]), FileEntries(v[level + 1]);
    PickInLevels(v, level, inputs0, lo, hi, inputs1);
    AboveIsNewer(top, v, level);
    LevelsNewer(v, level);
    NewerSubsets(a.above, upper + lower + a.deep, a.above, a.upper + a.lower + moved + a.deep);
    NewerSubsets(upper, lower + a.deep, a.upper, a.lower + a.deep);
    NewerParts(upper, lower, a.deep);
    NewerSubsets(upper, lower + a.deep, upper, a.deep);
    NewerSubsets(upper + lower, a.deep, a.lower + moved, a.deep);
  }

  lemma PickInPlace(top: set<Entry>, v: Version, level: nat, inputs0: seq<File>, lo: UserKey, hi: UserKey,
                    inputs1: seq<File>, list: seq<Entry>)
    requires VersionOrdered(v) && NewerThan(top, AllEntries(v)) && Distinct(top + AllEntries(v))
    requires Chosen(v, level, inputs0, lo, hi, inputs1) && Sorted(list) && Elements(list) == FileEntries(inputs0 + inputs1)
    ensures InPlace(list, Surroundings(top, v, level, inputs0, inputs1), v, level)
    ensures Everything(list, Surroundings(top, v, level, inputs0, inputs1)) == top + AllEntries(v)
  {
    PickSplits(top, v, level, inputs0, lo, hi, inputs1);
    RestApart(top, v, level, inputs0, lo, hi, inputs1);
    SurroundingsNewer(top, v, level, inputs0, lo, hi, inputs1);
    forall e | e in Deep(v, level)
      ensures !IsBase(v, level, e.key)
    {
      DeepIsNotBase(v, level, e);
    }
  }

  // ---- The levels as four layers ----

  lemma ShallowLayers(tops: seq<set<Entry>>, v: Version, level: nat)
    requires VersionOrdered(v) && LayersOrdered(tops) && NewerThan(Union(tops), AllEntries(v)) && level + 1 < NUM_LEVELS
    ensures LayersOrdered(tops + Layers(v)[..level]) && Union(tops + Layers(v)[..level]) == Union(tops) + Shallow(v, level)
  {
    var first, layers := Layers(v)[..level], tops + Layers(v)[..level];
    UnionOfBoth(tops, first);
    assert forall l :: 0 <= l < level ==> first[l] == FileEntries(v[l]);
    assert Union(first) == Shallow(v, level);
    forall a, b | 0 <= a < b < |layers|
      ensures NewerThan(layers[a], layers[b])
    {
      if b >= |tops| && a < |tops| {
        NewerThanEachLevel(Union(tops), v, b - |tops|);
        assert tops[a] <= Union(tops);
      }
    }
  }

  lemma UnionOfBoth(a: seq<set<Entry>>, b: seq<set<Entry>>)
    ensures Union(a + b) == Union(a) + Union(b)
  {
    forall e | e in Union(b)
      ensures e in Union(a + b)
    {
      var l :| 0 <= l < |b| && e in b[l];
      assert (a + b)[|a| + l] == b[l];
    }
    forall e | e in Union(a)
      ensures e in Union(a + b)
    {
      var l :| 0 <= l < |a| && e in a[l];
      assert (a + b)[l] == a[l];
    }
  }

  lemma DeepLayers(v: Version, level: nat)
    requires VersionOrdered(v) && level + 1 < NUM_LEVELS
    ensures LayersOrdered(Layers(v)[level + 2..]) && Union(Layers(v)[level + 2..]) == Deep(v, level)
  {
    var layers := Layers(v)[level + 2..];
    assert forall l :: 0 <= l < |layers| ==> layers[l] == FileEntries(v[level + 2 + l]);
    forall e | e in Deep(v, level)
      ensures e in Union(layers)
    {
      var l :| level + 2 <= l < NUM_LEVELS && e in FileEntries(v[l]);
      assert e in layers[l - level - 2];
    }
  }

  /** A search of ordered layers, two more, and ordered ones below. */
  lemma SearchesFour(first: seq<set<Entry>>, upper: set<Entry>, lower: set<Entry>, last: seq<set<Entry>>, u: UserKey, s: nat)
    requires LayersOrdered(first) && Distinct(Union(first)) && LayersOrdered(last) && Distinct(Union(last))
    ensures Search(first + [upper, lower] + last, u, s) == Search([Union(first), upper, lower, Union(last)], u, s)
  {
    SearchPrefix(first, [upper, lower] + last, u, s);
    assert first + ([upper, lower] + last) == first + [upper, lower] + last;
    var rest := [upper, lower] + last;
    assert rest[1..] == [lower] + last && rest[1..][1..] == last;
    SearchPrefix(last, [], u, s);
    assert last + [] == last;
    FourLayers(Around(Union(first), upper, lower, Union(last)), {}, u, s);
    assert lower + {} == lower;
  }

  /** Two levels changed and the others as they were. */
  lemma InstalledLevels(v: Version, level: nat, inputs0: seq<File>, inputs1: seq<File>, outputs: seq<File>, v2: Version)
    requires level + 1 < NUM_LEVELS && OutputsInstalled(v, level, inputs0, inputs1, outputs, v2)
    ensures Layers(v2) == Layers(v)[..level]
                          + [Unpicked(v[level], inputs0), Unpicked(v[level + 1], inputs1) + FileEntries(outputs)] + Layers(v)[level + 2..]
  {
    InstalledEntries(v, level, inputs0, inputs1, outputs, v2);
  }

  lemma InstalledSearch(tops: seq<set<Entry>>, v: Version, level: nat, inputs0: seq<File>, inputs1: seq<File>,
                        outputs: seq<File>, v2: Version, u: UserKey, s: nat)
    requires VersionOrdered(v) && LayersOrdered(tops) && NewerThan(Union(tops), AllEntries(v))
    requires Distinct(Union(tops) + AllEntries(v))
    requires level + 1 < NUM_LEVELS && OutputsInstalled(v, level, inputs0, inputs1, outputs, v2)
    ensures Search(tops + Layers(v2), u, s) == Search(After(Surroundings(Union(tops), v, level, inputs0, inputs1), FileEntries(outputs)), u, s)
  {
    var first, last := tops + Layers(v)[..level], Layers(v)[level + 2..];
    var upper, lower := Unpicked(v[level], inputs0), Unpicked(v[level + 1], inputs1) + FileEntries(outputs);
    InstalledLevels(v, level, inputs0, inputs1, outputs, v2);
    assert tops + Layers(v2) == first + [upper, lower] + last;
    assert LayersOrdered(first) && Union(first) == Union(tops) + Shallow(v, level) && Distinct(Union(first)) by {
      ShallowLayers(tops, v, level);
      SplitLevels(v, level);
    }
    assert LayersOrdered(last) && Union(last) == Deep(v, level) && Distinct(Union(last)) by {
      DeepLayers(v, level);
      SplitLevels(v, level);
    }
    SearchesFour(first, upper, lower, last, u, s);
  }

  // ---- Point reads after an installation ----

  lemma SearchAlike(a: seq<set<Entry>>, b: seq<set<Entry>>, es: set<Entry>, snap: nat)
    requires forall u: UserKey, s: nat :: Search(a, u, s) == Search(b, u, s)
    ensures FindsNewest(a, es, snap) <==> FindsNewest(b, es, snap)
  {
  }

  /** After a compaction point reads find what they found before exactly when no entry that
      moves leaves one behind that is older and answers differently, and no marker is dropped
      over an older value. */
  lemma InstallKeepsSearches(tops: seq<set<Entry>>, v: Version, level: nat, inputs0: seq<File>, lo: UserKey,
                             hi: UserKey, inputs1: seq<File>, list: seq<Entry>, snap: nat, outputs: seq<File>, v2: Version)
    requires VersionOrdered(v) && LayersOrdered(tops) && NewerThan(Union(tops), AllEntries(v))
    requires Distinct(Union(tops) + AllEntries(v))
    requires Chosen(v, level, inputs0, lo, hi, inputs1) && OutputsInstalled(v, level, inputs0, inputs1, outputs, v2)
    requires Sorted(list) && Elements(list) == FileEntries(inputs0 + inputs1)
    requires OutputEntries(outputs) == Survivors(list, |list|, snap, v, level)
    ensures FindsNewest(tops + Layers(v2), Union(tops) + AllEntries(v), snap)
            <==> NoStaleSibling(list, Surroundings(Union(tops), v, level, inputs0, inputs1), snap)
                 && NoOlderSibling(list, Rest(Union(tops), v, level, inputs0, inputs1), snap, v, level)
  {
    var a := Surroundings(Union(tops), v, level, inputs0, inputs1);
    PickInPlace(Union(tops), v, level, inputs0, lo, hi, inputs1, list);
    OutputsAreDrawn(list, inputs0 + inputs1, snap, v, level, outputs);
    WrittenEntries(outputs, inputs0 + inputs1);
    CompactionKeepsSearches(list, a, snap, v, level);
    forall u: UserKey, s: nat
      ensures Search(tops + Layers(v2), u, s) == Search(After(a, FileEntries(outputs)), u, s)
    {
      InstalledSearch(tops, v, level, inputs0, inputs1, outputs, v2, u, s);
    }
    SearchAlike(tops + Layers(v2), After(a, FileEntries(outputs)), Union(tops) + AllEntries(v), snap);
  }

  /** The same for a file that only moves. */
  lemma MoveKeepsPointReads(tops: seq<set<Entry>>, v: Version, level: nat, f: File, v2: Version)
    requires VersionOrdered(v) && LayersOrdered(tops) && NewerThan(Union(tops), AllEntries(v))
    requires Distinct(Union(tops) + AllEntries(v))
    requires Chosen(v, level, [f], f.smallest.key, f.largest.key, []) && OutputsInstalled(v, level, [f], [], [f], v2) && FileOk(f)
    ensures FindsNewest(tops + Layers(v2), Union(tops) + AllEntries(v), 0)
            <==> NoStaleMove(f.entries, Surroundings(Union(tops), v, level, [f], []))
  {
    var a := Surroundings(Union(tops), v, level, [f], []);
    OneFile(f);
    PickInPlace(Union(tops), v, level, [f], f.smallest.key, f.largest.key, [], f.entries);
    MoveKeepsSearches(f.entries, a, v, level);
    forall u: UserKey, s: nat
      ensures Search(tops + Layers(v2), u, s) == Search(After(a, Elements(f.entries)), u, s)
    {
      InstalledSearch(tops, v, level, [f], [], [f], v2, u, s);
    }
    SearchAlike(tops + Layers(v2), After(a, Elements(f.entries)), Union(tops) + AllEntries(v), 0);
  }
}
