/** A compaction that the user asks for may take in files with a gap between them. A table
    that comes meanwhile can go into the gap, and the output is then laid around it. */
module GapExamples {
  import opened Keys
  import opened Entries
  import opened Files
  import opened Overlaps
  import opened Layerings
  import opened Versions
  import opened VersionBuilders
  import opened Compactions
  import opened Picks
  import opened CompactionChoices
  import opened Installs
  import opened LateInstalls

  /** Files `a` and `z` on level 1, the output `o` of both, and the table `m` in between. */
  datatype Gap = Gap(a1: Entry, m3: Entry, z2: Entry, a: File, m: File, z: File, o: File) {
    ghost predicate EntriesOk() {
      a1.key < m3.key < z2.key && a1.seqno == 1 && z2.seqno == 2 && m3.seqno == 3
    }

    ghost predicate FilesOk() {
      && a == File(10, 1, a1, a1, [a1]) && z == File(11, 1, z2, z2, [z2])
      && m == File(12, 1, m3, m3, [m3]) && o == File(13, 1, a1, z2, [a1, z2])
    }

    ghost predicate Ok() {
      forall n {:trigger Asked(OfPart, n)} :: Asked(OfPart, n) ==> EntriesOk() && FilesOk()
    }

    function Before(): Version {
      [[], [a, z], [], [], [], [], []]
    }

    function Meanwhile(): Version {
      [[], [a, z], [m], [], [], [], []]
    }

    function After(): Version {
      [[], [], [o, m], [], [], [], []]
    }
  }

  lemma OkIs(t: Gap)
    ensures t.Ok() <==> t.EntriesOk() && t.FilesOk()
  {
    assert Asked(OfPart, 0);
  }

  /** Such files exist for any three byte strings in order. */
  lemma GapExists(first: Bytes, middle: Bytes, last: Bytes, value: Bytes) returns (t: Gap)
    requires Less(first, middle) && Less(middle, last)
    ensures t.Ok() && t.m3 == Entry(Rank(middle), 3, Put, value) && t.a1.kind == t.z2.kind == Put
  {
    RankEmbedsOrder(first, middle);
    RankEmbedsOrder(middle, last);
    var a1, m3, z2 := Entry(Rank(first), 1, Put, []), Entry(Rank(middle), 3, Put, value), Entry(Rank(last), 2, Put, []);
    t := Gap(a1, m3, z2, File(10, 1, a1, a1, [a1]), File(12, 1, m3, m3, [m3]), File(11, 1, z2, z2, [z2]), File(13, 1, a1, z2, [a1, z2]));
    OkIs(t);
  }

  lemma FilesAre(t: Gap)
    requires t.Ok()
    ensures FileOk(t.a) && FileOk(t.z) && FileOk(t.m) && FileOk(t.o) && LevelOk([t.a, t.z]) && LevelOk([t.m]) && LevelOk([])
  {
    OkIs(t);
  }

  lemma LevelsAre(t: Gap)
    requires t.Ok()
    ensures FileEntries([t.a, t.z]) == {t.a1, t.z2}
    ensures FileEntries([t.m]) == Elements(t.m.entries) == {t.m3} && FileEntries([]) == {}
  {
    OkIs(t);
    TwoFiles(t.a, t.z);
    TwoElements(t.a1, t.a1);
    TwoElements(t.z2, t.z2);
    TwoElements(t.m3, t.m3);
    OneFile(t.m);
  }

  lemma EntriesNewer(t: Gap)
    requires t.Ok()
    ensures NewerThan({t.a1, t.z2}, {t.m3}) && NewerThan({t.a1, t.z2}, {}) && NewerThan({t.m3}, {t.a1, t.z2})
  {
    OkIs(t);
  }

  lemma InOrderBefore(t: Gap)
    requires t.Ok()
    ensures VersionOrdered(t.Before()) && VersionOrdered(t.Meanwhile()) && AllEntries(t.Before()) == {t.a1, t.z2}
  {
    FilesAre(t);
    LevelsAre(t);
    EntriesNewer(t);
    TwoLevels(t.Before(), [t.a, t.z], []);
    TwoLevels(t.Meanwhile(), [t.a, t.z], [t.m]);
  }

  /** Asked for without bounds, the compaction of level 1 takes in both files. */
  lemma BothChosen(t: Gap)
    requires t.Ok()
    ensures Select(t.Before()[1], None, None) == [t.a, t.z] && Chosen(t.Before(), 1, [t.a, t.z], t.a1.key, t.z2.key, [])
  {
    OkIs(t);
    SelectTwo(t.a, t.z, None, None);
    assert [t.a, t.z][0].smallest.key == t.a1.key && [t.a, t.z][1].largest.key == t.z2.key;
    assert Select([], Some(t.a1.key), Some(t.z2.key)) == [];
  }

  lemma NothingInTheWay(t: Gap, l: nat)
    requires t.Ok() && l <= 2
    ensures NoOverlap(t.Before()[l], Some(t.m3.key), Some(t.m3.key))
  {
    OkIs(t);
  }

  /** The new table overlaps nothing down to level 2, and that is where it goes. */
  lemma MayGoThere(t: Gap, limit: nat)
    requires t.Ok()
    ensures MayPush(t.Before(), t.m3.key, t.m3.key, limit, 2)
  {
    NothingInTheWay(t, 0);
    NothingInTheWay(t, 1);
    NothingInTheWay(t, 2);
    assert t.Before()[2] == t.Before()[3] == [] && Select([], Some(t.m3.key), Some(t.m3.key)) == [];
    assert TotalFileSize([]) == 0;
  }

  lemma GoesThere(t: Gap)
    requires t.Ok()
    ensures TableAdded(t.Before(), 2, t.m, t.Meanwhile())
  {
    NothingInTheWay(t, 0);
    NothingInTheWay(t, 1);
    NothingInTheWay(t, 2);
    FilesAre(t);
    OkIs(t);
    assert forall l :: 0 <= l < NUM_LEVELS && l != 1 ==> t.Before()[l] == [];
    assert t.Before()[1] == [t.a, t.z];
  }

  lemma HasGrown(t: Gap)
    requires t.Ok()
    ensures VersionOrdered(t.Meanwhile()) && Grown(t.Before(), t.Meanwhile())
  {
    InOrderBefore(t);
    NotGrownYet(t.Before());
    GoesThere(t);
    LevelsAre(t);
    EntriesNewer(t);
    GrowsByTable(t.Before(), t.Before(), 2, t.m, t.Meanwhile());
  }

  // ---- The outputs ----

  /** Both values are kept, in one table. */
  lemma OneOutput(t: Gap, snap: nat)
    requires t.Ok() && t.a1.kind.Put? && t.z2.kind.Put?
    ensures Sorted([t.a1, t.z2]) && Elements([t.a1, t.z2]) == FileEntries([t.a, t.z] + [])
    ensures Survivors([t.a1, t.z2], 2, snap, t.Before(), 1) == [t.a1, t.z2] == OutputEntries([t.o]) && OutputsOk([t.o], 13)
  {
    var list := [t.a1, t.z2];
    OkIs(t);
    LevelsAre(t);
    TwoElements(t.a1, t.z2);
    assert [t.a, t.z] + [] == [t.a, t.z] && [t.o][..0] == [];
    assert Survivors(list, 0, snap, t.Before(), 1) == [];
    assert Survivors(list, 1, snap, t.Before(), 1) == [t.a1];
  }

  lemma Installed(t: Gap)
    requires t.Ok()
    ensures OutputsInstalled(t.Meanwhile(), 1, [t.a, t.z], [], [t.o], t.After())
  {
    OkIs(t);
    assert t.Meanwhile()[1] == [t.a, t.z] && t.Meanwhile()[2] == [t.m] && t.After()[1] == [] && t.After()[2] == [t.o, t.m];
  }

  lemma TableIsInside(t: Gap, s: nat)
    requires t.Ok() && 3 <= s
    ensures !Apart(t.o, t.m) && !Before(t.o.largest, SeekKey(t.m3.key, s)) && Lacks(Elements(t.o.entries), t.m3.key, s)
    ensures Newest(Elements(t.o.entries) + {t.m3}, t.m3, t.m3.key, s) && Distinct(Elements(t.o.entries) + {t.m3})
  {
    OkIs(t);
    TwoElements(t.a1, t.z2);
  }

  lemma EverythingAfter(t: Gap)
    requires t.Ok()
    ensures AllEntries(t.After()) == Elements(t.o.entries) + {t.m3}
  {
    LevelsAre(t);
    TwoFiles(t.o, t.m);
    TwoLevels(t.After(), [], [t.o, t.m]);
  }

  lemma NotBeside(t: Gap)
    requires t.Ok()
    ensures !FitsBeside(t.Before(), t.Meanwhile(), 1, [t.o])
  {
    TableIsInside(t, 3);
    assert t.o in [t.o] && t.m in t.Meanwhile()[2] && t.Before()[2] == [];
  }

  lemma LevelIsBroken(t: Gap, snap: nat)
    requires t.Ok() && t.a1.kind.Put? && t.z2.kind.Put?
    ensures !LevelsSorted(t.After())
  {
    HasGrown(t);
    BothChosen(t);
    OneOutput(t, snap);
    Installed(t);
    NotBeside(t);
    OutputsAreDrawn([t.a1, t.z2], [t.a, t.z] + [], snap, t.Before(), 1, [t.o]);
    LateOrder(t.Before(), t.Meanwhile(), 1, [t.a, t.z], t.a1.key, t.z2.key, [], [t.o], 13, t.After());
  }

  lemma StillThere(t: Gap, s: nat)
    requires t.Ok() && 3 <= s
    ensures Read(AllEntries(t.After()), t.m3.key, s) == Answer(t.m3)
  {
    TableIsInside(t, s);
    EverythingAfter(t);
    ReadOfNewest(AllEntries(t.After()), t.m3, t.m3.key, s);
  }

  /** The code gets there: both files are chosen, the table may go to level 2 meanwhile, and one
      output holds what the drop loop keeps of both. */
  lemma OutputAroundTable(t: Gap, limit: nat, snap: nat)
    requires t.Ok() && t.a1.kind.Put? && t.z2.kind.Put?
    ensures Chosen(t.Before(), 1, [t.a, t.z], t.a1.key, t.z2.key, []) && Select(t.Before()[1], None, None) == [t.a, t.z]
    ensures TableAdded(t.Before(), 2, t.m, t.Meanwhile()) && MayPush(t.Before(), t.m3.key, t.m3.key, limit, 2)
    ensures OutputEntries([t.o]) == Survivors([t.a1, t.z2], 2, snap, t.Before(), 1)
    ensures OutputsInstalled(t.Meanwhile(), 1, [t.a, t.z], [], [t.o], t.After())
  {
    BothChosen(t);
    GoesThere(t);
    MayGoThere(t, limit);
    OneOutput(t, snap);
    Installed(t);
  }

  /** The output spans the gap that the new table is in. The level is not sorted any more, and
      a search of it stops at the output, the first file that ends behind the key: it does not
      find the entry, which reading everything at once does. */
  lemma TableInGapIsLost(t: Gap, s: nat)
    requires t.Ok() && t.a1.kind.Put? && t.z2.kind.Put? && 3 <= s
    ensures !LevelsSorted(t.After())
    ensures !Before(t.o.largest, SeekKey(t.m3.key, s)) && Lacks(Elements(t.o.entries), t.m3.key, s)
    ensures Read(AllEntries(t.After()), t.m3.key, s) == Answer(t.m3)
  {
    LevelIsBroken(t, 0);
    TableIsInside(t, s);
    StillThere(t, s);
  }
}
