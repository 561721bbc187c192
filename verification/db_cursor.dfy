/** The cursor a client gets: memtables and tables merged, and shown as of a snapshot. */
module DBCursors {
  import opened Keys
  import opened Entries
  import opened Files
  import opened InternalIterators
  import opened DBIterators
  import opened Layerings
  import opened Versions
  import opened Picks
  import opened Installs
  import opened SortedRuns

  /** The entries from `level` down. */
  ghost function EntriesBelow(v: Version, level: nat): set<Entry> {
    set l, e | level <= l < NUM_LEVELS && e in FileEntries(v[l]) :: e
  }

  lemma BelowIs(v: Version, level: nat)
    requires VersionOrdered(v) && level < NUM_LEVELS
    ensures EntriesBelow(v, level) == FileEntries(v[level]) + EntriesBelow(v, level + 1)
    ensures NewerThan(FileEntries(v[level]), EntriesBelow(v, level + 1))
    ensures InOrder(v[level], level)
  {
    InOrderIs(v[level], level);
    forall e | e in EntriesBelow(v, level)
      ensures e in FileEntries(v[level]) + EntriesBelow(v, level + 1)
    {
      var l :| level <= l < NUM_LEVELS && e in FileEntries(v[l]);
    }
  }

  /** `Version::AddIterators` */
  method AddIterators(v: Version) returns (runs: seq<seq<Entry>>)
    requires VersionOrdered(v)
    ensures Hold(runs, AllEntries(v))
  {
    runs := [];
    assert EntriesBelow(v, NUM_LEVELS) == {};
    for level := NUM_LEVELS downto 0
      invariant Hold(runs, EntriesBelow(v, level))
    {
      var more := RunsOf(v[level], level);
      BelowIs(v, level);
      RunsAre(v[level], level);
      HoldBoth(more, runs, FileEntries(v[level]), EntriesBelow(v, level + 1));
      runs := more + runs;
    }
    assert EntriesBelow(v, 0) == AllEntries(v);
  }

  /** `DBImpl::NewIterator`: the cursor walks what a reader at `sequence` sees of the store. */
  method NewIterator(mem: seq<Entry>, imm: Option<seq<Entry>>, v: Version, sequence: nat) returns (iter: DBIter)
    requires VersionOrdered(v) && Sorted(mem) && Sorted(imm.GetOr([]))
    requires NewerThan(Elements(imm.GetOr([])), AllEntries(v)) && NewerThan(Elements(mem), Elements(imm.GetOr([])) + AllEntries(v))
    requires Distinct(Elements(mem) + (Elements(imm.GetOr([])) + AllEntries(v)))
    ensures fresh(iter) && iter.Ok() && !iter.valid && iter.sequence == sequence
    ensures iter.View() == Visible(Elements(mem) + (Elements(imm.GetOr([])) + AllEntries(v)), sequence)
  {
    var runs := AddIterators(v);
    ghost var es := AllEntries(v);
    if imm.Some? {
      OneRun(imm.value);
      HoldBoth([imm.value], runs, Elements(imm.value), es);
      runs := [imm.value] + runs;
    } else {
      assert Elements([]) + es == es;
    }
    es := Elements(imm.GetOr([])) + es;
    OneRun(mem);
    HoldBoth([mem], runs, Elements(mem), es);
    var internal := MergeRuns([mem] + runs, Elements(mem) + es);
    iter := new DBIter(internal, sequence);
  }

  lemma OneRun(list: seq<Entry>)
    requires Sorted(list)
    ensures Hold([list], Elements(list))
  {
    forall e
      ensures e in Elements(list) <==> exists i :: 0 <= i < |[list]| && e in [list][i]
    {
      assert [list][0] == list;
    }
  }
}
