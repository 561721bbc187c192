/** The sorted lists a merging cursor runs over: memtables, level-0 tables one by one, and
    the other levels each as a whole. */
module SortedRuns {
  import opened Keys
  import opened Entries
  import opened Cursors
  import opened Files
  import opened MergingIterators
  import opened InternalIterators
  import opened Layerings
  import opened Versions
  import opened Compactions
  import opened Picks
  import opened Installs

  // ---- The sorted list of a set of entries ----

  function InsertEntry(list: seq<Entry>, e: Entry): seq<Entry> {
    if list == [] then [e]
    else if Before(list[0], e) then [list[0]] + InsertEntry(list[1..], e)
    else [e] + list
  }

  lemma {:induction false} InsertEntryIs(list: seq<Entry>, e: Entry)
    requires Sorted(list) && forall f :: f in list && f.key == e.key ==> f.seqno != e.seqno
    ensures Sorted(InsertEntry(list, e)) && Elements(InsertEntry(list, e)) == Elements(list) + {e}
  {
    if list != [] {
      var rest := list[1..];
      assert list == [list[0]] + rest && list[0] in list;
      if Before(list[0], e) {
        InsertEntryIs(rest, e);
        HeadFirst(list[0], rest, e);
        assert Elements([list[0]] + InsertEntry(rest, e)) == {list[0]} + Elements(InsertEntry(rest, e));
      } else {
        LedBy(e, list);
      }
    }
  }

  lemma HeadFirst(head: Entry, rest: seq<Entry>, e: Entry)
    requires Sorted([head] + rest) && Before(head, e) && Sorted(InsertEntry(rest, e))
    requires Elements(InsertEntry(rest, e)) == Elements(rest) + {e}
    requires head.key == e.key ==> head.seqno != e.seqno
    ensures Sorted([head] + InsertEntry(rest, e))
  {
    var tail := InsertEntry(rest, e);
    forall k | 0 <= k < |tail|
      ensures Precedes(head, tail[k])
    {
      assert tail[k] in Elements(tail);
      if tail[k] != e {
        var m :| 0 <= m < |rest| && rest[m] == tail[k];
        assert Precedes(([head] + rest)[0], ([head] + rest)[m + 1]);
      }
    }
  }

  lemma LedBy(e: Entry, list: seq<Entry>)
    requires Sorted(list) && list != [] && !Before(list[0], e) && (list[0].key == e.key ==> list[0].seqno != e.seqno)
    ensures Sorted([e] + list) && Elements([e] + list) == Elements(list) + {e}
  {
    forall k | 0 <= k < |list|
      ensures Precedes(e, list[k])
    {
      assert k > 0 ==> Precedes(list[0], list[k]);
    }
  }

  lemma {:induction false} SortedListOf(es: set<Entry>) returns (list: seq<Entry>)
    requires Distinct(es)
    ensures Sorted(list) && Elements(list) == es
    decreases |es|
  {
    list := [];
    if es != {} {
      var e :| e in es;
      var rest := SortedListOf(es - {e});
      forall f | f in rest && f.key == e.key
        ensures f.seqno != e.seqno
      {
        assert f in Elements(rest);
      }
      InsertEntryIs(rest, e);
      list := InsertEntry(rest, e);
    } else {
      assert Elements([]) == {};
    }
  }

  // ---- The lists under a merge ----

  lemma {:induction false} ConcatIs(files: seq<File>)
    ensures Elements(OutputEntries(files)) == FileEntries(files)
  {
    if files != [] {
      var rest, last := files[..|files| - 1], files[|files| - 1];
      ConcatIs(rest);
      assert files == rest + [last];
      JoinedEntries(rest, [last]);
      assert FileEntries([last]) == Elements(last.entries);
    } else {
      assert Elements(OutputEntries(files)) == {} == FileEntries(files);
    }
  }

  /** The files of a level, one behind the other, are sorted. */
  lemma {:induction false} ConcatSorted(files: seq<File>)
    requires LevelOk(files)
    ensures Sorted(OutputEntries(files))
  {
    if files != [] {
      var rest, last := files[..|files| - 1], files[|files| - 1];
      ConcatSorted(rest);
      ConcatIs(rest);
      forall e, f | e in OutputEntries(rest) && f in last.entries
        ensures Precedes(e, f)
      {
        assert e in Elements(OutputEntries(rest));
        var i :| 0 <= i < |rest| && e in rest[i].entries;
        FileRange(files[i], e);
        FileRange(last, f);
        assert Precedes(files[i].largest, files[|rest|].smallest);
      }
      JoinSorted(OutputEntries(rest), last.entries);
    }
  }

  lemma JoinSorted(a: seq<Entry>, b: seq<Entry>)
    requires Sorted(a) && Sorted(b) && forall e, f :: e in a && f in b ==> Precedes(e, f)
    ensures Sorted(a + b)
  {
  }

  /** The lists a compaction merges: every level-0 file for itself, other levels whole. */
  ghost function Runs(files: seq<File>, level: nat): seq<seq<Entry>> {
    if files == [] then []
    else if level == 0 then seq(|files|, i requires 0 <= i < |files| => files[i].entries)
    else [OutputEntries(files)]
  }

  /** The runs are sorted, share no entry, and hold `es` between them. */
  ghost predicate Hold(runs: seq<seq<Entry>>, es: set<Entry>) {
    && (forall i :: 0 <= i < |runs| ==> Sorted(runs[i]))
    && (forall e :: e in es <==> exists i :: 0 <= i < |runs| && e in runs[i])
    && (forall i, j, e :: 0 <= i < j < |runs| && e in runs[i] ==> e !in runs[j])
  }

  lemma RunsAre(files: seq<File>, level: nat)
    requires InOrder(files, level)
    ensures Hold(Runs(files, level), FileEntries(files))
  {
    InOrderIs(files, level);
    if files != [] {
      if level == 0 {
        Level0Runs(files);
      } else {
        ConcatSorted(files);
        ConcatIs(files);
        forall e
          ensures e in FileEntries(files) <==> e in Runs(files, level)[0]
        {
          assert e in Elements(OutputEntries(files)) <==> e in OutputEntries(files);
        }
      }
    }
  }

  lemma Level0Runs(files: seq<File>)
    requires Level0Ok(files) && files != []
    ensures Hold(Runs(files, 0), FileEntries(files))
  {
    forall i, j, e | 0 <= i < j < |files| && e in files[i].entries
      ensures e !in files[j].entries
    {
      assert files[i] in files && files[j] in files && e in Elements(files[i].entries);
      assert e in Elements(files[j].entries) <==> e in files[j].entries;
    }
    forall e
      ensures e in FileEntries(files) <==> exists i :: 0 <= i < |Runs(files, 0)| && e in Runs(files, 0)[i]
    {
      if i :| 0 <= i < |files| && e in files[i].entries {
        assert e in Runs(files, 0)[i];
      }
    }
  }

  method CursorsOver(runs: seq<seq<Entry>>) returns (children: seq<EntryCursor>)
    requires forall i :: 0 <= i < |runs| ==> Sorted(runs[i])
    ensures |children| == |runs| && forall i :: 0 <= i < |runs| ==> fresh(children[i]) && children[i].Ok() && children[i].list == runs[i]
    ensures forall i, j :: 0 <= i < j < |children| ==> children[i] != children[j]
  {
    children := [];
    for n := 0 to |runs|
      invariant |children| == n && forall i :: 0 <= i < n ==> fresh(children[i]) && children[i].Ok() && children[i].list == runs[i]
      invariant forall i, j :: 0 <= i < j < n ==> children[i] != children[j]
    {
      var child := new EntryCursor(runs[n]);
      children := children + [child];
    }
  }

  method RunsOf(files: seq<File>, level: nat) returns (runs: seq<seq<Entry>>)
    ensures runs == Runs(files, level)
  {
    runs := [];
    if |files| != 0 {
      if level == 0 {
        for i := 0 to |files|
          invariant |runs| == i && forall j :: 0 <= j < i ==> runs[j] == files[j].entries
        {
          runs := runs + [files[i].entries];
        }
      } else {
        runs := [OutputEntries(files)];
      }
    }
  }

  /** Runs of newer entries before runs of older ones. */
  lemma HoldBoth(a: seq<seq<Entry>>, b: seq<seq<Entry>>, es: set<Entry>, fs: set<Entry>)
    requires Hold(a, es) && Hold(b, fs) && NewerThan(es, fs)
    ensures Hold(a + b, es + fs)
  {
    var parts := a + b;
    NewerIsApart(es, fs, fs);
    forall e
      ensures e in es + fs <==> exists i :: 0 <= i < |parts| && e in parts[i]
    {
      if e in es {
        var i :| 0 <= i < |a| && e in a[i];
        assert parts[i] == a[i];
      }
      if e in fs {
        var i :| 0 <= i < |b| && e in b[i];
        assert parts[|a| + i] == b[i];
      }
    }
    forall k, e | 0 <= k < |parts| && e in parts[k]
      ensures if k < |a| then e in es else e in fs
    {
      assert parts[k] == if k < |a| then a[k] else b[k - |a|];
    }
    forall i, j, e | 0 <= i < j < |parts| && e in parts[i]
      ensures e !in parts[j]
    {
      if j < |a| {
        assert parts[i] == a[i] && parts[j] == a[j];
      } else if i >= |a| {
        assert parts[i] == b[i - |a|] && parts[j] == b[j - |a|];
      } else {
        assert e in es && e !in fs;
      }
    }
  }

  /** The sorted list of what runs hold is their merge. */
  lemma HoldMerges(list: seq<Entry>, runs: seq<seq<Entry>>)
    requires Sorted(list) && Hold(runs, Elements(list))
    ensures IsMergeOf(list, runs)
  {
    forall i, k | 0 <= i < |runs| && 0 <= k < |runs[i]|
      ensures runs[i][k] in list
    {
      assert runs[i][k] in runs[i] && runs[i][k] in Elements(list);
    }
    forall p | 0 <= p < |list|
      ensures exists i :: 0 <= i < |runs| && list[p] in runs[i]
    {
      assert list[p] in Elements(list);
    }
  }

  /** The merging cursor over runs. */
  method MergeRuns(runs: seq<seq<Entry>>, ghost es: set<Entry>) returns (input: InternalIterator)
    requires Hold(runs, es) && Distinct(es)
    ensures fresh(input) && fresh(input.inner) && fresh(input.inner.children)
    ensures input.Ok() && Elements(input.list) == es
  {
    ghost var list := SortedListOf(es);
    HoldMerges(list, runs);
    var children := CursorsOver(runs);
    assert seq(|children|, i requires 0 <= i < |children| => children[i].list) == runs;
    input := new InternalIterator(children, list);
  }
}
