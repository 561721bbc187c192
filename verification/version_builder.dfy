/** Versions and the manifest: edits applied one at a time while the store runs, and
    all through one builder when the manifest is replayed, give the same files. */
module VersionBuilders {
  import opened Keys
  import opened Entries
  import opened Files

  /** A record of the manifest. Deletions name a level and a file number. */
  datatype Edit = Edit(
    logNumber: Option<nat>,
    prevLogNumber: Option<nat>,
    nextFile: Option<nat>,
    lastSequence: Option<nat>,
    deleted: seq<(nat, nat)>,
    added: seq<(nat, File)>)

  /** `BySmallestKey`: by smallest key, ties broken by file number. */
  predicate FileLess(f: File, g: File) {
    Before(f.smallest, g.smallest) || (!Before(g.smallest, f.smallest) && f.number < g.number)
  }

  ghost predicate Ascending(files: seq<File>) {
    forall i, j :: 0 <= i < j < |files| ==> FileLess(files[i], files[j])
  }

  /** A `std::set` ordered by `FileLess`: an equivalent file is not inserted again. */
  function Insert(files: seq<File>, f: File): seq<File> {
    if files == [] then [f]
    else if FileLess(f, files[0]) then [f] + files
    else if FileLess(files[0], f) then [files[0]] + Insert(files[1..], f)
    else files
  }

  lemma {:induction false} InsertIs(files: seq<File>, f: File)
    requires Ascending(files) && forall g :: g in files ==> g.number != f.number
    ensures Ascending(Insert(files, f))
    ensures forall g :: g in Insert(files, f) <==> g in files || g == f
  {
    if files != [] {
      var rest := files[1..];
      assert files == [files[0]] + rest;
      if FileLess(files[0], f) {
        InsertIs(rest, f);
        forall k | 0 <= k < |Insert(rest, f)|
          ensures FileLess(files[0], Insert(rest, f)[k])
        {
          assert Insert(rest, f)[k] in Insert(rest, f);
        }
      } else {
        assert files[0] in files;
        assert FileLess(f, files[0]);
      }
    }
  }

  // ---- What a sequence of edits means ----

  /** `edit` puts `f` on `level`. */
  ghost predicate Adds(edit: Edit, level: nat, f: File) {
    (level, f) in edit.added
  }

  ghost predicate Deletes(edit: Edit, level: nat, number: nat) {
    (level, number) in edit.deleted
  }

  /** `f` was put on `level` and not deleted since. */
  ghost predicate Live(edits: seq<Edit>, level: nat, f: File) {
    edits != [] && var last := edits[|edits| - 1];
    Adds(last, level, f) || (Live(edits[..|edits| - 1], level, f) && !Deletes(last, level, f.number))
  }

  ghost predicate EverAdded(edits: seq<Edit>, level: nat, number: nat) {
    exists k: nat, f: File :: 0 <= k < |edits| && f.number == number && Adds(edits[k], level, f)
  }

  /** Levels exist, and no number is added to a level where it was before. */
  ghost predicate FreshAdds(edits: seq<Edit>, edit: Edit) {
    && (forall d :: d in edit.deleted ==> d.0 < NUM_LEVELS)
    && (forall a :: a in edit.added ==> a.0 < NUM_LEVELS && !EverAdded(edits, a.0, a.1.number))
    && (forall i, j :: 0 <= i < j < |edit.added| && edit.added[i].0 == edit.added[j].0 ==>
          edit.added[i].1.number != edit.added[j].1.number)
  }

  ghost predicate FreshEdits(edits: seq<Edit>) {
    forall k :: 0 <= k < |edits| ==> FreshAdds(edits[..k], edits[k])
  }

  /** `files` lists what is live on `level`, in order. */
  ghost predicate Lists(files: seq<File>, edits: seq<Edit>, level: nat) {
    Ascending(files) && forall f :: f in files <==> Live(edits, level, f)
  }

  /** The order leaves only one way to list the files of a level. */
  lemma {:induction false} OneListing(a: seq<File>, b: seq<File>)
    requires Ascending(a) && Ascending(b) && forall f :: f in a <==> f in b
    ensures a == b
  {
    assert a != [] ==> a[0] in a;
    assert b != [] ==> b[0] in b;
    if a != [] {
      assert a[0] == b[0];
      forall f
        ensures f in a[1..] <==> f in b[1..]
      {
        InTail(a, f);
        InTail(b, f);
      }
      OneListing(a[1..], b[1..]);
    }
  }

  lemma InTail(files: seq<File>, f: File)
    requires Ascending(files) && files != []
    ensures f in files[1..] <==> f in files && f != files[0]
  {
    assert files == [files[0]] + files[1..];
  }

  ghost predicate AddsNumber(added: seq<(nat, File)>, level: nat, number: nat) {
    exists i :: 0 <= i < |added| && added[i].0 == level && added[i].1.number == number
  }

  // ---- The builder ----

  /** `f` is among the base files or the added ones, and not deleted. */
  predicate Saved(base: seq<File>, deleted: set<nat>, added: seq<File>, f: File) {
    (f in base || f in added) && f.number !in deleted
  }

  type PerLevel<T> = seq<T>

  /** What is saved is what is live, and every file around was added at some time. */
  ghost predicate StandsFor(base: Version, deleted: PerLevel<set<nat>>, added: PerLevel<seq<File>>, edits: seq<Edit>)
    requires |deleted| == NUM_LEVELS && |added| == NUM_LEVELS
  {
    && (forall level: nat, f: File :: level < NUM_LEVELS ==>
          && (Saved(base[level], deleted[level], added[level], f) <==> Live(edits, level, f))
          && (f in base[level] || f in added[level] ==> EverAdded(edits, level, f.number)))
    && forall level: nat, f, g :: level < NUM_LEVELS && f in base[level] && g in added[level] ==> f.number != g.number
  }

  ghost predicate AfterDeletions(deleted: PerLevel<set<nat>>, names: seq<(nat, nat)>, deleted2: PerLevel<set<nat>>)
    requires |deleted| == NUM_LEVELS && |deleted2| == NUM_LEVELS
  {
    forall level: nat, n: nat :: level < NUM_LEVELS ==>
      (n in deleted2[level] <==> n in deleted[level] || (level, n) in names)
  }

  ghost predicate AfterAdditions(deleted: PerLevel<set<nat>>, added: PerLevel<seq<File>>, adds: seq<(nat, File)>,
                                 deleted2: PerLevel<set<nat>>, added2: PerLevel<seq<File>>)
    requires |deleted| == NUM_LEVELS && |added| == NUM_LEVELS && |deleted2| == NUM_LEVELS && |added2| == NUM_LEVELS
  {
    && (forall level: nat, g: File :: level < NUM_LEVELS ==>
          (g in added2[level] <==> g in added[level] || (level, g) in adds))
    && (forall level: nat, n: nat :: level < NUM_LEVELS ==>
          (n in deleted2[level] <==> n in deleted[level] && !AddsNumber(adds, level, n)))
  }

  lemma EditApplied(base: Version, deleted: PerLevel<set<nat>>, added: PerLevel<seq<File>>, edits: seq<Edit>, edit: Edit,
                    mid: PerLevel<set<nat>>, deleted2: PerLevel<set<nat>>, added2: PerLevel<seq<File>>)
    requires |deleted| == |added| == |mid| == |deleted2| == |added2| == NUM_LEVELS
    requires StandsFor(base, deleted, added, edits) && FreshAdds(edits, edit)
    requires AfterDeletions(deleted, edit.deleted, mid) && AfterAdditions(mid, added, edit.added, deleted2, added2)
    ensures StandsFor(base, deleted2, added2, edits + [edit])
  {
    var more := edits + [edit];
    assert more[..|edits|] == edits;
    forall level: nat, f: File | level < NUM_LEVELS
      ensures Saved(base[level], deleted2[level], added2[level], f) <==> Live(more, level, f)
      ensures f in base[level] || f in added2[level] ==> EverAdded(more, level, f.number)
    {
      AddedSince(edits, edit, level, f);
      assert Saved(base[level], deleted[level], added[level], f) <==> Live(edits, level, f);
      if Adds(edit, level, f) {
        assert AddsNumber(edit.added, level, f.number);
      } else if f in base[level] || f in added[level] {
        assert EverAdded(edits, level, f.number);
        assert !AddsNumber(edit.added, level, f.number);
      }
    }
    forall level: nat, f, g | level < NUM_LEVELS && f in base[level] && g in added2[level]
      ensures f.number != g.number
    {
      assert EverAdded(edits, level, f.number);
    }
  }

  lemma AddedSince(edits: seq<Edit>, edit: Edit, level: nat, f: File)
    ensures EverAdded(edits, level, f.number) || Adds(edit, level, f) ==> EverAdded(edits + [edit], level, f.number)
  {
    var more := edits + [edit];
    if EverAdded(edits, level, f.number) {
      var k: nat, g: File :| k < |edits| && g.number == f.number && Adds(edits[k], level, g);
      assert Adds(more[k], level, g);
    } else if Adds(edit, level, f) {
      assert Adds(more[|edits|], level, f);
    }
  }

  class Builder {
    const base: Version
    var deletedFiles: seq<set<nat>>
    var addedFiles: seq<seq<File>>

    ghost predicate Ok()
      reads this
    {
      && |deletedFiles| == NUM_LEVELS && |addedFiles| == NUM_LEVELS
      && forall level :: 0 <= level < NUM_LEVELS ==> Ascending(base[level]) && Ascending(addedFiles[level])
    }

    /** The files the builder would save for `level`. */
    ghost predicate Holds(level: nat, f: File)
      requires Ok() && level < NUM_LEVELS
      reads this
    {
      Saved(base[level], deletedFiles[level], addedFiles[level], f)
    }

    constructor (base: Version)
      requires forall level :: 0 <= level < NUM_LEVELS ==> Ascending(base[level])
      ensures Ok() && this.base == base && deletedFiles == seq(NUM_LEVELS, _ => {}) && addedFiles == seq(NUM_LEVELS, _ => [])
    {
      this.base := base;
      deletedFiles := seq(NUM_LEVELS, _ => {});
      addedFiles := seq(NUM_LEVELS, _ => []);
    }

    /** What the builder would save is what is live after `edits`. */
    ghost predicate Represents(edits: seq<Edit>)
      requires Ok()
      reads this
    {
      StandsFor(base, deletedFiles, addedFiles, edits)
    }

    method DeleteFile(level: nat, number: nat)
      requires Ok() && level < NUM_LEVELS
      modifies this`deletedFiles
      ensures Ok() && deletedFiles == old(deletedFiles)[level := old(deletedFiles)[level] + {number}]
    {
      deletedFiles := deletedFiles[level := deletedFiles[level] + {number}];
    }

    method AddFile(level: nat, f: File)
      requires Ok() && level < NUM_LEVELS
      requires forall g :: g in addedFiles[level] ==> g.number != f.number
      modifies this
      ensures Ok()
      ensures deletedFiles == old(deletedFiles)[level := old(deletedFiles)[level] - {f.number}]
      ensures forall l :: 0 <= l < NUM_LEVELS && l != level ==> addedFiles[l] == old(addedFiles)[l]
      ensures forall g :: g in addedFiles[level] <==> g in old(addedFiles)[level] || g == f
    {
      InsertIs(addedFiles[level], f);
      deletedFiles := deletedFiles[level := deletedFiles[level] - {f.number}];
      addedFiles := addedFiles[level := Insert(addedFiles[level], f)];
    }

    method ApplyDeletions(edit: Edit)
      requires Ok() && forall d :: d in edit.deleted ==> d.0 < NUM_LEVELS
      modifies this`deletedFiles
      ensures Ok() && AfterDeletions(old(deletedFiles), edit.deleted, deletedFiles)
    {
      for i := 0 to |edit.deleted|
        invariant Ok() && AfterDeletions(old(deletedFiles), edit.deleted[..i], deletedFiles)
      {
        assert edit.deleted[..i + 1] == edit.deleted[..i] + [edit.deleted[i]];
        assert edit.deleted[i] in edit.deleted;
        DeleteFile(edit.deleted[i].0, edit.deleted[i].1);
      }
      assert edit.deleted[..|edit.deleted|] == edit.deleted;
    }

    method ApplyAdditions(edit: Edit, ghost edits: seq<Edit>)
      requires Ok() && FreshAdds(edits, edit)
      requires forall level: nat, f :: level < NUM_LEVELS && f in addedFiles[level] ==> EverAdded(edits, level, f.number)
      modifies this
      ensures Ok() && AfterAdditions(old(deletedFiles), old(addedFiles), edit.added, deletedFiles, addedFiles)
    {
      for i := 0 to |edit.added|
        invariant Ok() && AfterAdditions(old(deletedFiles), old(addedFiles), edit.added[..i], deletedFiles, addedFiles)
      {
        assert edit.added[..i + 1] == edit.added[..i] + [edit.added[i]];
        assert edit.added[i] in edit.added;
        AddFile(edit.added[i].0, edit.added[i].1);
      }
      assert edit.added[..|edit.added|] == edit.added;
    }

    /** `Apply`: deletions first, then additions. */
    method Apply(edit: Edit, ghost edits: seq<Edit>)
      requires Ok() && Represents(edits) && FreshAdds(edits, edit)
      modifies this
      ensures Ok() && Represents(edits + [edit])
    {
      ghost var deleted, added := deletedFiles, addedFiles;
      ApplyDeletions(edit);
      ghost var mid := deletedFiles;
      ApplyAdditions(edit, edits);
      EditApplied(base, deleted, added, edits, edit, mid, deletedFiles, addedFiles);
    }

    /** `SaveTo` for one level: a merge of the base files with the added ones, deleted ones left out. */
    method SaveLevel(level: nat) returns (files: seq<File>)
      requires Ok() && level < NUM_LEVELS
      requires forall f, g :: f in base[level] && g in addedFiles[level] ==> f.number != g.number
      ensures Ascending(files) && forall f :: f in files <==> Holds(level, f)
    {
      files := [];
      var baseFiles, added, deleted := base[level], addedFiles[level], deletedFiles[level];
      var baseIter := 0;
      for addedIter := 0 to |added|
        invariant 0 <= baseIter <= |baseFiles|
        invariant Merged(files, baseFiles, baseIter, added, addedIter, deleted)
      {
        // Add all smaller files listed in base
        while baseIter < |baseFiles| && !FileLess(added[addedIter], baseFiles[baseIter])
          invariant 0 <= baseIter <= |baseFiles|
          invariant Merged(files, baseFiles, baseIter, added, addedIter, deleted)
        {
          TakeBase(files, baseFiles, baseIter, added, addedIter, deleted);
          files := MaybeAddFile(files, baseFiles[baseIter], deleted);
          baseIter := baseIter + 1;
        }
        TakeAdded(files, baseFiles, baseIter, added, addedIter, deleted);
        files := MaybeAddFile(files, added[addedIter], deleted);
      }
      // Add remaining base files
      while baseIter < |baseFiles|
        invariant 0 <= baseIter <= |baseFiles|
        invariant Merged(files, baseFiles, baseIter, added, |added|, deleted)
      {
        TakeBase(files, baseFiles, baseIter, added, |added|, deleted);
        files := MaybeAddFile(files, baseFiles[baseIter], deleted);
        baseIter := baseIter + 1;
      }
      assert baseFiles[..baseIter] == baseFiles && added[..|added|] == added;
    }

    /** The files of every level, as a version that lists what the edits left. */
    method SaveTo(ghost edits: seq<Edit>) returns (v: Version)
      requires Ok() && Represents(edits) && FreshEdits(edits)
      ensures VersionOk(v) && VersionLists(v, edits)
    {
      var levels: seq<seq<File>> := [];
      for level := 0 to NUM_LEVELS
        invariant |levels| == level && Ok() && Represents(edits)
        invariant forall l :: 0 <= l < level ==> Lists(levels[l], edits, l)
      {
        var files := SaveLevel(level);
        levels := levels + [files];
      }
      v := levels;
      ListingHasDistinctNumbers(v, edits);
    }
  }

  lemma ListingHasDistinctNumbers(v: Version, edits: seq<Edit>)
    requires VersionLists(v, edits) && FreshEdits(edits)
    ensures VersionOk(v)
  {
    forall level, i, j | 0 <= level < NUM_LEVELS && 0 <= i < j < |v[level]|
      ensures v[level][i].number != v[level][j].number
    {
      assert v[level][i] in v[level] && v[level][j] in v[level];
      assert FileLess(v[level][i], v[level][j]);
      if v[level][i].number == v[level][j].number {
        LiveNumbersDistinct(edits, level, v[level][i], v[level][j]);
      }
    }
  }

  lemma {:induction false} LiveNumbersDistinct(edits: seq<Edit>, level: nat, f: File, g: File)
    requires FreshEdits(edits) && Live(edits, level, f) && Live(edits, level, g) && f.number == g.number
    ensures f == g
  {
    var before, last := edits[..|edits| - 1], edits[|edits| - 1];
    assert FreshAdds(edits[..|edits| - 1], last);
    if Live(before, level, f) { LiveWasAdded(before, level, f); }
    if Live(before, level, g) { LiveWasAdded(before, level, g); }
    if !Adds(last, level, f) && !Adds(last, level, g) {
      forall k | 0 <= k < |before|
        ensures FreshAdds(before[..k], before[k])
      {
        assert before[..k] == edits[..k];
      }
      LiveNumbersDistinct(before, level, f, g);
    }
  }

  function MaybeAddFile(files: seq<File>, f: File, deleted: set<nat>): seq<File> {
    if f.number in deleted then files else files + [f]
  }

  /** The first `b` base files and the first `a` added files are merged, in order, and
      nothing still to come sorts before them. */
  ghost predicate Merged(files: seq<File>, base: seq<File>, b: nat, added: seq<File>, a: nat, deleted: set<nat>)
    requires b <= |base| && a <= |added|
  {
    && Ascending(files)
    && (forall f :: f in files <==> (f in base[..b] || f in added[..a]) && f.number !in deleted)
    && (forall i, j :: 0 <= i < b && a <= j < |added| ==> FileLess(base[i], added[j]))
    && (forall i, j :: 0 <= i < a && b <= j < |base| ==> FileLess(added[i], base[j]))
  }

  lemma TakeBase(files: seq<File>, base: seq<File>, b: nat, added: seq<File>, a: nat, deleted: set<nat>)
    requires b < |base| && a <= |added| && Merged(files, base, b, added, a, deleted)
    requires Ascending(base) && Ascending(added) && forall f, g :: f in base && g in added ==> f.number != g.number
    requires a < |added| ==> !FileLess(added[a], base[b])
    ensures Merged(MaybeAddFile(files, base[b], deleted), base, b + 1, added, a, deleted)
  {
    assert base[..b + 1] == base[..b] + [base[b]];
    assert base[b] in base;
    forall j | a <= j < |added|
      ensures FileLess(base[b], added[j])
    {
      assert added[a] in added;
      assert FileLess(base[b], added[a]);
    }
  }

  lemma TakeAdded(files: seq<File>, base: seq<File>, b: nat, added: seq<File>, a: nat, deleted: set<nat>)
    requires b <= |base| && a < |added| && Merged(files, base, b, added, a, deleted)
    requires Ascending(base) && Ascending(added)
    requires b < |base| ==> FileLess(added[a], base[b])
    ensures Merged(MaybeAddFile(files, added[a], deleted), base, b, added, a + 1, deleted)
  {
    assert added[..a + 1] == added[..a] + [added[a]];
    LastOfMerged(files, base, b, added, a, deleted);
    NextAddedFirst(base, b, added, a);
  }

  lemma NextAddedFirst(base: seq<File>, b: nat, added: seq<File>, a: nat)
    requires b <= |base| && a < |added| && Ascending(base) && (b < |base| ==> FileLess(added[a], base[b]))
    ensures forall j :: b <= j < |base| ==> FileLess(added[a], base[j])
  {
    forall j | b < j < |base|
      ensures FileLess(added[a], base[j])
    {
      assert FileLess(base[b], base[j]);
    }
  }

  /** The next added file sorts after everything merged so far. */
  lemma LastOfMerged(files: seq<File>, base: seq<File>, b: nat, added: seq<File>, a: nat, deleted: set<nat>)
    requires b <= |base| && a < |added| && Merged(files, base, b, added, a, deleted) && Ascending(added)
    ensures forall k :: 0 <= k < |files| ==> FileLess(files[k], added[a])
  {
    forall k | 0 <= k < |files|
      ensures FileLess(files[k], added[a])
    {
      assert files[k] in files;
    }
  }

  // ---- The version set ----

  /** The last value recorded for a field. */
  function Latest(edits: seq<Edit>, field: Edit -> Option<nat>): Option<nat> {
    if edits == [] then None
    else if field(edits[|edits| - 1]).Some? then field(edits[|edits| - 1])
    else Latest(edits[..|edits| - 1], field)
  }

  /** `WriteSnapshot`: every file of the version as an addition. */
  function Snapshot(version: Version, levels: nat): seq<(nat, File)>
    requires levels <= NUM_LEVELS
  {
    if levels == 0 then []
    else Snapshot(version, levels - 1) + seq(|version[levels - 1]|, i requires 0 <= i < |version[levels - 1]| =>
                                               (levels - 1, version[levels - 1][i]))
  }

  ghost predicate VersionLists(version: Version, edits: seq<Edit>) {
    forall level :: 0 <= level < NUM_LEVELS ==> Lists(version[level], edits, level)
  }

  /** Levels in order, and no number twice on a level. */
  ghost predicate VersionOk(version: Version) {
    && (forall level :: 0 <= level < NUM_LEVELS ==> Ascending(version[level]))
    && (forall level, i, j :: 0 <= level < NUM_LEVELS && 0 <= i < j < |version[level]| ==>
          version[level][i].number != version[level][j].number)
  }

  ghost predicate NumbersBelow(version: Version, next: nat) {
    forall level, f :: 0 <= level < NUM_LEVELS && f in version[level] ==> f.number < next
  }

  const NEXT_FILE: Edit -> Option<nat> := (e: Edit) => e.nextFile
  const LAST_SEQUENCE: Edit -> Option<nat> := (e: Edit) => e.lastSequence
  const LOG_NUMBER: Edit -> Option<nat> := (e: Edit) => e.logNumber
  const PREV_LOG_NUMBER: Edit -> Option<nat> := (e: Edit) => e.prevLogNumber

  lemma {:induction false} SnapshotIs(version: Version, levels: nat)
    requires VersionOk(version) && levels <= NUM_LEVELS
    ensures forall a :: a in Snapshot(version, levels) <==> a.0 < levels && a.1 in version[a.0]
    ensures forall i, j :: 0 <= i < j < |Snapshot(version, levels)| && Snapshot(version, levels)[i].0 == Snapshot(version, levels)[j].0 ==>
              Snapshot(version, levels)[i].1.number != Snapshot(version, levels)[j].1.number
  {
    if levels > 0 {
      SnapshotIs(version, levels - 1);
      var before, files := Snapshot(version, levels - 1), version[levels - 1];
      var part := seq(|files|, i requires 0 <= i < |files| => (levels - 1, files[i]));
      assert Snapshot(version, levels) == before + part;
      forall a
        ensures a in part <==> a.0 == levels - 1 && a.1 in files
      {
        if a.0 == levels - 1 && a.1 in files {
          var i :| 0 <= i < |files| && files[i] == a.1;
          assert part[i] == a;
        }
      }
      forall i, j | 0 <= i < j < |before + part| && (before + part)[i].0 == (before + part)[j].0
        ensures (before + part)[i].1.number != (before + part)[j].1.number
      {
        assert i < |before| ==> before[i] in before;
      }
    }
  }

  function SnapshotEdit(version: Version): Edit {
    Edit(None, None, None, None, [], Snapshot(version, NUM_LEVELS))
  }

  /** Replaying the snapshot record alone gives the version back. */
  lemma SnapshotLists(version: Version)
    requires VersionOk(version)
    ensures FreshEdits([SnapshotEdit(version)]) && VersionLists(version, [SnapshotEdit(version)])
  {
    SnapshotIs(version, NUM_LEVELS);
    var edits := [SnapshotEdit(version)];
    assert edits[..0] == [];
    forall level, f | 0 <= level < NUM_LEVELS
      ensures f in version[level] <==> Live(edits, level, f)
    {
      assert Adds(edits[0], level, f) <==> (level, f) in Snapshot(version, NUM_LEVELS);
    }
  }

  class VersionSet {
    var current: Version
    var nextFileNumber: nat
    var lastSequence: nat
    var logNumber: nat
    var prevLogNumber: nat
    /** The records of the manifest, once there is one to append to. */
    var descriptor: Option<seq<Edit>>

    ghost predicate Ok()
      reads this
    {
      && VersionOk(current) && NumbersBelow(current, nextFileNumber)
      && (descriptor.Some? ==> DescriptorOk(descriptor.value))
    }

    /** The manifest so far would rebuild this state. */
    ghost predicate DescriptorOk(edits: seq<Edit>)
      reads this
    {
      && FreshEdits(edits) && VersionLists(current, edits)
      && Latest(edits, LOG_NUMBER) == Some(logNumber) && Latest(edits, PREV_LOG_NUMBER) == Some(prevLogNumber)
      && Latest(edits, LAST_SEQUENCE).Some? && Latest(edits, LAST_SEQUENCE).value <= lastSequence
      && Latest(edits, NEXT_FILE).Some? && NumbersBelow(current, Latest(edits, NEXT_FILE).value)
    }

    constructor ()
      ensures Ok() && descriptor == None && nextFileNumber == 2 && forall level :: 0 <= level < NUM_LEVELS ==> current[level] == []
    {
      current := [[], [], [], [], [], [], []];
      nextFileNumber, lastSequence, logNumber, prevLogNumber := 2, 0, 0, 0;
      descriptor := None;
    }

    method NewFileNumber() returns (n: nat)
      requires Ok()
      modifies this`nextFileNumber
      ensures Ok() && n == old(nextFileNumber) && nextFileNumber == n + 1
    {
      n := nextFileNumber;
      nextFileNumber := n + 1;
    }

    /** What the manifest holds when the next record is appended: a new one starts with a snapshot. */
    ghost function Written(): seq<Edit>
      reads this
    {
      descriptor.GetOr([SnapshotEdit(current)])
    }

    /** The version after one more edit. */
    method Build(full: Edit) returns (v: Version)
      requires Ok() && FreshAdds(Written(), full)
      ensures VersionOk(v) && VersionLists(v, Written() + [full]) && FreshEdits(Written() + [full])
    {
      ghost var written := Written();
      WrittenLists();
      FreshAppended(written, full);
      var builder := new Builder(current);
      StandsForBase(current, written);
      builder.Apply(full, written);
      v := builder.SaveTo(written + [full]);
    }

    /** Fill in the edit, build and record the new version, and install it. */
    method LogAndApply(edit: Edit)
      requires Ok() && FreshAdds(Written(), edit)
      requires edit.logNumber.Some? ==> logNumber <= edit.logNumber.value < nextFileNumber
      requires forall a :: a in edit.added ==> a.1.number < nextFileNumber
      modifies this
      ensures Ok() && nextFileNumber == old(nextFileNumber) && lastSequence == old(lastSequence)
      ensures logNumber == edit.logNumber.GetOr(old(logNumber)) && prevLogNumber == edit.prevLogNumber.GetOr(old(prevLogNumber))
      ensures descriptor == Some(old(Written()) + [FillIn(edit, logNumber, prevLogNumber, nextFileNumber, lastSequence)])
      ensures forall level, f :: 0 <= level < NUM_LEVELS ==>
                (f in current[level] <==> (level, f) in edit.added || (f in old(current[level]) && (level, f.number) !in edit.deleted))
    {
      var full := FillIn(edit, edit.logNumber.GetOr(logNumber), edit.prevLogNumber.GetOr(prevLogNumber), nextFileNumber, lastSequence);
      SameFiles(Written(), edit, full);
      var v := Build(full);
      WrittenLists();
      LatestOf(Written(), full);
      NumbersStayBelow(current, Written(), v, full, nextFileNumber);
      EditMade(current, Written(), v, full);
      // A new descriptor starts with a snapshot of the current version
      var records := descriptor.GetOr([SnapshotEdit(current)]);
      descriptor := Some(records + [full]);
      current := v;
      logNumber, prevLogNumber := full.logNumber.value, full.prevLogNumber.value;
    }

    lemma WrittenLists()
      requires Ok()
      ensures FreshEdits(Written()) && VersionLists(current, Written())
    {
      SnapshotLists(current);
    }

    /** The loop over the records: all through one builder, keeping the last value of each field. */
    method Replay(records: seq<Edit>, builder: Builder)
      returns (nextFile: Option<nat>, lastSeq: Option<nat>, logNum: Option<nat>, prevLogNum: Option<nat>)
      requires FreshEdits(records) && builder.Ok() && builder.Represents([])
      modifies builder
      ensures builder.Ok() && builder.Represents(records)
      ensures nextFile == Latest(records, NEXT_FILE) && lastSeq == Latest(records, LAST_SEQUENCE)
      ensures logNum == Latest(records, LOG_NUMBER) && prevLogNum == Latest(records, PREV_LOG_NUMBER)
    {
      nextFile, lastSeq, logNum, prevLogNum := None, None, None, None;
      for i := 0 to |records|
        invariant builder.Ok() && builder.Represents(records[..i])
        invariant nextFile == Latest(records[..i], NEXT_FILE) && lastSeq == Latest(records[..i], LAST_SEQUENCE)
        invariant logNum == Latest(records[..i], LOG_NUMBER) && prevLogNum == Latest(records[..i], PREV_LOG_NUMBER)
      {
        var edit := records[i];
        assert records[..i + 1] == records[..i] + [edit] && records[..i + 1][..i] == records[..i];
        builder.Apply(edit, records[..i]);
        if edit.logNumber.Some? { logNum := edit.logNumber; }
        if edit.prevLogNumber.Some? { prevLogNum := edit.prevLogNumber; }
        if edit.nextFile.Some? { nextFile := edit.nextFile; }
        if edit.lastSequence.Some? { lastSeq := edit.lastSequence; }
      }
      assert records[..|records|] == records;
    }

    /** Rebuild the state from the records; the three numbers every manifest must carry. */
    method Recover(records: seq<Edit>) returns (ok: bool)
      requires Ok() && FreshEdits(records) && forall level :: 0 <= level < NUM_LEVELS ==> current[level] == []
      modifies this
      ensures ok <==> Latest(records, NEXT_FILE).Some? && Latest(records, LOG_NUMBER).Some? && Latest(records, LAST_SEQUENCE).Some?
      ensures ok ==> VersionOk(current) && VersionLists(current, records)
      ensures ok ==> nextFileNumber == Latest(records, NEXT_FILE).value + 1 && lastSequence == Latest(records, LAST_SEQUENCE).value
      ensures ok ==> logNumber == Latest(records, LOG_NUMBER).value && prevLogNumber == Latest(records, PREV_LOG_NUMBER).GetOr(0)
      ensures descriptor == old(descriptor)
    {
      var builder := new Builder(current);
      var nextFile, lastSeq, logNum, prevLogNum := Replay(records, builder);
      if nextFile == None || logNum == None || lastSeq == None {
        return false;
      }
      current := builder.SaveTo(records);
      nextFileNumber := nextFile.value + 1;
      lastSequence := lastSeq.value;
      logNumber := logNum.value;
      prevLogNumber := prevLogNum.GetOr(0);
      ok := true;
    }
  }

  function FillIn(edit: Edit, logNumber: nat, prevLogNumber: nat, nextFile: nat, lastSequence: nat): Edit {
    edit.(logNumber := Some(logNumber), prevLogNumber := Some(prevLogNumber), nextFile := Some(nextFile), lastSequence := Some(lastSequence))
  }

  lemma SameFiles(edits: seq<Edit>, edit: Edit, full: Edit)
    requires full.deleted == edit.deleted && full.added == edit.added
    ensures FreshAdds(edits, full) <==> FreshAdds(edits, edit)
  {
  }

  lemma LatestOf(edits: seq<Edit>, full: Edit)
    ensures (edits + [full])[..|edits|] == edits
    ensures forall field: Edit -> Option<nat> :: field(full).Some? ==> Latest(edits + [full], field) == field(full)
  {
    assert (edits + [full])[..|edits|] == edits;
  }

  lemma FreshAppended(edits: seq<Edit>, edit: Edit)
    requires FreshEdits(edits) && FreshAdds(edits, edit)
    ensures FreshEdits(edits + [edit])
  {
    var more := edits + [edit];
    forall k | 0 <= k < |more|
      ensures FreshAdds(more[..k], more[k])
    {
      assert more[..k] == edits[..k];
      assert edits[..|edits|] == edits;
    }
  }

  lemma StandsForBase(version: Version, edits: seq<Edit>)
    requires VersionLists(version, edits)
    ensures StandsFor(version, seq(NUM_LEVELS, _ => {}), seq(NUM_LEVELS, _ => []), edits)
  {
    forall level: nat, f: File | level < NUM_LEVELS && f in version[level]
      ensures EverAdded(edits, level, f.number)
    {
      LiveWasAdded(edits, level, f);
    }
  }

  lemma {:induction false} LiveWasAdded(edits: seq<Edit>, level: nat, f: File)
    requires Live(edits, level, f)
    ensures EverAdded(edits, level, f.number)
  {
    var before, last := edits[..|edits| - 1], edits[|edits| - 1];
    assert edits == before + [last];
    if !Adds(last, level, f) {
      LiveWasAdded(before, level, f);
    }
    AddedSince(before, last, level, f);
  }

  /** An edit adds its files and removes those it deletes; all others stay. */
  lemma EditMade(version: Version, edits: seq<Edit>, v: Version, edit: Edit)
    requires VersionLists(version, edits) && VersionLists(v, edits + [edit])
    ensures forall level, f :: 0 <= level < NUM_LEVELS ==>
              (f in v[level] <==> (level, f) in edit.added || (f in version[level] && (level, f.number) !in edit.deleted))
  {
    assert (edits + [edit])[..|edits|] == edits;
    forall level, f | 0 <= level < NUM_LEVELS
      ensures f in v[level] <==> (level, f) in edit.added || (f in version[level] && (level, f.number) !in edit.deleted)
    {
      assert f in v[level] <==> Live(edits + [edit], level, f);
      assert f in version[level] <==> Live(edits, level, f);
    }
  }

  lemma NumbersStayBelow(version: Version, edits: seq<Edit>, v: Version, edit: Edit, next: nat)
    requires VersionLists(version, edits) && NumbersBelow(version, next) && VersionLists(v, edits + [edit])
    requires forall a :: a in edit.added ==> a.1.number < next
    ensures NumbersBelow(v, next)
  {
    assert (edits + [edit])[..|edits|] == edits;
    forall level, f | 0 <= level < NUM_LEVELS && f in v[level]
      ensures f.number < next
    {
      assert Live(edits + [edit], level, f);
      if Adds(edit, level, f) {
        assert (level, f) in edit.added;
      } else {
        assert Lists(version[level], edits, level);
      }
    }
  }

  /** Closing the store and replaying its manifest gives the same files on every level,
      and file numbers beyond every one in use. */
  method Reopen(vs: VersionSet) returns (again: VersionSet)
    requires vs.Ok() && vs.descriptor.Some?
    ensures fresh(again) && again.current == vs.current && NumbersBelow(again.current, again.nextFileNumber)
    ensures again.logNumber == vs.logNumber && again.prevLogNumber == vs.prevLogNumber && again.lastSequence <= vs.lastSequence
  {
    again := new VersionSet();
    var ok := again.Recover(vs.descriptor.value);
    forall level | 0 <= level < NUM_LEVELS
      ensures again.current[level] == vs.current[level]
    {
      OneListing(again.current[level], vs.current[level]);
    }
  }
}
