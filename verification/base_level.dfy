/** Why a compaction keeps what it keeps: an entry is dropped just when no reader at the
    smallest snapshot or later can miss it, judging by all that a compaction looks at. Of
    the levels below it looks at the ranges of files only, so a deletion marker stays
    exactly when tables with these ranges could hold a value that it must go on hiding. */
module BaseLevels {
  import opened Keys
  import opened Entries
  import opened Files
  import opened Layerings
  import opened Versions
  import opened Compactions
  import opened Installs

  /** The levels above `from` are the same, and from there on the files have the same ranges. */
  ghost predicate SameRanges(v: Version, w: Version, from: nat) {
    && (forall l :: 0 <= l < from && l < NUM_LEVELS ==> w[l] == v[l])
    && (forall l :: from <= l < NUM_LEVELS ==> |w[l]| == |v[l]|)
    && forall l, i :: from <= l < NUM_LEVELS && 0 <= i < |v[l]| ==>
         w[l][i].smallest.key == v[l][i].smallest.key && w[l][i].largest.key == v[l][i].largest.key
  }

  /** With the deeper levels as in `w`, a reader of the outputs and these levels would see
      something else if `marker` were not among the outputs. */
  ghost predicate WouldReturn(out: set<Entry>, marker: Entry, snap: nat, w: Version, level: nat) {
    Read((out - {marker}) + Deep(w, level), marker.key, snap) != Read(out + {marker} + Deep(w, level), marker.key, snap)
  }

  /** As far as a compaction of `level` can tell, the version could be `w`. */
  ghost predicate MayLieBelow(version: Version, level: nat, w: Version) {
    VersionOrdered(w) && SameRanges(version, w, level + 2)
  }

  /** All that a compaction may rely on. */
  ghost predicate Inputs(list: seq<Entry>, version: Version, level: nat) {
    && level + 1 < NUM_LEVELS && VersionOrdered(version) && Sorted(list)
    && Elements(list) <= FileEntries(version[level]) + FileEntries(version[level + 1])
    && forall e :: e in AllEntries(version) ==> e.seqno > 0
  }

  // ---- A version that differs in one file ----

  ghost predicate FileSwapped(v: Version, w: Version, l: nat, i: nat, f2: File) {
    && l < NUM_LEVELS && i < |v[l]| && w == v[l := v[l][i := f2]] && FileOk(v[l][i]) && FileOk(f2)
    && f2.smallest.key == v[l][i].smallest.key && f2.smallest.seqno == v[l][i].smallest.seqno
    && f2.largest.key == v[l][i].largest.key && f2.largest.seqno == v[l][i].largest.seqno
  }

  /** The entries of the new file are old ones and `e`. */
  ghost predicate OneNew(f: File, f2: File, e: Entry) {
    e in f2.entries && forall d :: d in f2.entries ==> d == e || d in f.entries
  }

  lemma SwappedEntries(v: Version, w: Version, l: nat, i: nat, f2: File, e: Entry)
    requires FileSwapped(v, w, l, i, f2) && OneNew(v[l][i], f2, e)
    ensures e in FileEntries(w[l]) && FileEntries(w[l]) <= FileEntries(v[l]) + {e}
  {
    assert w[l][i] == f2;
    forall d | d in FileEntries(w[l])
      ensures d in FileEntries(v[l]) + {e}
    {
      var j :| 0 <= j < |w[l]| && d in w[l][j].entries;
      if j == i && d != e {
        assert d in v[l][i].entries;
      } else if j != i {
        assert d in v[l][j].entries;
      }
    }
  }

  lemma SwappedLevelOk(v: Version, w: Version, l: nat, i: nat, f2: File)
    requires FileSwapped(v, w, l, i, f2) && LevelOk(v[l])
    ensures LevelOk(w[l])
  {
  }

  lemma SwappedOrdered(v: Version, w: Version, l: nat, i: nat, f2: File, e: Entry)
    requires VersionOrdered(v) && FileSwapped(v, w, l, i, f2) && OneNew(v[l][i], f2, e) && l > 0
    requires forall a, d :: 0 <= a < l && d in FileEntries(v[a]) && d.key == e.key ==> d.seqno > e.seqno
    requires forall b, d :: l < b < NUM_LEVELS && d in FileEntries(v[b]) && d.key == e.key ==> d.seqno < e.seqno
    ensures VersionOrdered(w)
  {
    SwappedEntries(v, w, l, i, f2, e);
    SwappedLevelOk(v, w, l, i, f2);
    forall a, b | 0 <= a < b < NUM_LEVELS
      ensures NewerThan(FileEntries(w[a]), FileEntries(w[b]))
    {
      assert NewerThan(FileEntries(v[a]), FileEntries(v[b]));
    }
  }

  // ---- A value below the marker ----

  /** Some file two or more levels down has `u` in its range: one with these ranges could
      hold an old value of `u`. */
  lemma ValueCouldBeBelow(v: Version, level: nat, l: nat, i: nat, u: UserKey) returns (w: Version, e: Entry)
    requires VersionOrdered(v) && level + 2 <= l < NUM_LEVELS && i < |v[l]| && Covers(v[l][i], u)
    requires forall d :: d in AllEntries(v) ==> d.seqno > 0
    ensures VersionOrdered(w) && SameRanges(v, w, level + 2)
    ensures e in Deep(w, level) && e.key == u && e.kind.Put?
    ensures forall d :: d in Deep(w, level) && d.key == u ==> d.seqno <= e.seqno
  {
    if d :| d in Deep(v, level) && d.key == u {
      w, e := TurnedToValue(v, level, d);
    } else {
      w, e := ValueSlippedIn(v, level, l, i, u);
    }
  }

  /** Turn the newest entry of the key below into a value. */
  lemma TurnedToValue(v: Version, level: nat, d: Entry) returns (w: Version, e: Entry)
    requires VersionOrdered(v) && d in Deep(v, level)
    ensures VersionOrdered(w) && SameRanges(v, w, level + 2)
    ensures e in Deep(w, level) && e.key == d.key && e.kind.Put?
    ensures forall x :: x in Deep(w, level) && x.key == d.key ==> x.seqno <= e.seqno
  {
    var d0 := NewestBelow(Deep(v, level), d);
    var l :| level + 2 <= l < NUM_LEVELS && d0 in FileEntries(v[l]);
    var i :| 0 <= i < |v[l]| && d0 in v[l][i].entries;
    var f2;
    f2, e := KindChanged(v[l][i], d0);
    BesideInOrder(v, level, l, d0);
    w := Swapped(v, level, l, i, f2, e);
    StillNewest(Deep(v, level), Deep(w, level), d0, e);
  }

  lemma StillNewest(es: set<Entry>, fs: set<Entry>, d: Entry, e: Entry)
    requires (forall x :: x in es && x.key == d.key ==> x.seqno <= d.seqno) && fs <= es + {e}
    requires e.key == d.key && e.seqno == d.seqno
    ensures forall x :: x in fs && x.key == d.key ==> x.seqno <= e.seqno
  {
    forall x | x in fs && x.key == d.key
      ensures x.seqno <= e.seqno
    {
      assert x in es + {e};
    }
  }

  /** A file takes the place of one with the same range. */
  lemma Swapped(v: Version, level: nat, l: nat, i: nat, f2: File, e: Entry) returns (w: Version)
    requires VersionOrdered(v) && level + 2 <= l < NUM_LEVELS && i < |v[l]| && OneNew(v[l][i], f2, e)
    requires FileOk(f2) && f2.smallest.key == v[l][i].smallest.key && f2.smallest.seqno == v[l][i].smallest.seqno
    requires f2.largest.key == v[l][i].largest.key && f2.largest.seqno == v[l][i].largest.seqno
    requires forall a, d :: 0 <= a < l && d in FileEntries(v[a]) && d.key == e.key ==> d.seqno > e.seqno
    requires forall b, d :: l < b < NUM_LEVELS && d in FileEntries(v[b]) && d.key == e.key ==> d.seqno < e.seqno
    ensures VersionOrdered(w) && SameRanges(v, w, level + 2)
    ensures e in Deep(w, level) && Deep(w, level) <= Deep(v, level) + {e}
  {
    var files := v[l][i := f2];
    w := v[l := files];
    SwappedOrdered(v, w, l, i, f2, e);
    SwappedEntries(v, w, l, i, f2, e);
    SwappedDeep(v, w, level, l, e);
    SwappedRanges(v, w, level, l, i, f2);
  }

  lemma SwappedRanges(v: Version, w: Version, level: nat, l: nat, i: nat, f2: File)
    requires level + 2 <= l && FileSwapped(v, w, l, i, f2)
    ensures SameRanges(v, w, level + 2)
  {
    forall m, j | level + 2 <= m < NUM_LEVELS && 0 <= j < |v[m]|
      ensures w[m][j].smallest.key == v[m][j].smallest.key && w[m][j].largest.key == v[m][j].largest.key
    {
      if m == l {
        assert w[m][j] == if j == i then f2 else v[m][j];
      }
    }
  }

  lemma {:induction false} NewestBelow(es: set<Entry>, d: Entry) returns (e: Entry)
    requires d in es
    ensures e in es && e.key == d.key && forall x :: x in es && x.key == d.key ==> x.seqno <= e.seqno
    decreases |set x | x in es && x.seqno > d.seqno|
  {
    if x :| x in es && x.key == d.key && x.seqno > d.seqno {
      var above, fewer := set y | y in es && y.seqno > d.seqno, set y | y in es && y.seqno > x.seqno;
      assert x in above && x !in fewer && fewer <= above;
      Smaller(fewer, above, x);
      e := NewestBelow(es, x);
    } else {
      e := d;
    }
  }

  lemma Smaller(a: set<Entry>, b: set<Entry>, x: Entry)
    requires a <= b && x in b && x !in a
    ensures |a| < |b|
  {
    assert a <= b - {x};
    CardinalitySubset(a, b - {x});
  }

  lemma {:induction false} CardinalitySubset(a: set<Entry>, b: set<Entry>)
    requires a <= b
    ensures |a| <= |b|
  {
    if x :| x in a {
      CardinalitySubset(a - {x}, b - {x});
    }
  }

  lemma KindChanged(f: File, d: Entry) returns (f2: File, e: Entry)
    requires FileOk(f) && d in f.entries
    ensures e == d.(kind := Put) && FileOk(f2) && OneNew(f, f2, e)
    ensures f2.smallest.key == f.smallest.key && f2.smallest.seqno == f.smallest.seqno
    ensures f2.largest.key == f.largest.key && f2.largest.seqno == f.largest.seqno
  {
    var k :| 0 <= k < |f.entries| && f.entries[k] == d;
    e := d.(kind := Put);
    var es := f.entries[k := e];
    f2 := f.(entries := es, smallest := es[0], largest := es[|es| - 1]);
    assert f2.entries[k] == e;
    assert forall j :: 0 <= j < |es| ==> es[j].key == f.entries[j].key && es[j].seqno == f.entries[j].seqno;
  }

  lemma BesideInOrder(v: Version, level: nat, l: nat, d: Entry)
    requires VersionOrdered(v) && l < NUM_LEVELS && d in FileEntries(v[l])
    ensures forall a, x :: 0 <= a < l && x in FileEntries(v[a]) && x.key == d.key ==> x.seqno > d.seqno
    ensures forall b, x :: l < b < NUM_LEVELS && x in FileEntries(v[b]) && x.key == d.key ==> x.seqno < d.seqno
  {
  }

  lemma SwappedDeep(v: Version, w: Version, level: nat, l: nat, e: Entry)
    requires level + 2 <= l < NUM_LEVELS && (forall k :: 0 <= k < NUM_LEVELS && k != l ==> w[k] == v[k])
    requires e in FileEntries(w[l]) && FileEntries(w[l]) <= FileEntries(v[l]) + {e}
    ensures e in Deep(w, level) && Deep(w, level) <= Deep(v, level) + {e}
  {
  }

  /** Put a value older than everything into the file around it. */
  lemma ValueSlippedIn(v: Version, level: nat, l: nat, i: nat, u: UserKey) returns (w: Version, e: Entry)
    requires VersionOrdered(v) && level + 2 <= l < NUM_LEVELS && i < |v[l]| && Covers(v[l][i], u)
    requires forall d :: d in AllEntries(v) ==> d.seqno > 0
    requires forall d :: d in Deep(v, level) ==> d.key != u
    ensures VersionOrdered(w) && SameRanges(v, w, level + 2)
    ensures e in Deep(w, level) && e.key == u && e.kind.Put?
    ensures forall x :: x in Deep(w, level) && x.key == u ==> x.seqno <= e.seqno
  {
    e := Entry(u, 0, Put, []);
    NotInFile(v, level, l, i, u);
    var f2 := Inserted(v[l][i], e);
    OldestFits(v, level, u);
    w := Swapped(v, level, l, i, f2, e);
    StillNewest(Deep(v, level), Deep(w, level), e, e);
  }

  lemma NotInFile(v: Version, level: nat, l: nat, i: nat, u: UserKey)
    requires VersionOrdered(v) && level + 2 <= l < NUM_LEVELS && i < |v[l]| && forall d :: d in Deep(v, level) ==> d.key != u
    ensures FileOk(v[l][i]) && forall d :: d in v[l][i].entries ==> d.key != u
  {
    assert LevelOk(v[l]);
    assert forall d :: d in v[l][i].entries ==> d in FileEntries(v[l]);
  }

  lemma OldestFits(v: Version, level: nat, u: UserKey)
    requires forall d :: d in AllEntries(v) ==> d.seqno > 0
    requires forall d :: d in Deep(v, level) ==> d.key != u
    ensures forall a, x :: 0 <= a < NUM_LEVELS && x in FileEntries(v[a]) && x.key == u ==> a < level + 2 && x.seqno > 0
  {
    forall a, x | 0 <= a < NUM_LEVELS && x in FileEntries(v[a]) && x.key == u
      ensures a < level + 2 && x.seqno > 0
    {
      assert x in AllEntries(v);
      assert a >= level + 2 ==> x in Deep(v, level);
    }
  }

  lemma Inserted(f: File, e: Entry) returns (f2: File)
    requires FileOk(f) && Covers(f, e.key) && forall d :: d in f.entries ==> d.key != e.key
    ensures FileOk(f2) && OneNew(f, f2, e) && f2.smallest == f.smallest && f2.largest == f.largest
  {
    var k := Place(f.entries, e.key);
    var es := f.entries[..k] + [e] + f.entries[k..];
    f2 := f.(entries := es);
    assert f.entries[0].key < e.key < f.entries[|f.entries| - 1].key by {
      assert f.entries[0] in f.entries && f.entries[|f.entries| - 1] in f.entries;
    }
    assert es[k] == e && es[0] == f.entries[0] && es[|es| - 1] == f.entries[|f.entries| - 1];
    forall a, b | 0 <= a < b < |es|
      ensures Precedes(es[a], es[b])
    {
      if a != k && b != k {
        assert es[a] == f.entries[if a < k then a else a - 1] && es[b] == f.entries[if b < k then b else b - 1];
      }
    }
  }

  /** Where a key that a sorted list does not hold belongs. */
  lemma {:induction false} Place(es: seq<Entry>, u: UserKey) returns (k: nat)
    requires Sorted(es) && forall d :: d in es ==> d.key != u
    ensures k <= |es| && (forall a :: 0 <= a < k ==> es[a].key < u) && (forall a :: k <= a < |es| ==> u < es[a].key)
  {
    if es == [] || es[|es| - 1].key < u {
      k := |es|;
    } else {
      k := Place(es[..|es| - 1], u);
    }
  }

  // ---- What a reader of the outputs would see ----

  /** An output of the marker's key that the smallest snapshot sees is the marker. */
  lemma OnlyTheMarker(list: seq<Entry>, snap: nat, version: Version, level: nat, i: nat, x: Entry)
    requires Sorted(list) && i < |list| && list[i].seqno <= snap && !Hidden(list, i, snap)
    requires x in Survivors(list, |list|, snap, version, level) && x.key == list[i].key && x.seqno <= snap
    ensures x == list[i]
  {
    SurvivorsAre(list, |list|, snap, version, level);
    var j :| 0 <= j < |list| && list[j] == x && Kept(list, j, snap, version, level);
    LaterIsHidden(list, snap, i, j);
    LaterIsHidden(list, snap, j, i);
  }

  lemma LaterIsHidden(list: seq<Entry>, snap: nat, i: nat, j: nat)
    requires Sorted(list) && i < |list| && j < |list| && list[i].key == list[j].key && list[i].seqno <= snap
    ensures i < j ==> Hidden(list, j, snap)
  {
    if i < j - 1 {
      assert Precedes(list[i], list[j - 1]) && Precedes(list[j - 1], list[j]);
    }
  }

  lemma DeepDistinct(w: Version, level: nat)
    requires VersionOrdered(w)
    ensures Distinct(Deep(w, level))
  {
    forall e, f | e in Deep(w, level) && f in Deep(w, level) && e.key == f.key && e.seqno == f.seqno
      ensures e == f
    {
      DeepPair(w, level, e, f);
    }
  }

  lemma DeepPair(w: Version, level: nat, e: Entry, f: Entry)
    requires VersionOrdered(w) && e in Deep(w, level) && f in Deep(w, level) && e.key == f.key && e.seqno == f.seqno
    ensures e == f
  {
    var a := LevelOf(w, level, e);
    var b := LevelOf(w, level, f);
    TwoPlaces(w, a, b, e, f);
  }

  lemma LevelOf(w: Version, level: nat, e: Entry) returns (l: nat)
    requires e in Deep(w, level)
    ensures level + 2 <= l < NUM_LEVELS && e in FileEntries(w[l])
  {
    l :| level + 2 <= l < NUM_LEVELS && e in FileEntries(w[l]);
  }

  lemma TwoPlaces(w: Version, a: nat, b: nat, e: Entry, f: Entry)
    requires VersionOrdered(w) && 0 < a < NUM_LEVELS && b < NUM_LEVELS && e in FileEntries(w[a]) && f in FileEntries(w[b])
    requires e.key == f.key && e.seqno == f.seqno
    ensures e == f
  {
    OnOneLevel(w, a, b, e, f);
    OnOneLevel(w, b, a, f, e);
    LevelDeep(w, a);
    OneLevelDistinct(w[a], e, f);
  }

  lemma LevelDeep(w: Version, l: nat)
    requires VersionOrdered(w) && 0 < l < NUM_LEVELS
    ensures LevelOk(w[l])
  {
  }

  lemma OnOneLevel(w: Version, a: nat, b: nat, e: Entry, f: Entry)
    requires VersionOrdered(w) && a < NUM_LEVELS && b < NUM_LEVELS && e in FileEntries(w[a]) && f in FileEntries(w[b])
    requires e.key == f.key && e.seqno == f.seqno
    ensures a >= b
  {
  }

  lemma OneLevelDistinct(files: seq<File>, e: Entry, f: Entry)
    requires LevelOk(files) && e in FileEntries(files) && f in FileEntries(files) && e.key == f.key && e.seqno == f.seqno
    ensures e == f
  {
    var i :| 0 <= i < |files| && e in files[i].entries;
    var j :| 0 <= j < |files| && f in files[j].entries;
    InOneFile(files, i, j, e, f);
    InOneFile(files, j, i, f, e);
  }

  lemma InOneFile(files: seq<File>, i: nat, j: nat, e: Entry, f: Entry)
    requires LevelOk(files) && i < |files| && j < |files| && e in files[i].entries && f in files[j].entries
    requires e.key == f.key && e.seqno == f.seqno
    ensures i >= j
  {
    FileRange(files[i], e);
    FileRange(files[j], f);
  }

  /** With a value of the marker's key below, dropping the marker brings it back. */
  lemma MarkerIsMissed(out: set<Entry>, marker: Entry, snap: nat, w: Version, level: nat, e: Entry)
    requires VersionOrdered(w) && e in Deep(w, level) && e.key == marker.key && e.kind.Put?
    requires forall d :: d in Deep(w, level) && d.key == e.key ==> d.seqno <= e.seqno && d.seqno < marker.seqno
    requires marker.kind.Deletion? && marker.seqno <= snap
    requires forall x :: x in out && x.key == marker.key && x.seqno <= snap ==> x == marker
    ensures WouldReturn(out, marker, snap, w, level)
  {
    var without, with := (out - {marker}) + Deep(w, level), out + {marker} + Deep(w, level);
    DeepDistinct(w, level);
    assert Newest(without, e, marker.key, snap);
    assert forall x :: Newest(without, x, marker.key, snap) ==> x == e;
    assert Newest(with, marker, marker.key, snap);
    assert forall x :: Newest(with, x, marker.key, snap) ==> x == marker;
  }

  /** With no entry of its key below, nobody misses the marker. */
  lemma MarkerIsNotMissed(out: set<Entry>, marker: Entry, snap: nat, w: Version, level: nat)
    requires forall d :: d in Deep(w, level) ==> d.key != marker.key
    requires marker.kind.Deletion? && marker.seqno <= snap
    requires forall x :: x in out && x.key == marker.key && x.seqno <= snap ==> x == marker
    ensures !WouldReturn(out, marker, snap, w, level)
  {
    var without, with := (out - {marker}) + Deep(w, level), out + {marker} + Deep(w, level);
    assert forall x :: Newest(with, x, marker.key, snap) ==> x == marker;
    assert forall x :: !Newest(without, x, marker.key, snap);
  }

  // ---- The theorem ----

  lemma NoneBelow(v: Version, w: Version, level: nat, u: UserKey)
    requires SameRanges(v, w, level + 2) && IsBase(v, level, u) && VersionOrdered(w)
    ensures forall d :: d in Deep(w, level) ==> d.key != u
  {
    forall d | d in Deep(w, level)
      ensures d.key != u
    {
      var l :| level + 2 <= l < NUM_LEVELS && d in FileEntries(w[l]);
      var i :| 0 <= i < |w[l]| && d in w[l][i].entries;
      FileRange(w[l][i], d);
      assert !Covers(v[l][i], u);
    }
  }

  lemma InputsNewer(list: seq<Entry>, version: Version, level: nat, w: Version)
    requires Inputs(list, version, level) && VersionOrdered(w) && SameRanges(version, w, level + 2)
    ensures NewerThan(Elements(list), Deep(w, level))
  {
    var inputs := FileEntries(w[level]) + FileEntries(w[level + 1]);
    forall l | level + 2 <= l < NUM_LEVELS
      ensures NewerThan(inputs, FileEntries(w[l]))
    {
      assert NewerThan(FileEntries(w[level]), FileEntries(w[l])) && NewerThan(FileEntries(w[level + 1]), FileEntries(w[l]));
    }
    assert w[level] == version[level] && w[level + 1] == version[level + 1];
    NewerThanDeep(Elements(list), inputs, w, level);
  }

  lemma NewerThanDeep(some: set<Entry>, es: set<Entry>, w: Version, level: nat)
    requires some <= es && forall l :: level + 2 <= l < NUM_LEVELS ==> NewerThan(es, FileEntries(w[l]))
    ensures NewerThan(some, Deep(w, level))
  {
    forall e, d | e in some && d in Deep(w, level) && e.key == d.key
      ensures e.seqno > d.seqno
    {
      var l :| level + 2 <= l < NUM_LEVELS && d in FileEntries(w[l]);
      assert NewerThan(es, FileEntries(w[l]));
    }
  }

  lemma OutputsShowMarkerOnly(list: seq<Entry>, snap: nat, version: Version, level: nat, i: nat)
    requires Sorted(list) && i < |list| && list[i].seqno <= snap && !Hidden(list, i, snap)
    ensures forall x :: x in Survivors(list, |list|, snap, version, level) && x.key == list[i].key && x.seqno <= snap ==> x == list[i]
  {
    forall x | x in Survivors(list, |list|, snap, version, level) && x.key == list[i].key && x.seqno <= snap
      ensures x == list[i]
    {
      OnlyTheMarker(list, snap, version, level, i, x);
    }
  }

  lemma KeptMarkerIsNeeded(list: seq<Entry>, snap: nat, version: Version, level: nat, i: nat, out: set<Entry>) returns (w: Version)
    requires Inputs(list, version, level) && i < |list| && list[i].kind.Deletion? && list[i].seqno <= snap
    requires !IsBase(version, level, list[i].key)
    requires forall x :: x in out && x.key == list[i].key && x.seqno <= snap ==> x == list[i]
    ensures MayLieBelow(version, level, w) && WouldReturn(out, list[i], snap, w, level)
  {
    var m := list[i];
    var l, j :| level + 2 <= l < NUM_LEVELS && 0 <= j < |version[l]| && Covers(version[l][j], m.key);
    var e;
    w, e := ValueCouldBeBelow(version, level, l, j, m.key);
    InputsNewer(list, version, level, w);
    assert m in Elements(list);
    MarkerIsMissed(out, m, snap, w, level, e);
  }

  /** A marker that the smallest snapshot sees, with nothing newer in its way, is kept just
      when deeper tables with the ranges there are could hold a value that a reader would
      get without it. */
  lemma MarkerKeptIffNeeded(list: seq<Entry>, snap: nat, version: Version, level: nat, i: nat)
    requires Inputs(list, version, level) && i < |list| && list[i].kind.Deletion? && list[i].seqno <= snap && !Hidden(list, i, snap)
    ensures var out := Elements(Survivors(list, |list|, snap, version, level));
            list[i] in out <==> exists w: Version :: MayLieBelow(version, level, w) && WouldReturn(out, list[i], snap, w, level)
  {
    var m, out := list[i], Elements(Survivors(list, |list|, snap, version, level));
    OneOfTheList(list, i, snap, version, level);
    OutputsShowMarkerOnly(list, snap, version, level, i);
    if IsBase(version, level, m.key) {
      DroppedMarkerIsNotMissed(out, m, snap, version, level);
    } else {
      var w := KeptMarkerIsNeeded(list, snap, version, level, i, out);
      assert MayLieBelow(version, level, w) && WouldReturn(out, m, snap, w, level);
    }
  }

  /** Rule (A): an entry is hidden just when no snapshot that is still held finds it. */
  lemma HiddenIffNeverNewest(list: seq<Entry>, snap: nat, i: nat)
    requires Sorted(list) && i < |list|
    ensures !Hidden(list, i, snap) <==> exists s: nat :: s >= snap && Newest(Elements(list), list[i], list[i].key, s)
  {
    var e := list[i];
    assert e in Elements(list);
    if Hidden(list, i, snap) {
      assert list[i - 1] in Elements(list) && Precedes(list[i - 1], e);
    } else {
      var s := if snap < e.seqno then e.seqno else snap;
      forall f | f in Elements(list) && f.key == e.key && f.seqno <= s
        ensures f.seqno <= e.seqno
      {
        var j :| 0 <= j < |list| && list[j] == f;
        if f.seqno <= snap {
          LaterIsHidden(list, snap, j, i);
        }
        assert j > i ==> Precedes(e, f);
      }
      assert Newest(Elements(list), e, e.key, s);
    }
  }

  /** What a compaction writes: exactly the entries that some snapshot from the smallest
      one on finds among the inputs, and of the markers that the smallest one sees only
      those without which it could get back a value from below. */
  lemma EntryKeptIffNeeded(list: seq<Entry>, snap: nat, version: Version, level: nat, i: nat)
    requires Inputs(list, version, level) && i < |list|
    ensures var out := Elements(Survivors(list, |list|, snap, version, level));
            list[i] in out <==>
              && (exists s: nat :: s >= snap && Newest(Elements(list), list[i], list[i].key, s))
              && (list[i].kind.Deletion? && list[i].seqno <= snap ==>
                    exists w: Version :: MayLieBelow(version, level, w) && WouldReturn(out, list[i], snap, w, level))
  {
    HiddenIffNeverNewest(list, snap, i);
    OneOfTheList(list, i, snap, version, level);
    if !Hidden(list, i, snap) && list[i].kind.Deletion? && list[i].seqno <= snap {
      MarkerKeptIffNeeded(list, snap, version, level, i);
    }
  }

  lemma DroppedMarkerIsNotMissed(out: set<Entry>, m: Entry, snap: nat, version: Version, level: nat)
    requires IsBase(version, level, m.key) && m.kind.Deletion? && m.seqno <= snap
    requires forall x :: x in out && x.key == m.key && x.seqno <= snap ==> x == m
    ensures forall w: Version :: MayLieBelow(version, level, w) ==> !WouldReturn(out, m, snap, w, level)
  {
    forall w: Version | MayLieBelow(version, level, w)
      ensures !WouldReturn(out, m, snap, w, level)
    {
      NoneBelow(version, w, level, m.key);
      MarkerIsNotMissed(out, m, snap, w, level);
    }
  }

  /** An entry is an output just when the rules keep it. */
  lemma OneOfTheList(list: seq<Entry>, i: nat, snap: nat, version: Version, level: nat)
    requires Sorted(list) && i < |list|
    ensures list[i] in Survivors(list, |list|, snap, version, level) <==> Kept(list, i, snap, version, level)
  {
    SurvivorsAre(list, |list|, snap, version, level);
  }
}
