/** Inputs of a compaction that leave no gap between them. Those that the store picks by itself
    leave none. */
module PickGaps {
  import opened Keys
  import opened Entries
  import opened Files
  import opened Overlaps
  import opened Layerings
  import opened Versions
  import opened Picks

  ghost predicate CoveredBy(files: seq<File>, u: UserKey) {
    exists f :: f in files && Covers(f, u)
  }

  /** The files leave no gap in `[lo, hi]`. */
  ghost predicate Covered(files: seq<File>, lo: UserKey, hi: UserKey) {
    forall u :: lo <= u <= hi ==> CoveredBy(files, u)
  }

  /** Nor between `[lo, hi]` and any of them. */
  ghost predicate Connected(files: seq<File>, lo: UserKey, hi: UserKey) {
    && (forall g, u :: g in files && g.smallest.key <= u < lo ==> CoveredBy(files, u))
    && (forall g, u :: g in files && hi < u <= g.largest.key ==> CoveredBy(files, u))
  }

  ghost predicate Gapless(files: seq<File>) {
    exists lo, hi :: IsRange(files, lo, hi) && Covered(files, lo, hi)
  }

  // ---- Inputs grow without a gap ----

  lemma CoveredByMore(files: seq<File>, all: seq<File>, u: UserKey)
    requires CoveredBy(files, u) && forall f :: f in files ==> f in all
    ensures CoveredBy(all, u)
  {
    var f :| f in files && Covers(f, u);
    assert f in all;
  }

  lemma JoinCovers(files: seq<File>, more: seq<File>, all: seq<File>, lo: UserKey, hi: UserKey, lo2: UserKey, hi2: UserKey)
    requires IsRange(files, lo, hi) && Covered(files, lo, hi) && Connected(more, lo, hi) && IsRange(all, lo2, hi2)
    requires forall f :: f in all <==> f in files || f in more
    ensures Covered(all, lo2, hi2)
  {
    forall u | lo2 <= u <= hi2
      ensures CoveredBy(all, u)
    {
      if lo <= u <= hi {
        CoveredByMore(files, all, u);
      } else if u < lo {
        var i :| 0 <= i < |all| && all[i].smallest.key == lo2;
        assert all[i] in all && all[i] in more;
        CoveredByMore(more, all, u);
      } else {
        var i :| 0 <= i < |all| && all[i].largest.key == hi2;
        assert all[i] in all && all[i] in more;
        CoveredByMore(more, all, u);
      }
    }
  }

  /** Files that reach into the range are connected to it. */
  lemma TouchingConnects(files: seq<File>, lo: UserKey, hi: UserKey)
    requires forall f :: f in files ==> Overlapping(f, Some(lo), Some(hi))
    ensures Connected(files, lo, hi)
  {
    forall g, u | g in files && g.smallest.key <= u < lo
      ensures CoveredBy(files, u)
    {
      assert Covers(g, u);
    }
    forall g, u | g in files && hi < u <= g.largest.key
      ensures CoveredBy(files, u)
    {
      assert Covers(g, u);
    }
  }

  /** The largest end of a file below `u`, or `start`. */
  function EndBelow(files: seq<File>, u: UserKey, start: UserKey): UserKey {
    if files == [] then start
    else
      var end := EndBelow(files[1..], u, start);
      if end < files[0].largest.key < u then files[0].largest.key else end
  }

  lemma {:induction false} EndBelowIs(files: seq<File>, u: UserKey, start: UserKey)
    requires start < u
    ensures start <= EndBelow(files, u, start) < u
    ensures forall f :: f in files && f.largest.key < u ==> f.largest.key <= EndBelow(files, u, start)
  {
    if files != [] {
      EndBelowIs(files[1..], u, start);
      assert files == [files[0]] + files[1..];
    }
  }

  function BeginAbove(files: seq<File>, u: UserKey, start: UserKey): UserKey {
    if files == [] then start
    else
      var begin := BeginAbove(files[1..], u, start);
      if u < files[0].smallest.key < begin then files[0].smallest.key else begin
  }

  lemma {:induction false} BeginAboveIs(files: seq<File>, u: UserKey, start: UserKey)
    requires u < start
    ensures u < BeginAbove(files, u, start) <= start
    ensures forall f :: f in files && u < f.smallest.key ==> BeginAbove(files, u, start) <= f.smallest.key
  {
    if files != [] {
      BeginAboveIs(files[1..], u, start);
      assert files == [files[0]] + files[1..];
    }
  }

  /** The least closed range around `[lo, hi]` grows only through files that cover it: a gap
      above would end it. */
  lemma LeastCoversAbove(files: seq<File>, lo: UserKey, hi: UserKey, b: Bound, e: Bound, u: UserKey)
    requires LeastClosed(files, Some(lo), Some(hi), b, e) && hi < u && (e.Some? ==> u <= e.value)
    ensures CoveredBy(Select(files, b, e), u)
  {
    SelectIs(files, b, e);
    if !CoveredBy(Select(files, b, e), u) {
      var end := EndBelow(files, u, hi);
      EndBelowIs(files, u, hi);
      forall i | 0 <= i < |files| && Overlapping(files[i], b, Some(end))
        ensures Within(files[i], b, Some(end))
      {
        assert files[i] in Select(files, b, e);
        assert !Covers(files[i], u);
      }
      assert Closed(files, b, Some(end));
      assert false;
    }
  }

  lemma LeastCoversBelow(files: seq<File>, lo: UserKey, hi: UserKey, b: Bound, e: Bound, u: UserKey)
    requires LeastClosed(files, Some(lo), Some(hi), b, e) && u < lo && (b.Some? ==> b.value <= u)
    ensures CoveredBy(Select(files, b, e), u)
  {
    SelectIs(files, b, e);
    if !CoveredBy(Select(files, b, e), u) {
      var begin := BeginAbove(files, u, lo);
      BeginAboveIs(files, u, lo);
      forall i | 0 <= i < |files| && Overlapping(files[i], Some(begin), e)
        ensures Within(files[i], Some(begin), e)
      {
        assert files[i] in Select(files, b, e);
        assert !Covers(files[i], u);
      }
      assert Closed(files, Some(begin), e);
      assert false;
    }
  }

  lemma LeastConnects(files: seq<File>, lo: UserKey, hi: UserKey, b: Bound, e: Bound)
    requires LeastClosed(files, Some(lo), Some(hi), b, e)
    ensures Connected(Select(files, b, e), lo, hi)
  {
    var inputs := Select(files, b, e);
    SelectIs(files, b, e);
    forall g | g in inputs
      ensures Within(g, b, e)
    {
      var i :| 0 <= i < |files| && files[i] == g;
    }
    forall g, u | g in inputs && g.smallest.key <= u < lo
      ensures CoveredBy(inputs, u)
    {
      LeastCoversBelow(files, lo, hi, b, e, u);
    }
    forall g, u | g in inputs && hi < u <= g.largest.key
      ensures CoveredBy(inputs, u)
    {
      LeastCoversAbove(files, lo, hi, b, e, u);
    }
  }

  lemma {:induction false} RangeExists(files: seq<File>) returns (lo: UserKey, hi: UserKey)
    requires files != []
    ensures IsRange(files, lo, hi)
  {
    var rest, last := files[..|files| - 1], files[|files| - 1];
    lo, hi := last.smallest.key, last.largest.key;
    if rest != [] {
      var lo1, hi1 := RangeExists(rest);
      lo, hi := if lo1 < lo then lo1 else lo, if hi < hi1 then hi1 else hi;
      var i :| 0 <= i < |rest| && rest[i].smallest.key == lo1;
      var j :| 0 <= j < |rest| && rest[j].largest.key == hi1;
      assert files[i] == rest[i] && files[j] == rest[j];
    }
  }

  lemma JoinGapless(files: seq<File>, more: seq<File>, all: seq<File>, lo: UserKey, hi: UserKey)
    requires IsRange(files, lo, hi) && Covered(files, lo, hi) && Connected(more, lo, hi) && all != []
    requires forall f :: f in all <==> f in files || f in more
    ensures Gapless(all)
  {
    var lo2, hi2 := RangeExists(all);
    JoinCovers(files, more, all, lo, hi, lo2, hi2);
  }

  /** One file, and those that the overlaps of level 0 drag in. */
  lemma DraggedInGapless(files: seq<File>, f: File, b: Bound, e: Bound)
    requires LeastClosed(files, Some(f.smallest.key), Some(f.largest.key), b, e) && f in Select(files, b, e)
    ensures Gapless(Select(files, b, e))
  {
    LeastConnects(files, f.smallest.key, f.largest.key, b, e);
    OneGapless(f);
    JoinGapless([f], Select(files, b, e), Select(files, b, e), f.smallest.key, f.largest.key);
  }

  lemma OneGapless(f: File)
    ensures IsRange([f], f.smallest.key, f.largest.key) && Covered([f], f.smallest.key, f.largest.key) && Gapless([f])
  {
    assert [f][0] == f;
    forall u | f.smallest.key <= u <= f.largest.key
      ensures CoveredBy([f], u)
    {
      assert f in [f] && Covers(f, u);
    }
  }

  /** With what they meet on the next level. */
  lemma MetGapless(inputs0: seq<File>, next: seq<File>, lo: UserKey, hi: UserKey)
    requires IsRange(inputs0, lo, hi) && Gapless(inputs0)
    ensures Gapless(inputs0 + Select(next, Some(lo), Some(hi)))
  {
    SelectIs(next, Some(lo), Some(hi));
    TouchingConnects(Select(next, Some(lo), Some(hi)), lo, hi);
    JoinGapless(inputs0, Select(next, Some(lo), Some(hi)), inputs0 + Select(next, Some(lo), Some(hi)), lo, hi);
  }

  /** And with the files of the level that this range takes in. */
  lemma WidenedGapless(pick: CompactionPick, narrow: seq<File>, g: Growth)
    requires pick.level < NUM_LEVELS && (forall f :: f in narrow ==> f in pick.inputs0) && pick.inputs0 != []
    requires pick.MayBecome(narrow, g) && pick.inputs0 == g.files && Gapless(narrow + pick.inputs1)
    ensures Gapless(pick.inputs0 + pick.inputs1)
  {
    var lo, hi, b, e := g.start, g.limit, g.begin, g.end;
    if pick.level == 0 {
      LeastConnects(pick.version[0], lo, hi, b, e);
    } else {
      SelectIs(pick.version[pick.level], b, e);
      TouchingConnects(pick.inputs0, lo, hi);
    }
    JoinGapless(narrow + pick.inputs1, pick.inputs0, pick.inputs0 + pick.inputs1, lo, hi);
  }

  /** Setting up the other inputs leaves no gap that was not there. */
  lemma SetUpGapless(pick: CompactionPick, inputs: seq<File>, lo: UserKey, hi: UserKey, limit: nat, g: Growth)
    requires pick.level + 1 < NUM_LEVELS && (forall f :: f in inputs ==> f in pick.inputs0) && pick.inputs0 != []
    requires pick.Meets(inputs, lo, hi) && pick.GrownFrom(inputs, limit, g) && Gapless(inputs)
    ensures Gapless(pick.inputs0 + pick.inputs1)
  {
    MetGapless(inputs, pick.version[pick.level + 1], lo, hi);
    if pick.inputs0 != inputs {
      WidenedGapless(pick, inputs, g);
    }
  }
}
