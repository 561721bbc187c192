/** Point reads after a compaction. They stop at the first layer that knows the key, so they
    may meet an entry that stayed on the upper level before a newer one that moved down. */
module CompactionSearches {
  import opened Keys
  import opened Entries
  import opened Files
  import opened Layerings
  import opened Compactions

  /** What lies around the inputs: newer layers above, what stays on the upper level, what
      stays on the next one, and the levels below. */
  datatype Around = Around(above: set<Entry>, upper: set<Entry>, lower: set<Entry>, deep: set<Entry>)

  ghost function Beside(a: Around): set<Entry> {
    a.above + a.upper + a.lower
  }

  ghost predicate InPlace(list: seq<Entry>, a: Around, version: Version, level: nat) {
    && CompactionContext(list, Beside(a), a.deep, version, level)
    && NewerThan(a.above, a.upper + a.lower + Elements(list) + a.deep)
    && NewerThan(a.upper, a.lower + a.deep) && NewerThan(a.lower + Elements(list), a.deep)
  }

  ghost function Everything(list: seq<Entry>, a: Around): set<Entry> {
    Elements(list) + Beside(a) + a.deep
  }

  /** The layers once `out` is on the next level. */
  ghost function After(a: Around, out: set<Entry>): seq<set<Entry>> {
    [a.above, a.upper, a.lower + out, a.deep]
  }

  lemma FourLayers(a: Around, out: set<Entry>, u: UserKey, s: nat)
    ensures Search(After(a, out), u, s) ==
            if !Lacks(a.above, u, s) then Read(a.above, u, s)
            else if !Lacks(a.upper, u, s) then Read(a.upper, u, s)
            else if !Lacks(a.lower + out, u, s) then Read(a.lower + out, u, s)
            else if !Lacks(a.deep, u, s) then Read(a.deep, u, s) else None
  {
    var layers := After(a, out);
    SearchNext(layers, 0, u, s);
    SearchNext(layers, 1, u, s);
    SearchNext(layers, 2, u, s);
    SearchNext(layers, 3, u, s);
    assert layers[0..] == layers && layers[4..] == [];
  }

  function Later(a: nat, b: nat): nat {
    if a < b then b else a
  }

  /** No input entry that a reader may look for has, on the level it leaves, an older one that
      answers differently. */
  ghost predicate NoStaleSibling(list: seq<Entry>, a: Around, snap: nat) {
    forall i, e | 0 <= i < |list| && !Hidden(list, i, snap)
                  && Newest(a.above + a.upper, e, list[i].key, Later(snap, list[i].seqno))
                    && e.seqno < list[i].seqno :: Answer(e) == Answer(list[i])
  }

  // ---- Where the newest entry is beside the inputs ----

  lemma NewestInPart(all: set<Entry>, part: set<Entry>, n: Entry, u: UserKey, s: nat)
    requires Distinct(all) && part <= all && Newest(all, n, u, s) && n in part
    ensures !Lacks(part, u, s) && Read(part, u, s) == Answer(n) && Read(all, u, s) == Answer(n)
  {
    ReadOfNewest(part, n, u, s);
    ReadOfNewest(all, n, u, s);
  }

  /** A newest entry that did not move is found. */
  lemma UnmovedIsFound(list: seq<Entry>, a: Around, out: set<Entry>, version: Version, level: nat, n: Entry, u: UserKey, s: nat)
    requires InPlace(list, a, version, level) && out <= Elements(list)
    requires Newest(Everything(list, a), n, u, s) && n !in Elements(list)
    ensures Search(After(a, out), u, s) == Read(Everything(list, a), u, s)
  {
    FourLayers(a, out, u, s);
    var all := Everything(list, a);
    if n in a.above {
      NewestInPart(all, a.above, n, u, s);
    } else if n in a.upper {
      NewestInPart(all, a.upper, n, u, s);
    } else if n in a.lower {
      NewestInPart(all, a.lower + out, n, u, s);
    } else {
      NewestInPart(all, a.deep, n, u, s);
    }
  }

  lemma NothingIsFound(list: seq<Entry>, a: Around, out: set<Entry>, u: UserKey, s: nat)
    requires out <= Elements(list) && Lacks(Everything(list, a), u, s)
    ensures Search(After(a, out), u, s) == Read(Everything(list, a), u, s)
  {
    FourLayers(a, out, u, s);
    ReadOfNothing(Everything(list, a), u, s);
  }

  /** An entry left on the upper level answers in place of a newer one that moved. */
  lemma StaleIsFound(list: seq<Entry>, a: Around, out: set<Entry>, version: Version, level: nat, n: Entry,
                     u: UserKey, s: nat) returns (e: Entry)
    requires InPlace(list, a, version, level) && Newest(Everything(list, a), n, u, s)
    requires n in Elements(list) && !Lacks(a.upper, u, s)
    ensures Newest(a.above + a.upper, e, u, s) && e.seqno < n.seqno && e.key == u
    ensures Search(After(a, out), u, s) == Answer(e) && Read(Everything(list, a), u, s) == Answer(n)
  {
    FourLayers(a, out, u, s);
    e := NewestOfLayer(a.upper, u, s);
    assert e in Beside(a) && e != n;
    ReadOfNewest(a.upper, e, u, s);
    ReadOfNewest(Everything(list, a), n, u, s);
  }

  /** Without one, an entry that was kept is found on the next level. */
  lemma MovedIsFound(list: seq<Entry>, a: Around, out: set<Entry>, version: Version, level: nat, n: Entry, u: UserKey, s: nat)
    requires InPlace(list, a, version, level) && out <= Elements(list)
    requires Newest(Everything(list, a), n, u, s) && n in out && Lacks(a.upper, u, s)
    ensures Search(After(a, out), u, s) == Read(Everything(list, a), u, s)
  {
    FourLayers(a, out, u, s);
    NewestInPart(Everything(list, a), a.lower + out, n, u, s);
  }

  ghost function Out(list: seq<Entry>, snap: nat, version: Version, level: nat): (out: set<Entry>) {
    Elements(Survivors(list, |list|, snap, version, level))
  }

  lemma OutIs(list: seq<Entry>, snap: nat, version: Version, level: nat)
    requires Sorted(list)
    ensures Out(list, snap, version, level) <= Elements(list)
    ensures forall i :: 0 <= i < |list| && Kept(list, i, snap, version, level) ==> list[i] in Out(list, snap, version, level)
  {
    SurvivorsAre(list, |list|, snap, version, level);
  }

  /** A dropped marker leaves no answer, if no older value of its key is beside it. */
  lemma DroppedIsAbsent(list: seq<Entry>, a: Around, snap: nat, version: Version, level: nat, i: nat, s: nat)
    requires InPlace(list, a, version, level) && NoOlderSibling(list, Beside(a), snap, version, level) && snap <= s
    requires i < |list| && !Hidden(list, i, snap) && Obsolete(list, i, snap, version, level)
    requires Newest(Everything(list, a), list[i], list[i].key, s) && Lacks(a.upper, list[i].key, s)
    ensures Search(After(a, Out(list, snap, version, level)), list[i].key, s) == None
  {
    var u, out := list[i].key, Out(list, snap, version, level);
    FourLayers(a, out, u, s);
    OutIs(list, snap, version, level);
    if !Lacks(a.lower + out, u, s) {
      var g := NewestOfLayer(a.lower + out, u, s);
      DroppedLeavesSiblings(list, Beside(a), a.deep, snap, version, level, i, g);
      assert Newest(Beside(a), g, u, snap) && g.seqno < list[i].seqno;
      ReadOfNewest(a.lower + out, g, u, s);
    }
  }

  lemma SearchKeptAt(list: seq<Entry>, a: Around, snap: nat, version: Version, level: nat, u: UserKey, s: nat)
    requires InPlace(list, a, version, level) && snap <= s
    requires NoStaleSibling(list, a, snap) && NoOlderSibling(list, Beside(a), snap, version, level)
    ensures Search(After(a, Out(list, snap, version, level)), u, s) == Read(Everything(list, a), u, s)
  {
    var out, all := Out(list, snap, version, level), Everything(list, a);
    OutIs(list, snap, version, level);
    if Lacks(all, u, s) {
      NothingIsFound(list, a, out, u, s);
    } else {
      var n := NewestOfLayer(all, u, s);
      if n !in Elements(list) {
        UnmovedIsFound(list, a, out, version, level, n, u, s);
      } else {
        var i :| 0 <= i < |list| && list[i] == n;
        MovedNewestKept(list, a, snap, version, level, i, s);
      }
    }
  }

  lemma MovedNewestKept(list: seq<Entry>, a: Around, snap: nat, version: Version, level: nat, i: nat, s: nat)
    requires InPlace(list, a, version, level) && snap <= s && i < |list| && Newest(Everything(list, a), list[i], list[i].key, s)
    requires NoStaleSibling(list, a, snap) && NoOlderSibling(list, Beside(a), snap, version, level)
    ensures Search(After(a, Out(list, snap, version, level)), list[i].key, s) == Read(Everything(list, a), list[i].key, s)
  {
    var u, n, out, all := list[i].key, list[i], Out(list, snap, version, level), Everything(list, a);
    OutIs(list, snap, version, level);
    NewestIsNotHidden(list, all, i, snap, s);
    if !Lacks(a.upper, u, s) {
      var e := StaleIsFound(list, a, out, version, level, n, u, s);
      assert Newest(a.above + a.upper, e, u, Later(snap, n.seqno));
    } else if Kept(list, i, snap, version, level) {
      MovedIsFound(list, a, out, version, level, n, u, s);
    } else {
      DroppedIsAbsent(list, a, snap, version, level, i, s);
      ReadOfNewest(all, n, u, s);
    }
  }

  // ---- The condition is needed ----

  /** An entry with an older one above it is the newest at the first snapshot that sees it. */
  lemma MovedIsNewest(list: seq<Entry>, a: Around, snap: nat, version: Version, level: nat, i: nat, e: Entry)
    requires InPlace(list, a, version, level) && i < |list| && !Hidden(list, i, snap)
    requires Newest(a.above + a.upper, e, list[i].key, Later(snap, list[i].seqno)) && e.seqno < list[i].seqno
    ensures e in a.upper && Newest(Everything(list, a), list[i], list[i].key, Later(snap, list[i].seqno))
  {
    var u, t := list[i].key, Later(snap, list[i].seqno);
    forall f | f in Everything(list, a) && f.key == u && f.seqno <= t
      ensures f.seqno <= list[i].seqno
    {
      if f in list {
        var j :| 0 <= j < |list| && list[j] == f;
        if j < i && f.seqno <= snap {
          MarkerHides(list, snap, j, i);
        }
        assert i < j ==> Precedes(list[i], list[j]);
      }
    }
  }

  lemma StaleShows(list: seq<Entry>, a: Around, snap: nat, version: Version, level: nat, i: nat, e: Entry)
    requires InPlace(list, a, version, level) && i < |list| && !Hidden(list, i, snap)
    requires Newest(a.above + a.upper, e, list[i].key, Later(snap, list[i].seqno)) && e.seqno < list[i].seqno
    ensures Search(After(a, Out(list, snap, version, level)), list[i].key, Later(snap, list[i].seqno)) == Answer(e)
    ensures Read(Everything(list, a), list[i].key, Later(snap, list[i].seqno)) == Answer(list[i])
  {
    var u, t := list[i].key, Later(snap, list[i].seqno);
    MovedIsNewest(list, a, snap, version, level, i, e);
    var f := StaleIsFound(list, a, Out(list, snap, version, level), version, level, list[i], u, t);
    assert e == f;
  }

  /** The older value beside a dropped marker, if no upper entry answers differently, is on the
      next level, and nothing hides it there. */
  lemma OlderIsBelow(list: seq<Entry>, a: Around, snap: nat, version: Version, level: nat, i: nat, e: Entry)
    requires InPlace(list, a, version, level) && NoStaleSibling(list, a, snap)
    requires i < |list| && !Hidden(list, i, snap) && Obsolete(list, i, snap, version, level)
    requires Newest(Beside(a), e, list[i].key, snap) && e.seqno < list[i].seqno && e.kind.Put?
    ensures e in a.lower && Lacks(a.above, list[i].key, snap) && Lacks(a.upper, list[i].key, snap)
  {
    assert list[i] in Elements(list);
    if e in a.upper {
      assert Newest(a.above + a.upper, e, list[i].key, Later(snap, list[i].seqno));
    }
  }

  lemma OlderIsNewestBelow(list: seq<Entry>, a: Around, snap: nat, version: Version, level: nat, i: nat, e: Entry)
    requires InPlace(list, a, version, level)
    requires i < |list| && !Hidden(list, i, snap) && Obsolete(list, i, snap, version, level)
    requires Newest(Beside(a), e, list[i].key, snap) && e in a.lower && e.kind.Put?
    ensures var out := Out(list, snap, version, level);
            !Lacks(a.lower + out, list[i].key, snap) && Read(a.lower + out, list[i].key, snap) == Some(e.value)
  {
    var out := Out(list, snap, version, level);
    OutIs(list, snap, version, level);
    forall g | g in a.lower + out && g.key == list[i].key && g.seqno <= snap
      ensures g.seqno <= e.seqno
    {
      DroppedLeavesSiblings(list, Beside(a), a.deep, snap, version, level, i, g);
    }
    assert Newest(a.lower + out, e, list[i].key, snap);
    ReadOfNewest(a.lower + out, e, list[i].key, snap);
  }

  /** A dropped marker with an older value on its own level lets that value show. */
  lemma OlderShows(list: seq<Entry>, a: Around, snap: nat, version: Version, level: nat, i: nat, e: Entry)
    requires InPlace(list, a, version, level) && NoStaleSibling(list, a, snap)
    requires i < |list| && !Hidden(list, i, snap) && Obsolete(list, i, snap, version, level)
    requires Newest(Beside(a), e, list[i].key, snap) && e.seqno < list[i].seqno && e.kind.Put?
    ensures Search(After(a, Out(list, snap, version, level)), list[i].key, snap) == Some(e.value)
    ensures Read(Everything(list, a), list[i].key, snap) == None
  {
    var u := list[i].key;
    MarkerIsNewest(list, Beside(a), a.deep, snap, version, level, i, e);
    ReadOfNewest(Everything(list, a), list[i], u, snap);
    OlderIsBelow(list, a, snap, version, level, i, e);
    OlderIsNewestBelow(list, a, snap, version, level, i, e);
    FourLayers(a, Out(list, snap, version, level), u, snap);
  }

  /** Point reads are kept exactly when no entry that moves has one on the level it leaves that
      is older and answers differently, and no marker that is dropped an older value beside it. */
  lemma CompactionKeepsSearches(list: seq<Entry>, a: Around, snap: nat, version: Version, level: nat)
    requires InPlace(list, a, version, level)
    ensures FindsNewest(After(a, Out(list, snap, version, level)), Everything(list, a), snap)
            <==> NoStaleSibling(list, a, snap) && NoOlderSibling(list, Beside(a), snap, version, level)
  {
    if NoStaleSibling(list, a, snap) && NoOlderSibling(list, Beside(a), snap, version, level) {
      forall u: UserKey, s: nat | snap <= s
        ensures Search(After(a, Out(list, snap, version, level)), u, s) == Read(Everything(list, a), u, s)
      {
        SearchKeptAt(list, a, snap, version, level, u, s);
      }
    } else if !NoStaleSibling(list, a, snap) {
      var i, e :| 0 <= i < |list| && !Hidden(list, i, snap)
                  && Newest(a.above + a.upper, e, list[i].key, Later(snap, list[i].seqno))
                    && e.seqno < list[i].seqno && Answer(e) != Answer(list[i]);
      StaleShows(list, a, snap, version, level, i, e);
    } else {
      var i, e :| 0 <= i < |list| && !Hidden(list, i, snap) && Obsolete(list, i, snap, version, level)
                  && Newest(Beside(a), e, list[i].key, snap) && e.seqno < list[i].seqno && e.kind.Put?;
      OlderShows(list, a, snap, version, level, i, e);
    }
  }

  // ---- A file that only moves ----

  ghost predicate NoStaleMove(list: seq<Entry>, a: Around) {
    forall i, e | 0 <= i < |list| && Newest(a.above + a.upper, e, list[i].key, list[i].seqno)
                  && e.seqno < list[i].seqno :: Answer(e) == Answer(list[i])
  }

  /** The same when all entries move and none is dropped: at every snapshot. */
  lemma MoveKeepsSearches(list: seq<Entry>, a: Around, version: Version, level: nat)
    requires InPlace(list, a, version, level)
    ensures FindsNewest(After(a, Elements(list)), Everything(list, a), 0) <==> NoStaleMove(list, a)
  {
    var all, out := Everything(list, a), Elements(list);
    if NoStaleMove(list, a) {
      forall u: UserKey, s: nat
        ensures Search(After(a, out), u, s) == Read(all, u, s)
      {
        MoveKeptAt(list, a, version, level, u, s);
      }
    } else {
      var i, e :| 0 <= i < |list| && Newest(a.above + a.upper, e, list[i].key, list[i].seqno)
                    && e.seqno < list[i].seqno && Answer(e) != Answer(list[i]);
      var u, t := list[i].key, list[i].seqno;
      assert e in a.upper && Newest(all, list[i], u, t);
      var f := StaleIsFound(list, a, out, version, level, list[i], u, t);
      assert e == f;
    }
  }

  lemma MoveKeptAt(list: seq<Entry>, a: Around, version: Version, level: nat, u: UserKey, s: nat)
    requires InPlace(list, a, version, level) && NoStaleMove(list, a)
    ensures Search(After(a, Elements(list)), u, s) == Read(Everything(list, a), u, s)
  {
    var out, all := Elements(list), Everything(list, a);
    if Lacks(all, u, s) {
      NothingIsFound(list, a, out, u, s);
    } else {
      var n := NewestOfLayer(all, u, s);
      if n !in out {
        UnmovedIsFound(list, a, out, version, level, n, u, s);
      } else if Lacks(a.upper, u, s) {
        MovedIsFound(list, a, out, version, level, n, u, s);
      } else {
        var e := StaleIsFound(list, a, out, version, level, n, u, s);
        var i :| 0 <= i < |list| && list[i] == n;
        assert Newest(a.above + a.upper, e, u, n.seqno);
      }
    }
  }
}
