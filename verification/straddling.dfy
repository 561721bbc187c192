/** A pick that cuts a user key in two, whatever the keys: the newer entry of the key ends one
    level-1 file, the older one begins the next, and the code compacts the first file alone. */
module StraddlingPicks {
  import opened Keys
  import opened Entries
  import opened Files
  import opened Overlaps
  import opened Layerings
  import opened Versions
  import opened VersionBuilders
  import opened Compactions
  import opened Picks
  import opened CompactionChoices
  import opened Installs
  import opened BackgroundCompactions

  /** Files `a` and `b` of level 1, `c` and `d` of level 2, and their entries: `x` is the newer
      entry of the middle key, `stale` the older one. */
  datatype Straddle = Straddle(a5: Entry, x: Entry, stale: Entry, z6: Entry, a3: Entry, z4: Entry, a: File, b: File,
                               c: File, d: File) {
    ghost predicate EntriesOk() {
      && a5.key == a3.key < x.key == stale.key < z6.key == z4.key
      && a5.seqno == 5 && x.seqno == 2 && stale.seqno == 1 && z6.seqno == 6 && a3.seqno == 3 && z4.seqno == 4
    }

    ghost predicate FilesOk() {
      && a.entries == [a5, x] && a.smallest == a5 && a.largest == x && a.number == 10
      && b.entries == [stale, z6] && b.smallest == stale && b.largest == z6 && b.number == 11
      && c.entries == [a3] && c.smallest == c.largest == a3 && c.number == 12
      && d.entries == [z4] && d.smallest == d.largest == z4 && d.number == 13
    }

    ghost predicate In(v: Version) {
      v == [[], [a, b], [c, d], [], [], [], []]
    }

    ghost predicate Ok(v: Version) {
      forall n {:trigger Asked(OfPart, n)} :: Asked(OfPart, n) ==> EntriesOk() && FilesOk() && In(v)
    }
  }

  lemma OkIs(v: Version, t: Straddle)
    ensures t.Ok(v) <==> t.EntriesOk() && t.FilesOk() && t.In(v)
  {
    assert Asked(OfPart, 0);
  }

  /** Such files exist for any three byte strings in order and any entry of the middle one. */
  lemma StraddleExists(first: Bytes, middle: Bytes, last: Bytes, kind: Kind, value: Bytes) returns (t: Straddle, v: Version)
    requires Less(first, middle) && Less(middle, last)
    ensures t.Ok(v) && t.x == Entry(Rank(middle), 2, kind, value) && Answer(t.stale) == Some([7])
  {
    RankEmbedsOrder(first, middle);
    RankEmbedsOrder(middle, last);
    var a5, z6 := Entry(Rank(first), 5, Put, []), Entry(Rank(last), 6, Put, []);
    var a3, z4 := Entry(Rank(first), 3, Put, []), Entry(Rank(last), 4, Put, []);
    var x, stale := Entry(Rank(middle), 2, kind, value), Entry(Rank(middle), 1, Put, [7]);
    t := Straddle(a5, x, stale, z6, a3, z4, File(10, 1, a5, x, [a5, x]), File(11, 1, stale, z6, [stale, z6]),
                  File(12, 1, a3, a3, [a3]), File(13, 1, z4, z4, [z4]));
    v := [[], [t.a, t.b], [t.c, t.d], [], [], [], []];
    OkIs(v, t);
  }

  lemma FilesAre(t: Straddle)
    requires t.EntriesOk() && t.FilesOk()
    ensures LevelOk([t.a, t.b]) && LevelOk([t.c, t.d])
  {
  }

  lemma LevelsAre(t: Straddle)
    requires t.FilesOk()
    ensures FileEntries([t.a, t.b]) == {t.a5, t.x, t.stale, t.z6} && FileEntries([t.c, t.d]) == {t.a3, t.z4}
  {
    TwoFiles(t.a, t.b);
    TwoFiles(t.c, t.d);
    TwoElements(t.a5, t.x);
    TwoElements(t.stale, t.z6);
    TwoElements(t.a3, t.a3);
    TwoElements(t.z4, t.z4);
  }

  lemma SixEntries(t: Straddle)
    requires t.EntriesOk()
    ensures NewerThan({t.a5, t.x, t.stale, t.z6}, {t.a3, t.z4}) && Distinct({t.a5, t.x, t.stale, t.z6} + {t.a3, t.z4})
    ensures Newest({t.a5, t.x, t.stale, t.z6} + {t.a3, t.z4}, t.x, t.x.key, 6)
  {
  }

  lemma StraddlingOrdered(v: Version, t: Straddle)
    requires t.Ok(v)
    ensures VersionOrdered(v) && Distinct(AllEntries(v)) && AllEntries(v) == {t.a5, t.x, t.stale, t.z6} + {t.a3, t.z4}
  {
    OkIs(v, t);
    FilesAre(t);
    LevelsAre(t);
    SixEntries(t);
    TwoLevels(v, [t.a, t.b], [t.c, t.d]);
  }

  /** The code picks `a` alone on level 1, and `c` below it: taking in `b` would take in `d`, too. */
  lemma StraddlingChosen(v: Version, t: Straddle)
    requires t.Ok(v)
    ensures Chosen(v, 1, [t.a], t.a5.key, t.x.key, [t.c])
    ensures Select(v[1], Some(t.a5.key), Some(t.x.key)) == [t.a, t.b]
    ensures Select(v[2], Some(t.a5.key), Some(t.z6.key)) == [t.c, t.d]
  {
    OkIs(v, t);
    SelectTwo(t.a, t.b, Some(t.a5.key), Some(t.x.key));
    SelectTwo(t.c, t.d, Some(t.a5.key), Some(t.z6.key));
    SelectTwo(t.c, t.d, Some(t.a5.key), Some(t.x.key));
    assert [t.a][0].smallest.key == t.a5.key && [t.a][0].largest.key == t.x.key;
  }

  // ---- After the compaction ----

  lemma UnpickedOfTwo(f: File, g: File)
    requires f != g
    ensures Unpicked([f, g], [f]) == Elements(g.entries)
  {
    assert g in [f, g];
  }

  lemma PickedAndLeft(v: Version, t: Straddle)
    requires t.Ok(v)
    ensures FileEntries([t.a] + [t.c]) == {t.a5, t.x, t.a3}
    ensures Unpicked(v[1], [t.a]) == {t.stale, t.z6} && Unpicked(v[2], [t.c]) == {t.z4}
  {
    OkIs(v, t);
    assert [t.a] + [t.c] == [t.a, t.c];
    TwoFiles(t.a, t.c);
    TwoElements(t.a5, t.x);
    TwoElements(t.a3, t.a3);
    UnpickedOfTwo(t.a, t.b);
    TwoElements(t.stale, t.z6);
    UnpickedOfTwo(t.c, t.d);
    TwoElements(t.z4, t.z4);
  }

  lemma NotHidden(t: Straddle, list: seq<Entry>, i: nat)
    requires t.EntriesOk() && Elements(list) == {t.a5, t.x, t.a3} && i < |list| && list[i] == t.x && Sorted(list)
    ensures !Hidden(list, i, 6)
  {
    if i > 0 {
      assert list[i - 1] in Elements(list);
      assert Precedes(list[i - 1], list[i]);
    }
  }

  /** With no snapshot held, `x` is kept exactly when it is a value. */
  lemma OutOfStraddling(v: Version, t: Straddle, list: seq<Entry>)
    requires t.EntriesOk() && t.In(v) && Sorted(list) && Elements(list) == {t.a5, t.x, t.a3}
    ensures t.x in Survivors(list, |list|, 6, v, 1) <==> t.x.kind.Put?
  {
    SurvivorsAre(list, |list|, 6, v, 1);
    assert IsBase(v, 1, t.x.key);
    assert t.x in Elements(list);
    var i :| 0 <= i < |list| && list[i] == t.x;
    NotHidden(t, list, i);
  }

  lemma FirstSilent(layers: seq<set<Entry>>, es: set<Entry>, u: UserKey, s: nat)
    requires |layers| > 1 && layers[0] == {} && layers[1] == es && !Lacks(es, u, s)
    ensures Search(layers, u, s) == Read(es, u, s)
  {
    SearchNext(layers, 0, u, s);
    SearchNext(layers, 1, u, s);
    assert layers[0..] == layers;
  }

  lemma StaleIsNewest(t: Straddle)
    requires t.EntriesOk()
    ensures !Lacks({t.stale, t.z6}, t.x.key, 6) && Read({t.stale, t.z6}, t.x.key, 6) == Answer(t.stale)
  {
    assert Newest({t.stale, t.z6}, t.stale, t.x.key, 6);
    ReadOfNewest({t.stale, t.z6}, t.stale, t.x.key, 6);
  }

  /** The older entry stays on level 1 and answers for the key. */
  lemma StaleAnswers(v: Version, t: Straddle, outputs: seq<File>, v2: Version)
    requires t.Ok(v) && OutputsInstalled(v, 1, [t.a], [t.c], outputs, v2)
    ensures Search(Layers(v2), t.x.key, 6) == Answer(t.stale)
  {
    OkIs(v, t);
    PickedAndLeft(v, t);
    InstalledEntries(v, 1, [t.a], [t.c], outputs, v2);
    StaleIsNewest(t);
    assert v2[0] == [] && FileEntries([]) == {};
    FirstSilent(Layers(v2), {t.stale, t.z6}, t.x.key, 6);
  }

  /** Before, `x` answered. */
  lemma NewAnswered(v: Version, t: Straddle)
    requires t.Ok(v)
    ensures Read(AllEntries(v), t.x.key, 6) == Answer(t.x) && Search(Layers(v), t.x.key, 6) == Answer(t.x)
  {
    OkIs(v, t);
    StraddlingOrdered(v, t);
    SixEntries(t);
    ReadOfNewest(AllEntries(v), t.x, t.x.key, 6);
    VersionLayers(v);
    OrderedSearchReads(Layers(v), t.x.key, 6);
  }

  // ---- What readers see ----

  /** A set of entries in which `x` is gone. */
  lemma WithoutNewer(t: Straddle, es: set<Entry>)
    requires t.EntriesOk() && t.stale in es && t.x !in es && es <= {t.a5, t.x, t.stale, t.z6} + {t.a3, t.z4}
    ensures Read(es, t.x.key, 6) == Answer(t.stale)
  {
    assert Newest(es, t.stale, t.x.key, 6);
    SixEntries(t);
    ReadOfNewest(es, t.stale, t.x.key, 6);
  }

  /** No marker is dropped over an older entry left beside the inputs, when `x` is a value. */
  lemma ValueHasNoOlderSibling(v: Version, t: Straddle, list: seq<Entry>, rest: set<Entry>)
    requires t.EntriesOk() && t.x.kind.Put? && Elements(list) == {t.a5, t.x, t.a3} && rest == {t.stale, t.z6, t.z4}
    ensures NoOlderSibling(list, rest, 6, v, 1)
  {
    forall i | 0 <= i < |list|
      ensures list[i].kind.Put? || forall e :: e in rest ==> e.key != list[i].key
    {
      assert list[i] in Elements(list);
    }
  }

  lemma StraddlingRest(v: Version, t: Straddle)
    requires t.Ok(v)
    ensures Rest({}, v, 1, [t.a], [t.c]) == {t.stale, t.z6, t.z4} && Deep(v, 1) == {}
  {
    OkIs(v, t);
    PickedAndLeft(v, t);
    assert Shallow(v, 1) == {};
  }

  ghost predicate Rewrote(v: Version, t: Straddle, list: seq<Entry>, outputs: seq<File>, firstNumber: nat, v2: Version) {
    && Sorted(list) && Elements(list) == FileEntries([t.a] + [t.c]) && OutputsOk(outputs, firstNumber)
    && OutputEntries(outputs) == Survivors(list, |list|, 6, v, 1) && OutputsInstalled(v, 1, [t.a], [t.c], outputs, v2)
  }

  lemma RewroteEntries(v: Version, t: Straddle, list: seq<Entry>, outputs: seq<File>, firstNumber: nat, v2: Version)
    requires t.Ok(v) && Rewrote(v, t, list, outputs, firstNumber, v2)
    ensures Elements(list) == {t.a5, t.x, t.a3} && FileEntries(outputs) <= {t.a5, t.x, t.a3}
    ensures t.x in FileEntries(outputs) <==> t.x.kind.Put?
  {
    PickedAndLeft(v, t);
    OkIs(v, t);
    OutOfStraddling(v, t, list);
    OutputsAreDrawn(list, [t.a] + [t.c], 6, v, 1, outputs);
    WrittenEntries(outputs, [t.a] + [t.c]);
  }

  lemma RewroteOrder(v: Version, t: Straddle, list: seq<Entry>, outputs: seq<File>, firstNumber: nat, v2: Version)
    requires t.Ok(v) && Rewrote(v, t, list, outputs, firstNumber, v2)
    ensures VersionOrdered(v2) ==> NewerThan({t.stale, t.z6}, FileEntries(outputs))
  {
    StraddlingOrdered(v, t);
    StraddlingChosen(v, t);
    PickedAndLeft(v, t);
    OutputsAreDrawn(list, [t.a] + [t.c], 6, v, 1, outputs);
    InstallOrder(v, 1, [t.a], t.a5.key, t.x.key, [t.c], outputs, firstNumber, v2);
  }

  lemma RewroteAll(v: Version, t: Straddle, outputs: seq<File>, v2: Version)
    requires t.Ok(v) && OutputsInstalled(v, 1, [t.a], [t.c], outputs, v2)
    ensures AllEntries(v2) == FileEntries(outputs) + {t.stale, t.z6, t.z4}
  {
    StraddlingRest(v, t);
    InstallSplits({}, v, 1, [t.a], [t.c], outputs, v2);
  }

  lemma ValueIsSafe(v: Version, t: Straddle, list: seq<Entry>)
    requires t.Ok(v) && t.x.kind.Put? && Elements(list) == FileEntries([t.a] + [t.c])
    ensures NoOlderSibling(list, Rest({}, v, 1, [t.a], [t.c]), 6, v, 1)
  {
    PickedAndLeft(v, t);
    StraddlingRest(v, t);
    OkIs(v, t);
    ValueHasNoOlderSibling(v, t, list, {t.stale, t.z6, t.z4});
  }

  lemma NothingOnTop(v: Version, v2: Version, snap: nat)
    requires VersionOrdered(v) && Distinct(AllEntries(v))
    ensures NewerThan({}, AllEntries(v)) && Distinct({} + AllEntries(v))
    ensures SameReads({} + AllEntries(v), {} + AllEntries(v2), snap) ==> SameReads(AllEntries(v), AllEntries(v2), snap)
  {
    assert {} + AllEntries(v) == AllEntries(v) && {} + AllEntries(v2) == AllEntries(v2);
  }

  lemma ValueIsKept(v: Version, t: Straddle, list: seq<Entry>, outputs: seq<File>, firstNumber: nat, v2: Version)
    requires t.Ok(v) && Rewrote(v, t, list, outputs, firstNumber, v2) && t.x.kind.Put?
    ensures SameReads(AllEntries(v), AllEntries(v2), 6)
  {
    StraddlingOrdered(v, t);
    StraddlingChosen(v, t);
    ValueIsSafe(v, t, list);
    NothingOnTop(v, v2, 6);
    InstallMeaning({}, v, 1, [t.a], t.a5.key, t.x.key, [t.c], list, 6, outputs, v2);
  }

  /** A newer value on the level below: reading everything at once finds it, but the search
      stops above it, and the version is no longer in order. */
  lemma StaleReadOfValue(v: Version, t: Straddle, list: seq<Entry>, outputs: seq<File>, firstNumber: nat, v2: Version)
    requires t.Ok(v) && Rewrote(v, t, list, outputs, firstNumber, v2) && t.x.kind.Put?
    ensures SameReads(AllEntries(v), AllEntries(v2), 6) && Read(AllEntries(v2), t.x.key, 6) == Some(t.x.value)
    ensures Search(Layers(v), t.x.key, 6) == Some(t.x.value) && Search(Layers(v2), t.x.key, 6) == Answer(t.stale)
    ensures !VersionOrdered(v2)
  {
    ValueIsKept(v, t, list, outputs, firstNumber, v2);
    NewAnswered(v, t);
    StaleAnswers(v, t, outputs, v2);
    RewroteEntries(v, t, list, outputs, firstNumber, v2);
    RewroteOrder(v, t, list, outputs, firstNumber, v2);
    assert t.EntriesOk() by {
      OkIs(v, t);
    }
    assert t.stale in {t.stale, t.z6};
  }

  /** A deletion is dropped, and the value it deleted is back for every reader. */
  lemma DeletionIsLost(v: Version, t: Straddle, list: seq<Entry>, outputs: seq<File>, firstNumber: nat, v2: Version)
    requires t.Ok(v) && Rewrote(v, t, list, outputs, firstNumber, v2) && t.x.kind.Deletion?
    ensures Read(AllEntries(v), t.x.key, 6) == None && Read(AllEntries(v2), t.x.key, 6) == Answer(t.stale)
    ensures Search(Layers(v), t.x.key, 6) == None && Search(Layers(v2), t.x.key, 6) == Answer(t.stale)
  {
    RewroteEntries(v, t, list, outputs, firstNumber, v2);
    RewroteAll(v, t, outputs, v2);
    assert t.EntriesOk() by {
      OkIs(v, t);
    }
    WithoutNewer(t, AllEntries(v2));
    NewAnswered(v, t);
    StaleAnswers(v, t, outputs, v2);
  }

  // ---- The code does this ----

  /** Whatever compaction takes the first file up, its inputs are `a` and `c`. */
  lemma PickStaysSmall(v: Version, t: Straddle, inputs0: seq<File>, lo: UserKey, hi: UserKey, inputs1: seq<File>)
    requires t.Ok(v) && Chosen(v, 1, inputs0, lo, hi, inputs1) && InOrder(inputs0, 1) && t.a in inputs0 && inputs1 == [t.c]
    ensures inputs0 == [t.a]
  {
    OkIs(v, t);
    InOrderIs(inputs0, 1);
    SelectIs(v[2], Some(lo), Some(hi));
    var i :| 0 <= i < |inputs0| && inputs0[i] == t.a;
    assert t.d in v[2] && t.d !in inputs1;
    forall j | 0 <= j < |inputs0|
      ensures inputs0[j] == t.a
    {
      assert inputs0[j] in v[1];
    }
    assert |inputs0| > 1 ==> Precedes(inputs0[0].largest, inputs0[1].smallest);
  }

  method PickStraddling(v: Version, t: Straddle, limit: nat) returns (pick: CompactionPick, ghost lo: UserKey, ghost hi: UserKey)
    requires t.Ok(v)
    ensures fresh(pick) && SetUp(pick, v, lo, hi) && pick.level == 1 && pick.inputs0 == [t.a] && pick.inputs1 == [t.c]
  {
    StraddlingOrdered(v, t);
    StraddlingChosen(v, t);
    FileOfLevel(v, 1);
    assert t.a in [t.a];
    OneInOrder(t.a, 1);
    ghost var lo0, hi0;
    ghost var g;
    pick, lo0, hi0, lo, hi, g := SetUpInputs(v, 1, [t.a], limit);
    OneRange([t.a], lo0, hi0, t.a5.key, t.x.key);
    PickStaysSmall(v, t, pick.inputs0, lo, hi, pick.inputs1);
  }

  /** What becomes of the key when the outputs take the inputs' place. */
  ghost predicate StaleShows(v: Version, t: Straddle, v2: Version) {
    && Search(Layers(v2), t.x.key, 6) == Answer(t.stale)
    && if t.x.kind.Put? then SameReads(AllEntries(v), AllEntries(v2), 6) && !VersionOrdered(v2)
       else Read(AllEntries(v2), t.x.key, 6) == Answer(t.stale)
  }

  lemma StaleShowsIn(v: Version, t: Straddle, list: seq<Entry>, outputs: seq<File>, number: nat, v2: Version)
    requires t.Ok(v) && Rewrote(v, t, list, outputs, number, v2)
    ensures StaleShows(v, t, v2)
  {
    if t.x.kind.Put? {
      StaleReadOfValue(v, t, list, outputs, number, v2);
    } else {
      DeletionIsLost(v, t, list, outputs, number, v2);
    }
  }

  lemma NothingAbove(v: Version, t: Straddle)
    requires t.Ok(v)
    ensures VersionOrdered(v) && OnTopOf([], v)
  {
    StraddlingOrdered(v, t);
    assert Union([]) == {} && {} + AllEntries(v) == AllEntries(v);
  }

  method RewriteStraddling(v: Version, t: Straddle, limit: nat, manual: bool, overlapLimit: nat, number: nat)
    returns (outputs: seq<File>, ghost list: seq<Entry>)
    requires t.Ok(v)
    ensures forall v2 :: OutputsInstalled(v, 1, [t.a], [t.c], outputs, v2) ==> Rewrote(v, t, list, outputs, number, v2)
  {
    var pick, lo, hi := PickStraddling(v, t, limit);
    var outcome;
    NothingAbove(v, t);
    outcome, list := CarryOut(pick, manual, overlapLimit, 6, number, [], lo, hi);
    outputs := outcome.outputs;
  }

  /** Taken up in turn, or asked for and cut behind the first file: where `x` answered before,
      the stale entry answers a search after the compaction, and when `x` is a deletion, it is
      undone for every reader. */
  method CompactStraddling(v: Version, t: Straddle, limit: nat, manual: bool, overlapLimit: nat,
                           number: nat) returns (outputs: seq<File>)
    requires t.Ok(v)
    ensures Read(AllEntries(v), t.x.key, 6) == Answer(t.x) && Search(Layers(v), t.x.key, 6) == Answer(t.x)
    ensures forall v2 :: OutputsInstalled(v, 1, [t.a], [t.c], outputs, v2) ==> StaleShows(v, t, v2)
  {
    ghost var list;
    outputs, list := RewriteStraddling(v, t, limit, manual, overlapLimit, number);
    NewAnswered(v, t);
    forall v2 | OutputsInstalled(v, 1, [t.a], [t.c], outputs, v2)
      ensures StaleShows(v, t, v2)
    {
      StaleShowsIn(v, t, list, outputs, number, v2);
    }
  }
}
