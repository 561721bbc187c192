/** A point read through all layers: memtable, full memtable, levels; and what its
    answer means in a run of the store. */
module DBReads {
  import opened Keys
  import opened Entries
  import opened Files
  import opened Layerings
  import opened Versions
  import opened Histories
  import opened Installs
  import opened DBRuns

  /** The layers a point read goes through. */
  ghost function StoreLayers(mem: set<Entry>, imm: set<Entry>, v: Version): seq<set<Entry>> {
    [mem, imm] + Layers(v)
  }

  lemma StoreLayersOrdered(mem: set<Entry>, imm: set<Entry>, v: Version)
    ensures Union(StoreLayers(mem, imm, v)) == mem + imm + AllEntries(v)
    ensures Ordered(mem, imm, v) ==> LayersOrdered(StoreLayers(mem, imm, v))
  {
    VersionLayers(v);
    OnTop(imm, Layers(v));
    OnTop(mem, [imm] + Layers(v));
    assert [mem] + ([imm] + Layers(v)) == StoreLayers(mem, imm, v);
  }

  /** The first layer that knows the key decides; in a store in order that is the newest entry
      of all. */
  method Get(mem: seq<Entry>, imm: Option<seq<Entry>>, v: Version, u: UserKey, s: nat) returns (value: Option<Bytes>)
    requires Sorted(mem) && (imm.Some? ==> Sorted(imm.value)) && LevelsSorted(v) && Distinct(AllEntries(v))
    ensures value == Search(StoreLayers(Elements(mem), Elements(imm.GetOr([])), v), u, s)
    ensures Ordered(Elements(mem), Elements(imm.GetOr([])), v) && Distinct(Elements(mem) + Elements(imm.GetOr([])) + AllEntries(v)) ==>
              value == Read(Elements(mem) + Elements(imm.GetOr([])) + AllEntries(v), u, s)
  {
    ghost var layers := StoreLayers(Elements(mem), Elements(imm.GetOr([])), v);
    StoreLayersOrdered(Elements(mem), Elements(imm.GetOr([])), v);
    if LayersOrdered(layers) && Distinct(Union(layers)) {
      OrderedSearchReads(layers, u, s);
    }
    assert layers[1..][0] == Elements(imm.GetOr([])) && layers[1..][1..] == Layers(v);
    var found := NewestIn(mem, u, s);
    if found.Some? {
      SortedFacts(mem);
      ReadOfNewest(Elements(mem), found.value, u, s);
      return Answer(found.value);
    }
    if imm.Some? {
      found := NewestIn(imm.value, u, s);
      if found.Some? {
        SortedFacts(imm.value);
        ReadOfNewest(Elements(imm.value), found.value, u, s);
        return Answer(found.value);
      }
    }
    value := Versions.Get(v, u, s);
  }

  /** `mem` and `imm` list what the reader's memtables hold at the moment of the search. */
  ghost predicate Lists(s: State, r: Reader, mem: seq<Entry>, imm: Option<seq<Entry>>) {
    && r.mem in s.tables && Sorted(mem) && Elements(mem) == s.tables[r.mem]
    && (imm.Some? <==> r.imm.Some?) && (imm.Some? ==> Sorted(imm.value))
    && Elements(imm.GetOr([])) == ImmEntries(s.tables, r.imm)
  }

  /** A point read in any run of the store answers as the store was after a whole number
      of batches: those published when it began, or when its snapshot was taken. */
  method GetInRun(ghost run: seq<State>, ghost i: nat, ghost id: nat, mem: seq<Entry>, imm: Option<seq<Entry>>, v: Version,
                  u: UserKey, s: nat)
    returns (value: Option<Bytes>, ghost k: nat)
    requires IsRun(run) && i < |run| && id in run[i].readers
    requires run[i].readers[id].version == v && run[i].readers[id].snapshot == s && Lists(run[i], run[i].readers[id], mem, imm)
    ensures k <= |run[i].batches| && s == |Concat(run[i].batches[..k])|
    ensures value == Lookup(Concat(run[i].batches[..k]), u)
  {
    ghost var r := run[i].readers[id];
    ReaderInOrder(run, i, id);
    k := ReadsSeeWholeBatches(run, i, id);
    assert ReaderView(run[i], r) == Elements(mem) + Elements(imm.GetOr([])) + AllEntries(v);
    value := Get(mem, imm, v, u, s);
  }

  lemma ReaderInOrder(run: seq<State>, i: nat, id: nat)
    requires IsRun(run) && i < |run| && id in run[i].readers
    ensures var s, r := run[i], run[i].readers[id];
            && r.mem in s.tables && Ordered(s.tables[r.mem], ImmEntries(s.tables, r.imm), r.version)
            && Distinct(ReaderView(s, r))
  {
    RunInv(run, i);
    var s, r := run[i], run[i].readers[id];
    assert ReaderOk(s, r);
    ViewInHistory(s, r.mem, r.imm, r.version);
  }
}
