/** The store as a whole: writers fill the memtable and publish sequence numbers, the
    memtable is switched and flushed, compactions rewrite levels, snapshots are taken
    and released, and reads run beside all of it. Every step is taken under the mutex
    or is one unlocked insertion, so all schedules are runs. */
module DBRuns {
  import opened Keys
  import opened Entries
  import opened Files
  import opened Layerings
  import opened Versions
  import opened Compactions
  import opened Picks
  import opened PickGaps
  import opened Installs
  import opened LateInstalls
  import opened Histories

  type Batch = seq<Op>
  type TableId = nat

  /** What a read captured under the mutex before it went on without. */
  datatype Reader = Reader(snapshot: nat, mem: TableId, imm: Option<TableId>, version: Version)

  /** A compaction knows the version it began with; the current one may have got tables since. */
  datatype Background =
    | Idle
    | Compacting(base: Version, level: nat, inputs0: seq<File>, lo: UserKey, hi: UserKey, inputs1: seq<File>, snap: nat)

  /** `ops` are all operations inserted so far, in order of sequence number; `batches`
      those published; `group` the batches of the writer under way. Memtables live as
      long as someone may read them. `floor` is the largest snapshot a finished
      compaction took for the oldest one in use. */
  datatype State = State(
    ops: seq<Op>,
    batches: seq<Batch>,
    group: seq<Batch>,
    lastSequence: nat,
    tables: map<TableId, set<Entry>>,
    mem: TableId,
    imm: Option<TableId>,
    version: Version,
    snapshots: map<nat, nat>,
    readers: map<nat, Reader>,
    background: Background,
    floor: nat)

  datatype Action =
    | BeginGroup(group: seq<Batch>)
    | InsertOne
    | Publish
    | SwitchMemtable(table: TableId)
    | FlushEmpty
    | Flush(level: nat, file: File, version: Version)
    | StartCompaction(level: nat, inputs0: seq<File>, lo: UserKey, hi: UserKey, inputs1: seq<File>)
    | FinishCompaction(list: seq<Entry>, outputs: seq<File>, firstNumber: nat, version: Version)
    | TrivialMove(level: nat, file: File, version: Version)
    | TakeSnapshot(id: nat)
    | ReleaseSnapshot(id: nat)
    | BeginRead(id: nat, at: Option<nat>)
    | EndRead(id: nat)

  ghost function ImmEntries(tables: map<TableId, set<Entry>>, imm: Option<TableId>): set<Entry> {
    if imm.Some? && imm.value in tables then tables[imm.value] else {}
  }

  /** What a reader with these references can see. */
  ghost function View(tables: map<TableId, set<Entry>>, mem: TableId, imm: Option<TableId>, version: Version): set<Entry> {
    (if mem in tables then tables[mem] else {}) + ImmEntries(tables, imm) + AllEntries(version)
  }

  ghost function Live(s: State): set<Entry> {
    View(s.tables, s.mem, s.imm, s.version)
  }

  /** The memtables' part of it. */
  ghost function Top(s: State): set<Entry> {
    (if s.mem in s.tables then s.tables[s.mem] else {}) + ImmEntries(s.tables, s.imm)
  }

  ghost function ReaderView(s: State, r: Reader): set<Entry> {
    View(s.tables, r.mem, r.imm, r.version)
  }

  // ---- Steps ----

  ghost predicate Init(s: State) {
    && s.ops == [] && s.batches == [] && s.group == [] && s.lastSequence == 0
    && s.tables == map[s.mem := {}] && s.imm == None && s.version == [[], [], [], [], [], [], []]
    && s.snapshots == map[] && s.readers == map[] && s.background == Idle && s.floor == 0
  }

  ghost predicate BeginGroupStep(s: State, group: seq<Batch>, t: State) {
    s.group == [] && t == s.(group := group)
  }

  /** The next operation of the group gets the next sequence number. */
  ghost predicate InsertOneStep(s: State, t: State) {
    && s.mem in s.tables && s.lastSequence <= |s.ops| && |s.ops| - s.lastSequence < |Concat(s.group)|
    && var op := Concat(s.group)[|s.ops| - s.lastSequence];
       t == s.(ops := s.ops + [op], tables := s.tables[s.mem := s.tables[s.mem] + {EntryOf(|s.ops|, op)}])
  }

  /** All of the group is in the memtable: move the last sequence past it. */
  ghost predicate PublishStep(s: State, t: State) {
    && |s.ops| == s.lastSequence + |Concat(s.group)|
    && t == s.(lastSequence := s.lastSequence + |Concat(s.group)|, batches := s.batches + s.group, group := [])
  }

  ghost predicate SwitchStep(s: State, table: TableId, t: State) {
    && s.group == [] && s.imm == None && table !in s.tables
    && t == s.(imm := Some(s.mem), mem := table, tables := s.tables[table := {}])
  }

  ghost predicate FlushEmptyStep(s: State, t: State) {
    s.imm.Some? && ImmEntries(s.tables, s.imm) == {} && t == s.(imm := None)
  }

  /** A full memtable becomes a table, also in the middle of a compaction. */
  ghost predicate FlushStep(s: State, level: nat, f: File, v: Version, t: State) {
    && s.imm.Some? && Elements(f.entries) == ImmEntries(s.tables, s.imm)
    && TableAdded(s.version, level, f, v) && t == s.(imm := None, version := v)
  }

  ghost predicate IsSmallestSnapshot(s: State, snap: nat) {
    if s.snapshots == map[] then snap == s.lastSequence
    else (exists id :: id in s.snapshots && s.snapshots[id] == snap) && forall id :: id in s.snapshots ==> snap <= s.snapshots[id]
  }

  ghost predicate StartStep(s: State, level: nat, inputs0: seq<File>, lo: UserKey, hi: UserKey, inputs1: seq<File>, t: State) {
    && s.background == Idle && Chosen(s.version, level, inputs0, lo, hi, inputs1) && t.background.Compacting?
    && IsSmallestSnapshot(s, t.background.snap)
    && t == s.(background := Compacting(s.version, level, inputs0, lo, hi, inputs1, t.background.snap))
  }

  /** The merged inputs, filtered as the compaction loop does, replace the inputs. */
  ghost predicate Finishes(s: State, list: seq<Entry>, outputs: seq<File>, firstNumber: nat, v: Version) {
    && s.background.Compacting? && s.background.level + 1 < NUM_LEVELS
    && var b := s.background;
       && Sorted(list) && Elements(list) == FileEntries(b.inputs0 + b.inputs1)
       && OutputsOk(outputs, firstNumber) && OutputEntries(outputs) == Survivors(list, |list|, b.snap, b.base, b.level)
       && OutputsInstalled(s.version, b.level, b.inputs0, b.inputs1, outputs, v)
  }

  /** The outputs fit between the tables that came meanwhile, nothing left above them is older
      than one of them, and no marker is dropped over an older value. `FinishRewrites` shows
      that this is what it takes. */
  ghost predicate Harmless(s: State, list: seq<Entry>, outputs: seq<File>)
    requires s.background.Compacting? && s.background.level + 1 < NUM_LEVELS
  {
    var b := s.background;
    && FitsBeside(b.base, s.version, b.level, outputs)
    && NewerThan(Unpicked(s.version[b.level], b.inputs0), FileEntries(outputs))
    && NoOlderSibling(list, Rest(Top(s) + Extra(b.base, s.version), b.base, b.level, b.inputs0, b.inputs1), b.snap, b.base, b.level)
  }

  ghost predicate FinishStep(s: State, list: seq<Entry>, outputs: seq<File>, firstNumber: nat, v: Version, t: State) {
    && Finishes(s, list, outputs, firstNumber, v) && Harmless(s, list, outputs)
    && t == s.(version := v, background := Idle, floor := if s.background.snap > s.floor then s.background.snap else s.floor)
  }

  /** One input and nothing to merge it with: the file just moves down. */
  ghost predicate MovesDown(s: State, level: nat, f: File, v: Version) {
    && s.background == Idle && Chosen(s.version, level, [f], f.smallest.key, f.largest.key, [])
    && OutputsInstalled(s.version, level, [f], [], [f], v)
  }

  /** Nothing above it is older. `MoveRewrites` shows that this is what it takes. */
  ghost predicate MoveStep(s: State, level: nat, f: File, v: Version, t: State) {
    && MovesDown(s, level, f, v) && NewerThan(Unpicked(s.version[level], [f]), Elements(f.entries)) && t == s.(version := v)
  }

  ghost predicate BeginReadStep(s: State, id: nat, at: Option<nat>, t: State) {
    && id !in s.readers && (at.Some? ==> at.value in s.snapshots)
    && var snapshot := if at.Some? then s.snapshots[at.value] else s.lastSequence;
       t == s.(readers := s.readers[id := Reader(snapshot, s.mem, s.imm, s.version)])
  }

  ghost predicate Step(s: State, a: Action, t: State) {
    match a
    case BeginGroup(group) => BeginGroupStep(s, group, t)
    case InsertOne => InsertOneStep(s, t)
    case Publish => PublishStep(s, t)
    case SwitchMemtable(table) => SwitchStep(s, table, t)
    case FlushEmpty => FlushEmptyStep(s, t)
    case Flush(level, f, v) => FlushStep(s, level, f, v, t)
    case StartCompaction(level, in0, lo, hi, in1) => StartStep(s, level, in0, lo, hi, in1, t)
    case FinishCompaction(list, outputs, n, v) => FinishStep(s, list, outputs, n, v, t)
    case TrivialMove(level, f, v) => MoveStep(s, level, f, v, t)
    case TakeSnapshot(id) => id !in s.snapshots && t == s.(snapshots := s.snapshots[id := s.lastSequence])
    case ReleaseSnapshot(id) => t == s.(snapshots := s.snapshots - {id})
    case BeginRead(id, at) => BeginReadStep(s, id, at, t)
    case EndRead(id) => t == s.(readers := s.readers - {id})
  }

  // ---- Invariant ----

  /** `q` is the last sequence number of some batch. */
  ghost predicate IsBoundary(batches: seq<Batch>, q: nat) {
    exists k: nat :: BoundaryAt(batches, k, q)
  }

  ghost predicate BoundaryAt(batches: seq<Batch>, k: nat, q: nat) {
    k <= |batches| && q == |Concat(batches[..k])|
  }

  /** Reads of `es` at `q` give what the history says. */
  ghost predicate AgreesAt(es: set<Entry>, ops: seq<Op>, q: nat) {
    forall u :: Read(es, u, q) == Read(EntriesOf(ops), u, q)
  }

  ghost predicate AgreesFrom(es: set<Entry>, ops: seq<Op>, floor: nat) {
    SameReads(EntriesOf(ops), es, floor)
  }

  ghost predicate OpsInv(s: State) {
    && s.lastSequence <= |s.ops| && s.ops[..s.lastSequence] == Concat(s.batches)
    && s.ops[s.lastSequence..] <= Concat(s.group)
  }

  ghost predicate TablesInv(s: State) {
    && s.mem in s.tables && (s.imm.Some? ==> s.imm.value in s.tables && s.imm.value != s.mem)
    && (forall k :: k in s.tables ==> s.tables[k] <= EntriesOf(s.ops))
    && AllEntries(s.version) <= EntriesOf(s.ops)
  }

  ghost predicate OrderInv(s: State) {
    s.mem in s.tables && Ordered(s.tables[s.mem], ImmEntries(s.tables, s.imm), s.version)
  }

  /** Newer entries of a user key are found earlier: memtable, full memtable, levels. */
  ghost predicate Ordered(mem: set<Entry>, imm: set<Entry>, v: Version) {
    VersionOrdered(v) && NewerThan(mem, imm + AllEntries(v)) && NewerThan(imm, AllEntries(v))
  }

  ghost predicate SnapshotsInv(s: State) {
    && s.floor <= s.lastSequence
    && (forall id :: id in s.snapshots ==> s.floor <= s.snapshots[id] <= s.lastSequence && IsBoundary(s.batches, s.snapshots[id]))
  }

  ghost predicate BackgroundInv(s: State) {
    s.background.Compacting? ==>
      && Grown(s.background.base, s.version) && Placed(s.background.base, s.version)
      && Chosen(s.background.base, s.background.level, s.background.inputs0, s.background.lo, s.background.hi, s.background.inputs1)
      && s.background.snap <= s.lastSequence && forall id :: id in s.snapshots ==> s.background.snap <= s.snapshots[id]
  }

  ghost predicate ReaderOk(s: State, r: Reader) {
    && r.mem in s.tables && (r.imm.Some? ==> r.imm.value in s.tables && r.imm.value != s.mem)
    && AllEntries(r.version) <= EntriesOf(s.ops) && Ordered(s.tables[r.mem], ImmEntries(s.tables, r.imm), r.version)
    && r.snapshot <= s.lastSequence && IsBoundary(s.batches, r.snapshot)
    && AgreesAt(ReaderView(s, r), s.ops, r.snapshot)
  }

  ghost predicate ReadersInv(s: State) {
    forall id :: id in s.readers ==> ReaderOk(s, s.readers[id])
  }

  ghost predicate Inv(s: State) {
    && OpsInv(s) && TablesInv(s) && OrderInv(s) && SnapshotsInv(s) && BackgroundInv(s) && ReadersInv(s)
    && AgreesFrom(Live(s), s.ops, s.floor)
  }

  lemma InitInv(s: State)
    requires Init(s)
    ensures Inv(s)
  {
    EmptyVersion(s.version);
    assert Live(s) == {};
  }

  lemma EmptyVersion(v: Version)
    requires v == [[], [], [], [], [], [], []]
    ensures AllEntries(v) == {} && VersionOrdered(v)
  {
  }

  // ---- Writing ----

  lemma NewEntryIsNewest(ops: seq<Op>, op: Op)
    ensures EntriesOf(ops + [op]) == EntriesOf(ops) + {EntryOf(|ops|, op)} && Distinct(EntriesOf(ops + [op]))
    ensures forall f :: f in EntriesOf(ops) ==> f.seqno < EntryOf(|ops|, op).seqno
  {
    OneMoreEntry(ops, op);
    HistoryDistinct(ops);
    HistoryDistinct(ops + [op]);
  }

  lemma InsertKeepsOps(s: State, t: State)
    requires OpsInv(s) && InsertOneStep(s, t)
    ensures OpsInv(t)
  {
    var all, done := Concat(s.group), s.ops[s.lastSequence..];
    assert t.ops[t.lastSequence..] == done + [all[|done|]];
    assert t.ops[..t.lastSequence] == s.ops[..s.lastSequence];
  }

  lemma InsertKeepsTables(s: State, t: State)
    requires TablesInv(s) && InsertOneStep(s, t)
    ensures TablesInv(t) && EntriesOf(s.ops) <= EntriesOf(t.ops)
  {
    NewEntryIsNewest(s.ops, t.ops[|s.ops|]);
  }

  lemma InsertKeepsOrder(s: State, mem: TableId, imm: Option<TableId>, version: Version, t: State)
    requires TablesInv(s) && InsertOneStep(s, t) && mem in s.tables && (imm.Some? ==> imm.value in s.tables && imm.value != s.mem)
    requires AllEntries(version) <= EntriesOf(s.ops) && Ordered(s.tables[mem], ImmEntries(s.tables, imm), version)
    ensures Ordered(t.tables[mem], ImmEntries(t.tables, imm), version)
  {
    var op := t.ops[|s.ops|];
    NewEntryIsNewest(s.ops, op);
    var lower := ImmEntries(s.tables, imm) + AllEntries(version);
    assert lower <= EntriesOf(s.ops);
    assert ImmEntries(t.tables, imm) == ImmEntries(s.tables, imm);
    NewerParts(s.tables[mem], {EntryOf(|s.ops|, op)}, lower);
  }

  /** A view gains the new entry or stays as it is. */
  lemma InsertView(s: State, t: State, mem: TableId, imm: Option<TableId>, version: Version)
    requires InsertOneStep(s, t) && mem in s.tables && (imm.Some? ==> imm.value in s.tables)
    ensures var e := EntryOf(|s.ops|, t.ops[|s.ops|]);
            View(t.tables, mem, imm, version) ==
            View(s.tables, mem, imm, version) + if mem == s.mem || imm == Some(s.mem) then {e} else {}
  {
  }

  lemma ViewInHistory(s: State, mem: TableId, imm: Option<TableId>, version: Version)
    requires TablesInv(s) && AllEntries(version) <= EntriesOf(s.ops)
    ensures View(s.tables, mem, imm, version) <= EntriesOf(s.ops) && Distinct(EntriesOf(s.ops))
  {
    HistoryDistinct(s.ops);
  }

  lemma InsertKeepsReader(s: State, t: State, r: Reader)
    requires TablesInv(s) && InsertOneStep(s, t) && ReaderOk(s, r)
    ensures ReaderOk(t, r)
  {
    var op := t.ops[|s.ops|];
    var e := EntryOf(|s.ops|, op);
    NewEntryIsNewest(s.ops, op);
    InsertView(s, t, r.mem, r.imm, r.version);
    ViewInHistory(s, r.mem, r.imm, r.version);
    InsertKeepsOrder(s, r.mem, r.imm, r.version, t);
    forall u
      ensures Read(ReaderView(t, r), u, r.snapshot) == Read(EntriesOf(t.ops), u, r.snapshot)
    {
      NewerUnseen(ReaderView(s, r), e, u, r.snapshot);
      NewerUnseen(EntriesOf(s.ops), e, u, r.snapshot);
    }
  }

  lemma InsertKeepsReads(s: State, t: State)
    requires TablesInv(s) && InsertOneStep(s, t) && AgreesFrom(Live(s), s.ops, s.floor)
    ensures AgreesFrom(Live(t), t.ops, t.floor)
  {
    var op := t.ops[|s.ops|];
    var e := EntryOf(|s.ops|, op);
    NewEntryIsNewest(s.ops, op);
    InsertView(s, t, s.mem, s.imm, s.version);
    ViewInHistory(s, s.mem, s.imm, s.version);
    forall u: UserKey, q: nat | t.floor <= q
      ensures Read(EntriesOf(t.ops), u, q) == Read(Live(t), u, q)
    {
      NewestAddedToBoth(EntriesOf(s.ops), Live(s), e, u, q);
    }
  }

  lemma InsertInv(s: State, t: State)
    requires Inv(s) && InsertOneStep(s, t)
    ensures Inv(t)
  {
    InsertKeepsOps(s, t);
    InsertKeepsTables(s, t);
    InsertKeepsOrder(s, s.mem, s.imm, s.version, t);
    InsertKeepsReads(s, t);
    forall id | id in t.readers
      ensures ReaderOk(t, t.readers[id])
    {
      InsertKeepsReader(s, t, s.readers[id]);
    }
  }

  lemma BoundaryKept(batches: seq<Batch>, more: seq<Batch>, q: nat)
    requires IsBoundary(batches, q)
    ensures IsBoundary(batches + more, q)
  {
    var k: nat :| BoundaryAt(batches, k, q);
    assert (batches + more)[..k] == batches[..k];
    assert BoundaryAt(batches + more, k, q);
  }

  lemma PublishKeepsOps(s: State, t: State)
    requires OpsInv(s) && PublishStep(s, t)
    ensures OpsInv(t)
  {
    ConcatAppend(s.batches, s.group);
    assert s.ops == s.ops[..s.lastSequence] + s.ops[s.lastSequence..];
    assert t.ops[..t.lastSequence] == t.ops;
  }

  lemma PublishInv(s: State, t: State)
    requires Inv(s) && PublishStep(s, t)
    ensures Inv(t)
  {
    PublishKeepsOps(s, t);
    forall q: nat | IsBoundary(s.batches, q)
      ensures IsBoundary(t.batches, q)
    {
      BoundaryKept(s.batches, s.group, q);
    }
    forall id | id in t.readers
      ensures ReaderOk(t, t.readers[id])
    {
      PublishKeepsReader(s, t, s.readers[id]);
    }
  }

  lemma PublishKeepsReader(s: State, t: State, r: Reader)
    requires PublishStep(s, t) && ReaderOk(s, r)
    ensures ReaderOk(t, r)
  {
    BoundaryKept(s.batches, s.group, r.snapshot);
    assert ReaderView(t, r) == ReaderView(s, r);
  }

  // ---- Memtables and levels ----

  /** The store changed shape, but nobody's operations, snapshots or references did. */
  ghost predicate SameHistory(s: State, t: State) {
    && t.ops == s.ops && t.batches == s.batches && t.group == s.group && t.lastSequence == s.lastSequence
    && t.snapshots == s.snapshots && t.readers == s.readers && (t.mem == s.mem || t.mem !in s.tables)
    && forall k :: k in s.tables ==> k in t.tables && t.tables[k] == s.tables[k]
  }

  /** A reader's references go on showing it the same entries. */
  lemma ReaderKept(s: State, t: State, r: Reader)
    requires ReaderOk(s, r) && t.ops == s.ops && t.batches == s.batches && t.lastSequence == s.lastSequence
    requires forall k :: k in s.tables ==> k in t.tables && t.tables[k] == s.tables[k]
    requires t.mem == s.mem || t.mem !in s.tables
    ensures ReaderOk(t, r)
  {
    assert t.tables[r.mem] == s.tables[r.mem];
    assert ImmEntries(t.tables, r.imm) == ImmEntries(s.tables, r.imm);
    assert ReaderView(t, r) == ReaderView(s, r);
  }

  lemma SameHistoryKeeps(s: State, t: State)
    requires OpsInv(s) && ReadersInv(s) && SameHistory(s, t)
    ensures OpsInv(t) && ReadersInv(t)
  {
    forall id | id in t.readers
      ensures ReaderOk(t, t.readers[id])
    {
      ReaderKept(s, t, s.readers[id]);
    }
  }

  lemma SwitchInv(s: State, table: TableId, t: State)
    requires Inv(s) && SwitchStep(s, table, t)
    ensures Inv(t)
  {
    SameHistoryKeeps(s, t);
    assert Live(t) == Live(s);
  }

  lemma FlushEmptyInv(s: State, t: State)
    requires Inv(s) && FlushEmptyStep(s, t)
    ensures Inv(t)
  {
    SameHistoryKeeps(s, t);
    assert Live(t) == Live(s);
  }

  lemma SameUnion(mem: set<Entry>, imm: set<Entry>, all: set<Entry>, all2: set<Entry>)
    requires NewerThan(mem, imm + all) && all2 == all + imm
    ensures NewerThan(mem, {} + all2) && mem + imm + all == mem + {} + all2
  {
  }

  lemma FlushedVersion(imm: set<Entry>, v: Version, level: nat, f: File, v2: Version)
    requires VersionOrdered(v) && TableAdded(v, level, f, v2) && Elements(f.entries) == imm && NewerThan(imm, AllEntries(v))
    ensures VersionOrdered(v2) && AllEntries(v2) == AllEntries(v) + imm
  {
    AddedEntries(v, level, f, v2);
    AddKeepsOrder(v, level, f, v2);
  }

  /** With the full memtable in the levels there is one layer less. */
  lemma FlushOrdered(mem: set<Entry>, imm: set<Entry>, v: Version, level: nat, f: File, v2: Version)
    requires Ordered(mem, imm, v) && TableAdded(v, level, f, v2) && Elements(f.entries) == imm
    ensures Ordered(mem, {}, v2)
  {
    FlushedVersion(imm, v, level, f, v2);
    SameUnion(mem, imm, AllEntries(v), AllEntries(v2));
  }

  lemma OrderedWithoutImm(t: State, mem: set<Entry>)
    requires Ordered(mem, {}, t.version) && t.mem in t.tables && t.tables[t.mem] == mem && t.imm == None
    ensures OrderInv(t)
  {
  }

  lemma FlushKeepsOrder(s: State, level: nat, f: File, v: Version, t: State)
    requires OrderInv(s) && FlushStep(s, level, f, v, t)
    ensures Ordered(s.tables[s.mem], {}, v)
  {
    FlushOrdered(s.tables[s.mem], ImmEntries(s.tables, s.imm), s.version, level, f, v);
  }

  lemma FlushKeepsLive(s: State, level: nat, f: File, v: Version, t: State)
    requires s.mem in s.tables && FlushStep(s, level, f, v, t)
    ensures AllEntries(v) == AllEntries(s.version) + ImmEntries(s.tables, s.imm) && Live(t) == Live(s)
  {
    AddedEntries(s.version, level, f, v);
  }

  lemma FlushInv(s: State, level: nat, f: File, v: Version, t: State)
    requires Inv(s) && FlushStep(s, level, f, v, t)
    ensures Inv(t)
  {
    SameHistoryKeeps(s, t);
    FlushKeepsOrder(s, level, f, v, t);
    OrderedWithoutImm(t, s.tables[s.mem]);
    FlushKeepsLive(s, level, f, v, t);
    FlushKeepsBackground(s, level, f, v, t);
  }

  /** A table that comes in the middle of a compaction. */
  lemma FlushKeepsBackground(s: State, level: nat, f: File, v: Version, t: State)
    requires OrderInv(s) && BackgroundInv(s) && FlushStep(s, level, f, v, t)
    ensures BackgroundInv(t)
  {
    if s.background.Compacting? {
      GrowsByTable(s.background.base, s.version, level, f, v);
      PlacedByTable(s.background.base, s.version, level, f, v);
    }
  }

  lemma StartKeepsBackground(s: State, level: nat, inputs0: seq<File>, lo: UserKey, hi: UserKey, inputs1: seq<File>, t: State)
    requires SnapshotsInv(s) && OrderInv(s) && StartStep(s, level, inputs0, lo, hi, inputs1, t)
    ensures BackgroundInv(t) && SnapshotsInv(t)
  {
    NotGrownYet(s.version);
  }

  lemma StartInv(s: State, level: nat, inputs0: seq<File>, lo: UserKey, hi: UserKey, inputs1: seq<File>, t: State)
    requires Inv(s) && StartStep(s, level, inputs0, lo, hi, inputs1, t)
    ensures Inv(t)
  {
    SameReadersKept(s, t);
    StartKeepsBackground(s, level, inputs0, lo, hi, inputs1, t);
  }

  // ---- Compactions ----

  /** The version shrank to entries it had, in order, and reads from `floor` on agree. */
  ghost predicate Rewritten(s: State, v: Version, floor: nat) {
    && VersionOrdered(v) && AllEntries(v) <= AllEntries(s.version)
    && SameReads(Live(s), View(s.tables, s.mem, s.imm, v), floor)
  }

  lemma TopOfStore(s: State)
    requires OrderInv(s) && TablesInv(s)
    ensures NewerThan(Top(s), AllEntries(s.version)) && Distinct(Top(s) + AllEntries(s.version))
    ensures forall v :: View(s.tables, s.mem, s.imm, v) == Top(s) + AllEntries(v)
  {
    ViewInHistory(s, s.mem, s.imm, s.version);
    StillNewer(s.tables[s.mem], {}, ImmEntries(s.tables, s.imm) + AllEntries(s.version), AllEntries(s.version));
    assert s.tables[s.mem] + {} == s.tables[s.mem];
    NewerParts(s.tables[s.mem], ImmEntries(s.tables, s.imm), AllEntries(s.version));
  }

  /** The premise of the step is exact: with it, and only with it, the version is in order
      afterwards and reads from the oldest snapshot on are what they were. */
  lemma FinishRewrites(s: State, list: seq<Entry>, outputs: seq<File>, firstNumber: nat, v: Version)
    requires OrderInv(s) && TablesInv(s) && BackgroundInv(s) && Finishes(s, list, outputs, firstNumber, v)
    ensures Rewritten(s, v, s.background.snap) <==> Harmless(s, list, outputs)
  {
    var b := s.background;
    TopOfStore(s);
    OutputsAreDrawn(list, b.inputs0 + b.inputs1, b.snap, b.base, b.level, outputs);
    LateOrder(b.base, s.version, b.level, b.inputs0, b.lo, b.hi, b.inputs1, outputs, firstNumber, v);
    LateMeaning(Top(s), b.base, s.version, b.level, b.inputs0, b.lo, b.hi, b.inputs1, list, b.snap, outputs, v);
  }

  /** So is that of a move. */
  lemma MoveRewrites(s: State, level: nat, f: File, v: Version)
    requires OrderInv(s) && MovesDown(s, level, f, v)
    ensures Rewritten(s, v, 0) <==> NewerThan(Unpicked(s.version[level], [f]), Elements(f.entries))
    ensures AllEntries(v) == AllEntries(s.version)
  {
    assert f in [f];
    LevelFilesOk(s.version, level);
    MoveKeepsEntries(s.version, level, f, v);
    MoveOrder(s.version, level, f, v);
  }

  lemma RewriteKeepsOrder(s: State, v: Version, floor: nat, t: State)
    requires OrderInv(s) && TablesInv(s) && Rewritten(s, v, floor)
    requires t.version == v && t.tables == s.tables && t.mem == s.mem && t.imm == s.imm && t.ops == s.ops
    ensures OrderInv(t) && TablesInv(t)
  {
    var imm := ImmEntries(s.tables, s.imm);
    NewerSubsets(s.tables[s.mem], imm + AllEntries(s.version), s.tables[s.mem], imm + AllEntries(v));
    NewerSubsets(imm, AllEntries(s.version), imm, AllEntries(v));
  }

  /** A rewritten version is one more reason to trust only snapshots from `floor` on. */
  lemma RewriteInv(s: State, v: Version, floor: nat, t: State)
    requires Inv(s) && Rewritten(s, v, floor) && floor <= s.lastSequence
    requires forall id :: id in s.snapshots ==> floor <= s.snapshots[id]
    requires t == s.(version := v, background := Idle, floor := if floor > s.floor then floor else s.floor)
    ensures Inv(t)
  {
    SameHistoryKeeps(s, t);
    RewriteKeepsOrder(s, v, floor, t);
    forall u: UserKey, q: nat | t.floor <= q
      ensures Read(EntriesOf(t.ops), u, q) == Read(Live(t), u, q)
    {
      assert Read(Live(s), u, q) == Read(Live(t), u, q);
    }
  }

  // ---- Snapshots and readers ----

  lemma LastSequenceIsBoundary(s: State)
    requires OpsInv(s)
    ensures IsBoundary(s.batches, s.lastSequence)
  {
    assert s.batches[..|s.batches|] == s.batches;
    assert BoundaryAt(s.batches, |s.batches|, s.lastSequence);
  }

  lemma SnapshotInv(s: State, id: nat, t: State)
    requires Inv(s) && Step(s, TakeSnapshot(id), t)
    ensures Inv(t)
  {
    LastSequenceIsBoundary(s);
    SameReadersKept(s, t);
  }

  lemma SameReadersKept(s: State, t: State)
    requires ReadersInv(s) && t.tables == s.tables && t.mem == s.mem && t.ops == s.ops && t.batches == s.batches
    requires t.lastSequence == s.lastSequence
    requires forall id :: id in t.readers ==> id in s.readers && t.readers[id] == s.readers[id]
    ensures ReadersInv(t)
  {
    forall id | id in t.readers
      ensures ReaderOk(t, t.readers[id])
    {
      ReaderKept(s, t, s.readers[id]);
    }
  }

  /** A read captures the store as it is. */
  lemma NewReaderOk(s: State, q: nat)
    requires TablesInv(s) && OrderInv(s) && AgreesFrom(Live(s), s.ops, s.floor)
    requires s.floor <= q <= s.lastSequence && IsBoundary(s.batches, q)
    ensures ReaderOk(s, Reader(q, s.mem, s.imm, s.version))
  {
    assert ReaderView(s, Reader(q, s.mem, s.imm, s.version)) == Live(s);
  }

  lemma BeginReadInv(s: State, id: nat, at: Option<nat>, t: State)
    requires Inv(s) && BeginReadStep(s, id, at, t)
    ensures Inv(t)
  {
    LastSequenceIsBoundary(s);
    NewReaderOk(s, t.readers[id].snapshot);
    forall i | i in t.readers
      ensures ReaderOk(t, t.readers[i])
    {
      ReaderKept(s, t, t.readers[i]);
    }
  }

  lemma BeginGroupInv(s: State, group: seq<Batch>, t: State)
    requires Inv(s) && BeginGroupStep(s, group, t)
    ensures Inv(t)
  {
    SameReadersKept(s, t);
  }

  lemma ReleaseInv(s: State, t: State)
    requires Inv(s) && t == s.(snapshots := t.snapshots, readers := t.readers)
    requires t.snapshots.Keys <= s.snapshots.Keys && forall id :: id in t.snapshots ==> t.snapshots[id] == s.snapshots[id]
    requires forall id :: id in t.readers ==> id in s.readers && t.readers[id] == s.readers[id]
    ensures Inv(t)
  {
    SameReadersKept(s, t);
  }

  lemma FinishInv(s: State, list: seq<Entry>, outputs: seq<File>, firstNumber: nat, v: Version, t: State)
    requires Inv(s) && FinishStep(s, list, outputs, firstNumber, v, t)
    ensures Inv(t)
  {
    FinishRewrites(s, list, outputs, firstNumber, v);
    RewriteInv(s, v, s.background.snap, t);
  }

  lemma MoveInv(s: State, level: nat, f: File, v: Version, t: State)
    requires Inv(s) && MoveStep(s, level, f, v, t)
    ensures Inv(t)
  {
    MoveRewrites(s, level, f, v);
    RewriteInv(s, v, 0, t);
  }

  lemma StepInv(s: State, a: Action, t: State)
    requires Inv(s) && Step(s, a, t)
    ensures Inv(t)
  {
    match a
    case BeginGroup(group) => BeginGroupInv(s, group, t);
    case InsertOne => InsertInv(s, t);
    case Publish => PublishInv(s, t);
    case SwitchMemtable(table) => SwitchInv(s, table, t);
    case FlushEmpty => FlushEmptyInv(s, t);
    case Flush(level, f, v) => FlushInv(s, level, f, v, t);
    case StartCompaction(level, in0, lo, hi, in1) => StartInv(s, level, in0, lo, hi, in1, t);
    case FinishCompaction(list, outputs, n, v) => FinishInv(s, list, outputs, n, v, t);
    case TrivialMove(level, f, v) => MoveInv(s, level, f, v, t);
    case TakeSnapshot(id) => SnapshotInv(s, id, t);
    case ReleaseSnapshot(id) => ReleaseInv(s, t);
    case BeginRead(id, at) => BeginReadInv(s, id, at, t);
    case EndRead(id) => ReleaseInv(s, t);
  }

  // ---- Whole runs ----

  ghost predicate CanStep(s: State, t: State) {
    exists a :: Step(s, a, t)
  }

  ghost predicate IsRun(run: seq<State>) {
    && |run| > 0 && Init(run[0])
    && forall i :: 0 < i < |run| ==> CanStep(run[i - 1], run[i])
  }

  lemma CanStepInv(s: State, t: State)
    requires Inv(s) && CanStep(s, t)
    ensures Inv(t)
  {
    var a :| Step(s, a, t);
    StepInv(s, a, t);
  }

  lemma StepGrows(s: State, t: State)
    requires CanStep(s, t)
    ensures s.ops <= t.ops && s.batches <= t.batches
  {
    var a :| Step(s, a, t);
  }

  lemma {:induction false} RunInv(run: seq<State>, i: nat)
    requires IsRun(run) && i < |run|
    ensures Inv(run[i])
  {
    if i == 0 {
      InitInv(run[0]);
    } else {
      RunInv(run, i - 1);
      assert CanStep(run[i - 1], run[i]);
      CanStepInv(run[i - 1], run[i]);
    }
  }

  /** The outputs of inputs without a gap, as are all that the store picks by itself, fit
      between the tables that came meanwhile. */
  lemma GaplessCompactionFits(run: seq<State>, i: nat, list: seq<Entry>, outputs: seq<File>, firstNumber: nat, v: Version)
    requires IsRun(run) && i < |run| && Finishes(run[i], list, outputs, firstNumber, v)
    requires Gapless(run[i].background.inputs0 + run[i].background.inputs1)
    ensures FitsBeside(run[i].background.base, run[i].version, run[i].background.level, outputs)
  {
    RunInv(run, i);
    var b := run[i].background;
    OutputsAreDrawn(list, b.inputs0 + b.inputs1, b.snap, b.base, b.level, outputs);
    GaplessFits(b.base, run[i].version, b.level, b.inputs0, b.lo, b.hi, b.inputs1, outputs, firstNumber);
  }

  lemma {:induction false} HistoryGrows(run: seq<State>, i: nat, j: nat)
    requires IsRun(run) && i <= j < |run|
    ensures run[i].ops <= run[j].ops && run[i].batches <= run[j].batches
  {
    if i < j {
      HistoryGrows(run, i, j - 1);
      assert CanStep(run[j - 1], run[j]);
      StepGrows(run[j - 1], run[j]);
    }
  }

  /** What reading at the boundary after `k` batches gives. */
  ghost predicate ReadsAs(es: set<Entry>, q: nat, batches: seq<Batch>) {
    forall u :: Read(es, u, q) == Lookup(Concat(batches), u)
  }

  lemma AgreementIsLookup(es: set<Entry>, ops: seq<Op>, q: nat, batches: seq<Batch>, k: nat)
    requires q <= |ops| && AgreesAt(es, ops, q) && BoundaryAt(batches, k, q) && Concat(batches) <= ops
    ensures ReadsAs(es, q, batches[..k])
  {
    assert batches == batches[..k] + batches[k..];
    ConcatAppend(batches[..k], batches[k..]);
    assert ops[..q] == Concat(batches[..k]);
    forall u
      ensures Read(es, u, q) == Lookup(Concat(batches[..k]), u)
    {
      ReadIsLookup(ops, u, q);
    }
  }

  /** A read sees every write batch entirely or not at all: whatever it captured, it
      answers as the store was after some number of whole batches. */
  lemma ReadsSeeWholeBatches(run: seq<State>, i: nat, id: nat) returns (k: nat)
    requires IsRun(run) && i < |run| && id in run[i].readers
    ensures k <= |run[i].batches| && run[i].readers[id].snapshot == |Concat(run[i].batches[..k])|
    ensures ReadsAs(ReaderView(run[i], run[i].readers[id]), run[i].readers[id].snapshot, run[i].batches[..k])
  {
    RunInv(run, i);
    k := ReaderSeesWholeBatches(run[i], run[i].readers[id]);
  }

  lemma ReaderSeesWholeBatches(s: State, r: Reader) returns (k: nat)
    requires OpsInv(s) && ReaderOk(s, r)
    ensures k <= |s.batches| && r.snapshot == |Concat(s.batches[..k])| && ReadsAs(ReaderView(s, r), r.snapshot, s.batches[..k])
  {
    k :| BoundaryAt(s.batches, k, r.snapshot);
    AgreementIsLookup(ReaderView(s, r), s.ops, r.snapshot, s.batches, k);
  }

  /** A read without a snapshot, begun now, sees all batches published so far. */
  lemma LatestReadSeesAll(run: seq<State>, i: nat)
    requires IsRun(run) && i < |run|
    ensures ReadsAs(Live(run[i]), run[i].lastSequence, run[i].batches)
  {
    RunInv(run, i);
    var s := run[i];
    assert s.batches[..|s.batches|] == s.batches;
    assert BoundaryAt(s.batches, |s.batches|, s.lastSequence);
    AgreementIsLookup(Live(s), s.ops, s.lastSequence, s.batches, |s.batches|);
  }

  ghost predicate HeldThroughout(run: seq<State>, i: nat, j: nat, id: nat, q: nat) {
    && i <= j < |run|
    && forall k :: i <= k <= j ==> id in run[k].snapshots && run[k].snapshots[id] == q
  }

  /** A held snapshot is stable: through writes, switches, flushes and compactions, a
      read at it goes on giving the same answer, that of the moment it was taken. */
  lemma SnapshotStability(run: seq<State>, i: nat, j: nat, id: nat, q: nat, u: UserKey)
    requires IsRun(run) && HeldThroughout(run, i, j, id, q)
    ensures Read(Live(run[i]), u, q) == Read(Live(run[j]), u, q)
    ensures q <= |run[i].ops| && Read(Live(run[j]), u, q) == Lookup(run[i].ops[..q], u)
  {
    RunInv(run, i);
    RunInv(run, j);
    HistoryGrows(run, i, j);
    assert run[i].snapshots[id] == q && run[j].snapshots[id] == q;
    assert run[j].ops[..q] == run[i].ops[..q];
    ReadIsLookup(run[i].ops, u, q);
    ReadIsLookup(run[j].ops, u, q);
  }

  /** A read under way is not disturbed either: what it captured goes on giving the
      answer the store had for its sequence number when it began. */
  lemma ReadUnderWayIsStable(run: seq<State>, i: nat, j: nat, id: nat, u: UserKey)
    requires IsRun(run) && i <= j < |run| && id in run[i].readers && id in run[j].readers
    requires run[i].readers[id] == run[j].readers[id]
    ensures var r := run[i].readers[id];
            Read(ReaderView(run[i], r), u, r.snapshot) == Read(ReaderView(run[j], r), u, r.snapshot)
  {
    HistoryGrows(run, i, j);
    var r := run[i].readers[id];
    ReaderReads(run, i, id, u);
    ReaderReads(run, j, id, u);
    assert run[j].ops[..r.snapshot] == run[i].ops[..r.snapshot];
  }

  lemma ReaderReads(run: seq<State>, i: nat, id: nat, u: UserKey)
    requires IsRun(run) && i < |run| && id in run[i].readers
    ensures var s, r := run[i], run[i].readers[id];
            r.snapshot <= |s.ops| && Read(ReaderView(s, r), u, r.snapshot) == Lookup(s.ops[..r.snapshot], u)
  {
    RunInv(run, i);
    assert ReaderOk(run[i], run[i].readers[id]);
    ReadIsLookup(run[i].ops, u, run[i].readers[id].snapshot);
  }
}
