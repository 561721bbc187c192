/** The writer queue: the front writer commits a group of waiting batches in one
    log record while others queue up behind it. Each turn at the mutex and each
    unlocked operation is a step, so all interleavings of writers are runs. */
module GroupCommit {
  import opened Keys
  import opened Histories

  /** What a caller of `Write` asks for; no batch means "just wait for earlier writes".
      `size` is the byte size of the batch. */
  datatype Request = Request(batch: Option<seq<Op>>, sync: bool, size: nat)

  datatype Status = Ok | Error

  // ---- Building a group ----

  /** How far a group that started with `first` may grow. */
  function MaxSize(first: Request): nat {
    if first.size <= 0x2_0000 then first.size + 0x2_0000 else 0x10_0000
  }

  /** The end of the group: position `i` is next to be considered, `size` bytes are in. */
  function GroupEnd(reqs: seq<Request>, i: nat, size: nat): (n: nat)
    requires 0 < i <= |reqs|
    ensures i <= n <= |reqs|
    decreases |reqs| - i
  {
    if i == |reqs| || (reqs[i].sync && !reqs[0].sync) then i
    else if reqs[i].batch == None then GroupEnd(reqs, i + 1, size)
    else if size + reqs[i].size > MaxSize(reqs[0]) then i
    else GroupEnd(reqs, i + 1, size + reqs[i].size)
  }

  function GroupLength(reqs: seq<Request>): (n: nat)
    requires reqs != []
    ensures 1 <= n <= |reqs|
  {
    GroupEnd(reqs, 1, reqs[0].size)
  }

  /** The operations of the batches, in order. */
  function Updates(reqs: seq<Request>): seq<Op> {
    if reqs == [] then []
    else Updates(reqs[..|reqs| - 1]) + reqs[|reqs| - 1].batch.GetOr([])
  }

  /** The batches stand in `updates` one right behind the other, in order of arrival:
      that of request `j` from `offs[j]` up to `offs[j + 1]`. */
  ghost predicate LaidOut(reqs: seq<Request>, updates: seq<Op>, offs: seq<nat>) {
    && |offs| == |reqs| + 1 && offs[0] == 0 && offs[|reqs|] == |updates|
    && forall j {:trigger reqs[j]} :: 0 <= j < |reqs| ==>
         StandsAt(reqs[j].batch, updates, offs[j], offs[j + 1])
  }

  ghost predicate StandsAt(batch: Option<seq<Op>>, updates: seq<Op>, o: nat, end: nat) {
    o <= end <= |updates| && updates[o..end] == match batch case Some(ops) => ops case None => []
  }

  lemma {:induction false} UpdatesLaidOut(reqs: seq<Request>) returns (offs: seq<nat>)
    ensures LaidOut(reqs, Updates(reqs), offs)
  {
    if reqs == [] {
      offs := [0];
    } else {
      var n := |reqs| - 1;
      var before := UpdatesLaidOut(reqs[..n]);
      offs := OneMoreLaidOut(reqs, Updates(reqs[..n]), before);
    }
  }

  lemma OneMoreLaidOut(reqs: seq<Request>, updates: seq<Op>, before: seq<nat>) returns (offs: seq<nat>)
    requires reqs != [] && LaidOut(reqs[..|reqs| - 1], updates, before)
    ensures LaidOut(reqs, updates + reqs[|reqs| - 1].batch.GetOr([]), offs)
  {
    var n := |reqs| - 1;
    var all := updates + reqs[n].batch.GetOr([]);
    offs := before + [|all|];
    assert StandsAt(reqs[n].batch, all, offs[n], offs[n + 1]);
    forall j {:trigger reqs[j]} | 0 <= j < n
      ensures StandsAt(reqs[j].batch, all, offs[j], offs[j + 1])
    {
      assert reqs[..n][j] == reqs[j];
      StillStands(reqs[j].batch, updates, all, before[j], before[j + 1]);
    }
  }

  lemma StillStands(batch: Option<seq<Op>>, updates: seq<Op>, all: seq<Op>, o: nat, end: nat)
    requires StandsAt(batch, updates, o, end) && updates <= all
    ensures StandsAt(batch, all, o, end)
  {
    assert all[o..end] == updates[o..end];
  }

  lemma FrontLaidOut(reqs: seq<Request>, n: nat) returns (offs: seq<nat>)
    requires n <= |reqs|
    ensures |offs| == n + 1 && offs[0] == 0 && offs[n] == |Updates(reqs[..n])|
    ensures forall j {:trigger reqs[j]} :: 0 <= j < n ==> StandsAt(reqs[j].batch, Updates(reqs[..n]), offs[j], offs[j + 1])
  {
    offs := UpdatesLaidOut(reqs[..n]);
    assert forall j :: 0 <= j < n ==> reqs[..n][j] == reqs[j];
  }

  /** The loop of `BuildBatchGroup`: which writers the leader carries, and their merged batch. */
  method BuildBatchGroup(reqs: seq<Request>) returns (last: nat, result: seq<Op>, ghost offs: seq<nat>)
    requires reqs != [] && reqs[0].batch.Some?
    ensures last + 1 == GroupLength(reqs)
    ensures MayGroup(reqs, last + 1) && forall m :: last + 1 < m <= |reqs| ==> !MayGroup(reqs, m)
    ensures result == Updates(reqs[..last + 1])
    ensures |offs| == last + 2 && offs[0] == 0 && offs[last + 1] == |result|
    ensures forall j {:trigger reqs[j]} :: 0 <= j <= last ==>
              StandsAt(reqs[j].batch, result, offs[j], offs[j + 1])
  {
    var first := reqs[0];
    result := first.batch.value;
    var size: nat := first.size;
    var maxSize := 0x10_0000;
    if size <= 0x2_0000 {
      maxSize := size + 0x2_0000;
    }
    last := 0;
    assert reqs[..1] == [first] && reqs[..1][..0] == [];
    var i: nat := 1;
    while i < |reqs|
      invariant 1 <= i <= |reqs| && last + 1 == i
      invariant result == Updates(reqs[..i])
      invariant GroupLength(reqs) == GroupEnd(reqs, i, size)
    {
      var w := reqs[i];
      if w.sync && !first.sync {
        // Do not include a sync write into a batch handled by a non-sync write
        break;
      }
      if w.batch.Some? {
        if size + w.size > maxSize {
          // Do not make batch too big
          break;
        }
        size := size + w.size;
        result := result + w.batch.value;
      }
      assert reqs[..i + 1][..i] == reqs[..i];
      last := i;
      i := i + 1;
    }
    GroupIsLongest(reqs);
    offs := FrontLaidOut(reqs, last + 1);
  }

  /** A group led by a non-sync writer carries no sync writer. */
  ghost predicate SyncLed(reqs: seq<Request>) {
    forall j :: 0 <= j < |reqs| && reqs[j].sync ==> reqs[0].sync
  }

  lemma {:induction false} GroupSync(reqs: seq<Request>, i: nat, size: nat)
    requires 0 < i <= |reqs| && SyncLed(reqs[..i])
    ensures SyncLed(reqs[..GroupEnd(reqs, i, size)])
    decreases |reqs| - i
  {
    if i < |reqs| && !(reqs[i].sync && !reqs[0].sync) {
      if reqs[i].batch == None {
        GroupSync(reqs, i + 1, size);
      } else if size + reqs[i].size <= MaxSize(reqs[0]) {
        GroupSync(reqs, i + 1, size + reqs[i].size);
      }
    }
  }

  /** The bytes of the batches among the first `n`. */
  function BatchBytes(reqs: seq<Request>, n: nat): nat
    requires n <= |reqs|
  {
    if n == 0 then 0 else BatchBytes(reqs, n - 1) + if reqs[n - 1].batch.Some? then reqs[n - 1].size else 0
  }

  /** The first `n` may go together: no sync write behind a leader that does not sync,
      and every batch that joins leaves the group below a megabyte, or below 128
      kilobytes more than its first batch when that one is small. */
  ghost predicate MayGroup(reqs: seq<Request>, n: nat)
    requires 0 < n <= |reqs|
  {
    && SyncLed(reqs[..n])
    && forall j :: 1 <= j < n && reqs[j].batch.Some? ==>
         BatchBytes(reqs, j + 1) <= if reqs[0].size <= 128 * 1024 then reqs[0].size + 128 * 1024 else 1024 * 1024
  }

  lemma {:induction false} EndIsLongest(reqs: seq<Request>, i: nat)
    requires 0 < i <= |reqs| && reqs[0].batch.Some? && MayGroup(reqs, i)
    ensures var n := GroupEnd(reqs, i, BatchBytes(reqs, i));
            MayGroup(reqs, n) && forall m :: n < m <= |reqs| ==> !MayGroup(reqs, m)
    decreases |reqs| - i
  {
    if i < |reqs| {
      assert forall m :: i < m <= |reqs| ==> reqs[..m][i] == reqs[i];
      if MayGroup(reqs, i + 1) {
        EndIsLongest(reqs, i + 1);
      }
    }
  }

  /** The group is the longest one allowed. */
  lemma GroupIsLongest(reqs: seq<Request>)
    requires reqs != [] && reqs[0].batch.Some?
    ensures MayGroup(reqs, GroupLength(reqs)) && forall m :: GroupLength(reqs) < m <= |reqs| ==> !MayGroup(reqs, m)
  {
    assert BatchBytes(reqs, 1) == BatchBytes(reqs, 0) + reqs[0].size;
    EndIsLongest(reqs, 1);
  }

  // ---- The protocol ----

  type WriterId = nat

  /** A group being committed or gone from the queue: its members in queue order,
      whether its batches were written, the last sequence number before it, how far
      it got, and what every member is told. */
  datatype Group = Group(members: seq<WriterId>, written: bool, prior: nat, updates: seq<Op>,
                         logged: bool, sync: SyncResult, inserted: nat, status: Status)

  datatype SyncResult = NotSynced | Synced | SyncFailed

  /** How far the writer at the front has got. The mutex is held while choosing the
      group and while finishing, and free in between. */
  datatype Phase = MakingRoom | Logging | Syncing | Inserting | Finishing

  datatype Leader = NoLeader | Leading(phase: Phase, group: Group)

  /** `arrived` holds everyone who ever joined in order of arrival; `log` the log
      records, each with its members; `mem` the operations in the memtable with their sequence
      numbers; `told` the status each finished writer got; `history` the groups. */
  datatype LogRecord = LogRecord(members: seq<WriterId>, sequence: nat, ops: seq<Op>)

  datatype State = State(
    requests: map<WriterId, Request>,
    arrived: seq<WriterId>,
    queue: seq<WriterId>,
    leader: Leader,
    bgError: bool,
    lastSequence: nat,
    log: seq<LogRecord>,
    mem: seq<(nat, Op)>,
    told: map<WriterId, Status>,
    history: seq<Group>)

  datatype Action =
    | Join(writer: WriterId, request: Request)
    | Lead
    | RoomMade
    | RoomFailed
    | LogAppended(ok: bool)
    | LogSynced(ok: bool)
    | InsertOne
    | InsertDone(ok: bool)
    | Finish
    | BackgroundError

  ghost predicate Known(requests: map<WriterId, Request>, ws: seq<WriterId>) {
    forall i :: 0 <= i < |ws| ==> ws[i] in requests
  }

  function Of(requests: map<WriterId, Request>, ws: seq<WriterId>): (reqs: seq<Request>)
    requires Known(requests, ws)
  {
    seq(|ws|, i requires 0 <= i < |ws| => requests[ws[i]])
  }

  ghost predicate Init(s: State, base: nat) {
    && s.requests == map[] && s.arrived == [] && s.queue == [] && s.leader == NoLeader && s.lastSequence == base
    && s.log == [] && s.mem == [] && s.told == map[] && s.history == []
  }

  ghost predicate JoinStep(s: State, w: WriterId, r: Request, t: State) {
    && w !in s.requests
    && t == s.(requests := s.requests[w := r], arrived := s.arrived + [w], queue := s.queue + [w])
  }

  /** A writer on its own, with nothing written. */
  function Alone(w: WriterId, status: Status): Group {
    Group([w], false, 0, [], false, NotSynced, 0, status)
  }

  /** The front writer finds itself at the front and not done. */
  ghost predicate LeadStep(s: State, t: State) {
    s.leader == NoLeader && s.queue != [] && t == s.(leader := Leading(MakingRoom, Alone(s.queue[0], Ok)))
  }

  ghost predicate At(s: State, phase: Phase) {
    s.leader.Leading? && s.leader.phase == phase
  }

  /** Room was made: a batch starts a group, no batch is a group of its own. */
  ghost predicate RoomMadeStep(s: State, t: State) {
    && At(s, MakingRoom) && !s.bgError && s.queue != [] && Known(s.requests, s.queue)
    && var reqs := Of(s.requests, s.queue);
       var n := GroupLength(reqs);
       t == s.(leader := if reqs[0].batch == None then Leading(Finishing, s.leader.group)
                         else Leading(Logging, Group(s.queue[..n], true, s.lastSequence, Updates(reqs[..n]),
                                                     false, NotSynced, 0, Ok)))
  }

  /** An earlier background error, or a failure to open a new log, fails this writer alone. */
  ghost predicate RoomFailedStep(s: State, t: State) {
    At(s, MakingRoom) && t == s.(leader := Leading(Finishing, s.leader.group.(status := Error)))
  }

  ghost predicate LogAppendedStep(s: State, ok: bool, t: State) {
    && At(s, Logging) && s.leader.group.members != [] && s.leader.group.members[0] in s.requests
    && var g := s.leader.group;
       if !ok then t == s.(leader := Leading(Finishing, g.(status := Error)))
       else t == s.(log := s.log + [LogRecord(g.members, g.prior + 1, g.updates)],
                    leader := Leading(if s.requests[g.members[0]].sync then Syncing else Inserting, g.(logged := true)))
  }

  ghost predicate LogSyncedStep(s: State, ok: bool, t: State) {
    && At(s, Syncing)
    && t == s.(leader := if ok then Leading(Inserting, s.leader.group.(sync := Synced))
                         else Leading(Finishing, s.leader.group.(status := Error, sync := SyncFailed)))
  }

  ghost predicate InsertOneStep(s: State, t: State) {
    && At(s, Inserting) && s.leader.group.inserted < |s.leader.group.updates|
    && var g := s.leader.group;
       t == s.(mem := s.mem + [(g.prior + 1 + g.inserted, g.updates[g.inserted])],
               leader := Leading(Inserting, g.(inserted := g.inserted + 1)))
  }

  /** Insertion ends well only after the last operation. */
  ghost predicate InsertDoneStep(s: State, ok: bool, t: State) {
    && At(s, Inserting) && (ok ==> s.leader.group.inserted == |s.leader.group.updates|)
    && t == s.(leader := Leading(Finishing, s.leader.group.(status := if ok then Ok else Error)))
  }

  /** Back under the mutex: a sync error stops all later writes, the last sequence is
      published, the group leaves the queue, and every member is told its status. */
  ghost predicate FinishStep(s: State, t: State) {
    && At(s, Finishing) && |s.leader.group.members| <= |s.queue|
    && var g := s.leader.group;
       t == s.(bgError := s.bgError || g.sync.SyncFailed?,
               lastSequence := if g.written then g.prior + |g.updates| else s.lastSequence,
               queue := s.queue[|g.members|..],
               told := s.told + map w | w in s.queue[..|g.members|] :: g.status,
               history := s.history + [g],
               leader := NoLeader)
  }

  ghost predicate Step(s: State, a: Action, t: State) {
    match a
    case Join(w, r) => JoinStep(s, w, r, t)
    case Lead => LeadStep(s, t)
    case RoomMade => RoomMadeStep(s, t)
    case RoomFailed => RoomFailedStep(s, t)
    case LogAppended(ok) => LogAppendedStep(s, ok, t)
    case LogSynced(ok) => LogSyncedStep(s, ok, t)
    case InsertOne => InsertOneStep(s, t)
    case InsertDone(ok) => InsertDoneStep(s, ok, t)
    case Finish => FinishStep(s, t)
    case BackgroundError => t == s.(bgError := true)
  }

  // ---- What a history of groups adds up to ----

  ghost function Members(gs: seq<Group>): seq<WriterId> {
    if gs == [] then [] else Members(gs[..|gs| - 1]) + gs[|gs| - 1].members
  }

  ghost function Record(g: Group): seq<LogRecord> {
    if g.logged then [LogRecord(g.members, g.prior + 1, g.updates)] else []
  }

  ghost function LogRecords(gs: seq<Group>): seq<LogRecord> {
    if gs == [] then []
    else LogRecords(gs[..|gs| - 1]) + Record(gs[|gs| - 1])
  }

  /** The operations of `g` that reached the memtable, numbered. */
  ghost function Numbered(g: Group): seq<(nat, Op)> {
    if g.inserted > |g.updates| then []
    else seq(g.inserted, k requires 0 <= k < g.inserted => (g.prior + 1 + k, g.updates[k]))
  }

  ghost function Inserted(gs: seq<Group>): seq<(nat, Op)> {
    if gs == [] then [] else Inserted(gs[..|gs| - 1]) + Numbered(gs[|gs| - 1])
  }

  /** The last sequence number handed out. */
  ghost function LastOf(base: nat, gs: seq<Group>): nat {
    if gs == [] then base
    else LastOf(base, gs[..|gs| - 1]) + |gs[|gs| - 1].updates|
  }

  // ---- Invariant ----

  /** All that is always true of a group, whether under way or finished. */
  ghost predicate GroupOk(requests: map<WriterId, Request>, g: Group) {
    && g.members != [] && Known(requests, g.members)
    && g.inserted <= |g.updates| && (g.inserted > 0 ==> g.logged) && (g.logged ==> g.written)
    && (if g.written then CarriesBatches(Of(requests, g.members), g.updates) else g.updates == [] && |g.members| == 1)
  }

  ghost predicate CarriesBatches(reqs: seq<Request>, updates: seq<Op>) {
    updates == Updates(reqs) && SyncLed(reqs)
  }

  /** Good news is only given out for a group that is logged, synced if its leader asked
      for that, and wholly in the memtable; or for a writer without a batch. */
  ghost predicate GroupDone(leader: Request, g: Group) {
    && (g.status == Ok && g.written ==> g.logged && g.inserted == |g.updates| && (leader.sync ==> g.sync == Synced))
    && (g.status == Ok && !g.written ==> leader.batch == None)
    && (g.sync.SyncFailed? ==> g.status == Error)
  }

  /** Where the group under way stands. */
  ghost predicate PhaseOk(phase: Phase, leader: Request, g: Group) {
    match phase
    case MakingRoom => !g.written && !g.logged && g.sync == NotSynced
    case Logging => g.written && !g.logged && g.inserted == 0 && g.sync == NotSynced
    case Syncing => g.written && g.logged && g.inserted == 0 && g.sync == NotSynced
    case Inserting => g.written && g.logged && !g.sync.SyncFailed? && (leader.sync ==> g.sync == Synced)
    case Finishing => GroupDone(leader, g)
  }

  ghost predicate QueueInv(s: State) {
    && s.arrived == Members(s.history) + s.queue
    && (forall i, j :: 0 <= i < j < |s.arrived| ==> s.arrived[i] != s.arrived[j])
    && (forall w :: w in s.requests <==> w in s.arrived)
    && (s.leader.Leading? ==> s.leader.group.members <= s.queue)
  }

  ghost predicate GroupsInv(s: State) {
    && (forall k :: 0 <= k < |s.history| ==>
          GroupOk(s.requests, s.history[k]) && GroupDone(s.requests[s.history[k].members[0]], s.history[k]))
    && (s.leader.Leading? ==> && GroupOk(s.requests, s.leader.group)
                              && PhaseOk(s.leader.phase, s.requests[s.leader.group.members[0]], s.leader.group))
  }

  /** Exactly the members of finished groups have been told, each its own group's status. */
  ghost predicate AllTold(told: map<WriterId, Status>, gs: seq<Group>) {
    && (forall w :: w in told <==> w in Members(gs))
    && (forall k :: 0 <= k < |gs| ==> GroupTold(told, gs[k]))
  }

  ghost predicate GroupTold(told: map<WriterId, Status>, g: Group) {
    forall w :: w in g.members ==> w in told && told[w] == g.status
  }

  ghost predicate ToldInv(s: State) {
    AllTold(s.told, s.history)
  }

  ghost predicate SequenceInv(s: State, base: nat) {
    && s.lastSequence == LastOf(base, s.history)
    && (s.leader.Leading? && s.leader.group.written ==> s.leader.group.prior == s.lastSequence)
    && (forall k :: 0 <= k < |s.history| && s.history[k].written ==> s.history[k].prior == LastOf(base, s.history[..k]))
  }

  ghost predicate LogInv(s: State) {
    && s.log == LogRecords(s.history) + (if s.leader.Leading? then Record(s.leader.group) else [])
    && s.mem == Inserted(s.history) + (if s.leader.Leading? then Numbered(s.leader.group) else [])
  }

  /** After a failed sync nobody is served. */
  ghost predicate SyncInv(s: State) {
    && (forall j :: 0 <= j < |s.history| && s.history[j].sync.SyncFailed? ==>
          s.bgError && (s.leader.Leading? ==> !s.leader.group.written && (At(s, MakingRoom) || s.leader.group.status == Error)))
    && (forall j, k :: 0 <= j < k < |s.history| && s.history[j].sync.SyncFailed? ==>
          !s.history[k].written && s.history[k].status == Error)
  }

  ghost predicate Inv(s: State, base: nat) {
    QueueInv(s) && GroupsInv(s) && ToldInv(s) && SequenceInv(s, base) && LogInv(s) && SyncInv(s)
  }

  lemma InitInv(s: State, base: nat)
    requires Init(s, base)
    ensures Inv(s, base)
  {
  }

  // ---- Steps before the group leaves ----

  /** Nothing but the group under way, the log and the memtable may have changed. */
  ghost predicate SameBooks(s: State, t: State) {
    && t.requests == s.requests && t.arrived == s.arrived && t.queue == s.queue && t.told == s.told
    && t.history == s.history && t.lastSequence == s.lastSequence
  }

  lemma ChosenGroupOk(requests: map<WriterId, Request>, queue: seq<WriterId>)
    requires queue != [] && Known(requests, queue)
    ensures var reqs := Of(requests, queue); var n := GroupLength(reqs);
            Known(requests, queue[..n]) && CarriesBatches(Of(requests, queue[..n]), Updates(reqs[..n]))
  {
    var reqs := Of(requests, queue);
    var n := GroupLength(reqs);
    GroupSync(reqs, 1, reqs[0].size);
    assert Of(requests, queue[..n]) == reqs[..n];
  }

  lemma RoomMadeKeepsGroups(s: State, t: State)
    requires QueueInv(s) && GroupsInv(s) && RoomMadeStep(s, t)
    ensures SameBooks(s, t) && QueueInv(t) && GroupsInv(t)
  {
    ChosenGroupOk(s.requests, s.queue);
  }

  lemma UnderWayKeepsGroups(s: State, a: Action, t: State)
    requires QueueInv(s) && GroupsInv(s) && Step(s, a, t) && !a.Join? && !a.Finish? && !a.RoomMade?
    ensures SameBooks(s, t) && QueueInv(t) && GroupsInv(t)
  {
    if a.LogAppended? || a.LogSynced? {
    } else if a.InsertOne? || a.InsertDone? {
    } else {
    }
  }

  lemma UnderWayKeepsSync(s: State, a: Action, t: State)
    requires GroupsInv(s) && SyncInv(s) && Step(s, a, t) && !a.Join? && !a.Finish?
    ensures SyncInv(t)
  {
  }

  lemma OneMoreInserted(mem: seq<(nat, Op)>, before: seq<(nat, Op)>, g: Group)
    requires g.inserted < |g.updates| && mem == before + Numbered(g)
    ensures mem + [(g.prior + 1 + g.inserted, g.updates[g.inserted])] == before + Numbered(g.(inserted := g.inserted + 1))
  {
    var x := (g.prior + 1 + g.inserted, g.updates[g.inserted]);
    assert Numbered(g.(inserted := g.inserted + 1)) == Numbered(g) + [x];
    assert (before + Numbered(g)) + [x] == before + (Numbered(g) + [x]);
  }

  lemma InsertOneKeepsLog(s: State, t: State)
    requires LogInv(s) && InsertOneStep(s, t)
    ensures LogInv(t)
  {
    OneMoreInserted(s.mem, Inserted(s.history), s.leader.group);
    assert Record(t.leader.group) == Record(s.leader.group);
  }

  /** The log and the memtable hold what the finished groups and the one under way put there. */
  lemma UnderWayKeepsLog(s: State, a: Action, t: State)
    requires GroupsInv(s) && LogInv(s) && Step(s, a, t) && !a.Join? && !a.Finish?
    ensures LogInv(t)
  {
    if a.InsertOne? {
      InsertOneKeepsLog(s, t);
    } else if a.LogAppended? {
      AppendKeepsLog(s, a.ok, t);
    } else {
      QuietStepKeepsLog(s, a, t);
    }
  }

  lemma AppendKeepsLog(s: State, ok: bool, t: State)
    requires GroupsInv(s) && LogInv(s) && LogAppendedStep(s, ok, t)
    ensures LogInv(t)
  {
    var g := s.leader.group;
    assert Record(g) == [];
    if ok {
      assert Record(t.leader.group) == [LogRecord(g.members, g.prior + 1, g.updates)];
      assert s.log == LogRecords(s.history) + [];
    }
  }

  lemma QuietStepKeepsLog(s: State, a: Action, t: State)
    requires GroupsInv(s) && LogInv(s) && Step(s, a, t)
    requires !a.Join? && !a.Finish? && !a.InsertOne? && !a.LogAppended?
    ensures LogInv(t)
  {
    if a.Lead? || a.RoomMade? {
      assert s.leader.Leading? ==> !s.leader.group.logged && s.leader.group.inserted == 0;
      StartKeepsLog(s, a, t);
    } else {
      SameGroupKeepsLog(s, a, t);
    }
  }

  lemma StartKeepsLog(s: State, a: Action, t: State)
    requires LogInv(s) && Step(s, a, t) && (a.Lead? || a.RoomMade?)
    requires s.leader.Leading? ==> !s.leader.group.logged && s.leader.group.inserted == 0
    ensures LogInv(t)
  {
    if s.leader.Leading? {
      NewGroupIsEmpty(s.leader.group);
    }
    NewGroupIsEmpty(t.leader.group);
  }

  lemma SameGroupKeepsLog(s: State, a: Action, t: State)
    requires LogInv(s) && Step(s, a, t) && (a.RoomFailed? || a.LogSynced? || a.InsertDone? || a.BackgroundError?)
    ensures LogInv(t)
  {
    if t.leader.Leading? {
      StatusOnly(s.leader.group, t.leader.group);
    }
  }

  lemma StatusOnly(g: Group, h: Group)
    requires h == g.(status := h.status, sync := h.sync)
    ensures Record(h) == Record(g) && Numbered(h) == Numbered(g)
  {
  }

  lemma NewGroupIsEmpty(g: Group)
    requires !g.logged && g.inserted == 0
    ensures Record(g) == [] && Numbered(g) == []
  {
  }

  lemma SameBooksKeep(s: State, t: State, base: nat)
    requires SameBooks(s, t) && ToldInv(s) && SequenceInv(s, base)
    requires t.leader.Leading? && t.leader.group.written ==> t.leader.group.prior == s.lastSequence
    ensures ToldInv(t) && SequenceInv(t, base)
  {
  }

  lemma UnderWayInv(s: State, a: Action, t: State, base: nat)
    requires Inv(s, base) && Step(s, a, t) && !a.Join? && !a.Finish?
    ensures Inv(t, base)
  {
    UnderWayKeepsSync(s, a, t);
    UnderWayKeepsLog(s, a, t);
    if a.RoomMade? {
      RoomMadeKeepsGroups(s, t);
    } else {
      UnderWayKeepsGroups(s, a, t);
    }
    UnderWayKeepsPrior(s, a, t);
    SameBooksKeep(s, t, base);
  }

  lemma UnderWayKeepsPrior(s: State, a: Action, t: State)
    requires GroupsInv(s) && Step(s, a, t) && !a.Join? && !a.Finish?
    requires s.leader.Leading? && s.leader.group.written ==> s.leader.group.prior == s.lastSequence
    ensures t.leader.Leading? && t.leader.group.written ==> t.leader.group.prior == s.lastSequence
  {
  }

  // ---- Joining ----

  lemma JoinKeepsGroup(s: State, w: WriterId, r: Request, t: State, g: Group)
    requires JoinStep(s, w, r, t) && GroupOk(s.requests, g)
    ensures GroupOk(t.requests, g)
  {
    assert g.written ==> Of(t.requests, g.members) == Of(s.requests, g.members);
  }

  lemma JoinKeepsQueue(s: State, w: WriterId, r: Request, t: State)
    requires QueueInv(s) && JoinStep(s, w, r, t)
    ensures QueueInv(t)
  {
  }

  lemma JoinKeepsGroups(s: State, w: WriterId, r: Request, t: State)
    requires GroupsInv(s) && JoinStep(s, w, r, t)
    ensures GroupsInv(t)
  {
    forall g | GroupOk(s.requests, g)
      ensures GroupOk(t.requests, g)
    {
      JoinKeepsGroup(s, w, r, t, g);
    }
  }

  /** None of these mentions the queue. */
  lemma JoinKeepsRest(s: State, w: WriterId, r: Request, t: State, base: nat)
    requires ToldInv(s) && SequenceInv(s, base) && LogInv(s) && SyncInv(s) && JoinStep(s, w, r, t)
    ensures ToldInv(t) && SequenceInv(t, base) && LogInv(t) && SyncInv(t)
  {
  }

  lemma JoinInv(s: State, w: WriterId, r: Request, t: State, base: nat)
    requires Inv(s, base) && JoinStep(s, w, r, t)
    ensures Inv(t, base)
  {
    JoinKeepsQueue(s, w, r, t);
    JoinKeepsGroups(s, w, r, t);
    JoinKeepsRest(s, w, r, t, base);
  }

  // ---- Finishing ----

  lemma FrontLeaves(arrived: seq<WriterId>, gone: seq<WriterId>, queue: seq<WriterId>, front: seq<WriterId>)
    requires arrived == gone + queue && front <= queue
    requires forall i, j :: 0 <= i < j < |arrived| ==> arrived[i] != arrived[j]
    ensures queue[..|front|] == front && arrived == gone + front + queue[|front|..]
    ensures forall w :: w in gone ==> w !in front
  {
    forall i, j | 0 <= i < |gone| && 0 <= j < |front|
      ensures gone[i] != front[j]
    {
      assert arrived[i] == gone[i] && arrived[|gone| + j] == front[j];
    }
  }

  lemma HistoryGrows(gs: seq<Group>, g: Group, base: nat)
    ensures (gs + [g])[..|gs|] == gs
    ensures Members(gs + [g]) == Members(gs) + g.members
    ensures LogRecords(gs + [g]) == LogRecords(gs) + Record(g)
    ensures Inserted(gs + [g]) == Inserted(gs) + Numbered(g)
    ensures LastOf(base, gs + [g]) == LastOf(base, gs) + |g.updates|
  {
    assert (gs + [g])[..|gs|] == gs;
  }

  lemma FinishKeepsQueue(s: State, t: State)
    requires QueueInv(s) && FinishStep(s, t)
    ensures QueueInv(t)
  {
    FrontLeaves(s.arrived, Members(s.history), s.queue, s.leader.group.members);
    HistoryGrows(s.history, s.leader.group, 0);
  }

  lemma FinishKeepsGroups(s: State, t: State)
    requires GroupsInv(s) && SyncInv(s) && FinishStep(s, t)
    ensures GroupsInv(t) && SyncInv(t)
  {
  }

  lemma FinishKeepsLog(s: State, t: State)
    requires LogInv(s) && FinishStep(s, t)
    ensures LogInv(t)
  {
    HistoryGrows(s.history, s.leader.group, 0);
  }

  lemma FinishKeepsSequence(s: State, t: State, base: nat)
    requires GroupsInv(s) && SequenceInv(s, base) && FinishStep(s, t)
    ensures SequenceInv(t, base)
  {
    HistoryGrows(s.history, s.leader.group, base);
    forall k | 0 <= k < |s.history|
      ensures t.history[..k] == s.history[..k]
    {
    }
  }

  lemma FinishKeepsTold(told: map<WriterId, Status>, gs: seq<Group>, g: Group, more: map<WriterId, Status>)
    requires AllTold(told, gs) && forall w :: w in Members(gs) ==> w !in g.members
    requires GroupTold(more, g) && forall w :: w in more <==> w in told || w in g.members
    requires forall w :: w in told && w !in g.members ==> more[w] == told[w]
    ensures AllTold(more, gs + [g])
  {
    HistoryGrows(gs, g, 0);
    forall k | 0 <= k < |gs|
      ensures GroupTold(more, gs[k])
    {
      OldGroupTold(told, gs[k], more, g.members);
    }
    forall w
      ensures w in more <==> w in Members(gs + [g])
    {
      assert w in Members(gs) + g.members <==> w in Members(gs) || w in g.members;
    }
  }

  lemma OldGroupTold(told: map<WriterId, Status>, h: Group, more: map<WriterId, Status>, newcomers: seq<WriterId>)
    requires GroupTold(told, h)
    requires forall w :: w in told ==> w !in newcomers && w in more && more[w] == told[w]
    ensures GroupTold(more, h)
  {
  }

  lemma FinishInv(s: State, t: State, base: nat)
    requires Inv(s, base) && FinishStep(s, t)
    ensures Inv(t, base)
  {
    FinishKeepsQueue(s, t);
    FinishKeepsGroups(s, t);
    FinishKeepsLog(s, t);
    FinishKeepsSequence(s, t, base);
    FrontLeaves(s.arrived, Members(s.history), s.queue, s.leader.group.members);
    FinishKeepsTold(s.told, s.history, s.leader.group, t.told);
  }

  lemma StepInv(s: State, a: Action, t: State, base: nat)
    requires Inv(s, base) && Step(s, a, t)
    ensures Inv(t, base)
  {
    if a.Join? {
      JoinInv(s, a.writer, a.request, t, base);
    } else if a.Finish? {
      FinishInv(s, t, base);
    } else {
      UnderWayInv(s, a, t, base);
    }
  }

  // ---- Whole runs ----

  ghost predicate CanStep(s: State, t: State) {
    exists a :: Step(s, a, t)
  }

  ghost predicate IsRun(run: seq<State>, base: nat) {
    && |run| > 0 && Init(run[0], base)
    && forall i :: 0 < i < |run| ==> CanStep(run[i - 1], run[i])
  }

  lemma {:induction false} RunInv(run: seq<State>, i: nat, base: nat)
    requires IsRun(run, base) && i < |run|
    ensures Inv(run[i], base)
  {
    if i == 0 {
      InitInv(run[0], base);
    } else {
      RunInv(run, i - 1, base);
      assert CanStep(run[i - 1], run[i]);
      var a :| Step(run[i - 1], a, run[i]);
      StepInv(run[i - 1], a, run[i], base);
    }
  }

  /** Groups leave in order of arrival, each a contiguous stretch, and nobody is in two. */
  lemma GroupsPartitionArrivals(run: seq<State>, i: nat, base: nat)
    requires IsRun(run, base) && i < |run|
    ensures var s := run[i];
            && s.arrived == Members(s.history) + s.queue
            && (forall j, k :: 0 <= j < k < |s.arrived| ==> s.arrived[j] != s.arrived[k])
            && (s.leader.Leading? ==> s.leader.group.members <= s.queue)
  {
    RunInv(run, i, base);
  }

  // ---- Each batch is in one log record ----

  ghost predicate NoRepeats<T>(xs: seq<T>) {
    forall i, j :: 0 <= i < j < |xs| ==> xs[i] != xs[j]
  }

  /** No writer is in two of the records. */
  ghost predicate Apart(records: seq<LogRecord>) {
    forall q, r, w :: 0 <= q < r < |records| && w in records[q].members ==> w !in records[r].members
  }

  lemma {:induction false} RecordsApart(gs: seq<Group>)
    requires NoRepeats(Members(gs))
    ensures Apart(LogRecords(gs))
    ensures forall q, w :: 0 <= q < |LogRecords(gs)| && w in LogRecords(gs)[q].members ==> w in Members(gs)
  {
    if gs != [] {
      var before, g := gs[..|gs| - 1], gs[|gs| - 1];
      assert NoRepeats(Members(before)) by {
        forall i, j | 0 <= i < j < |Members(before)|
          ensures Members(before)[i] != Members(before)[j]
        {
          assert Members(gs)[i] == Members(before)[i] && Members(gs)[j] == Members(before)[j];
        }
      }
      RecordsApart(before);
      FrontLeaves(Members(gs), Members(before), g.members, g.members);
    }
  }

  lemma {:induction false} LoggedGroupHasRecord(gs: seq<Group>, k: nat) returns (q: nat)
    requires k < |gs| && gs[k].logged
    ensures q < |LogRecords(gs)| && [LogRecords(gs)[q]] == Record(gs[k])
  {
    if k == |gs| - 1 {
      q := |LogRecords(gs)| - 1;
    } else {
      q := LoggedGroupHasRecord(gs[..|gs| - 1], k);
    }
  }

  /** The finished groups and the one under way, as one list. */
  ghost function AllGroups(s: State): seq<Group> {
    s.history + if s.leader.Leading? then [s.leader.group] else []
  }

  lemma AllGroupsFacts(s: State, base: nat)
    requires LogInv(s) && QueueInv(s)
    ensures s.log == LogRecords(AllGroups(s)) && s.mem == Inserted(AllGroups(s))
    ensures Members(AllGroups(s)) <= s.arrived && NoRepeats(Members(AllGroups(s)))
  {
    if s.leader.Leading? {
      HistoryGrows(s.history, s.leader.group, base);
    } else {
      assert AllGroups(s) == s.history;
    }
  }

  ghost predicate Wrote(s: State, w: WriterId) {
    w in s.requests && s.requests[w].batch.Some?
  }

  /** `w` is in a finished group that is in the log, in the memtable and on disk as asked,
      and its own operations are among those of the group. */
  ghost predicate Served(s: State, w: WriterId) {
    exists k: nat, q: nat, o: nat ::
      && k < |s.history| && q < |s.log| && w in s.history[k].members
      && ServedBy(s, w, s.history[k], s.log[q]) && Holds(s, w, s.log[q], o)
  }

  ghost predicate ServedBy(s: State, w: WriterId, g: Group, record: LogRecord) {
    && record.members == g.members && record.sequence == g.prior + 1 && record.ops == g.updates
    && (w in s.requests && s.requests[w].sync ==> g.sync == Synced)
  }

  /** What `w` asked for stands in the record from operation `o` on, and is in the memtable
      under the sequence numbers that the record gives it. */
  ghost predicate Holds(s: State, w: WriterId, record: LogRecord, o: nat) {
    && w in s.requests && s.requests[w].batch.Some?
    && var ops := s.requests[w].batch.value;
       && o + |ops| <= |record.ops| && record.ops[o..o + |ops|] == ops
       && forall n: nat :: n < |ops| ==> (record.sequence + o + n, ops[n]) in s.mem
  }

  /** The record holds the group's operations and they are all in the memtable. */
  ghost predicate InBooks(s: State, g: Group, record: LogRecord) {
    && record == LogRecord(g.members, g.prior + 1, g.updates)
    && forall n: nat :: n < |record.ops| ==> (record.sequence + n, record.ops[n]) in s.mem
  }

  lemma SucceededIsServed(s: State, w: WriterId)
    requires GroupsInv(s) && ToldInv(s) && w in s.told && s.told[w] == Ok && Wrote(s, w)
    requires forall g :: g in s.history && g.logged && g.inserted == |g.updates| ==>
               exists q :: 0 <= q < |s.log| && InBooks(s, g, s.log[q])
    ensures Served(s, w)
  {
    var k := ToldByGroup(s.told, s.history, w);
    FinishedGroupServes(s, k, w);
    var q :| 0 <= q < |s.log| && InBooks(s, s.history[k], s.log[q]);
    GroupIsServed(s, w, k, q);
  }

  lemma FinishedGroupServes(s: State, k: nat, w: WriterId)
    requires GroupsInv(s) && k < |s.history| && s.history[k].status == Ok && w in s.history[k].members && Wrote(s, w)
    ensures var g := s.history[k];
            && g.logged && g.inserted == |g.updates| && (s.requests[w].sync ==> g.sync == Synced)
            && Known(s.requests, g.members) && g.updates == Updates(Of(s.requests, g.members))
  {
    GroupServes(s.requests, s.history[k], w);
  }

  lemma GroupIsServed(s: State, w: WriterId, k: nat, q: nat)
    requires k < |s.history| && q < |s.log| && w in s.history[k].members && Wrote(s, w)
    requires ServedBy(s, w, s.history[k], s.log[q]) && Known(s.requests, s.log[q].members)
    requires s.log[q].ops == Updates(Of(s.requests, s.log[q].members))
    requires InBooks(s, s.history[k], s.log[q])
    ensures Served(s, w)
  {
    var o := MemberHolds(s, w, s.log[q]);
    assert ServedBy(s, w, s.history[k], s.log[q]) && Holds(s, w, s.log[q], o);
  }

  lemma MemberHolds(s: State, w: WriterId, record: LogRecord) returns (o: nat)
    requires Wrote(s, w) && w in record.members && Known(s.requests, record.members)
    requires record.ops == Updates(Of(s.requests, record.members))
    requires forall n: nat :: n < |record.ops| ==> (record.sequence + n, record.ops[n]) in s.mem
    ensures Holds(s, w, record, o)
  {
    var offs := UpdatesLaidOut(Of(s.requests, record.members));
    var j :| 0 <= j < |record.members| && record.members[j] == w;
    assert Of(s.requests, record.members)[j] == s.requests[w];
    o := offs[j];
    OwnOpsHeld(s, w, record, o, offs[j + 1]);
  }

  lemma OwnOpsHeld(s: State, w: WriterId, record: LogRecord, o: nat, end: nat)
    requires Wrote(s, w) && StandsAt(s.requests[w].batch, record.ops, o, end)
    requires forall n: nat :: n < |record.ops| ==> (record.sequence + n, record.ops[n]) in s.mem
    ensures Holds(s, w, record, o)
  {
    var ops := s.requests[w].batch.value;
    assert end == o + |ops|;
    forall n: nat | n < |ops|
      ensures (record.sequence + o + n, ops[n]) in s.mem
    {
      assert ops[n] == record.ops[o + n];
      assert (record.sequence + (o + n), record.ops[o + n]) in s.mem;
    }
  }

  lemma WholeGroupInBooks(s: State, gs: seq<Group>, k: nat)
    requires s.log == LogRecords(gs) && s.mem == Inserted(gs)
    requires k < |gs| && gs[k].logged && gs[k].inserted == |gs[k].updates|
    ensures exists q :: 0 <= q < |s.log| && InBooks(s, gs[k], s.log[q])
  {
    var q := LoggedGroupHasRecord(gs, k);
    WholeGroupInserted(gs, k);
    RecordInBooks(s, gs[k], q);
  }

  lemma RecordInBooks(s: State, g: Group, q: nat)
    requires q < |s.log| && g.logged && [s.log[q]] == Record(g)
    requires forall n: nat :: n < |g.updates| ==> (g.prior + 1 + n, g.updates[n]) in s.mem
    ensures InBooks(s, g, s.log[q])
  {
    assert s.log[q] == LogRecord(g.members, g.prior + 1, g.updates);
  }

  /** A group that succeeded did for each of its members what that member asked. */
  lemma GroupServes(requests: map<WriterId, Request>, g: Group, w: WriterId)
    requires GroupOk(requests, g) && GroupDone(requests[g.members[0]], g) && g.status == Ok
    requires w in g.members && requests[w].batch.Some?
    ensures g.written && g.logged && g.inserted == |g.updates|
    ensures g.updates == Updates(Of(requests, g.members)) && (requests[w].sync ==> g.sync == Synced)
  {
    if g.written && requests[w].sync {
      LeaderSyncs(requests, g, w);
    }
  }

  lemma WholeGroupInserted(gs: seq<Group>, k: nat)
    requires k < |gs| && gs[k].inserted == |gs[k].updates|
    ensures forall n: nat :: n < |gs[k].updates| ==> (gs[k].prior + 1 + n, gs[k].updates[n]) in Inserted(gs)
  {
    InsertedHolds(gs, k);
    forall n: nat | n < |gs[k].updates|
      ensures (gs[k].prior + 1 + n, gs[k].updates[n]) in Inserted(gs)
    {
      assert Numbered(gs[k])[n] == (gs[k].prior + 1 + n, gs[k].updates[n]);
    }
  }

  lemma LeaderSyncs(requests: map<WriterId, Request>, g: Group, w: WriterId)
    requires GroupOk(requests, g) && g.written && w in g.members && requests[w].sync
    ensures requests[g.members[0]].sync
  {
    var reqs := Of(requests, g.members);
    var i :| 0 <= i < |g.members| && g.members[i] == w;
    assert reqs[i].sync;
  }

  /** No writer's batch is in two log records; a batch told to have succeeded is in
      exactly one, written and (if the caller asked for that) synced, and each of its own
      operations is in the memtable under the number the record gives it. */
  lemma BatchesLoggedOnce(run: seq<State>, i: nat, base: nat)
    requires IsRun(run, base) && i < |run|
    ensures Apart(run[i].log)
    ensures forall w :: w in run[i].told && run[i].told[w] == Ok && Wrote(run[i], w) ==> Served(run[i], w)
  {
    var s := run[i];
    RunInv(run, i, base);
    AllGroupsFacts(s, base);
    RecordsApart(AllGroups(s));
    forall g | g in s.history && g.logged && g.inserted == |g.updates|
      ensures exists q :: 0 <= q < |s.log| && InBooks(s, g, s.log[q])
    {
      var k :| 0 <= k < |s.history| && s.history[k] == g;
      assert AllGroups(s)[k] == g;
      WholeGroupInBooks(s, AllGroups(s), k);
    }
    forall w | w in s.told && s.told[w] == Ok && Wrote(s, w)
      ensures Served(s, w)
    {
      SucceededIsServed(s, w);
    }
  }

  /** Every log record is the batches of its members one behind the other, in order of
      arrival, with nothing else in between. */
  lemma RecordsCarryBatches(run: seq<State>, i: nat, base: nat, q: nat) returns (offs: seq<nat>)
    requires IsRun(run, base) && i < |run| && q < |run[i].log|
    ensures var s := run[i]; var r := s.log[q];
            && |offs| == |r.members| + 1 && offs[0] == 0 && offs[|r.members|] == |r.ops|
            && forall j {:trigger r.members[j]} :: 0 <= j < |r.members| ==>
                 r.members[j] in s.requests && StandsAt(s.requests[r.members[j]].batch, r.ops, offs[j], offs[j + 1])
  {
    var s := run[i];
    RunInv(run, i, base);
    AllGroupsFacts(s, base);
    var k := GroupOfRecord(AllGroups(s), q);
    var r := s.log[q];
    assert GroupOk(s.requests, AllGroups(s)[k]);
    var reqs := Of(s.requests, r.members);
    offs := UpdatesLaidOut(reqs);
    assert forall j {:trigger r.members[j]} :: 0 <= j < |r.members| ==> reqs[j] == s.requests[r.members[j]];
  }

  lemma {:induction false} GroupOfRecord(gs: seq<Group>, q: nat) returns (k: nat)
    requires q < |LogRecords(gs)|
    ensures k < |gs| && gs[k].logged && [LogRecords(gs)[q]] == Record(gs[k])
  {
    if q < |LogRecords(gs[..|gs| - 1])| {
      k := GroupOfRecord(gs[..|gs| - 1], q);
    } else {
      k := |gs| - 1;
    }
  }

  lemma ToldByGroup(told: map<WriterId, Status>, gs: seq<Group>, w: WriterId) returns (k: nat)
    requires AllTold(told, gs) && w in told
    ensures k < |gs| && w in gs[k].members && told[w] == gs[k].status
  {
    k := MemberOf(gs, w);
    assert GroupTold(told, gs[k]);
  }

  lemma {:induction false} MemberOf(gs: seq<Group>, w: WriterId) returns (k: nat)
    requires w in Members(gs)
    ensures k < |gs| && w in gs[k].members
  {
    if w in gs[|gs| - 1].members {
      k := |gs| - 1;
    } else {
      k := MemberOf(gs[..|gs| - 1], w);
    }
  }

  lemma {:induction false} InsertedHolds(gs: seq<Group>, k: nat)
    requires k < |gs|
    ensures forall x :: x in Numbered(gs[k]) ==> x in Inserted(gs)
  {
    if k < |gs| - 1 {
      InsertedHolds(gs[..|gs| - 1], k);
    }
  }

  lemma {:induction false} HistoryMembers(gs: seq<Group>, k: nat, w: WriterId)
    requires k < |gs| && w in gs[k].members
    ensures w in Members(gs)
  {
    if k < |gs| - 1 {
      HistoryMembers(gs[..|gs| - 1], k, w);
    }
  }

  lemma {:induction false} GroupsApart(gs: seq<Group>, j: nat, k: nat, w: WriterId)
    requires NoRepeats(Members(gs)) && j < k < |gs| && w in gs[j].members
    ensures w !in gs[k].members
  {
    var before, g := gs[..|gs| - 1], gs[|gs| - 1];
    PrefixDistinct(Members(before), g.members);
    if k == |gs| - 1 {
      HistoryMembers(before, j, w);
    } else {
      GroupsApart(before, j, k, w);
    }
  }

  lemma PrefixDistinct(a: seq<WriterId>, b: seq<WriterId>)
    requires NoRepeats(a + b)
    ensures NoRepeats(a) && forall w :: w in a ==> w !in b
  {
    forall i, j | 0 <= i < j < |a|
      ensures a[i] != a[j]
    {
      assert (a + b)[i] == a[i] && (a + b)[j] == a[j];
    }
    FrontLeaves(a + b, a, b, b);
  }

  /** Whoever belonged to a finished group has left the queue and was told that group's
      status, and no other group's. */
  lemma EveryoneToldOwnStatus(run: seq<State>, i: nat, base: nat, j: nat, k: nat, w: WriterId)
    requires IsRun(run, base) && i < |run| && k < |run[i].history| && w in run[i].history[k].members
    ensures w in run[i].told && run[i].told[w] == run[i].history[k].status && w !in run[i].queue
    ensures j < |run[i].history| && w in run[i].history[j].members ==> j == k
  {
    var s := run[i];
    RunInv(run, i, base);
    assert GroupTold(s.told, s.history[k]);
    PrefixDistinct(Members(s.history), s.queue);
    HistoryMembers(s.history, k, w);
    if j < k && w in s.history[j].members {
      GroupsApart(s.history, j, k, w);
    } else if k < j < |s.history| {
      GroupsApart(s.history, k, j, w);
    }
  }

  // ---- Sequence numbers ----

  /** The numbers handed to the operations of `gs` are `base + 1` up to `last`, group after group. */
  ghost predicate Consecutive(gs: seq<Group>, base: nat) {
    forall k :: 0 <= k < |gs| && gs[k].written ==> gs[k].prior == LastOf(base, gs[..k])
  }

  lemma {:induction false} RangesFollow(gs: seq<Group>, base: nat, j: nat, k: nat)
    requires Consecutive(gs, base) && j < k < |gs| && gs[j].written && gs[k].written
    ensures base <= gs[j].prior && gs[j].prior + |gs[j].updates| <= gs[k].prior
  {
    LastOfGrows(base, gs, 0, j);
    LastOfGrows(base, gs, j + 1, k);
    assert gs[..j + 1][..j] == gs[..j];
  }

  lemma {:induction false} LastOfGrows(base: nat, gs: seq<Group>, j: nat, k: nat)
    requires j <= k <= |gs|
    ensures LastOf(base, gs[..j]) <= LastOf(base, gs[..k])
    decreases k - j
  {
    if j < k {
      assert gs[..k][..k - 1] == gs[..k - 1];
      LastOfGrows(base, gs, j, k - 1);
    }
  }

  lemma RangeBelow(gs: seq<Group>, base: nat, j: nat)
    requires Consecutive(gs, base) && j < |gs| && gs[j].written
    ensures gs[j].prior + |gs[j].updates| <= LastOf(base, gs)
  {
    assert gs[..j + 1][..j] == gs[..j];
    LastOfGrows(base, gs, j + 1, |gs|);
    assert gs[..|gs|] == gs;
  }

  /** Every group gets a range of sequence numbers of its own, above those of earlier
      groups; the published last sequence covers the finished groups, and the group
      under way starts right after it. */
  lemma SequenceRangesDisjoint(run: seq<State>, i: nat, base: nat, j: nat, k: nat)
    requires IsRun(run, base) && i < |run| && j < k < |AllGroups(run[i])|
    requires AllGroups(run[i])[j].written && AllGroups(run[i])[k].written
    ensures var gs := AllGroups(run[i]);
            && base <= gs[j].prior && gs[j].prior + |gs[j].updates| <= gs[k].prior
            && gs[j].prior + |gs[j].updates| <= run[i].lastSequence
            && (k == |run[i].history| ==> gs[k].prior == run[i].lastSequence)
  {
    RunInv(run, i, base);
    AllConsecutive(run[i], base);
    RangesFollow(AllGroups(run[i]), base, j, k);
    RangeBelow(run[i].history, base, j);
  }

  lemma AllConsecutive(s: State, base: nat)
    requires SequenceInv(s, base)
    ensures Consecutive(AllGroups(s), base)
  {
    var gs := AllGroups(s);
    forall k | 0 <= k < |gs|
      ensures k <= |s.history| && gs[..k] == s.history[..k]
    {
    }
    assert s.history[..|s.history|] == s.history;
  }

  /** An operation in the memtable is at or below the published sequence number just
      when its group has finished: no reader sees part of a group under way. */
  lemma PublishedMeansFinished(run: seq<State>, i: nat, base: nat)
    requires IsRun(run, base) && i < |run|
    ensures forall x :: x in run[i].mem ==> (x.0 <= run[i].lastSequence <==> x in Inserted(run[i].history))
  {
    var s := run[i];
    RunInv(run, i, base);
    InsertedBelow(s.history, base);
    if s.leader.Leading? {
      var g := s.leader.group;
      forall x | x in Numbered(g)
        ensures x.0 > s.lastSequence
      {
        assert g.inserted > 0 && g.written;
      }
    }
  }

  lemma {:induction false} InsertedBelow(gs: seq<Group>, base: nat)
    requires Consecutive(gs, base) && forall k :: 0 <= k < |gs| ==> gs[k].inserted == 0 || gs[k].written
    ensures forall x :: x in Inserted(gs) ==> x.0 <= LastOf(base, gs)
  {
    if gs != [] {
      var before, g := gs[..|gs| - 1], gs[|gs| - 1];
      forall k | 0 <= k < |before|
        ensures before[k] == gs[k] && before[..k] == gs[..k]
      {
      }
      InsertedBelow(before, base);
    }
  }

  /** Once a sync has failed nothing is written any more and nobody is told otherwise. */
  lemma FailedSyncStopsWrites(run: seq<State>, i: nat, base: nat, j: nat, k: nat)
    requires IsRun(run, base) && i < |run| && j < k < |run[i].history| && run[i].history[j].sync.SyncFailed?
    ensures run[i].history[k].status == Error && !run[i].history[k].written && !run[i].history[k].logged
  {
    RunInv(run, i, base);
  }

  // ---- Nobody waits for ever ----

  /** A step of the writer at the front that is no failure unless there was one before. */
  ghost predicate GoodStep(s: State, a: Action, t: State) {
    && Step(s, a, t) && !a.Join? && !a.BackgroundError? && (a.RoomFailed? ==> s.bgError)
    && a != LogAppended(false) && a != LogSynced(false) && a != InsertDone(false)
  }

  /** While anyone is queued, the writer at the front can take its next step, and with the
      log and the disk at work that step is not a failure. */
  lemma NeverStuck(run: seq<State>, i: nat, base: nat) returns (a: Action, t: State)
    requires IsRun(run, base) && i < |run| && run[i].queue != []
    ensures GoodStep(run[i], a, t)
  {
    var s := run[i];
    RunInv(run, i, base);
    if s.leader == NoLeader {
      a, t := Lead, s.(leader := Leading(MakingRoom, Alone(s.queue[0], Ok)));
    } else if s.leader.phase == MakingRoom {
      a, t := FrontMakesRoom(s);
    } else if s.leader.phase == Finishing {
      a, t := FrontFinishes(s);
    } else {
      a, t := FrontWrites(s);
    }
  }

  lemma FrontMakesRoom(s: State) returns (a: Action, t: State)
    requires QueueInv(s) && s.queue != [] && At(s, MakingRoom)
    ensures GoodStep(s, a, t)
  {
    if s.bgError {
      a, t := RoomFailed, s.(leader := Leading(Finishing, s.leader.group.(status := Error)));
    } else {
      assert Known(s.requests, s.queue);
      var reqs := Of(s.requests, s.queue);
      var n := GroupLength(reqs);
      a, t := RoomMade, s.(leader := if reqs[0].batch == None then Leading(Finishing, s.leader.group)
                                     else Leading(Logging, Group(s.queue[..n], true, s.lastSequence, Updates(reqs[..n]),
                                                                 false, NotSynced, 0, Ok)));
    }
  }

  lemma FrontWrites(s: State) returns (a: Action, t: State)
    requires GroupsInv(s) && s.leader.Leading? && s.leader.phase != MakingRoom && s.leader.phase != Finishing
    ensures GoodStep(s, a, t)
  {
    var g := s.leader.group;
    if s.leader.phase == Logging {
      a := LogAppended(true);
      t := s.(log := s.log + [LogRecord(g.members, g.prior + 1, g.updates)],
              leader := Leading(if s.requests[g.members[0]].sync then Syncing else Inserting, g.(logged := true)));
    } else if s.leader.phase == Syncing {
      a, t := LogSynced(true), s.(leader := Leading(Inserting, g.(sync := Synced)));
    } else if g.inserted < |g.updates| {
      a := InsertOne;
      t := s.(mem := s.mem + [(g.prior + 1 + g.inserted, g.updates[g.inserted])],
              leader := Leading(Inserting, g.(inserted := g.inserted + 1)));
    } else {
      a, t := InsertDone(true), s.(leader := Leading(Finishing, g.(status := Ok)));
    }
  }

  lemma FrontFinishes(s: State) returns (a: Action, t: State)
    requires QueueInv(s) && At(s, Finishing)
    ensures GoodStep(s, a, t)
  {
    var g := s.leader.group;
    a := Finish;
    t := s.(bgError := s.bgError || g.sync.SyncFailed?,
            lastSequence := if g.written then g.prior + |g.updates| else s.lastSequence,
            queue := s.queue[|g.members|..],
            told := s.told + map w | w in s.queue[..|g.members|] :: g.status,
            history := s.history + [g],
            leader := NoLeader);
  }
}
