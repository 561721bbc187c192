/** The memtable's skip list, read without locks while one writer inserts. Every
    load or store of a link, and the early store of the list height, is a step of
    its own, so readers and the writer interleave in every possible way. */
module SkipLists {
  import opened Keys

  const MAX_HEIGHT: nat := 12

  type NodeId = nat
  type Link = Option<NodeId>

  const HEAD: NodeId := 0

  /** The key of `HEAD` is never looked at. */
  datatype Node = Node(key: UserKey, next: seq<Link>)

  /** `FindGreaterOrEqual` part-way: standing at `x`, looking along `level`. */
  datatype Search = Search(target: UserKey, x: NodeId, level: nat)

  datatype Writer =
    | Idle
    | Searching(search: Search, prev: seq<NodeId>)
    | Found(key: UserKey, prev: seq<NodeId>)
    | Linking(node: NodeId, prev: seq<NodeId>, done: nat, copied: bool)

  /** `atStart` remembers the nodes whose insertion had finished when the search began. */
  datatype Reader =
    | Reading(search: Search, atStart: set<NodeId>)
    | Returned(target: UserKey, before: NodeId, result: Link, atStart: set<NodeId>)

  datatype State = State(nodes: map<NodeId, Node>, maxHeight: nat, writer: Writer, readers: map<nat, Reader>)

  datatype Action =
    | BeginInsert(key: UserKey)
    | WriterLoad
    | ChooseHeight(height: nat, node: NodeId)
    | CopyLink
    | PublishLink
    | BeginSearch(reader: nat, target: UserKey)
    | ReaderLoad(reader: nat)

  // ---- The list as it is linked ----

  /** Node `n` hangs in the chain of `level`: the writer has published that link. */
  predicate LinkedAt(s: State, n: NodeId, level: nat) {
    && n in s.nodes && level < |s.nodes[n].next|
    && (s.writer.Linking? && s.writer.node == n ==> level < s.writer.done)
  }

  predicate After(s: State, n: NodeId, m: NodeId)
    requires n in s.nodes && m in s.nodes
  {
    m != HEAD && (n == HEAD || s.nodes[n].key < s.nodes[m].key)
  }

  /** The nodes whose insertion has finished. */
  ghost function Finished(s: State): set<NodeId> {
    set n | n in s.nodes && n != HEAD && !(s.writer.Linking? && s.writer.node == n)
  }

  /** `link` leads to the next node after `n` along `level`, or ends the chain. */
  ghost predicate IsNextAt(s: State, n: NodeId, level: nat, link: Link)
    requires n in s.nodes
  {
    match link
    case None => forall m :: LinkedAt(s, m, level) ==> !After(s, n, m)
    case Some(y) => LinkedAt(s, y, level) && After(s, n, y)
                    && forall m :: LinkedAt(s, m, level) && After(s, n, m) ==> s.nodes[y].key <= s.nodes[m].key
  }

  /** `n` is the last node along `level` with a key below `key`. */
  ghost predicate IsLastBelow(s: State, n: NodeId, level: nat, key: UserKey) {
    && LinkedAt(s, n, level) && (n == HEAD || s.nodes[n].key < key)
    && forall m :: LinkedAt(s, m, level) && After(s, n, m) ==> key <= s.nodes[m].key
  }

  // ---- Steps ----

  ghost predicate Init(s: State) {
    && s.nodes.Keys == {HEAD} && s.nodes[HEAD].next == seq(MAX_HEIGHT, _ => None)
    && s.maxHeight == 1 && s.writer == Idle && s.readers == map[]
  }

  /** The outcome of one load along the current level. */
  datatype Progress = Onward(search: Search) | Arrived(before: NodeId, result: Link)

  predicate CanLoad(s: State, q: Search) {
    q.x in s.nodes && q.level < |s.nodes[q.x].next|
    && (s.nodes[q.x].next[q.level].Some? ==> s.nodes[q.x].next[q.level].value in s.nodes)
  }

  /** `KeyIsAfterNode` decides between moving along, dropping a level and returning. */
  function Load(s: State, q: Search): Progress
    requires CanLoad(s, q)
  {
    var next := s.nodes[q.x].next[q.level];
    if next.Some? && s.nodes[next.value].key < q.target then Onward(q.(x := next.value))
    else if q.level == 0 then Arrived(q.x, next)
    else Onward(q.(level := q.level - 1))
  }

  function SetLink(s: State, n: NodeId, level: nat, link: Link): map<NodeId, Node>
    requires n in s.nodes && level < |s.nodes[n].next|
  {
    s.nodes[n := s.nodes[n].(next := s.nodes[n].next[level := link])]
  }

  ghost predicate BeginInsertStep(s: State, key: UserKey, t: State) {
    && s.writer == Idle && s.maxHeight >= 1
    && KeyIsNew(s, key)  // nothing that compares equal to key is in the list
    && t == s.(writer := Searching(Search(key, HEAD, s.maxHeight - 1), seq(MAX_HEIGHT, _ => HEAD)))
  }

  ghost predicate WriterLoadStep(s: State, t: State) {
    && s.writer.Searching? && CanLoad(s, s.writer.search) && s.writer.search.level < |s.writer.prev|
    && var q, prev := s.writer.search, s.writer.prev;
       t == s.(writer := match Load(s, q)
                         case Arrived(before, _) => Found(q.target, prev[0 := before])
                         case Onward(q') => Searching(q', if q'.level < q.level then prev[q.level := q.x] else prev))
  }

  /** The height is drawn, the list height raised if need be, and the node allocated. */
  ghost predicate ChooseHeightStep(s: State, height: nat, node: NodeId, t: State) {
    && s.writer.Found? && 1 <= height <= MAX_HEIGHT && node !in s.nodes && |s.writer.prev| == MAX_HEIGHT
    && var prev := seq(MAX_HEIGHT, i requires 0 <= i < MAX_HEIGHT => if s.maxHeight <= i < height then HEAD else s.writer.prev[i]);
       t == s.(maxHeight := if height > s.maxHeight then height else s.maxHeight,
               nodes := s.nodes[node := Node(s.writer.key, seq(height, _ => None))],
               writer := Linking(node, prev, 0, false))
  }

  ghost predicate CopyLinkStep(s: State, t: State) {
    && s.writer.Linking? && !s.writer.copied && CanLink(s)
    && var w := s.writer;
       t == s.(nodes := SetLink(s, w.node, w.done, s.nodes[w.prev[w.done]].next[w.done]),
               writer := w.(copied := true))
  }

  ghost predicate PublishLinkStep(s: State, t: State) {
    && s.writer.Linking? && s.writer.copied && CanLink(s)
    && var w := s.writer;
       t == s.(nodes := SetLink(s, w.prev[w.done], w.done, Some(w.node)),
               writer := if w.done + 1 == |s.nodes[w.node].next| then Idle else w.(done := w.done + 1, copied := false))
  }

  ghost predicate BeginSearchStep(s: State, r: nat, target: UserKey, t: State) {
    && s.maxHeight >= 1
    && t == s.(readers := s.readers[r := Reading(Search(target, HEAD, s.maxHeight - 1), Finished(s))])
  }

  ghost predicate ReaderLoadStep(s: State, r: nat, t: State) {
    && r in s.readers && s.readers[r].Reading? && CanLoad(s, s.readers[r].search)
    && var reader := s.readers[r];
       t == s.(readers := s.readers[r := match Load(s, reader.search)
                                         case Arrived(before, result) => Returned(reader.search.target, before, result, reader.atStart)
                                         case Onward(q') => Reading(q', reader.atStart)])
  }

  ghost predicate Step(s: State, a: Action, t: State) {
    match a
    case BeginInsert(key) => BeginInsertStep(s, key, t)
    case WriterLoad => WriterLoadStep(s, t)
    case ChooseHeight(height, node) => ChooseHeightStep(s, height, node, t)
    case CopyLink => CopyLinkStep(s, t)
    case PublishLink => PublishLinkStep(s, t)
    case BeginSearch(r, target) => BeginSearchStep(s, r, target, t)
    case ReaderLoad(r) => ReaderLoadStep(s, r, t)
  }

  predicate CanLink(s: State)
    requires s.writer.Linking?
  {
    var w := s.writer;
    && w.node in s.nodes && w.done < |s.nodes[w.node].next| && w.done < |w.prev|
    && w.prev[w.done] in s.nodes && w.done < |s.nodes[w.prev[w.done]].next|
  }

  // ---- Invariant ----

  ghost predicate NodesOk(s: State) {
    && HEAD in s.nodes && |s.nodes[HEAD].next| == MAX_HEIGHT && 1 <= s.maxHeight <= MAX_HEIGHT
    && (forall n :: n in s.nodes && n != HEAD ==> 1 <= |s.nodes[n].next| <= s.maxHeight)
    && (forall n, m :: n in s.nodes && m in s.nodes && n != HEAD && m != HEAD && n != m ==> s.nodes[n].key != s.nodes[m].key)
  }

  /** Every published link leads to the next node of its level: each level is sorted. */
  ghost predicate ChainsOk(s: State) {
    forall n, level: nat :: LinkedAt(s, n, level) ==> IsNextAt(s, n, level, s.nodes[n].next[level])
  }

  ghost predicate SearchOk(s: State, q: Search) {
    && q.level < MAX_HEIGHT && LinkedAt(s, q.x, q.level) && (q.x == HEAD || s.nodes[q.x].key < q.target)
  }

  ghost predicate KeyIsNew(s: State, key: UserKey) {
    forall n :: n in s.nodes && n != HEAD ==> s.nodes[n].key != key
  }

  ghost predicate WriterOk(s: State) {
    match s.writer
    case Idle => true
    case Searching(q, prev) =>
      && SearchOk(s, q) && q.level < s.maxHeight <= |prev| == MAX_HEIGHT && KeyIsNew(s, q.target)
      && forall i :: q.level < i < s.maxHeight ==> IsLastBelow(s, prev[i], i, q.target)
    case Found(key, prev) =>
      && s.maxHeight <= |prev| == MAX_HEIGHT && KeyIsNew(s, key)
      && forall i :: 0 <= i < s.maxHeight ==> IsLastBelow(s, prev[i], i, key)
    case Linking(node, prev, done, copied) =>
      && node in s.nodes && node != HEAD && done < |s.nodes[node].next| <= |prev| == MAX_HEIGHT
      && (forall i :: done <= i < |s.nodes[node].next| ==> prev[i] != node && IsLastBelow(s, prev[i], i, s.nodes[node].key))
      && (copied ==> LinkedAt(s, prev[done], done) && s.nodes[node].next[done] == s.nodes[prev[done]].next[done])
  }

  /** The answer skips no node of `seen` between the target and the node returned. */
  ghost predicate AnswerOk(s: State, target: UserKey, before: NodeId, result: Link, seen: set<NodeId>) {
    && before in s.nodes && (before == HEAD || s.nodes[before].key < target)
    && (result.Some? ==> result.value in s.nodes && result.value != HEAD && target <= s.nodes[result.value].key)
    && (forall m :: m in seen ==> m in s.nodes && m != HEAD)
    && (forall m :: m in seen && target <= s.nodes[m].key ==> result.Some? && s.nodes[result.value].key <= s.nodes[m].key)
    && (forall m :: m in seen && s.nodes[m].key < target ==> before != HEAD && s.nodes[m].key <= s.nodes[before].key)
  }

  ghost predicate ReaderOk(s: State, reader: Reader) {
    match reader
    case Reading(q, atStart) => SearchOk(s, q) && atStart <= Finished(s)
    case Returned(target, before, result, atStart) => AnswerOk(s, target, before, result, atStart)
  }

  ghost predicate Inv(s: State) {
    && NodesOk(s) && ChainsOk(s) && WriterOk(s)
    && forall r :: r in s.readers ==> ReaderOk(s, s.readers[r])
  }

  lemma InitInv(s: State)
    requires Init(s)
    ensures Inv(s)
  {
  }

  /** A load keeps a search on course, or answers with the lower bound of what is linked now. */
  lemma LoadFacts(s: State, q: Search)
    requires NodesOk(s) && ChainsOk(s) && SearchOk(s, q)
    ensures CanLoad(s, q)
    ensures match Load(s, q)
            case Onward(q') => SearchOk(s, q') && q'.target == q.target && q'.level <= q.level
                               && (q'.level < q.level ==> IsLastBelow(s, q.x, q.level, q.target))
            case Arrived(before, result) => IsLastBelow(s, before, 0, q.target) && AnswerOk(s, q.target, before, result, Finished(s))
  {
    var next := s.nodes[q.x].next[q.level];
    assert IsNextAt(s, q.x, q.level, next);
    if q.level == 0 && !(next.Some? && s.nodes[next.value].key < q.target) {
      forall m | m in Finished(s)
        ensures LinkedAt(s, m, 0)
      {
      }
    }
  }

  // ---- Steps that leave every published link alone ----

  ghost predicate SameLinks(s: State, t: State) {
    && (forall n, level: nat {:trigger LinkedAt(t, n, level)} :: LinkedAt(t, n, level) <==> LinkedAt(s, n, level))
    && (forall n, level: nat {:trigger LinkedAt(s, n, level)} :: LinkedAt(s, n, level) ==>
          LinkedAt(t, n, level) && t.nodes[n].next[level] == s.nodes[n].next[level])
    && (forall n :: n in s.nodes ==> n in t.nodes && t.nodes[n].key == s.nodes[n].key)
  }

  lemma LastBelowKept(s: State, t: State, n: NodeId, level: nat, key: UserKey)
    requires SameLinks(s, t) && IsLastBelow(s, n, level, key)
    ensures IsLastBelow(t, n, level, key)
  {
  }

  lemma ChainsKept(s: State, t: State)
    requires SameLinks(s, t) && ChainsOk(s)
    ensures ChainsOk(t)
  {
    forall n, level: nat | LinkedAt(t, n, level)
      ensures IsNextAt(t, n, level, t.nodes[n].next[level])
    {
      assert LinkedAt(s, n, level);
      assert IsNextAt(s, n, level, s.nodes[n].next[level]);
    }
  }

  lemma ReaderKept(s: State, t: State, reader: Reader)
    requires SameLinks(s, t) && Finished(s) <= Finished(t) && ReaderOk(s, reader)
    ensures ReaderOk(t, reader)
  {
  }

  lemma {:induction false} InvStep(s: State, a: Action, t: State)
    requires Inv(s) && Step(s, a, t)
    ensures Inv(t)
  {
    match a
    case BeginInsert(key) => BeginInsertInv(s, key, t);
    case WriterLoad => WriterLoadInv(s, t);
    case ChooseHeight(height, node) => ChooseHeightInv(s, height, node, t);
    case CopyLink => CopyLinkInv(s, t);
    case PublishLink => PublishLinkInv(s, t);
    case BeginSearch(r, target) => ReaderStepInv(s, r, t);
    case ReaderLoad(r) =>
      LoadFacts(s, s.readers[r].search);
      ReaderStepInv(s, r, t);
  }

  lemma ReadersKept(s: State, t: State)
    requires SameLinks(s, t) && Finished(s) <= Finished(t)
    requires forall r :: r in s.readers ==> ReaderOk(s, s.readers[r])
    requires forall r :: r in t.readers ==> r in s.readers && t.readers[r] == s.readers[r]
    ensures forall r :: r in t.readers ==> ReaderOk(t, t.readers[r])
  {
    forall r | r in t.readers
      ensures ReaderOk(t, t.readers[r])
    {
      ReaderKept(s, t, s.readers[r]);
    }
  }

  lemma BeginInsertInv(s: State, key: UserKey, t: State)
    requires Inv(s) && BeginInsertStep(s, key, t)
    ensures Inv(t)
  {
    assert SameLinks(s, t);
    ChainsKept(s, t);
    ReadersKept(s, t);
  }

  lemma WriterLoadInv(s: State, t: State)
    requires Inv(s) && WriterLoadStep(s, t)
    ensures Inv(t)
  {
    assert SameLinks(s, t);
    ChainsKept(s, t);
    ReadersKept(s, t);
    WriterLoadKeepsPrev(s, t);
  }

  lemma WriterLoadKeepsPrev(s: State, t: State)
    requires NodesOk(s) && ChainsOk(s) && WriterOk(s) && WriterLoadStep(s, t) && SameLinks(s, t)
    ensures WriterOk(t)
  {
    var q := s.writer.search;
    LoadFacts(s, q);
    forall n, level: nat | IsLastBelow(s, n, level, q.target)
      ensures IsLastBelow(t, n, level, q.target)
    {
      LastBelowKept(s, t, n, level, q.target);
    }
  }

  lemma ReaderStepInv(s: State, r: nat, t: State)
    requires Inv(s) && r in t.readers && t == s.(readers := s.readers[r := t.readers[r]])
    requires ReaderOk(s, t.readers[r])
    ensures Inv(t)
  {
    assert SameLinks(s, t);
    ChainsKept(s, t);
    forall n, level: nat, key | IsLastBelow(s, n, level, key)
      ensures IsLastBelow(t, n, level, key)
    {
      LastBelowKept(s, t, n, level, key);
    }
    forall r' | r' in t.readers
      ensures ReaderOk(t, t.readers[r'])
    {
      ReaderKept(s, t, t.readers[r']);
    }
  }

  lemma ChooseHeightInv(s: State, height: nat, node: NodeId, t: State)
    requires Inv(s) && ChooseHeightStep(s, height, node, t)
    ensures Inv(t)
  {
    assert SameLinks(s, t) && Finished(s) <= Finished(t);
    ChainsKept(s, t);
    forall i | 0 <= i < height
      ensures t.writer.prev[i] != node && IsLastBelow(t, t.writer.prev[i], i, s.writer.key)
    {
      if i < s.maxHeight { LastBelowKept(s, t, s.writer.prev[i], i, s.writer.key); }
    }
    ReadersKept(s, t);
  }

  lemma CopyLinkInv(s: State, t: State)
    requires Inv(s) && CopyLinkStep(s, t)
    ensures Inv(t)
  {
    assert SameLinks(s, t);
    assert t.nodes.Keys == s.nodes.Keys;
    ChainsKept(s, t);
    var w := s.writer;
    forall i | w.done <= i < |s.nodes[w.node].next|
      ensures IsLastBelow(t, w.prev[i], i, s.nodes[w.node].key)
    {
      LastBelowKept(s, t, w.prev[i], i, s.nodes[w.node].key);
    }
    ReadersKept(s, t);
  }

  // ---- Publishing a link ----

  /** Only the new node joins, and only the chain of the level published. */
  lemma PublishLinks(s: State, t: State)
    requires Inv(s) && PublishLinkStep(s, t)
    ensures forall n, level: nat {:trigger LinkedAt(t, n, level)} ::
              LinkedAt(t, n, level) <==> LinkedAt(s, n, level) || (n == s.writer.node && level == s.writer.done)
    ensures forall n :: n in s.nodes ==> n in t.nodes && t.nodes[n].key == s.nodes[n].key
    ensures Finished(s) <= Finished(t)
  {
  }

  /** The new node leads on to what its predecessor led to. */
  lemma NewNodeLeadsOn(s: State, t: State)
    requires Inv(s) && PublishLinkStep(s, t)
    ensures var w := s.writer; IsNextAt(t, w.node, w.done, t.nodes[w.node].next[w.done])
  {
    PublishLinks(s, t);
    var w := s.writer;
    var p, key := w.prev[w.done], s.nodes[w.node].key;
    assert IsLastBelow(s, p, w.done, key);
    assert IsNextAt(s, p, w.done, s.nodes[p].next[w.done]);
    forall m | LinkedAt(t, m, w.done) && After(t, w.node, m)
      ensures LinkedAt(s, m, w.done) && After(s, p, m)
    {
    }
  }

  /** Every node but the predecessor keeps its link, and the new node does not come between. */
  lemma OldNodeLeadsOn(s: State, t: State, n: NodeId, level: nat)
    requires Inv(s) && PublishLinkStep(s, t) && LinkedAt(s, n, level)
    requires !(n == s.writer.prev[s.writer.done] && level == s.writer.done)
    ensures IsNextAt(t, n, level, s.nodes[n].next[level])
  {
    PublishLinks(s, t);
    var w := s.writer;
    var p, key := w.prev[w.done], s.nodes[w.node].key;
    assert IsLastBelow(s, p, w.done, key);
    assert IsNextAt(s, n, level, s.nodes[n].next[level]);
    if level == w.done && After(t, n, w.node) {
      assert After(s, n, p);
    }
  }

  lemma PublishChains(s: State, t: State)
    requires Inv(s) && PublishLinkStep(s, t)
    ensures ChainsOk(t)
  {
    PublishLinks(s, t);
    var w := s.writer;
    var p := w.prev[w.done];
    assert IsLastBelow(s, p, w.done, s.nodes[w.node].key);
    forall n, level: nat | LinkedAt(t, n, level)
      ensures IsNextAt(t, n, level, t.nodes[n].next[level])
    {
      if n == w.node && level == w.done {
        NewNodeLeadsOn(s, t);
      } else if n == p && level == w.done {
        PredecessorLeadsToNew(s, t);
      } else {
        OldNodeLeadsOn(s, t, n, level);
      }
    }
  }

  lemma PredecessorLeadsToNew(s: State, t: State)
    requires Inv(s) && PublishLinkStep(s, t)
    ensures var w := s.writer; IsNextAt(t, w.prev[w.done], w.done, Some(w.node))
  {
    PublishLinks(s, t);
    var w := s.writer;
    assert IsLastBelow(s, w.prev[w.done], w.done, s.nodes[w.node].key);
  }

  lemma PublishLinkInv(s: State, t: State)
    requires Inv(s) && PublishLinkStep(s, t)
    ensures Inv(t)
  {
    PublishLinks(s, t);
    PublishChains(s, t);
    PublishKeepsWriter(s, t);
    forall r | r in t.readers
      ensures ReaderOk(t, t.readers[r])
    {
      PublishKeepsReader(s, t, s.readers[r]);
    }
  }

  lemma PublishKeepsWriter(s: State, t: State)
    requires Inv(s) && PublishLinkStep(s, t)
    ensures NodesOk(t) && WriterOk(t)
  {
    PublishLinks(s, t);
    var w := s.writer;
    if t.writer.Linking? {
      forall i | w.done + 1 <= i < |s.nodes[w.node].next|
        ensures IsLastBelow(t, w.prev[i], i, s.nodes[w.node].key)
      {
        assert IsLastBelow(s, w.prev[i], i, s.nodes[w.node].key);
      }
    }
  }

  lemma PublishKeepsReader(s: State, t: State, reader: Reader)
    requires ReaderOk(s, reader) && Finished(s) <= Finished(t)
    requires forall n, level: nat {:trigger LinkedAt(t, n, level)} :: LinkedAt(s, n, level) ==> LinkedAt(t, n, level)
    requires forall n :: n in s.nodes ==> n in t.nodes && t.nodes[n].key == s.nodes[n].key
    ensures ReaderOk(t, reader)
  {
  }

  // ---- Whole runs ----

  ghost predicate IsRun(run: seq<State>) {
    && |run| > 0 && Init(run[0])
    && forall i :: 0 < i < |run| ==> CanStep(run[i - 1], run[i])
  }

  ghost predicate CanStep(s: State, t: State) {
    exists a :: Step(s, a, t)
  }

  lemma {:induction false} RunInv(run: seq<State>, i: nat)
    requires IsRun(run) && i < |run|
    ensures Inv(run[i])
  {
    if i == 0 {
      InitInv(run[0]);
    } else {
      RunInv(run, i - 1);
      assert CanStep(run[i - 1], run[i]);
      CanStepInv(run[i - 1], run[i]);
    }
  }

  lemma CanStepInv(s: State, t: State)
    requires Inv(s) && CanStep(s, t)
    ensures Inv(t)
  {
    var a :| Step(s, a, t);
    InvStep(s, a, t);
  }

  /** A search that has returned found the first node at or after its target among
      those whose insertion had finished when it began, or a newer one before it. */
  lemma SearchSkipsNothing(run: seq<State>, i: nat, r: nat)
    requires IsRun(run) && i < |run| && r in run[i].readers && run[i].readers[r].Returned?
    ensures var s, answer := run[i], run[i].readers[r];
            && (answer.result.Some? ==> answer.result.value in s.nodes && answer.target <= s.nodes[answer.result.value].key)
            && forall m | m in answer.atStart ::
                 m in s.nodes && (answer.target <= s.nodes[m].key ==> answer.result.Some? && s.nodes[answer.result.value].key <= s.nodes[m].key)
  {
    RunInv(run, i);
    assert ReaderOk(run[i], run[i].readers[r]);
  }

  /** `chain` is what following the links of `level` from `x` visits. */
  ghost predicate IsChain(s: State, x: NodeId, level: nat, chain: seq<NodeId>)
    decreases |chain|
  {
    && LinkedAt(s, x, level)
    && if chain == [] then s.nodes[x].next[level] == None
       else s.nodes[x].next[level] == Some(chain[0]) && IsChain(s, chain[0], level, chain[1..])
  }

  ghost function Beyond(s: State, x: NodeId, level: nat): set<NodeId>
    requires x in s.nodes
  {
    set m | m in s.nodes && LinkedAt(s, m, level) && After(s, x, m)
  }

  /** Following the links visits every node of the level after `x`, in ascending key order. */
  lemma {:induction false} ChainFrom(s: State, x: NodeId, level: nat) returns (chain: seq<NodeId>)
    requires NodesOk(s) && ChainsOk(s) && LinkedAt(s, x, level)
    ensures IsChain(s, x, level, chain)
    ensures forall m :: m in chain <==> LinkedAt(s, m, level) && After(s, x, m)
    ensures forall i :: 0 <= i < |chain| ==> chain[i] in s.nodes
    ensures forall i, j :: 0 <= i < j < |chain| ==> s.nodes[chain[i]].key < s.nodes[chain[j]].key
    decreases |Beyond(s, x, level)|
  {
    var next := s.nodes[x].next[level];
    assert IsNextAt(s, x, level, next);
    if next == None {
      chain := [];
    } else {
      var y := next.value;
      NextSplits(s, x, level, y);
      SmallerSet(Beyond(s, y, level), Beyond(s, x, level), y);
      var tail := ChainFrom(s, y, level);
      chain := [y] + tail;
      assert chain[1..] == tail;
    }
  }

  /** What lies after `x` is the next node and what lies after that. */
  lemma NextSplits(s: State, x: NodeId, level: nat, y: NodeId)
    requires NodesOk(s) && ChainsOk(s) && LinkedAt(s, x, level) && s.nodes[x].next[level] == Some(y)
    ensures LinkedAt(s, y, level) && After(s, x, y) && !After(s, y, y)
    ensures forall m :: LinkedAt(s, m, level) && After(s, x, m) <==> m == y || (LinkedAt(s, m, level) && After(s, y, m))
  {
    assert IsNextAt(s, x, level, Some(y));
  }

  lemma SmallerSet(a: set<NodeId>, b: set<NodeId>, y: NodeId)
    requires a <= b && y in b && y !in a
    ensures |a| < |b|
  {
    assert a <= b - {y};
    CardinalityMonotone(a, b - {y});
  }

  lemma {:induction false} CardinalityMonotone(a: set<NodeId>, b: set<NodeId>)
    requires a <= b
    ensures |a| <= |b|
  {
    if x :| x in a {
      CardinalityMonotone(a - {x}, b - {x});
    }
  }

  /** At every moment each level, walked from the head, is a sorted sublist of the level below. */
  lemma LevelsAreSortedSublists(run: seq<State>, i: nat, level: nat) returns (chain: seq<NodeId>)
    requires IsRun(run) && i < |run| && level < MAX_HEIGHT
    ensures IsChain(run[i], HEAD, level, chain)
    ensures forall j, k :: 0 <= j < k < |chain| ==>
              chain[j] in run[i].nodes && chain[k] in run[i].nodes && run[i].nodes[chain[j]].key < run[i].nodes[chain[k]].key
    ensures forall m :: m in Finished(run[i]) && level < |run[i].nodes[m].next| ==> m in chain
    ensures level > 0 ==> forall m :: m in chain ==> LinkedAt(run[i], m, level - 1)
  {
    RunInv(run, i);
    chain := ChainFrom(run[i], HEAD, level);
    assert forall m :: m in chain ==> LinkedAt(run[i], m, level);
  }
}
