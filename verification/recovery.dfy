/** Crash recovery: batches go to the log before the memtable; after a crash the log, cut
    anywhere, brings back a prefix of the history that ends between two batches. */
module Recoveries {
  import opened Keys
  import opened Coding
  import opened Entries
  import opened BlockFormat
  import opened InternalKeys
  import opened BlockCursors
  import opened LogFormat
  import LogWriters
  import opened LogReaders
  import opened WriteBatches
  import Histories

  /** A batch as it was logged. */
  datatype Logged = Logged(base: nat, ops: seq<Op>)

  ghost predicate BatchLogged(rec: Bytes, b: Logged) {
    Spells(RECORD, rec, b.base, b.ops) && |b.ops| < 0x8000_0000
  }

  /** Each record is its batch. */
  ghost predicate AllLogged(recs: seq<Bytes>, batches: seq<Logged>) {
    |recs| == |batches| && forall i :: 0 <= i < |recs| ==> BatchLogged(recs[i], batches[i])
  }

  ghost predicate Says(batch: WriteBatch, b: Logged)
    reads batch
  {
    batch.Ok() && b == Logged(batch.base, batch.ops) && |b.ops| < 0x8000_0000
  }

  /** `WriteBatchInternal::Contents` */
  method ContentsOf(batch: WriteBatch, ghost b: Logged) returns (record: Bytes)
    requires Says(batch, b)
    ensures BatchLogged(record, b)
  {
    record := batch.rep;
  }

  lemma OneMoreLogged(recs: seq<Bytes>, batches: seq<Logged>, record: Bytes)
    requires |recs| < |batches| && AllLogged(recs, batches[..|recs|]) && BatchLogged(record, batches[|recs|])
    ensures AllLogged(recs + [record], batches[..|recs| + 1])
  {
  }

  /** Log batches as they are. */
  method LogBatches(codec: Codec, list: seq<WriteBatch>, ghost batches: seq<Logged>) returns (file: Bytes, ghost recs: seq<Bytes>)
    requires |list| == |batches| && forall i :: 0 <= i < |list| ==> Says(list[i], batches[i])
    ensures file == Log(codec.frame, recs) && AllLogged(recs, batches)
  {
    var writer := new LogWriters.Writer(codec);
    recs := [];
    for i := 0 to |list|
      invariant fresh(writer) && writer.Ok() && writer.codec == codec && writer.records == recs
      invariant |recs| == i && AllLogged(recs, batches[..i])
    {
      var record := ContentsOf(list[i], batches[i]);
      OneMoreLogged(recs, batches, record);
      writer.AddRecord(record);
      recs := recs + [record];
    }
    assert batches[..|list|] == batches;
    file := writer.dest;
  }

  // ---- What comes back ----

  /** The pairs of the batches, in order. */
  function Replayed(handler: Handler, batches: seq<Logged>): seq<Pair> {
    if batches == [] then []
    else var last := batches[|batches| - 1]; Replayed(handler, batches[..|batches| - 1]) + Handled(handler, last.base, last.ops)
  }

  /** `Sequence(batch) + Count(batch) - 1` in 64 bits. */
  function LastOf(base: int, count: int): nat {
    (base + count - 1) % TWO_TO_THE_64
  }

  /** The largest last sequence number, or the one from before. */
  function Largest(before: nat, batches: seq<Logged>): nat {
    if batches == [] then before
    else
      var last := batches[|batches| - 1];
      var rest := Largest(before, batches[..|batches| - 1]);
      if LastOf(last.base, |last.ops|) > rest then LastOf(last.base, |last.ops|) else rest
  }

  /** No batch ends above it, and it is where one of them ends or what was there before. */
  lemma {:induction false} LargestIs(before: nat, batches: seq<Logged>)
    ensures var n := Largest(before, batches);
            && before <= n
            && (forall i :: 0 <= i < |batches| && batches[i].ops != [] && batches[i].base + |batches[i].ops| <= TWO_TO_THE_64 ==>
                  batches[i].base + |batches[i].ops| - 1 <= n)
            && (n == before || exists i :: 0 <= i < |batches| && n == LastOf(batches[i].base, |batches[i].ops|))
  {
    if batches != [] {
      LargestIs(before, batches[..|batches| - 1]);
    }
  }

  lemma OneMoreBatch(batches: seq<Logged>, i: nat)
    requires i < |batches|
    ensures batches[..i + 1][..i] == batches[..i] && batches[..i + 1][i] == batches[i]
  {
  }

  /** One record into the memtable. */
  method ReplayRecord(record: Bytes, handler: Handler, ghost b: Logged) returns (ok: bool, added: seq<Pair>, last: nat)
    requires BatchLogged(record, b) && handler == INSERTER
    ensures ok && added == Handled(handler, b.base, b.ops) && last == LastOf(b.base, |b.ops|)
  {
    BatchBack(record, b.base, b.ops);
    var batch := new WriteBatch();
    batch.SetContents(record);
    ok, added := batch.InsertInto();
    last := LastOf(DecodeFixed64(record), SignedCount(record));
  }

  /** The batches from cut to cut are what each part was made from. */
  ghost predicate InParts(handler: Handler, batches: seq<Logged>, parts: seq<seq<Pair>>, cuts: seq<nat>) {
    && |cuts| == |parts| + 1 && cuts[0] == 0 && cuts[|parts|] == |batches|
    && forall i :: 0 <= i < |parts| ==> CutOut(handler, batches, parts[i], cuts[i], cuts[i + 1])
  }

  ghost predicate CutOut(handler: Handler, batches: seq<Logged>, part: seq<Pair>, from: nat, to: nat) {
    from <= to <= |batches| && part == Replayed(handler, batches[from..to])
  }

  lemma SliceOfPrefix(batches: seq<Logged>, c: nat, from: nat, to: nat)
    requires from <= to <= c <= |batches|
    ensures batches[..c][from..to] == batches[from..to]
  {
    forall i | 0 <= i < to - from
      ensures batches[..c][from..to][i] == batches[from..to][i]
    {
      assert batches[..c][from + i] == batches[from + i];
    }
  }

  lemma NextPart(handler: Handler, batches: seq<Logged>, c: nat, n: nat, parts: seq<seq<Pair>>, cuts: seq<nat>, part: seq<Pair>)
    requires c <= n <= |batches| && InParts(handler, batches[..c], parts, cuts) && part == Replayed(handler, batches[c..n])
    ensures InParts(handler, batches[..n], parts + [part], cuts + [n])
  {
    forall i | 0 <= i < |parts|
      ensures CutOut(handler, batches[..n], parts[i], cuts[i], cuts[i + 1])
    {
      assert CutOut(handler, batches[..c], parts[i], cuts[i], cuts[i + 1]);
      SliceOfPrefix(batches, c, cuts[i], cuts[i + 1]);
      SliceOfPrefix(batches, n, cuts[i], cuts[i + 1]);
    }
    SliceOfPrefix(batches, n, c, n);
  }

  lemma OneMoreInPart(handler: Handler, batches: seq<Logged>, c: nat, i: nat)
    requires c <= i < |batches|
    ensures Replayed(handler, batches[c..i + 1]) == Replayed(handler, batches[c..i]) + Handled(handler, batches[i].base, batches[i].ops)
  {
    assert batches[c..i + 1][..i - c] == batches[c..i] && batches[c..i + 1][i - c] == batches[i];
  }

  /** After `i` batches: those before `c` are in tables, the others in the memtable. */
  ghost predicate PartWay(handler: Handler, batches: seq<Logged>, c: nat, i: nat, tables: seq<seq<Pair>>,
                          cuts: seq<nat>, mem: Option<seq<Pair>>) {
    forall x {:trigger Asked(OfRecord, x)} :: Asked(OfRecord, x) ==>
      c <= i <= |batches| && InParts(handler, batches[..c], tables, cuts) && (mem == None ==> c == i)
      && mem.GetOr([]) == Replayed(handler, batches[c..i])
  }

  lemma NothingYet(handler: Handler, batches: seq<Logged>)
    ensures PartWay(handler, batches, 0, 0, [], [0], None)
  {
    assert Replayed(handler, batches[0..0]) == [];
  }

  lemma OneMoreReplayed(handler: Handler, batches: seq<Logged>, c: nat, i: nat, tables: seq<seq<Pair>>,
                        cuts: seq<nat>, mem: Option<seq<Pair>>)
    requires PartWay(handler, batches, c, i, tables, cuts, mem) && i < |batches|
    ensures PartWay(handler, batches, c, i + 1, tables, cuts, Some(mem.GetOr([]) + Handled(handler, batches[i].base, batches[i].ops)))
  {
    assert Asked(OfRecord, 0);
    OneMoreInPart(handler, batches, c, i);
  }

  lemma TableWritten(handler: Handler, batches: seq<Logged>, c: nat, i: nat, tables: seq<seq<Pair>>, cuts: seq<nat>,
                     mem: Option<seq<Pair>>)
    requires PartWay(handler, batches, c, i, tables, cuts, mem) && mem.Some?
    ensures PartWay(handler, batches, i, i, tables + [mem.value], cuts + [i], None)
  {
    assert Asked(OfRecord, 0);
    NextPart(handler, batches, c, i, tables, cuts, mem.value);
    assert Replayed(handler, batches[i..i]) == [];
  }

  /** What is in the memtable in the end is the last part. */
  lemma LastPart(handler: Handler, batches: seq<Logged>, c: nat, tables: seq<seq<Pair>>, cuts: seq<nat>, mem: Option<seq<Pair>>)
    requires PartWay(handler, batches, c, |batches|, tables, cuts, mem)
    ensures InParts(handler, batches, tables + if mem.Some? then [mem.value] else [], if mem.Some? then cuts + [|batches|] else cuts)
  {
    assert Asked(OfRecord, 0);
    assert batches[..|batches|] == batches;
    if mem.Some? {
      NextPart(handler, batches, c, |batches|, tables, cuts, mem.value);
    } else {
      assert tables + [] == tables;
    }
  }

  /** The loop over the records. A memtable that gets full becomes a table, and the next record
      begins a new one. */
  method ReplayAll(out: seq<Bytes>, maxBefore: nat, handler: Handler, ghost batches: seq<Logged>)
    returns (ok: bool, tables: seq<seq<Pair>>, mem: Option<seq<Pair>>, maxSequence: nat, ghost cuts: seq<nat>)
    requires AllLogged(out, batches) && handler == INSERTER
    ensures ok && maxSequence == Largest(maxBefore, batches)
    ensures InParts(handler, batches, tables + if mem.Some? then [mem.value] else [], cuts)
  {
    ok, tables, mem, maxSequence, cuts := true, [], None, maxBefore, [0];
    ghost var c: nat := 0;
    NothingYet(handler, batches);
    for i := 0 to |out|
      invariant ok && maxSequence == Largest(maxBefore, batches[..i]) && PartWay(handler, batches, c, i, tables, cuts, mem)
    {
      assert BatchLogged(out[i], batches[i]);
      OneMoreBatch(batches, i);
      OneMoreReplayed(handler, batches, c, i, tables, cuts, mem);
      var good, added, last := ReplayRecord(out[i], handler, batches[i]);
      ok := good;
      mem := Some(mem.GetOr([]) + added);
      if last > maxSequence {
        maxSequence := last;
      }
      var full: bool := *;
      if full {
        TableWritten(handler, batches, c, i + 1, tables, cuts, mem);
        tables, mem, cuts, c := tables + [mem.value], None, cuts + [i + 1], i + 1;
      }
    }
    assert batches[..|out|] == batches;
    LastPart(handler, batches, c, tables, cuts, mem);
    cuts := if mem.Some? then cuts + [|out|] else cuts;
  }

  lemma LoggedPrefix(recs: seq<Bytes>, batches: seq<Logged>, out: seq<Bytes>)
    requires AllLogged(recs, batches) && out <= recs
    ensures AllLogged(out, batches[..|out|]) && recs[..|out|] == out
  {
    forall i | 0 <= i < |out|
      ensures BatchLogged(out[i], batches[..|out|][i])
    {
      assert BatchLogged(recs[i], batches[i]);
    }
  }

  /** `DBImpl::RecoverLogFile` on the log of a store that stopped anywhere: the batches written
      whole come back in order, from one or more whole tables and a last memtable, which the
      store goes on with if it keeps the log and has written no table; and nothing of the
      others. */
  method RecoverLogFile(codec: Codec, file: Bytes, maxBefore: nat, reuse: bool, ghost recs: seq<Bytes>,
                        ghost batches: seq<Logged>)
    returns (ok: bool, tables: seq<seq<Pair>>, mem: Option<seq<Pair>>, maxSequence: nat, ghost k: nat, ghost cuts: seq<nat>)
    requires file <= Log(codec.frame, recs) && AllLogged(recs, batches)
    ensures ok && k <= |recs| && Ends(recs[..k]) <= |file| && (k < |recs| ==> |file| < Ends(recs[..k + 1]))
    ensures InParts(INSERTER, batches[..k], tables + if mem.Some? then [mem.value] else [], cuts)
    ensures maxSequence == Largest(maxBefore, batches[..k]) && (mem.Some? <==> reuse && tables == [])
  {
    var out, drops, _, _, _ := RecoverRecords(codec, file, true, recs);
    k := |out|;
    LoggedPrefix(recs, batches, out);
    ok, tables, mem, maxSequence, cuts := ReplayAll(out, maxBefore, INSERTER, batches[..k]);
    if reuse && tables == [] {
      if mem == None {
        EmptyPart(INSERTER, batches[..k], tables, cuts);
        mem, cuts := Some([]), cuts + [k];
      }
    } else if mem.Some? {
      // The memtable was not reused; compact it
      tables, mem := tables + [mem.value], None;
      assert tables + [] == tables;
    }
  }

  lemma EmptyPart(handler: Handler, batches: seq<Logged>, parts: seq<seq<Pair>>, cuts: seq<nat>)
    requires InParts(handler, batches, parts + [], cuts)
    ensures InParts(handler, batches, parts + [[]], cuts + [|batches|])
  {
    assert parts + [] == parts && batches[..|batches|] == batches;
    NextPart(handler, batches, |batches|, |batches|, parts, cuts, []);
  }

  /** All parts together. */
  function Joined(parts: seq<seq<Pair>>): seq<Pair> {
    if parts == [] then [] else Joined(parts[..|parts| - 1]) + parts[|parts| - 1]
  }

  lemma ReplayedLast(handler: Handler, front: seq<Logged>, last: Logged)
    ensures Replayed(handler, front + [last]) == Replayed(handler, front) + Handled(handler, last.base, last.ops)
  {
    assert (front + [last])[..|front|] == front;
  }

  lemma Regroup(a: seq<Pair>, b: seq<Pair>, c: seq<Pair>)
    ensures (a + b) + c == a + (b + c)
  {
  }

  lemma {:induction false} ReplayedInTurn(handler: Handler, a: seq<Logged>, b: seq<Logged>)
    ensures Replayed(handler, a + b) == Replayed(handler, a) + Replayed(handler, b)
    decreases |b|
  {
    if b == [] {
      assert a + b == a;
    } else {
      var front, last := b[..|b| - 1], b[|b| - 1];
      ReplayedInTurn(handler, a, front);
      ReplayedLast(handler, front, last);
      ReplayedLast(handler, a + front, last);
      assert b == front + [last] && a + b == a + front + [last];
      Regroup(Replayed(handler, a), Replayed(handler, front), Handled(handler, last.base, last.ops));
    }
  }

  /** Without the last part. */
  lemma FrontInParts(handler: Handler, batches: seq<Logged>, parts: seq<seq<Pair>>, cuts: seq<nat>)
    requires InParts(handler, batches, parts, cuts) && parts != []
    ensures var n := |parts| - 1;
            && cuts[n] <= |batches| && parts[n] == Replayed(handler, batches[cuts[n]..])
            && InParts(handler, batches[..cuts[n]], parts[..n], cuts[..n + 1])
  {
    var n := |parts| - 1;
    var c := cuts[n];
    assert CutOut(handler, batches, parts[n], c, |batches|) && batches[c..|batches|] == batches[c..];
    forall i | 0 <= i < n
      ensures CutOut(handler, batches[..c], parts[i], cuts[i], cuts[i + 1])
    {
      CutsAscend(handler, batches, parts, cuts, i + 1, n);
      assert CutOut(handler, batches, parts[i], cuts[i], cuts[i + 1]);
      SliceOfPrefix(batches, c, cuts[i], cuts[i + 1]);
    }
  }

  /** Nothing is lost between the parts. */
  lemma {:induction false} PartsJoin(handler: Handler, batches: seq<Logged>, parts: seq<seq<Pair>>, cuts: seq<nat>)
    requires InParts(handler, batches, parts, cuts)
    ensures Joined(parts) == Replayed(handler, batches)
    decreases |parts|
  {
    if parts == [] {
      assert batches == [];
    } else {
      var n := |parts| - 1;
      FrontInParts(handler, batches, parts, cuts);
      PartsJoin(handler, batches[..cuts[n]], parts[..n], cuts[..n + 1]);
      ReplayedInTurn(handler, batches[..cuts[n]], batches[cuts[n]..]);
      assert batches[..cuts[n]] + batches[cuts[n]..] == batches;
    }
  }

  lemma {:induction false} CutsAscend(handler: Handler, batches: seq<Logged>, parts: seq<seq<Pair>>, cuts: seq<nat>,
                                      i: nat, j: nat)
    requires InParts(handler, batches, parts, cuts) && i <= j <= |parts|
    ensures cuts[i] <= cuts[j]
    decreases j - i
  {
    if i < j {
      assert CutOut(handler, batches, parts[i], cuts[i], cuts[i + 1]);
      CutsAscend(handler, batches, parts, cuts, i + 1, j);
    }
  }

  // ---- As a history ----

  /** Every batch starts where the one before ended. */
  ghost predicate Consecutive(batches: seq<Logged>) {
    forall i :: 0 <= i < |batches| ==> batches[i].base == 1 + |AllOps(batches[..i])|
  }

  function AllOps(batches: seq<Logged>): seq<Op> {
    if batches == [] then [] else AllOps(batches[..|batches| - 1]) + batches[|batches| - 1].ops
  }

  lemma HandledInTurn(handler: Handler, base: nat, a: seq<Op>, b: seq<Op>)
    ensures Handled(handler, base, a + b) == Handled(handler, base, a) + Handled(handler, base + |a|, b)
  {
  }

  lemma {:induction false} ReplayedIsOneRun(handler: Handler, batches: seq<Logged>)
    requires Consecutive(batches)
    ensures Replayed(handler, batches) == Handled(handler, 1, AllOps(batches))
  {
    if batches != [] {
      var n := |batches| - 1;
      forall i | 0 <= i < n
        ensures batches[..n][i].base == 1 + |AllOps(batches[..n][..i])|
      {
        assert batches[..n][..i] == batches[..i];
      }
      ReplayedIsOneRun(handler, batches[..n]);
      HandledInTurn(handler, 1, AllOps(batches[..n]), batches[n].ops);
    }
  }

  /** The operation as the history has it. */
  function Meant(op: Op): Histories.Op {
    Histories.Op(if op.PutOp? then Put else Deletion, Rank(op.key), if op.PutOp? then op.value else [])
  }

  function AllMeant(ops: seq<Op>): (m: seq<Histories.Op>)
    ensures |m| == |ops| && forall i :: 0 <= i < |ops| ==> m[i] == Meant(ops[i])
  {
    seq(|ops|, i requires 0 <= i < |ops| => Meant(ops[i]))
  }

  lemma KeyTag(s: nat, kind: Byte)
    requires s <= MAX_SEQUENCE && kind <= 1
    ensures s % 0x100_0000_0000_0000 == s && s * 256 + kind < TWO_TO_THE_64
    ensures (s * 256 + kind) / 256 == s && (s * 256 + kind) % 256 == kind
  {
  }

  lemma KeyMeans(user: Bytes, s: nat, kind: Byte)
    requires s <= MAX_SEQUENCE && kind <= 1
    ensures UserPart(KeyFor(user, s, kind)) == user && TagPart(KeyFor(user, s, kind)) == s * 256 + kind
  {
    KeyTag(s, kind);
    KeyParts(user, s * 256 + kind);
  }

  lemma PairMeans(op: Op, s: nat)
    requires 1 <= s <= MAX_SEQUENCE
    ensures InternalKeys.EntryOf(PairFor(op, s)) == Histories.EntryOf(s - 1, Meant(op))
  {
    var kind := WriteBatches.Tag(op);
    KeyMeans(op.key, s, kind);
    KeyTag(s, kind);
    EntryFrom(KeyFor(op.key, s, kind), if op.PutOp? then op.value else [], op.key, s * 256 + kind);
  }

  lemma EntryFrom(key: Bytes, value: Bytes, user: Bytes, tag: nat)
    requires UserPart(key) == user && TagPart(key) == tag
    ensures InternalKeys.EntryOf(Pair(key, value)) == Entry(Rank(user), tag / 256, if tag % 256 == 1 then Put else Deletion, value)
  {
  }

  lemma RunMeans(said: Pair -> Entry, handler: Handler, meant: Op -> Histories.Op, ops: seq<Op>, m: seq<Histories.Op>, e: Entry)
    requires |m| == |ops| && forall i :: 0 <= i < |ops| ==> m[i] == meant(ops[i])
    requires forall i {:trigger ops[i]} :: 0 <= i < |ops| ==> said(handler(ops[i], 1 + i)) == Histories.EntryOf(i, meant(ops[i]))
    ensures e in Histories.EntriesOf(m) <==> exists i :: 0 <= i < |ops| && said(Handled(handler, 1, ops)[i]) == e
  {
    forall i | 0 <= i < |ops|
      ensures said(Handled(handler, 1, ops)[i]) == Histories.EntryOf(i, m[i])
    {
      var op := ops[i];
    }
    if e in Histories.EntriesOf(m) {
      var i :| 0 <= i < |m| && e == Histories.EntryOf(i, m[i]);
      assert said(Handled(handler, 1, ops)[i]) == e;
    }
  }

  const SAID: Pair -> Entry := InternalKeys.EntryOf

  /** What comes back into the memtable says the operations of the recovered batches, as one
      history: the entries of a prefix of it, and nothing else. */
  lemma RecoveredIsHistory(batches: seq<Logged>, e: Entry)
    requires Consecutive(batches) && |AllOps(batches)| <= MAX_SEQUENCE
    ensures e in Histories.EntriesOf(AllMeant(AllOps(batches)))
            <==> (exists i :: 0 <= i < |Replayed(INSERTER, batches)| && SAID(Replayed(INSERTER, batches)[i]) == e)
  {
    ReplayedIsOneRun(INSERTER, batches);
    AnyOpMeans(AllOps(batches));
    RunMeans(SAID, INSERTER, MEANT, AllOps(batches), AllMeant(AllOps(batches)), e);
  }

  const MEANT: Op -> Histories.Op := Meant

  lemma AnyOpMeans(ops: seq<Op>)
    requires |ops| <= MAX_SEQUENCE
    ensures forall i {:trigger ops[i]} :: 0 <= i < |ops| ==> SAID(INSERTER(ops[i], 1 + i)) == Histories.EntryOf(i, MEANT(ops[i]))
  {
    forall i {:trigger ops[i]} | 0 <= i < |ops|
      ensures SAID(INSERTER(ops[i], 1 + i)) == Histories.EntryOf(i, MEANT(ops[i]))
    {
      OpMeans(ops[i], i);
    }
  }

  lemma OpMeans(op: Op, i: nat)
    requires i < MAX_SEQUENCE
    ensures SAID(INSERTER(op, 1 + i)) == Histories.EntryOf(i, MEANT(op))
  {
    PairMeans(op, 1 + i);
  }
}
