/** The runs of the store are not few: whatever has happened, any group of batches can be
    written next, so every history of writes is the history of a run. */
module DBReach {
  import opened Keys
  import opened Entries
  import opened Histories
  import opened DBRuns

  lemma OneStepOn(run: seq<State>, a: Action, t: State)
    requires IsRun(run) && Step(run[|run| - 1], a, t)
    ensures IsRun(run + [t])
  {
    var more := run + [t];
    assert CanStep(run[|run| - 1], t);
    forall i | 0 < i < |more|
      ensures CanStep(more[i - 1], more[i])
    {
      assert i < |run| ==> CanStep(run[i - 1], run[i]);
    }
  }

  /** The operations of the group go into the memtable one by one. */
  lemma {:induction false} GroupIsInserted(run: seq<State>) returns (more: seq<State>)
    requires IsRun(run)
    ensures IsRun(more) && run <= more
    ensures var s, t := run[|run| - 1], more[|more| - 1];
            && t == s.(ops := t.ops, tables := t.tables) && s.ops <= t.ops && |t.ops| == t.lastSequence + |Concat(t.group)|
    decreases run[|run| - 1].lastSequence + |Concat(run[|run| - 1].group)| - |run[|run| - 1].ops|
  {
    var s := run[|run| - 1];
    RunInv(run, |run| - 1);
    if |s.ops| == s.lastSequence + |Concat(s.group)| {
      more := run;
    } else {
      var op := Concat(s.group)[|s.ops| - s.lastSequence];
      var t := s.(ops := s.ops + [op], tables := s.tables[s.mem := s.tables[s.mem] + {EntryOf(|s.ops|, op)}]);
      assert Step(s, InsertOne, t);
      OneStepOn(run, InsertOne, t);
      more := GroupIsInserted(run + [t]);
    }
  }

  /** From any state of any run, when no group is under way, any group can be written; its
      batches are published behind those before, and nothing is done to levels or snapshots. */
  lemma AnyGroupIsWritten(run: seq<State>, group: seq<Batch>) returns (more: seq<State>)
    requires IsRun(run) && run[|run| - 1].group == []
    ensures IsRun(more) && run <= more
    ensures var s, t := run[|run| - 1], more[|more| - 1];
            && t.batches == s.batches + group && t.group == [] && t.ops == s.ops + Concat(group) && t.lastSequence == |t.ops|
            && t.snapshots == s.snapshots && t.version == s.version && t.readers == s.readers
  {
    var s := run[|run| - 1];
    RunInv(run, |run| - 1);
    var begun := s.(group := group);
    assert Step(s, BeginGroup(group), begun);
    OneStepOn(run, BeginGroup(group), begun);
    var inserted := GroupIsInserted(run + [begun]);
    var full := inserted[|inserted| - 1];
    RunInv(inserted, |inserted| - 1);
    var t := full.(lastSequence := full.lastSequence + |Concat(full.group)|, batches := full.batches + full.group, group := []);
    assert Step(full, Publish, t);
    OneStepOn(inserted, Publish, t);
    more := inserted + [t];
    NewOps(s, full, group);
  }

  lemma NewOps(s: State, full: State, group: seq<Batch>)
    requires Inv(s) && Inv(full) && s.group == [] && full.group == group && full.lastSequence == s.lastSequence
    requires s.ops <= full.ops && |full.ops| == full.lastSequence + |Concat(group)|
    ensures full.ops == s.ops + Concat(group)
  {
    assert |s.ops| == s.lastSequence;
    assert full.ops[full.lastSequence..] <= Concat(group);
    assert full.ops == full.ops[..s.lastSequence] + full.ops[s.lastSequence..];
  }

  /** Every list of batches is what some run publishes. */
  lemma EveryHistoryHappens(batches: seq<Batch>) returns (run: seq<State>)
    ensures IsRun(run) && run[|run| - 1].batches == batches && run[|run| - 1].ops == Concat(batches)
  {
    var start := State([], [], [], 0, map[0 := {}], 0, None, [[], [], [], [], [], [], []], map[], map[], Idle, 0);
    run := AnyGroupIsWritten([start], batches);
  }
}
