/** The history of a store as the list of operations it took, and what a read at a
    sequence number means in terms of it. */
module Histories {
  import opened Keys
  import opened Entries

  datatype Op = Op(kind: Kind, key: UserKey, value: Bytes)

  /** The operation after `k` others gets sequence number `k + 1`. */
  function EntryOf(k: nat, op: Op): Entry {
    Entry(op.key, k + 1, op.kind, op.value)
  }

  ghost function EntriesOf(ops: seq<Op>): set<Entry> {
    set k | 0 <= k < |ops| :: EntryOf(k, ops[k])
  }

  /** The value of `u` after the operations: the last one on `u` decides. */
  function Lookup(ops: seq<Op>, u: UserKey): Option<Bytes> {
    if ops == [] then None
    else if ops[|ops| - 1].key == u then
      if ops[|ops| - 1].kind.Put? then Some(ops[|ops| - 1].value) else None
    else Lookup(ops[..|ops| - 1], u)
  }

  /** Batches one after the other. */
  function Concat(batches: seq<seq<Op>>): seq<Op> {
    if batches == [] then [] else Concat(batches[..|batches| - 1]) + batches[|batches| - 1]
  }

  lemma {:induction false} ConcatAppend(a: seq<seq<Op>>, b: seq<seq<Op>>)
    ensures Concat(a + b) == Concat(a) + Concat(b)
  {
    if b == [] {
      assert a + b == a;
    } else {
      ConcatAppend(a, b[..|b| - 1]);
      assert (a + b)[..|a + b| - 1] == a + b[..|b| - 1];
    }
  }

  lemma HistoryDistinct(ops: seq<Op>)
    ensures forall e, f :: e in EntriesOf(ops) && f in EntriesOf(ops) && e.seqno == f.seqno ==> e == f
    ensures forall e :: e in EntriesOf(ops) ==> 1 <= e.seqno <= |ops|
    ensures Distinct(EntriesOf(ops))
  {
  }

  lemma OneMoreEntry(ops: seq<Op>, op: Op)
    ensures EntriesOf(ops + [op]) == EntriesOf(ops) + {EntryOf(|ops|, op)}
  {
    forall e | e in EntriesOf(ops) + {EntryOf(|ops|, op)}
      ensures e in EntriesOf(ops + [op])
    {
      if e in EntriesOf(ops) {
        var k :| 0 <= k < |ops| && e == EntryOf(k, ops[k]);
        assert e == EntryOf(k, (ops + [op])[k]);
      } else {
        assert e == EntryOf(|ops|, (ops + [op])[|ops|]);
      }
    }
  }

  /** Reading the history at `q` is looking the key up after the first `q` operations. */
  lemma {:induction false} ReadIsLookup(ops: seq<Op>, u: UserKey, q: nat)
    requires q <= |ops|
    ensures Read(EntriesOf(ops), u, q) == Lookup(ops[..q], u)
    decreases q
  {
    var es := EntriesOf(ops);
    HistoryDistinct(ops);
    if q == 0 {
      ReadOfNothing(es, u, 0);
    } else {
      var last := EntryOf(q - 1, ops[q - 1]);
      assert last in es && ops[..q][..q - 1] == ops[..q - 1];
      if ops[q - 1].key == u {
        ReadOfNewest(es, last, u, q);
      } else {
        ReadIsLookup(ops, u, q - 1);
        SameBelow(es, u, q);
      }
    }
  }

  /** Without an entry of `u` at `q`, reading at `q` is reading just below. */
  lemma SameBelow(es: set<Entry>, u: UserKey, q: nat)
    requires Distinct(es) && q > 0 && forall e :: e in es && e.key == u ==> e.seqno != q
    ensures Read(es, u, q) == Read(es, u, q - 1)
  {
    if f :| f in es && f.key == u && f.seqno <= q {
      var e := NewestExists(es, f, q - 1);
      ReadOfNewest(es, e, u, q - 1);
      ReadOfNewest(es, e, u, q);
    } else {
      ReadOfNothing(es, u, q);
      ReadOfNothing(es, u, q - 1);
    }
  }

  /** An entry newer than the snapshot cannot be seen at it. */
  lemma NewerUnseen(es: set<Entry>, e: Entry, u: UserKey, q: nat)
    requires Distinct(es + {e}) && e.seqno > q
    ensures Read(es + {e}, u, q) == Read(es, u, q)
  {
    if f :| f in es && f.key == u && f.seqno <= q {
      var g := NewestExists(es, f, q);
      ReadOfNewest(es, g, u, q);
      ReadOfNewest(es + {e}, g, u, q);
    } else {
      ReadOfNothing(es, u, q);
      ReadOfNothing(es + {e}, u, q);
    }
  }

  /** Adding an entry newer than all others to two sets that read alike keeps them alike. */
  lemma NewestAddedToBoth(es: set<Entry>, fs: set<Entry>, e: Entry, u: UserKey, q: nat)
    requires Distinct(es + {e}) && Distinct(fs + {e}) && Read(es, u, q) == Read(fs, u, q)
    requires forall f :: f in es + fs ==> f.seqno < e.seqno
    ensures Read(es + {e}, u, q) == Read(fs + {e}, u, q)
  {
    if e.seqno > q {
      NewerUnseen(es, e, u, q);
      NewerUnseen(fs, e, u, q);
    } else if e.key == u {
      ReadOfNewest(es + {e}, e, u, q);
      ReadOfNewest(fs + {e}, e, u, q);
    } else {
      OtherKeyUnseen(es, e, u, q);
      OtherKeyUnseen(fs, e, u, q);
    }
  }

  lemma OtherKeyUnseen(es: set<Entry>, e: Entry, u: UserKey, q: nat)
    requires Distinct(es + {e}) && e.key != u
    ensures Read(es + {e}, u, q) == Read(es, u, q)
  {
    if f :| f in es && f.key == u && f.seqno <= q {
      var g := NewestExists(es, f, q);
      ReadOfNewest(es, g, u, q);
      ReadOfNewest(es + {e}, g, u, q);
    } else {
      ReadOfNothing(es, u, q);
      ReadOfNothing(es + {e}, u, q);
    }
  }
}
