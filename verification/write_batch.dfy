/** Write batches as bytes: a sequence number, a count and one record per operation. */
module WriteBatches {
  import opened Keys
  import opened Coding
  import opened Varints
  import opened Slices
  import opened BlockFormat
  import opened InternalKeys

  datatype Op = PutOp(key: Bytes, value: Bytes) | DeleteOp(key: Bytes)

  const VALUE_TAG: Byte := 1
  const DELETION_TAG: Byte := 0
  const HEADER_SIZE := 12

  // ---- The format ----

  ghost predicate OpOk(op: Op) {
    Short(op.key) && (op.PutOp? ==> Short(op.value))
  }

  ghost predicate OpsOk(ops: seq<Op>) {
    forall i :: 0 <= i < |ops| ==> OpOk(ops[i])
  }

  function Tag(op: Op): Byte {
    if op.PutOp? then VALUE_TAG else DELETION_TAG
  }

  function Payload(op: Op): Bytes {
    match op
    case PutOp(key, value) => WithLength(key) + WithLength(value)
    case DeleteOp(key) => WithLength(key)
  }

  function Record(op: Op): Bytes {
    [Tag(op)] + Payload(op)
  }

  /** Records one behind the other, whatever encodes them. */
  function Records(enc: Op -> Bytes, ops: seq<Op>): Bytes
    decreases ops
  {
    if ops == [] then [] else enc(ops[0]) + Records(enc, ops[1..])
  }

  const RECORD: Op -> Bytes := Record

  lemma {:induction false} RecordsInTurn(enc: Op -> Bytes, a: seq<Op>, b: seq<Op>)
    ensures Records(enc, a + b) == Records(enc, a) + Records(enc, b)
    decreases a
  {
    if a == [] {
      assert a + b == b;
    } else {
      RecordsInTurn(enc, a[1..], b);
      assert (a + b)[1..] == a[1..] + b;
      assert enc(a[0]) + (Records(enc, a[1..]) + Records(enc, b)) == enc(a[0]) + Records(enc, a[1..]) + Records(enc, b);
    }
  }

  lemma OneRecord(enc: Op -> Bytes, op: Op)
    ensures Records(enc, [op]) == enc(op)
  {
    assert Records(enc, [op][1..]) == [];
    assert enc(op) + [] == enc(op);
  }

  // ---- Reading ----

  function ReadPayload(tag: Byte, data: Bytes, p: nat): (r: Option<(Op, nat)>)
    requires p <= |data|
    ensures r.Some? ==> p < r.value.1 <= |data|
  {
    if tag == VALUE_TAG then
      var key := ReadSlice(data, p, |data|);
      if key == None then None else
      var value := ReadSlice(data, key.value.1, |data|);
      if value == None then None else Some((PutOp(key.value.0, value.value.0), value.value.1))
    else if tag == DELETION_TAG then
      var key := ReadSlice(data, p, |data|);
      if key == None then None else Some((DeleteOp(key.value.0), key.value.1))
    else None
  }

  /** The operations from `p` on, and whether they fill the data. */
  function Parse(data: Bytes, p: nat): (seq<Op>, bool)
    requires p <= |data|
    decreases |data| - p
  {
    if p == |data| then ([], true) else
    var r := ReadPayload(data[p], data, p + 1);
    if r == None then ([], false) else
    var rest := Parse(data, r.value.1);
    ([r.value.0] + rest.0, rest.1)
  }

  /** Reading has come to `p`, with `done` behind it. */
  ghost predicate Scanned(whole: (seq<Op>, bool), done: seq<Op>, data: Bytes, p: nat) {
    forall x {:trigger Asked(OfBatch, x)} :: Asked(OfBatch, x) ==>
      p <= |data| && whole.0 == done + Parse(data, p).0 && whole.1 == Parse(data, p).1
  }

  lemma ScanStarts(whole: (seq<Op>, bool), data: Bytes)
    requires |data| >= HEADER_SIZE && whole == Parse(data, HEADER_SIZE)
    ensures Scanned(whole, [], data, HEADER_SIZE)
  {
  }

  lemma ScanNext(whole: (seq<Op>, bool), done: seq<Op>, data: Bytes, p: nat, op: Op, next: nat)
    requires Scanned(whole, done, data, p) && p < |data| && ReadPayload(data[p], data, p + 1) == Some((op, next))
    ensures Scanned(whole, done + [op], data, next)
  {
    assert Asked(OfBatch, 0);
    assert done + ([op] + Parse(data, next).0) == done + [op] + Parse(data, next).0;
  }

  lemma ScanFails(whole: (seq<Op>, bool), done: seq<Op>, data: Bytes, p: nat)
    requires Scanned(whole, done, data, p) && p < |data| && ReadPayload(data[p], data, p + 1) == None
    ensures whole == (done, false)
  {
    assert Asked(OfBatch, 0);
    assert done + [] == done;
  }

  lemma ScanEnds(whole: (seq<Op>, bool), done: seq<Op>, data: Bytes)
    requires Scanned(whole, done, data, |data|)
    ensures whole == (done, true)
  {
    assert Asked(OfBatch, 0);
    assert done + [] == done;
  }

  lemma PayloadBack(op: Op, data: Bytes, p: nat, end: nat)
    requires OpOk(op) && At(Payload(op), data, p, end) && p <= end <= |data|
    ensures ReadPayload(Tag(op), data, p) == Some((op, end))
  {
    match op
    case PutOp(key, value) =>
      var mid := AtBoth(WithLength(key), WithLength(value), data, p, end);
      SliceBack(key, data, p, mid, |data|);
      SliceBack(value, data, mid, end, |data|);
    case DeleteOp(key) =>
      SliceBack(key, data, p, end, |data|);
  }

  lemma RecordBack(op: Op, data: Bytes, p: nat, end: nat)
    requires OpOk(op) && At(Record(op), data, p, end) && end <= |data|
    ensures p < end && data[p] == Tag(op) && ReadPayload(data[p], data, p + 1) == Some((op, end))
  {
    var mid := AtBoth([Tag(op)], Payload(op), data, p, end);
    assert Asked(OfPart, 0);
    assert data[p..p + 1] == [Tag(op)];
    PayloadBack(op, data, p + 1, end);
  }

  /** Every batch parses to its operations. */
  lemma {:induction false} ParseBack(ops: seq<Op>, data: Bytes, p: nat)
    requires OpsOk(ops) && At(Records(RECORD, ops), data, p, |data|) && p <= |data|
    ensures Parse(data, p) == (ops, true)
    decreases ops
  {
    if ops == [] {
      assert Asked(OfPart, 0);
    } else {
      var mid := AtBoth(RECORD(ops[0]), Records(RECORD, ops[1..]), data, p, |data|);
      RecordBack(ops[0], data, p, mid);
      ParseBack(ops[1..], data, mid);
      assert [ops[0]] + ops[1..] == ops;
    }
  }

  // ---- Into a memtable ----

  /** The internal key of a sequence number and a kind; the number has 56 bits. */
  function KeyFor(user: Bytes, s: nat, kind: Byte): Bytes
    requires kind <= 1
  {
    EncodeKey(user, s % 0x100_0000_0000_0000 * 256 + kind)
  }

  function PairFor(op: Op, s: nat): Pair {
    Pair(KeyFor(op.key, s, Tag(op)), if op.PutOp? then op.value else [])
  }

  /** What a handler makes of an operation and its sequence number. */
  type Handler = (Op, nat) -> Pair

  const INSERTER: Handler := PairFor

  /** Operation `i` gets sequence number `base + i`. */
  function Handled(handler: Handler, base: nat, ops: seq<Op>): (kvs: seq<Pair>)
    ensures |kvs| == |ops| && forall i :: 0 <= i < |ops| ==> kvs[i] == handler(ops[i], base + i)
  {
    seq(|ops|, i requires 0 <= i < |ops| => handler(ops[i], base + i))
  }

  /** `WriteBatchInternal::Count`: a signed number. */
  function SignedCount(rep: Bytes): int
    requires |rep| >= HEADER_SIZE
  {
    Signed(DecodeFixed32(rep[8..]))
  }

  function Signed(n: Word): int {
    if n < 0x8000_0000 then n else n - 0x1_0000_0000
  }

  // ---- The class ----

  /** What a count of operations is in 32 bits. */
  function Wrapped(n: nat): Word {
    n % 0x1_0000_0000
  }

  /** The bytes are a batch: header and records. */
  ghost predicate Spells(enc: Op -> Bytes, rep: Bytes, base: nat, ops: seq<Op>) {
    forall x {:trigger Asked(OfBatch, x)} :: Asked(OfBatch, x) ==>
      && |rep| >= HEADER_SIZE && DecodeFixed64(rep) == base && DecodeFixed32(rep[8..]) == Wrapped(|ops|)
      && OpsOk(ops) && rep[12..] == Records(enc, ops)
  }

  lemma SpellsIs(enc: Op -> Bytes, rep: Bytes, base: nat, ops: seq<Op>)
    ensures Spells(enc, rep, base, ops)
            <==> |rep| >= HEADER_SIZE && DecodeFixed64(rep) == base && DecodeFixed32(rep[8..]) == Wrapped(|ops|)
                 && OpsOk(ops) && rep[12..] == Records(enc, ops)
  {
    assert Asked(OfBatch, 0);
  }

  lemma EmptySpells(enc: Op -> Bytes)
    ensures Spells(enc, Zeros(HEADER_SIZE), 0, [])
  {
    SpellsIs(enc, Zeros(HEADER_SIZE), 0, []);
  }

  lemma CountGrows(a: nat, b: nat)
    ensures Wrapped(Wrapped(a) + Wrapped(b)) == Wrapped(a + b)
  {
  }

  lemma Recounted(rep: Bytes, n: Word, records: Bytes)
    requires |rep| >= HEADER_SIZE
    ensures var rep2 := rep[..8] + Fixed32(n) + rep[12..] + records;
            |rep2| >= HEADER_SIZE && DecodeFixed64(rep2) == DecodeFixed64(rep) && DecodeFixed32(rep2[8..]) == n && rep2[12..] == rep[12..] + records
  {
    var rep2, rest := rep[..8] + Fixed32(n) + rep[12..] + records, rep[12..] + records;
    assert rep2[8..] == Fixed32(n) + rest;
    Fixed32RoundTrip(n, rest);
    assert rep2[..8] == rep[..8];
    SameHead(rep, rep2);
  }

  lemma SameHead(a: Bytes, b: Bytes)
    requires |a| >= 8 && |b| >= 8 && a[..8] == b[..8]
    ensures DecodeFixed64(a) == DecodeFixed64(b)
  {
    forall i | 0 <= i < 8
      ensures a[i] == b[i]
    {
      assert a[..8][i] == b[..8][i];
    }
  }

  /** The count and the records with more operations behind. */
  lemma Extended(enc: Op -> Bytes, rep: Bytes, base: nat, ops: seq<Op>, more: seq<Op>, records: Bytes, count: Word, all: seq<Op>, rep2: Bytes)
    requires Spells(enc, rep, base, ops) && OpsOk(more) && records == Records(enc, more) && |rep| >= HEADER_SIZE
    requires all == ops + more && count == Wrapped(|all|) && rep2 == rep[..8] + Fixed32(count) + rep[12..] + records
    ensures Spells(enc, rep2, base, all)
  {
    SpellsIs(enc, rep, base, ops);
    Recounted(rep, count, records);
    Joined(enc, rep, ops, more, records);
    SpellsIs(enc, rep2, base, all);
  }

  /** The new count, as the code adds it up. */
  lemma Counted(enc: Op -> Bytes, rep: Bytes, base: nat, ops: seq<Op>, n: nat)
    requires Spells(enc, rep, base, ops)
    ensures |rep| >= HEADER_SIZE && Wrapped(DecodeFixed32(rep[8..]) + Wrapped(n)) == Wrapped(|ops| + n)
  {
    SpellsIs(enc, rep, base, ops);
    CountGrows(|ops|, n);
  }

  lemma Joined(enc: Op -> Bytes, rep: Bytes, ops: seq<Op>, more: seq<Op>, records: Bytes)
    requires |rep| >= HEADER_SIZE && rep[12..] == Records(enc, ops) && records == Records(enc, more)
    ensures rep[12..] + records == Records(enc, ops + more)
  {
    RecordsInTurn(enc, ops, more);
  }

  lemma Renumbered(enc: Op -> Bytes, rep: Bytes, base: nat, ops: seq<Op>, s: nat)
    requires Spells(enc, rep, base, ops) && s < TWO_TO_THE_64 && |rep| >= HEADER_SIZE
    ensures Spells(enc, Fixed64(s) + rep[8..], s, ops)
  {
    SpellsIs(enc, rep, base, ops);
    NewHead(Fixed64(s), rep);
    Fixed64RoundTrip(s);
    SpellsIs(enc, Fixed64(s) + rep[8..], s, ops);
  }

  lemma NewHead(head: Bytes, rep: Bytes)
    requires |head| == 8 && |rep| >= HEADER_SIZE
    ensures (head + rep[8..])[8..] == rep[8..] && (head + rep[8..])[12..] == rep[12..] && DecodeFixed64(head + rep[8..]) == DecodeFixed64(head)
  {
    SameHead(head, head + rep[8..]);
  }

  class WriteBatch {
    var rep: Bytes
    ghost var base: nat
    ghost var ops: seq<Op>

    ghost predicate Ok()
      reads this
    {
      Spells(RECORD, rep, base, ops)
    }

    constructor ()
      ensures Ok() && base == 0 && ops == []
    {
      rep := Zeros(HEADER_SIZE);
      base, ops := 0, [];
      EmptySpells(RECORD);
    }

    method Clear()
      modifies this
      ensures Ok() && base == 0 && ops == []
    {
      rep := Zeros(HEADER_SIZE);
      base, ops := 0, [];
      EmptySpells(RECORD);
    }

    method AppendRecord(op: Op, payload: Bytes)
      requires Ok() && OpOk(op) && payload == Payload(op)
      modifies this
      ensures Ok() && base == old(base) && ops == old(ops) + [op]
    {
      var record := [Tag(op)] + payload;
      OneRecord(RECORD, op);
      AppendRecords(record, 1, [op]);
    }

    method AppendRecords(records: Bytes, n: Word, ghost more: seq<Op>)
      requires Ok() && OpsOk(more) && records == Records(RECORD, more) && n == Wrapped(|more|)
      modifies this
      ensures Ok() && base == old(base) && ops == old(ops) + more
    {
      Counted(RECORD, rep, base, ops, |more|);
      var count := Wrapped(DecodeFixed32(rep[8..]) + n);
      ghost var rep0, all := rep, ops + more;
      rep := rep[..8] + Fixed32(count) + rep[12..];
      rep := rep + records;
      Extended(RECORD, rep0, base, ops, more, records, count, all, rep);
      ops := all;
    }

    method Put(key: Bytes, value: Bytes)
      requires Ok() && Short(key) && Short(value)
      modifies this
      ensures Ok() && base == old(base) && ops == old(ops) + [PutOp(key, value)]
    {
      var k := PutSlice(key);
      var v := PutSlice(value);
      AppendRecord(PutOp(key, value), k + v);
    }

    method Delete(key: Bytes)
      requires Ok() && Short(key)
      modifies this
      ensures Ok() && base == old(base) && ops == old(ops) + [DeleteOp(key)]
    {
      var k := PutSlice(key);
      AppendRecord(DeleteOp(key), k);
    }

    /** `WriteBatchInternal::Append`, with which a leader gathers its group. */
    method Append(src: WriteBatch)
      requires Ok() && src.Ok()
      modifies this
      ensures Ok() && base == old(base) && ops == old(ops) + old(src.ops)
    {
      SpellsIs(RECORD, src.rep, src.base, src.ops);
      AppendRecords(src.rep[12..], DecodeFixed32(src.rep[8..]), src.ops);
    }

    method SetSequence(s: nat)
      requires Ok() && s < TWO_TO_THE_64
      modifies this
      ensures Ok() && base == s && ops == old(ops)
    {
      SpellsIs(RECORD, rep, base, ops);
      Renumbered(RECORD, rep, base, ops, s);
      rep := Fixed64(s) + rep[8..];
      base := s;
    }

    method SetContents(contents: Bytes)
      requires |contents| >= HEADER_SIZE
      modifies this
      ensures rep == contents
    {
      rep := contents;
    }

    /** `Iterate`: what the handler makes of the operations, and whether the batch was well-formed. */
    method Iterate(handler: Handler, ghost whole: (seq<Op>, bool)) returns (ok: bool, made: seq<Pair>)
      requires |rep| >= HEADER_SIZE ==> whole == Parse(rep, HEADER_SIZE)
      ensures |rep| < HEADER_SIZE ==> !ok && made == []
      ensures |rep| >= HEADER_SIZE ==>
                made == Handled(handler, DecodeFixed64(rep), whole.0) && (ok <==> whole.1 && |made| == SignedCount(rep))
    {
      made := [];
      if |rep| < HEADER_SIZE {
        // malformed WriteBatch (too small)
        return false, [];
      }
      ghost var done: seq<Op> := [];
      var base := DecodeFixed64(rep);
      var p, found := HEADER_SIZE, 0;
      ScanStarts(whole, rep);
      while p < |rep|
        invariant p <= |rep| && found == |made| == |done| && made == Handled(handler, base, done) && Scanned(whole, done, rep, p)
        decreases |rep| - p
      {
        var r := GetPayload(rep[p], rep, p + 1);
        if r == None {
          ScanFails(whole, done, rep, p);
          return false, made;
        }
        found := found + 1;
        ScanNext(whole, done, rep, p, r.value.0, r.value.1);
        HandledNext(handler, base, done, r.value.0);
        made := made + [handler(r.value.0, base + |made|)];
        done := done + [r.value.0];
        p := r.value.1;
      }
      ScanEnds(whole, done, rep);
      // WriteBatch has wrong count
      ok := found == SignedCount(rep);
    }

    /** `WriteBatchInternal::InsertInto`: the pairs that go to the memtable. */
    method InsertInto() returns (ok: bool, added: seq<Pair>)
      ensures |rep| < HEADER_SIZE ==> !ok && added == []
      ensures |rep| >= HEADER_SIZE ==>
                && added == Handled(INSERTER, DecodeFixed64(rep), Parse(rep, HEADER_SIZE).0)
                && (ok <==> Parse(rep, HEADER_SIZE).1 && |added| == SignedCount(rep))
    {
      ok, added := Iterate(INSERTER, if |rep| >= HEADER_SIZE then Parse(rep, HEADER_SIZE) else ([], false));
    }
  }

  lemma HandledNext(handler: Handler, base: nat, done: seq<Op>, op: Op)
    ensures Handled(handler, base, done + [op]) == Handled(handler, base, done) + [handler(op, base + |done|)]
  {
  }

  method GetPayload(tag: Byte, data: Bytes, p: nat) returns (r: Option<(Op, nat)>)
    requires p <= |data|
    ensures r == ReadPayload(tag, data, p)
  {
    if tag == VALUE_TAG {
      var key := GetLengthPrefixedSlice(data, p, |data|);
      if key == None {
        // bad WriteBatch Put
        return None;
      }
      var value := GetLengthPrefixedSlice(data, key.value.1, |data|);
      if value == None {
        return None;
      }
      r := Some((PutOp(key.value.0, value.value.0), value.value.1));
    } else if tag == DELETION_TAG {
      var key := GetLengthPrefixedSlice(data, p, |data|);
      if key == None {
        // bad WriteBatch Delete
        return None;
      }
      r := Some((DeleteOp(key.value.0), key.value.1));
    } else {
      // unknown WriteBatch tag
      r := None;
    }
  }

  lemma SignedIs(n: nat)
    ensures n == Signed(Wrapped(n)) <==> n < 0x8000_0000
  {
  }

  /** A batch parses to its operations and its sequence number; the count says so unless there
      are more operations than a signed number counts. */
  lemma BatchBack(rep: Bytes, base: nat, ops: seq<Op>)
    requires Spells(RECORD, rep, base, ops)
    ensures |rep| >= HEADER_SIZE && DecodeFixed64(rep) == base && Parse(rep, HEADER_SIZE) == (ops, true)
    ensures |ops| == SignedCount(rep) <==> |ops| < 0x8000_0000
  {
    SpellsIs(RECORD, rep, base, ops);
    SignedIs(|ops|);
    RecordsLie(RECORD, rep, ops);
    ParseBack(ops, rep, HEADER_SIZE);
  }

  lemma RecordsLie(enc: Op -> Bytes, rep: Bytes, ops: seq<Op>)
    requires |rep| >= HEADER_SIZE && rep[12..] == Records(enc, ops)
    ensures At(Records(enc, ops), rep, HEADER_SIZE, |rep|)
  {
    assert rep[12..12 + |Records(enc, ops)|] == Records(enc, ops);
  }
}
