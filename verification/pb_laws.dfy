/** What decoding makes of any byte string at all, field by field: which strings are
    accepted, what each field of the struct then holds, and that all of it is of the
    type the struct has. */
module PbLaws {
  import opened Keys
  import opened Varints
  import opened PbFields
  import opened PbFormat

  /** A tag and what stands behind it: the tag is read at `from`, and `body` up to `to` is the payload. */
  datatype Part = Part(from: nat, wire: nat, tag: nat, body: nat, to: nat)

  /** The bytes from `p` on are tags with payloads, one behind the other, up to the end of
      the message: the limit, a zero byte, or a tag that is cut off. */
  ghost predicate PartsOf(data: Bytes, p: nat, limit: nat, parts: seq<Part>) {
    && limit <= |data|
    && (forall k :: 0 <= k < |parts| ==>
          parts[k].from < limit && ReadTag(data, parts[k].from, limit) == Tag(parts[k].wire, parts[k].tag, parts[k].body))
    && (parts != [] ==> parts[0].from == p)
    && (forall j, k :: 0 <= j < k < |parts| && k <= j + 1 ==> parts[k].from == parts[j].to)
    && var end := if parts == [] then p else parts[|parts| - 1].to;
       end >= limit || ReadTag(data, end, limit) == Eof
  }

  ghost predicate Knows(d: Descriptor, tag: nat) {
    exists i :: 0 <= i < |d.fields| && d.fields[i].tag == tag
  }

  // ---- Unknown fields ----

  /** Where the payload of a field that nobody knows ends: the wire type tells. */
  ghost predicate Skipped(data: Bytes, limit: nat, q: Part)
    requires limit <= |data|
  {
    match q.wire
    case 0 => q.body < q.to <= limit && data[q.to - 1] < 128 && forall k :: q.body <= k < q.to - 1 ==> data[k] >= 128
    case 1 => q.to == q.body + 8 <= limit
    case 2 => ReadLength(data, q.body, limit).Some? && ReadLength(data, q.body, limit).value.1 == q.to
    case 5 => q.to == q.body + 4 <= limit
    case _ => false
  }

  lemma {:induction false} SkipVarintIs(data: Bytes, p: nat, limit: nat, to: nat)
    requires limit <= |data|
    ensures SkipVarint(data, p, limit) == Some(to) <==>
              p < to <= limit && data[to - 1] < 128 && forall k :: p <= k < to - 1 ==> data[k] >= 128
    decreases limit - p
  {
    if p < limit && data[p] >= 128 {
      SkipVarintIs(data, p + 1, limit, to);
    }
  }

  lemma SkipIs(data: Bytes, limit: nat, q: Part)
    requires limit <= |data|
    ensures SkipField(q.wire, data, q.body, limit) == Some(q.to) <==> Skipped(data, limit, q)
  {
    SkipVarintIs(data, q.body, limit, q.to);
  }

  // ---- One field of the struct ----

  /** What one part does to the slot of field `i`: it writes its own field and clears the
      other members of a union. */
  ghost function SlotStep(d: Descriptor, data: Bytes, limit: nat, s: Slot, q: Part, i: nat): Option<Slot>
    requires limit <= |data| && i < |d.fields|
  {
    if q.tag == d.fields[i].tag then
      var r := DecodeSlot(d.fields[i], q.wire, data, q.body, limit, s);
      if r.Some? && r.value.1 == q.to then Some(r.value.0) else None
    else if exists j :: 0 <= j < |d.fields| && d.fields[j].tag == q.tag && Siblings(d.fields[j], d.fields[i]) then Some(Choice(None))
    else Some(s)
  }

  /** The slot of field `i` when all parts have come. */
  ghost function SlotAfter(d: Descriptor, data: Bytes, limit: nat, s: Slot, parts: seq<Part>, i: nat): Option<Slot>
    requires limit <= |data| && i < |d.fields|
  {
    if parts == [] then Some(s)
    else
      var before := SlotAfter(d, data, limit, s, parts[..|parts| - 1], i);
      if before == None then None else SlotStep(d, data, limit, before.value, parts[|parts| - 1], i)
  }

  lemma {:induction false} SlotFirst(d: Descriptor, data: Bytes, limit: nat, s: Slot, q: Part, rest: seq<Part>, i: nat)
    requires limit <= |data| && i < |d.fields|
    ensures SlotAfter(d, data, limit, s, [q] + rest, i)
            == match SlotStep(d, data, limit, s, q, i)
               case None => None
               case Some(s1) => SlotAfter(d, data, limit, s1, rest, i)
  {
    var all := [q] + rest;
    if rest == [] {
      assert all == [q] && [q][..0] == [];
      assert SlotAfter(d, data, limit, s, [], i) == Some(s);
    } else {
      var front := rest[..|rest| - 1];
      assert all[..|all| - 1] == [q] + front;
      SlotFirst(d, data, limit, s, q, front, i);
    }
  }

  // ---- Whole messages ----

  /** Each field's slot is what the parts make of it. */
  ghost predicate SlotsAre(d: Descriptor, data: Bytes, limit: nat, m: Message, parts: seq<Part>, r: Message) {
    && limit <= |data| && |m.slots| == |d.fields| && |r.slots| == |d.fields|
    && forall i :: 0 <= i < |d.fields| ==> SlotAfter(d, data, limit, m.slots[i], parts, i) == Some(r.slots[i])
  }

  /** No part is of a field that cannot be skipped. */
  ghost predicate OthersSkipped(d: Descriptor, data: Bytes, limit: nat, parts: seq<Part>) {
    && limit <= |data|
    && forall k :: 0 <= k < |parts| && !Knows(d, parts[k].tag) ==>
         Skipped(data, limit, parts[k]) && (d.fields == [] ==> parts[k].tag != 0)
  }

  /** Each required field is among the parts, or was seen before. */
  ghost predicate RequiredCome(d: Descriptor, parts: seq<Part>, seen: set<nat>) {
    forall i :: 0 <= i < |d.fields| && d.fields[i].htype.Required? ==>
      RequiredBefore(d.fields, i) in seen || exists k :: 0 <= k < |parts| && parts[k].tag == d.fields[i].tag
  }

  ghost predicate Explains(d: Descriptor, data: Bytes, p: nat, limit: nat, m: Message, seen: set<nat>, parts: seq<Part>, r: Message) {
    && PartsOf(data, p, limit, parts) && OthersSkipped(d, data, limit, parts)
    && RequiredCome(d, parts, seen) && SlotsAre(d, data, limit, m, parts, r)
  }

  // ---- Required fields and their numbers ----

  lemma {:induction false} RequiredNumber(fields: seq<Field>, n: nat, k: nat) returns (i: nat)
    requires n <= |fields| && k < RequiredBefore(fields, n)
    ensures i < n && fields[i].htype.Required? && RequiredBefore(fields, i) == k
  {
    if k < RequiredBefore(fields, n - 1) {
      i := RequiredNumber(fields, n - 1, k);
    } else {
      i := n - 1;
    }
  }

  lemma {:induction false} RequiredBelow(fields: seq<Field>, i: nat, n: nat)
    requires i < n <= |fields| && fields[i].htype.Required?
    ensures RequiredBefore(fields, i) < RequiredBefore(fields, n)
    decreases n
  {
    if i < n - 1 {
      RequiredBelow(fields, i, n - 1);
    }
  }

  /** No two required fields share a number. */
  lemma NumbersDiffer(fields: seq<Field>, i: nat, j: nat)
    requires i < |fields| && j < |fields| && fields[i].htype.Required? && fields[j].htype.Required?
    requires RequiredBefore(fields, i) == RequiredBefore(fields, j)
    ensures i == j
  {
    if i < j {
      RequiredBelow(fields, i, j);
    } else if j < i {
      RequiredBelow(fields, j, i);
    }
  }

  lemma RequiredSeenIs(d: Descriptor, seen: set<nat>)
    ensures RequiredSeen(d, seen) <==> RequiredCome(d, [], seen)
  {
    if RequiredCome(d, [], seen) {
      forall k | 0 <= k < RequiredBefore(d.fields, |d.fields|)
        ensures k in seen
      {
        var i := RequiredNumber(d.fields, |d.fields|, k);
      }
    }
    if RequiredSeen(d, seen) {
      forall i | 0 <= i < |d.fields| && d.fields[i].htype.Required?
        ensures RequiredBefore(d.fields, i) in seen
      {
        RequiredBelow(d.fields, i, |d.fields|);
      }
    }
  }

  // ---- One turn of the loop ----

  /** The turn that reads part `q`, which field `j` knows. */
  ghost predicate KnownTurn(d: Descriptor, data: Bytes, limit: nat, m: Message, q: Part, j: nat, s: Slot) {
    && limit <= |data| && q.from < limit && ReadTag(data, q.from, limit) == Tag(q.wire, q.tag, q.body)
    && |m.slots| == |d.fields| && j < |d.fields| && d.fields[j].tag == q.tag
    && DecodeSlot(d.fields[j], q.wire, data, q.body, limit, m.slots[j]) == Some((s, q.to))
  }

  /** The turn that skips part `q`. */
  ghost predicate OtherTurn(d: Descriptor, data: Bytes, limit: nat, m: Message, q: Part) {
    && limit <= |data| && q.from < limit && ReadTag(data, q.from, limit) == Tag(q.wire, q.tag, q.body)
    && |m.slots| == |d.fields| && !Knows(d, q.tag) && Skipped(data, limit, q) && (d.fields == [] ==> q.tag != 0)
  }

  lemma KnownTurnIs(d: Descriptor, data: Bytes, limit: nat, m: Message, seen: set<nat>, q: Part, j: nat, s: Slot)
    requires TagsOk(d.fields) && KnownTurn(d, data, limit, m, q, j, s)
    ensures DecodeFields(d, data, q.from, limit, m, seen)
            == DecodeFields(d, data, q.to, limit, Stored(d, m, j, s), AlsoSeen(d, j, seen))
  {
    FieldIndexIs(d.fields, j);
  }

  lemma OtherTurnIs(d: Descriptor, data: Bytes, limit: nat, m: Message, seen: set<nat>, q: Part)
    requires OtherTurn(d, data, limit, m, q)
    ensures DecodeFields(d, data, q.from, limit, m, seen) == DecodeFields(d, data, q.to, limit, m, seen)
  {
    SkipIs(data, limit, q);
    assert FieldIndex(d.fields, q.tag) == None;
  }

  /** What a successful turn does to each slot. */
  lemma KnownTurnSlots(d: Descriptor, data: Bytes, limit: nat, m: Message, q: Part, j: nat, s: Slot, i: nat)
    requires TagsOk(d.fields) && KnownTurn(d, data, limit, m, q, j, s) && i < |d.fields|
    ensures SlotStep(d, data, limit, m.slots[i], q, i) == Some(Stored(d, m, j, s).slots[i])
  {
    if i != j {
      if Siblings(d.fields[j], d.fields[i]) {
        assert d.fields[j].tag == q.tag;
      } else {
        forall k | 0 <= k < |d.fields| && d.fields[k].tag == q.tag
          ensures k == j
        {
        }
      }
    }
  }

  lemma OtherTurnSlots(d: Descriptor, data: Bytes, limit: nat, m: Message, q: Part, i: nat)
    requires OtherTurn(d, data, limit, m, q) && i < |d.fields|
    ensures SlotStep(d, data, limit, m.slots[i], q, i) == Some(m.slots[i])
  {
  }

  lemma SeenAlong(d: Descriptor, parts: seq<Part>, seen: set<nat>, q: Part, j: nat)
    requires DescriptorOk(d) && j < |d.fields| && d.fields[j].tag == q.tag
    ensures RequiredCome(d, [q] + parts, seen) <==> RequiredCome(d, parts, AlsoSeen(d, j, seen))
  {
    var all := [q] + parts;
    assert all[0] == q && forall k :: 0 <= k < |parts| ==> all[k + 1] == parts[k];
    forall i | 0 <= i < |d.fields| && d.fields[i].htype.Required?
      ensures (RequiredBefore(d.fields, i) in seen || exists k :: 0 <= k < |all| && all[k].tag == d.fields[i].tag)
              <==> (RequiredBefore(d.fields, i) in AlsoSeen(d, j, seen) || exists k :: 0 <= k < |parts| && parts[k].tag == d.fields[i].tag)
    {
      SeenForOne(d, parts, seen, q, j, i);
    }
  }

  lemma SeenForOne(d: Descriptor, parts: seq<Part>, seen: set<nat>, q: Part, j: nat, i: nat)
    requires DescriptorOk(d) && j < |d.fields| && d.fields[j].tag == q.tag && i < |d.fields| && d.fields[i].htype.Required?
    ensures (RequiredBefore(d.fields, i) in seen || exists k :: 0 <= k < |[q] + parts| && ([q] + parts)[k].tag == d.fields[i].tag)
            <==> (RequiredBefore(d.fields, i) in AlsoSeen(d, j, seen) || exists k :: 0 <= k < |parts| && parts[k].tag == d.fields[i].tag)
  {
    var all := [q] + parts;
    assert forall k :: 0 <= k < |parts| ==> all[k + 1] == parts[k];
    RequiredBelow(d.fields, i, |d.fields|);
    if i == j {
      assert all[0].tag == d.fields[i].tag;
    } else {
      assert d.fields[i].tag != q.tag;
      if d.fields[j].htype.Required? && RequiredBefore(d.fields, i) == RequiredBefore(d.fields, j) {
        NumbersDiffer(d.fields, i, j);
      }
    }
  }

  // ---- From one turn to the rest ----

  lemma PartsGrow(data: Bytes, limit: nat, q: Part, rest: seq<Part>)
    requires limit <= |data| && q.from < limit && ReadTag(data, q.from, limit) == Tag(q.wire, q.tag, q.body)
    requires PartsOf(data, q.to, limit, rest)
    ensures PartsOf(data, q.from, limit, [q] + rest)
  {
    var all := [q] + rest;
    assert forall k :: 0 <= k < |rest| ==> all[k + 1] == rest[k];
    assert all[|all| - 1] == if rest == [] then q else rest[|rest| - 1];
    forall k | 0 <= k < |all|
      ensures all[k].from < limit && ReadTag(data, all[k].from, limit) == Tag(all[k].wire, all[k].tag, all[k].body)
    {
      if k > 0 {
        assert all[k] == rest[k - 1];
      }
    }
    forall j, k | 0 <= j < k < |all| && k <= j + 1
      ensures all[k].from == all[j].to
    {
      if j > 0 {
        assert rest[k - 1].from == rest[j - 1].to;
      }
    }
  }

  lemma PartsShrink(data: Bytes, limit: nat, q: Part, rest: seq<Part>)
    requires PartsOf(data, q.from, limit, [q] + rest)
    ensures PartsOf(data, q.to, limit, rest)
  {
    var all := [q] + rest;
    assert all[|all| - 1] == if rest == [] then q else rest[|rest| - 1];
    if rest != [] {
      assert all[1].from == all[0].to;
    }
    forall j, k | 0 <= j < k < |rest| && k <= j + 1
      ensures rest[k].from == rest[j].to
    {
      assert all[k + 1].from == all[j + 1].to;
    }
    forall k | 0 <= k < |rest|
      ensures rest[k].from < limit && ReadTag(data, rest[k].from, limit) == Tag(rest[k].wire, rest[k].tag, rest[k].body)
    {
      assert all[k + 1] == rest[k];
    }
  }

  lemma PartsFirst(data: Bytes, limit: nat, q: Part, rest: seq<Part>)
    requires limit <= |data| && q.from < limit && ReadTag(data, q.from, limit) == Tag(q.wire, q.tag, q.body)
    ensures PartsOf(data, q.from, limit, [q] + rest) <==> PartsOf(data, q.to, limit, rest)
  {
    if PartsOf(data, q.to, limit, rest) {
      PartsGrow(data, limit, q, rest);
    }
    if PartsOf(data, q.from, limit, [q] + rest) {
      PartsShrink(data, limit, q, rest);
    }
  }

  lemma OthersFirst(d: Descriptor, data: Bytes, limit: nat, q: Part, rest: seq<Part>)
    requires limit <= |data| && (!Knows(d, q.tag) ==> Skipped(data, limit, q) && (d.fields == [] ==> q.tag != 0))
    ensures OthersSkipped(d, data, limit, [q] + rest) <==> OthersSkipped(d, data, limit, rest)
  {
    var all := [q] + rest;
    if OthersSkipped(d, data, limit, all) {
      forall k | 0 <= k < |rest| && !Knows(d, rest[k].tag)
        ensures Skipped(data, limit, rest[k]) && (d.fields == [] ==> rest[k].tag != 0)
      {
        assert all[k + 1] == rest[k];
      }
    }
    if OthersSkipped(d, data, limit, rest) {
      forall k | 0 <= k < |all| && !Knows(d, all[k].tag)
        ensures Skipped(data, limit, all[k]) && (d.fields == [] ==> all[k].tag != 0)
      {
        assert k > 0 ==> all[k] == rest[k - 1];
      }
    }
  }

  lemma SlotsFirst(d: Descriptor, data: Bytes, limit: nat, m: Message, q: Part, m2: Message, rest: seq<Part>, r: Message)
    requires limit <= |data| && |m.slots| == |d.fields| && |m2.slots| == |d.fields|
    requires forall i :: 0 <= i < |d.fields| ==> SlotStep(d, data, limit, m.slots[i], q, i) == Some(m2.slots[i])
    ensures SlotsAre(d, data, limit, m, [q] + rest, r) <==> SlotsAre(d, data, limit, m2, rest, r)
  {
    forall i | 0 <= i < |d.fields|
      ensures SlotAfter(d, data, limit, m.slots[i], [q] + rest, i) == SlotAfter(d, data, limit, m2.slots[i], rest, i)
    {
      SlotFirst(d, data, limit, m.slots[i], q, rest, i);
    }
  }

  lemma KnownFirst(d: Descriptor, data: Bytes, limit: nat, m: Message, seen: set<nat>, q: Part, j: nat, s: Slot, rest: seq<Part>, r: Message)
    requires DescriptorOk(d) && KnownTurn(d, data, limit, m, q, j, s)
    ensures Explains(d, data, q.from, limit, m, seen, [q] + rest, r)
            <==> Explains(d, data, q.to, limit, Stored(d, m, j, s), AlsoSeen(d, j, seen), rest, r)
  {
    PartsFirst(data, limit, q, rest);
    OthersFirst(d, data, limit, q, rest);
    SeenAlong(d, rest, seen, q, j);
    forall i | 0 <= i < |d.fields|
      ensures SlotStep(d, data, limit, m.slots[i], q, i) == Some(Stored(d, m, j, s).slots[i])
    {
      KnownTurnSlots(d, data, limit, m, q, j, s, i);
    }
    SlotsFirst(d, data, limit, m, q, Stored(d, m, j, s), rest, r);
  }

  lemma OtherSeen(d: Descriptor, parts: seq<Part>, seen: set<nat>, q: Part)
    requires !Knows(d, q.tag)
    ensures RequiredCome(d, [q] + parts, seen) <==> RequiredCome(d, parts, seen)
  {
    var all := [q] + parts;
    assert forall k :: 0 <= k < |parts| ==> all[k + 1] == parts[k];
    forall i | 0 <= i < |d.fields|
      ensures (exists k :: 0 <= k < |all| && all[k].tag == d.fields[i].tag) <==> exists k :: 0 <= k < |parts| && parts[k].tag == d.fields[i].tag
    {
      if k :| 0 <= k < |all| && all[k].tag == d.fields[i].tag {
        assert k > 0 ==> parts[k - 1].tag == d.fields[i].tag;
      }
    }
  }

  lemma OtherFirst(d: Descriptor, data: Bytes, limit: nat, m: Message, seen: set<nat>, q: Part, rest: seq<Part>, r: Message)
    requires OtherTurn(d, data, limit, m, q)
    ensures Explains(d, data, q.from, limit, m, seen, [q] + rest, r) <==> Explains(d, data, q.to, limit, m, seen, rest, r)
  {
    PartsFirst(data, limit, q, rest);
    OthersFirst(d, data, limit, q, rest);
    OtherSeen(d, rest, seen, q);
    forall i | 0 <= i < |d.fields|
      ensures SlotStep(d, data, limit, m.slots[i], q, i) == Some(m.slots[i])
    {
      OtherTurnSlots(d, data, limit, m, q, i);
    }
    SlotsFirst(d, data, limit, m, q, m, rest, r);
  }

  // ---- The theorem ----

  lemma NothingMore(d: Descriptor, data: Bytes, p: nat, limit: nat, m: Message, seen: set<nat>, r: Message)
    requires limit <= |data| && |m.slots| == |d.fields| && (p >= limit || ReadTag(data, p, limit) == Eof)
    ensures DecodeFields(d, data, p, limit, m, seen) == Some(r) <==> Explains(d, data, p, limit, m, seen, [], r)
  {
    RequiredSeenIs(d, seen);
    if SlotsAre(d, data, limit, m, [], r) {
      forall i | 0 <= i < |d.fields|
        ensures m.slots[i] == r.slots[i]
      {
        assert SlotAfter(d, data, limit, m.slots[i], [], i) == Some(m.slots[i]);
      }
      assert m.slots == r.slots;
    }
  }

  /** The first turn of a decoding that comes to an end. */
  lemma FirstTurn(d: Descriptor, data: Bytes, p: nat, limit: nat, m: Message, seen: set<nat>) returns (q: Part, j: nat, s: Slot)
    requires TagsOk(d.fields) && p < limit <= |data| && ReadTag(data, p, limit) != Eof && DecodeFields(d, data, p, limit, m, seen).Some?
    ensures q.from == p < q.to
    ensures if Knows(d, q.tag) then KnownTurn(d, data, limit, m, q, j, s) else OtherTurn(d, data, limit, m, q)
  {
    var t := ReadTag(data, p, limit);
    var i := FieldIndex(d.fields, t.tag);
    if i == None {
      var to := SkipField(t.wire, data, t.next, limit).value;
      q, j, s := Part(p, t.wire, t.tag, t.next, to), 0, Many([]);
      SkipIs(data, limit, q);
    } else {
      j := i.value;
      var slot := DecodeSlot(d.fields[j], t.wire, data, t.next, limit, m.slots[j]).value;
      s := slot.0;
      q := Part(p, t.wire, t.tag, t.next, slot.1);
    }
  }

  lemma {:induction false} Explained(d: Descriptor, data: Bytes, p: nat, limit: nat, m: Message, seen: set<nat>, r: Message)
    returns (parts: seq<Part>)
    requires DescriptorOk(d) && limit <= |data| && DecodeFields(d, data, p, limit, m, seen) == Some(r)
    ensures Explains(d, data, p, limit, m, seen, parts, r)
    decreases limit - p
  {
    if p >= limit || ReadTag(data, p, limit) == Eof {
      parts := [];
      NothingMore(d, data, p, limit, m, seen, r);
    } else {
      var q, j, s := FirstTurn(d, data, p, limit, m, seen);
      var rest;
      if Knows(d, q.tag) {
        KnownTurnIs(d, data, limit, m, seen, q, j, s);
        rest := Explained(d, data, q.to, limit, Stored(d, m, j, s), AlsoSeen(d, j, seen), r);
        KnownFirst(d, data, limit, m, seen, q, j, s, rest, r);
      } else {
        OtherTurnIs(d, data, limit, m, seen, q);
        rest := Explained(d, data, q.to, limit, m, seen, r);
        OtherFirst(d, data, limit, m, seen, q, rest, r);
      }
      parts := [q] + rest;
    }
  }

  /** The first part of an explanation is a turn of the loop. */
  lemma FirstPart(d: Descriptor, data: Bytes, p: nat, limit: nat, m: Message, seen: set<nat>, q: Part, rest: seq<Part>, r: Message)
    returns (j: nat, s: Slot)
    requires TagsOk(d.fields) && Explains(d, data, p, limit, m, seen, [q] + rest, r)
    ensures q.from == p < limit
    ensures if Knows(d, q.tag) then KnownTurn(d, data, limit, m, q, j, s) else OtherTurn(d, data, limit, m, q)
  {
    var all := [q] + rest;
    assert all[0] == q;
    j, s := 0, Many([]);
    if Knows(d, q.tag) {
      j :| 0 <= j < |d.fields| && d.fields[j].tag == q.tag;
      SlotFirst(d, data, limit, m.slots[j], q, rest, j);
      assert SlotAfter(d, data, limit, m.slots[j], all, j).Some?;
      s := SlotStep(d, data, limit, m.slots[j], q, j).value;
    }
  }

  lemma {:induction false} ExplainedDecodes(d: Descriptor, data: Bytes, p: nat, limit: nat, m: Message, seen: set<nat>,
                                            parts: seq<Part>, r: Message)
    requires DescriptorOk(d) && Explains(d, data, p, limit, m, seen, parts, r)
    ensures limit <= |data| && DecodeFields(d, data, p, limit, m, seen) == Some(r)
    decreases |parts|
  {
    if parts == [] {
      NothingMore(d, data, p, limit, m, seen, r);
    } else {
      var q, rest := parts[0], parts[1..];
      assert parts == [q] + rest;
      var j, s := FirstPart(d, data, p, limit, m, seen, q, rest, r);
      if Knows(d, q.tag) {
        KnownFirst(d, data, limit, m, seen, q, j, s, rest, r);
        ExplainedDecodes(d, data, q.to, limit, Stored(d, m, j, s), AlsoSeen(d, j, seen), rest, r);
        KnownTurnIs(d, data, limit, m, seen, q, j, s);
      } else {
        OtherFirst(d, data, limit, m, seen, q, rest, r);
        ExplainedDecodes(d, data, q.to, limit, m, seen, rest, r);
        OtherTurnIs(d, data, limit, m, seen, q);
      }
    }
  }

  /** Any byte string decodes to `r` just when it is tags with payloads, one behind the
      other, among them each required field, what is unknown can be skipped by its wire
      type, and each field of `r` is what its own parts make of the default. */
  lemma DecodesIffExplained(d: Descriptor, data: Bytes, p: nat, limit: nat, r: Message)
    requires DescriptorOk(d) && limit <= |data|
    ensures DecodeMessage(d, data, p, limit) == Some(r) <==>
              exists parts: seq<Part> :: Explains(d, data, p, limit, Defaults(d), {}, parts, r)
  {
    if DecodeFields(d, data, p, limit, Defaults(d), {}) == Some(r) {
      var parts := Explained(d, data, p, limit, Defaults(d), {}, r);
      assert Explains(d, data, p, limit, Defaults(d), {}, parts, r);
    }
    forall parts: seq<Part> | Explains(d, data, p, limit, Defaults(d), {}, parts, r)
      ensures DecodeFields(d, data, p, limit, Defaults(d), {}) == Some(r)
    {
      ExplainedDecodes(d, data, p, limit, Defaults(d), {}, parts, r);
    }
  }

  /** Bytes are accepted only if the tag of each required field was read from them. */
  lemma AcceptedHasRequired(d: Descriptor, data: Bytes, p: nat, limit: nat, i: nat) returns (at: nat, wire: nat, next: nat)
    requires DescriptorOk(d) && limit <= |data| && DecodeMessage(d, data, p, limit).Some?
    requires i < |d.fields| && d.fields[i].htype.Required?
    ensures p <= at < limit && ReadTag(data, at, limit) == Tag(wire, d.fields[i].tag, next)
  {
    var r := DecodeMessage(d, data, p, limit).value;
    var parts := Explained(d, data, p, limit, Defaults(d), {}, r);
    assert RequiredCome(d, parts, {});
    var k :| 0 <= k < |parts| && parts[k].tag == d.fields[i].tag;
    AtOrBehind(d, data, p, limit, Defaults(d), {}, parts, r, k);
    at, wire, next := parts[k].from, parts[k].wire, parts[k].body;
  }

  /** Parts lie behind the start of the message. */
  lemma {:induction false} AtOrBehind(d: Descriptor, data: Bytes, p: nat, limit: nat, m: Message, seen: set<nat>,
                                      parts: seq<Part>, r: Message, k: nat)
    requires DescriptorOk(d) && Explains(d, data, p, limit, m, seen, parts, r) && k < |parts|
    ensures p <= parts[k].from
    decreases |parts|
  {
    if k > 0 {
      var q, rest := parts[0], parts[1..];
      assert parts == [q] + rest;
      var j, s := FirstPart(d, data, p, limit, m, seen, q, rest, r);
      if Knows(d, q.tag) {
        KnownFirst(d, data, limit, m, seen, q, j, s, rest, r);
        AtOrBehind(d, data, q.to, limit, Stored(d, m, j, s), AlsoSeen(d, j, seen), rest, r, k - 1);
      } else {
        OtherFirst(d, data, limit, m, seen, q, rest, r);
        AtOrBehind(d, data, q.to, limit, m, seen, rest, r, k - 1);
      }
    }
  }

  // ---- Repeated fields ----

  /** Scalars one right behind the other, from `p` to `end`. */
  ghost predicate Run(f: Field, data: Bytes, p: nat, end: nat, items: seq<Value>)
    requires f.ltype.Packable()
    decreases |items|
  {
    && end <= |data|
    && if items == [] then p == end
       else
         var r := DecodeScalar(f, data, p, end);
         r.Some? && r.value.0 == items[0] && Run(f, data, r.value.1, end, items[1..])
  }

  lemma {:induction false} PackedIsRun(f: Field, data: Bytes, p: nat, end: nat, items: seq<Value>, all: seq<Value>)
    requires f.ltype.Packable() && p <= end <= |data|
    ensures DecodePacked(f, data, p, end, items) == Some(all) <==>
              items <= all && Run(f, data, p, end, all[|items|..]) && (|all| > |items| ==> |all| <= f.arraySize)
    decreases end - p
  {
    if p < end && |items| < f.arraySize {
      var r := DecodeScalar(f, data, p, end);
      if r.Some? {
        var v := r.value.0;
        PackedIsRun(f, data, r.value.1, end, items + [v], all);
        if items + [v] <= all {
          assert all[|items|..] == [v] + all[|items| + 1..];
        }
        if items <= all && |all| > |items| && all[|items|] == v {
          assert items + [v] <= all;
        }
      }
    } else if p == end {
      assert items <= all && all[|items|..] == [] ==> all == items;
      assert items[|items|..] == [];
    }
  }

  /** What a part holds of a repeated field: a packed run, or one value. */
  ghost predicate HoldsItems(f: Field, wire: nat, data: Bytes, p: nat, limit: nat, items: seq<Value>, to: nat)
    requires limit <= |data|
  {
    if wire == 2 && f.ltype.Packable() then
      var r := ReadLength(data, p, limit);
      r.Some? && r.value.1 == to && Run(f, data, r.value.0, to, items)
    else |items| == 1 && DecodeValue(f, data, p, limit, DefaultValue(f)) == Some((items[0], to))
  }

  /** A part of a repeated field, packed or not, is accepted just when the array has room
      for its items, which are put behind those already there. */
  lemma RepeatedAppends(f: Field, wire: nat, data: Bytes, p: nat, limit: nat, items: seq<Value>, s: Slot, to: nat)
    requires f.htype.Repeated? && limit <= |data|
    ensures DecodeSlot(f, wire, data, p, limit, Many(items)) == Some((s, to)) <==>
              exists more: seq<Value> :: s == Many(items + more) && HoldsItems(f, wire, data, p, limit, more, to)
                                      && (more != [] ==> |items| + |more| <= f.arraySize)
  {
    if wire == 2 && f.ltype.Packable() {
      var r := ReadLength(data, p, limit);
      if r.Some? {
        PackedAppends(f, data, r.value.0, r.value.1, items, s);
      }
    } else {
      OneAppended(f, wire, data, p, limit, items, s, to);
    }
  }

  lemma PackedAppends(f: Field, data: Bytes, start: nat, end: nat, items: seq<Value>, s: Slot)
    requires f.ltype.Packable() && start <= end <= |data|
    ensures (s.Many? && DecodePacked(f, data, start, end, items) == Some(s.items)) <==>
              exists more: seq<Value> :: s == Many(items + more) && Run(f, data, start, end, more)
                                      && (more != [] ==> |items| + |more| <= f.arraySize)
  {
    if s.Many? {
      PackedIsRun(f, data, start, end, items, s.items);
      if items <= s.items {
        assert s.items == items + s.items[|items|..];
      }
      forall more: seq<Value> | s == Many(items + more)
        ensures items <= s.items && s.items[|items|..] == more
      {
      }
    }
  }

  lemma OneAppended(f: Field, wire: nat, data: Bytes, p: nat, limit: nat, items: seq<Value>, s: Slot, to: nat)
    requires f.htype.Repeated? && limit <= |data| && !(wire == 2 && f.ltype.Packable())
    ensures DecodeSlot(f, wire, data, p, limit, Many(items)) == Some((s, to)) <==>
              exists more: seq<Value> :: s == Many(items + more) && HoldsItems(f, wire, data, p, limit, more, to)
                                      && (more != [] ==> |items| + |more| <= f.arraySize)
  {
    var r := DecodeValue(f, data, p, limit, DefaultValue(f));
    if r.Some? {
      assert HoldsItems(f, wire, data, p, limit, [r.value.0], r.value.1);
      forall more: seq<Value> | HoldsItems(f, wire, data, p, limit, more, to)
        ensures more == [r.value.0]
      {
      }
    }
  }

  // ---- Fields that come once ----

  /** A part of the field itself, or of another member of its union. */
  ghost predicate Touches(d: Descriptor, q: Part, i: nat)
    requires i < |d.fields|
  {
    q.tag == d.fields[i].tag || exists j :: 0 <= j < |d.fields| && d.fields[j].tag == q.tag && Siblings(d.fields[j], d.fields[i])
  }

  /** The slot says that the field is there, and with which value. */
  ghost predicate Holding(s: Slot, v: Value) {
    s == One(v) || s == Opt(true, v) || s == Choice(Some(v))
  }

  /** A field that no part touches is as it was. */
  lemma {:induction false} UntouchedStays(d: Descriptor, data: Bytes, limit: nat, s: Slot, parts: seq<Part>, i: nat)
    requires limit <= |data| && i < |d.fields| && forall k :: 0 <= k < |parts| ==> !Touches(d, parts[k], i)
    ensures SlotAfter(d, data, limit, s, parts, i) == Some(s)
  {
    if parts != [] {
      UntouchedStays(d, data, limit, s, parts[..|parts| - 1], i);
      assert !Touches(d, parts[|parts| - 1], i);
    }
  }

  /** Of a field that is not repeated and no submessage the last part counts, whatever
      came before: the field's own part sets it, one of another member of its union clears it. */
  lemma {:induction false} LastPartCounts(d: Descriptor, data: Bytes, limit: nat, s: Slot, parts: seq<Part>, i: nat, k: nat, r: Slot)
    requires limit <= |data| && i < |d.fields| && !d.fields[i].htype.Repeated? && !d.fields[i].ltype.SubmessageType?
    requires k < |parts| && Touches(d, parts[k], i) && forall j :: k < j < |parts| ==> !Touches(d, parts[j], i)
    requires SlotAfter(d, data, limit, s, parts, i) == Some(r)
    ensures if parts[k].tag != d.fields[i].tag then r == Choice(None)
            else exists v :: Holding(r, v) && DecodeValue(d.fields[i], data, parts[k].body, limit, DefaultValue(d.fields[i])) == Some((v, parts[k].to))
    decreases |parts|
  {
    var n := |parts| - 1;
    var before := SlotAfter(d, data, limit, s, parts[..n], i).value;
    if k == n {
      if parts[n].tag == d.fields[i].tag {
        LastPartSets(d.fields[i], parts[n], data, limit, before, r);
      }
    } else {
      assert !Touches(d, parts[n], i) && parts[..n][k] == parts[k];
      LastPartCounts(d, data, limit, s, parts[..n], i, k, r);
    }
  }

  lemma LastPartSets(f: Field, q: Part, data: Bytes, limit: nat, before: Slot, r: Slot)
    requires limit <= |data| && !f.htype.Repeated? && !f.ltype.SubmessageType?
    requires DecodeSlot(f, q.wire, data, q.body, limit, before) == Some((r, q.to))
    ensures exists v :: Holding(r, v) && DecodeValue(f, data, q.body, limit, DefaultValue(f)) == Some((v, q.to))
  {
    var v := DecodeValue(f, data, q.body, limit, DefaultValue(f)).value.0;
    assert Holding(r, v);
  }

  /** A submessage that comes again is read over what is there: its bytes are explained
      with the old submessage in place of the defaults, and its required fields must come again. */
  lemma SubmessageMerges(f: Field, data: Bytes, p: nat, limit: nat, before: Message, v: Value, to: nat)
    requires f.ltype.SubmessageType? && DescriptorOk(f.ltype.sub) && limit <= |data|
    ensures DecodeValue(f, data, p, limit, Msg(before)) == Some((v, to)) <==>
              && v.Msg? && ReadLength(data, p, limit).Some? && ReadLength(data, p, limit).value.1 == to
              && exists parts: seq<Part> ::
                   Explains(f.ltype.sub, data, ReadLength(data, p, limit).value.0, to, before, {}, parts, v.message)
  {
    var r := ReadLength(data, p, limit);
    if r.Some? {
      if DecodeValue(f, data, p, limit, Msg(before)) == Some((v, to)) {
        var parts := Explained(f.ltype.sub, data, r.value.0, r.value.1, before, {}, v.message);
      }
      if v.Msg? && exists parts: seq<Part> :: Explains(f.ltype.sub, data, r.value.0, r.value.1, before, {}, parts, v.message) {
        var parts: seq<Part> :| Explains(f.ltype.sub, data, r.value.0, r.value.1, before, {}, parts, v.message);
        ExplainedDecodes(f.ltype.sub, data, r.value.0, r.value.1, before, {}, parts, v.message);
      }
    }
  }
}
