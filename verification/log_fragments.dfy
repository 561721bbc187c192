/** What a log reader may take from any file at all: which bytes are a fragment, what is
    damage, and which runs of fragments are a record. Nothing here assumes that the
    file was written by a log writer. */
module LogFragments {
  import opened Keys
  import opened Coding
  import opened LogFormat

  // What ReadPhysicalRecord can return beside a record type
  const EOF: nat := 5
  const BAD_RECORD: nat := 6

  /** One call of `ReadPhysicalRecord`: the stretch of the file it used up, what it
      returned, and the sizes of the drops it reported. */
  datatype Physical = Physical(from: nat, kind: nat, data: Bytes, to: nat, lost: seq<nat>)

  /** The payload length that the header at `h` gives. */
  function LengthAt(file: Bytes, h: nat): nat
    requires h + HEADER <= |file|
  {
    file[h + 4] as int + file[h + 5] as int * 256
  }

  /** What there is of the block from `h` on. */
  function Window(file: Bytes, h: nat): (w: nat)
    requires h <= |file|
    ensures w <= |file| - h
  {
    if |file| - h < Gap(h) then |file| - h else Gap(h)
  }

  /** The stored checksum is that of type and payload. */
  ghost predicate SumMatches(file: Bytes, crc: Checksum, h: nat)
    requires h + HEADER <= |file| && h + HEADER + LengthAt(file, h) <= |file|
  {
    Unmask(DecodeFixed32(file[h..])) == crc(file[h + 6..h + HEADER + LengthAt(file, h)])
  }

  /** What the header at `h` comes to: a fragment behind it, a gap of zeros, or damage,
      after which the rest of the block is dropped. A fragment that reaches beyond the
      end of a file's last, partial block is one the writer never finished. */
  ghost predicate Parsed(file: Bytes, crc: Checksum, checksum: bool, h: nat, r: Physical)
    requires h + HEADER <= |file|
  {
    var len, w := LengthAt(file, h), Window(file, h);
    if HEADER + len > w then
      && r.data == [] && r.to == h + w
      && (if w == Gap(h) then r.kind == BAD_RECORD && r.lost == [w] else r.kind == EOF && r.lost == [])
    else if file[h + 6] == ZERO_TYPE && len == 0 then
      r.kind == BAD_RECORD && r.data == [] && r.to == h + w && r.lost == []
    else if checksum && !SumMatches(file, crc, h) then
      r.kind == BAD_RECORD && r.data == [] && r.to == h + w && r.lost == [w]
    else
      && r.kind == file[h + 6] as int && r.data == file[h + HEADER..h + HEADER + len]
      && r.to == h + HEADER + len && r.lost == []
  }

  /** The padding at the end of a block is skipped; a file that ends before the next
      header is at its end. */
  ghost predicate ReadAs(file: Bytes, crc: Checksum, checksum: bool, r: Physical) {
    var h := r.from + Pad(r.from);
    if |file| < h + HEADER then r.kind == EOF && r.data == [] && r.to == |file| && r.lost == []
    else Parsed(file, crc, checksum, h, r)
  }

  ghost predicate IsRead(file: Bytes, crc: Checksum, checksum: bool, r: Physical) {
    forall x {:trigger Asked(OfRecord, x)} :: Asked(OfRecord, x) ==> ReadAs(file, crc, checksum, r)
  }

  lemma ReadIs(file: Bytes, crc: Checksum, checksum: bool, r: Physical)
    ensures IsRead(file, crc, checksum, r) <==> ReadAs(file, crc, checksum, r)
  {
    assert Asked(OfRecord, 0);
  }

  /** The reads follow one another, and the file is left at the first that finds its end. */
  ghost predicate Follow(file: Bytes, crc: Checksum, checksum: bool, parts: seq<Physical>) {
    && (forall k :: 0 <= k < |parts| ==> IsRead(file, crc, checksum, parts[k]))
    && (forall j, k :: 0 <= j < k < |parts| && k <= j + 1 ==> parts[k].from == parts[j].to && parts[j].kind != EOF)
  }

  // ---- Records ----

  /** The payloads one behind the other. */
  function Joined(parts: seq<Physical>): Bytes {
    if parts == [] then [] else Joined(parts[..|parts| - 1]) + parts[|parts| - 1].data
  }

  /** Reads `a` up to `b` are the fragments of one record: a full one, or a first, any
      number of middle ones and a last. */
  ghost predicate IsRecord(parts: seq<Physical>, a: nat, b: nat) {
    && a < b <= |parts|
    && if b == a + 1 then parts[a].kind == FULL_TYPE as int
       else && parts[a].kind == FIRST_TYPE as int && parts[b - 1].kind == LAST_TYPE as int
            && forall k :: a < k < b - 1 ==> parts[k].kind == MIDDLE_TYPE as int
  }

  /** A record has begun at read `a` and goes on. */
  ghost predicate IsOpen(parts: seq<Physical>, a: nat) {
    && a < |parts| && parts[a].kind == FIRST_TYPE as int
    && forall k :: a < k < |parts| ==> parts[k].kind == MIDDLE_TYPE as int
  }

  /** One more read may end a record: a full one by itself, or the record that has begun. */
  lemma NewRecords(parts: seq<Physical>, r: Physical, a: nat, b: nat)
    ensures IsRecord(parts + [r], a, b) <==>
              IsRecord(parts, a, b)
              || (b == |parts| + 1 && (if r.kind == FULL_TYPE as int then a == |parts| else r.kind == LAST_TYPE as int && IsOpen(parts, a)))
  {
    var more := parts + [r];
    assert forall k :: 0 <= k < |parts| ==> more[k] == parts[k];
  }

  lemma NewOpen(parts: seq<Physical>, r: Physical, a: nat)
    ensures IsOpen(parts + [r], a) <==>
              if r.kind == FIRST_TYPE as int then a == |parts| else r.kind == MIDDLE_TYPE as int && IsOpen(parts, a)
  {
    var more := parts + [r];
    assert more[|parts|] == r;
    assert forall k :: 0 <= k < |parts| ==> more[k] == parts[k];
    assert IsOpen(parts, a) ==> forall k :: a < k < |parts| ==> more[k] == parts[k];
    assert IsOpen(more, a) && a < |parts| ==> forall k :: a < k < |parts| ==> parts[k] == more[k];
  }

  lemma JoinedGrows(parts: seq<Physical>, r: Physical, a: nat)
    requires a <= |parts|
    ensures Joined((parts + [r])[a..]) == Joined(parts[a..]) + r.data
  {
    assert (parts + [r])[a..] == parts[a..] + [r];
    assert (parts[a..] + [r])[..|parts| - a] == parts[a..];
  }

  // ---- Reading one record ----

  /** Where the reading of a record stands: the record begun at `start`, if one has, and no whole one. */
  ghost predicate Collecting(parts: seq<Physical>, inFragmentedRecord: bool, scratch: Bytes, start: nat) {
    && (if inFragmentedRecord then IsOpen(parts, start) && scratch == Joined(parts[start..])
        else forall a: nat :: !IsOpen(parts, a))
    && forall a: nat, b: nat :: !IsRecord(parts, a, b)
  }

  /** A read that ends no record. */
  lemma Collect(parts: seq<Physical>, inFragmentedRecord: bool, scratch: Bytes, start: nat,
                r: Physical, scratch': Bytes) returns (start': nat)
    requires Collecting(parts, inFragmentedRecord, scratch, start)
    requires r.kind != FULL_TYPE as int && !(r.kind == LAST_TYPE as int && inFragmentedRecord)
    requires r.kind == FIRST_TYPE as int ==> scratch' == r.data
    requires r.kind == MIDDLE_TYPE as int && inFragmentedRecord ==> scratch' == scratch + r.data
    ensures Collecting(parts + [r], r.kind == FIRST_TYPE as int || (r.kind == MIDDLE_TYPE as int && inFragmentedRecord),
                       scratch', start')
  {
    start' := if r.kind == FIRST_TYPE as int then |parts| else start;
    forall a: nat ensures IsOpen(parts + [r], a) <==> if r.kind == FIRST_TYPE as int then a == |parts|
                                                      else r.kind == MIDDLE_TYPE as int && IsOpen(parts, a)
    {
      NewOpen(parts, r, a);
    }
    forall a: nat, b: nat ensures !IsRecord(parts + [r], a, b) {
      NewRecords(parts, r, a, b);
    }
    if start' <= |parts| {
      JoinedGrows(parts, r, start');
    }
    assert parts[|parts|..] == [];
  }

  /** A read that ends a record ends just that one. */
  lemma Complete(parts: seq<Physical>, inFragmentedRecord: bool, scratch: Bytes, start: nat,
                 r: Physical, record: Bytes) returns (start': nat)
    requires Collecting(parts, inFragmentedRecord, scratch, start)
    requires r.kind == FULL_TYPE as int || (r.kind == LAST_TYPE as int && inFragmentedRecord)
    requires record == if r.kind == FULL_TYPE as int then r.data else scratch + r.data
    ensures start' <= |parts| && record == Joined((parts + [r])[start'..])
    ensures forall a: nat, b: nat :: IsRecord(parts + [r], a, b) <==> a == start' && b == |parts| + 1
  {
    start' := if r.kind == FULL_TYPE as int then |parts| else start;
    forall a: nat, b: nat ensures IsRecord(parts + [r], a, b) <==> a == start' && b == |parts| + 1 {
      NewRecords(parts, r, a, b);
      OneIsOpen(parts, a, start);
    }
    JoinedGrows(parts, r, start');
    assert parts[|parts|..] == [];
  }

  lemma OneIsOpen(parts: seq<Physical>, a: nat, b: nat)
    ensures IsOpen(parts, a) && IsOpen(parts, b) ==> a == b
  {
  }

  /** What one turn of the loop of `ReadRecord` does with what was read. */
  ghost predicate Turn(inFragmentedRecord: bool, scratch: Bytes, r: Physical,
                       done: bool, ok: bool, inFragmentedRecord': bool, scratch': Bytes) {
    && (ok <==> r.kind == FULL_TYPE as int || (r.kind == LAST_TYPE as int && inFragmentedRecord))
    && (done <==> ok || r.kind == EOF)
    && (ok ==> scratch' == if r.kind == FULL_TYPE as int then r.data else scratch + r.data)
    && (!done ==> (inFragmentedRecord' <==> r.kind == FIRST_TYPE as int || (r.kind == MIDDLE_TYPE as int && inFragmentedRecord)))
    && (r.kind == FIRST_TYPE as int ==> scratch' == r.data)
    && (r.kind == MIDDLE_TYPE as int && inFragmentedRecord ==> scratch' == scratch + r.data)
  }

  /** The reads end with the first record among them, or with the end of the file and no record. */
  ghost predicate Ended(parts: seq<Physical>, ok: bool, record: Bytes, start: nat) {
    && parts != [] && (ok <==> parts[|parts| - 1].kind != EOF)
    && (ok ==> start < |parts| && record == Joined(parts[start..]))
    && forall a: nat, b: nat :: IsRecord(parts, a, b) <==> ok && a == start && b == |parts|
  }

  lemma TurnMade(parts: seq<Physical>, inFragmentedRecord: bool, scratch: Bytes, start: nat, r: Physical,
                 done: bool, ok: bool, inFragmentedRecord': bool, scratch': Bytes) returns (start': nat)
    requires Collecting(parts, inFragmentedRecord, scratch, start)
    requires Turn(inFragmentedRecord, scratch, r, done, ok, inFragmentedRecord', scratch')
    ensures if done then Ended(parts + [r], ok, scratch', start')
            else Collecting(parts + [r], inFragmentedRecord', scratch', start') && r.kind != EOF
  {
    if ok {
      start' := Complete(parts, inFragmentedRecord, scratch, start, r, scratch');
    } else {
      start' := Collect(parts, inFragmentedRecord, scratch, start, r, scratch');
    }
  }

  // ---- Whole files ----

  /** The reads lead from one position of the file to another, and every drop was reported. */
  ghost predicate Trace(file: Bytes, crc: Checksum, checksum: bool, parts: seq<Physical>, from: nat, to: nat, drops: seq<nat>) {
    && Follow(file, crc, checksum, parts)
    && Leads(parts, from, to)
    && Reported(parts, drops)
  }

  ghost predicate Leads(parts: seq<Physical>, from: nat, to: nat) {
    if parts == [] then from == to else parts[0].from == from && parts[|parts| - 1].to == to
  }

  lemma LeadsJoins(a: seq<Physical>, b: seq<Physical>, from: nat, mid: nat, to: nat)
    requires Leads(a, from, mid) && Leads(b, mid, to)
    ensures Leads(a + b, from, to)
  {
  }

  ghost predicate Reported(parts: seq<Physical>, drops: seq<nat>) {
    forall k, x :: 0 <= k < |parts| && x in parts[k].lost ==> x in drops
  }

  lemma ReportedJoins(a: seq<Physical>, b: seq<Physical>, early: seq<nat>, drops: seq<nat>)
    requires Reported(a, early) && Reported(b, drops) && early <= drops
    ensures Reported(a + b, drops)
  {
    forall k, x | 0 <= k < |a + b| && x in (a + b)[k].lost
      ensures x in drops
    {
      if k < |a| {
        assert x in early;
      } else {
        assert (a + b)[k] == b[k - |a|];
      }
    }
  }

  lemma FollowJoins(file: Bytes, crc: Checksum, checksum: bool, a: seq<Physical>, b: seq<Physical>)
    requires Follow(file, crc, checksum, a) && Follow(file, crc, checksum, b)
    requires a != [] ==> a[|a| - 1].kind != EOF && (b != [] ==> b[0].from == a[|a| - 1].to)
    ensures Follow(file, crc, checksum, a + b)
  {
    forall k | 0 <= k < |a + b|
      ensures IsRead(file, crc, checksum, (a + b)[k])
    {
      assert (a + b)[k] == if k < |a| then a[k] else b[k - |a|];
    }
    forall j, k | 0 <= j < k < |a + b| && k <= j + 1
      ensures (a + b)[k].from == (a + b)[j].to && (a + b)[j].kind != EOF
    {
      if k < |a| {
        assert a[k].from == a[j].to;
      } else if j >= |a| {
        assert b[k - |a|].from == b[j - |a|].to;
      }
    }
  }

  lemma TraceJoins(file: Bytes, crc: Checksum, checksum: bool, a: seq<Physical>, b: seq<Physical>,
                   from: nat, mid: nat, to: nat, early: seq<nat>, drops: seq<nat>)
    requires Trace(file, crc, checksum, a, from, mid, early) && Trace(file, crc, checksum, b, mid, to, drops)
    requires early <= drops && (a != [] ==> a[|a| - 1].kind != EOF)
    ensures Trace(file, crc, checksum, a + b, from, to, drops)
  {
    FollowJoins(file, crc, checksum, a, b);
    ReportedJoins(a, b, early, drops);
    LeadsJoins(a, b, from, mid, to);
  }

  lemma TraceGrows(file: Bytes, crc: Checksum, checksum: bool, parts: seq<Physical>, r: Physical,
                   from: nat, early: seq<nat>, drops: seq<nat>)
    requires Trace(file, crc, checksum, parts, from, r.from, early) && IsRead(file, crc, checksum, r)
    requires early + r.lost <= drops && (parts != [] ==> parts[|parts| - 1].kind != EOF)
    ensures Trace(file, crc, checksum, parts + [r], from, r.to, drops)
  {
    assert forall x :: x in r.lost ==> x in early + r.lost;
    TraceJoins(file, crc, checksum, parts, [r], from, r.from, r.to, early, drops);
  }

  // ---- All records of a file ----

  /** `out` are all the records among the reads, in order; record `i` is reads `starts[i]` up to `stops[i]`. */
  ghost predicate Collected(parts: seq<Physical>, out: seq<Bytes>, starts: seq<nat>, stops: seq<nat>) {
    && |starts| == |out| && |stops| == |out|
    && (forall i :: 0 <= i < |out| ==> IsRecord(parts, starts[i], stops[i]) && out[i] == Joined(parts[starts[i]..stops[i]]))
    && (forall i, j :: 0 <= i < j < |out| ==> stops[i] <= starts[j])
    && forall a: nat, b: nat :: IsRecord(parts, a, b) ==> exists i :: 0 <= i < |out| && starts[i] == a && stops[i] == b
  }

  ghost predicate AtRecordEnd(parts: seq<Physical>) {
    parts != [] ==> parts[|parts| - 1].kind == FULL_TYPE as int || parts[|parts| - 1].kind == LAST_TYPE as int
  }

  /** All records so far, at the end of one or of the file. */
  ghost predicate Gathered(parts: seq<Physical>, out: seq<Bytes>, starts: seq<nat>, stops: seq<nat>, more: bool) {
    forall x {:trigger Asked(OfScan, x)} :: Asked(OfScan, x) ==>
      && Collected(parts, out, starts, stops)
      && if more then AtRecordEnd(parts) else parts != [] && parts[|parts| - 1].kind == EOF
  }

  lemma GatheredIs(parts: seq<Physical>, out: seq<Bytes>, starts: seq<nat>, stops: seq<nat>, more: bool)
    ensures Gathered(parts, out, starts, stops, more) <==>
              && Collected(parts, out, starts, stops)
              && if more then AtRecordEnd(parts) else parts != [] && parts[|parts| - 1].kind == EOF
  {
    assert Asked(OfScan, 0);
  }

  /** No record reaches across the end of another. */
  lemma RecordInPart(parts: seq<Physical>, more: seq<Physical>, a: nat, b: nat)
    requires AtRecordEnd(parts)
    ensures IsRecord(parts + more, a, b) <==>
              IsRecord(parts, a, b) || (|parts| <= a <= b && IsRecord(more, a - |parts|, b - |parts|))
  {
    var all := parts + more;
    assert forall k :: 0 <= k < |parts| ==> all[k] == parts[k];
    assert forall k :: 0 <= k < |more| ==> all[|parts| + k] == more[k];
    if IsRecord(all, a, b) && a < |parts| < b {
      assert all[|parts| - 1] == parts[|parts| - 1];
    }
  }

  /** The reads that found no further record add none. */
  lemma CollectedEnds(parts: seq<Physical>, out: seq<Bytes>, starts: seq<nat>, stops: seq<nat>, more: seq<Physical>)
    requires Collected(parts, out, starts, stops) && AtRecordEnd(parts)
    requires forall a: nat, b: nat :: !IsRecord(more, a, b)
    ensures Collected(parts + more, out, starts, stops)
  {
    forall a: nat, b: nat ensures IsRecord(parts + more, a, b) <==> IsRecord(parts, a, b) {
      RecordInPart(parts, more, a, b);
    }
    forall i | 0 <= i < |out|
      ensures (parts + more)[starts[i]..stops[i]] == parts[starts[i]..stops[i]]
    {
    }
  }

  lemma CollectedGrows(parts: seq<Physical>, out: seq<Bytes>, starts: seq<nat>, stops: seq<nat>,
                       more: seq<Physical>, record: Bytes, start: nat)
    requires Collected(parts, out, starts, stops) && AtRecordEnd(parts) && Ended(more, true, record, start)
    ensures Collected(parts + more, out + [record], starts + [|parts| + start], stops + [|parts| + |more|])
    ensures AtRecordEnd(parts + more)
  {
    AddedRecord(parts, more, record, start);
    assert (parts + more)[|parts| + start..] == more[start..];
    OneMoreCollected(parts, out, starts, stops, parts + more, record, |parts| + start);
  }

  lemma AddedRecord(parts: seq<Physical>, more: seq<Physical>, record: Bytes, start: nat)
    requires AtRecordEnd(parts) && Ended(more, true, record, start)
    ensures AtRecordEnd(parts + more)
    ensures forall a: nat, b: nat :: IsRecord(parts + more, a, b) <==>
              IsRecord(parts, a, b) || (a == |parts| + start && b == |parts + more|)
  {
    assert IsRecord(more, start, |more|);
    forall a: nat, b: nat ensures IsRecord(parts + more, a, b) <==>
                                  IsRecord(parts, a, b) || (a == |parts| + start && b == |parts + more|)
    {
      RecordInPart(parts, more, a, b);
    }
  }

  lemma OneMoreCollected(parts: seq<Physical>, out: seq<Bytes>, starts: seq<nat>, stops: seq<nat>,
                         all: seq<Physical>, record: Bytes, a0: nat)
    requires Collected(parts, out, starts, stops) && parts <= all && |parts| <= a0 < |all|
    requires record == Joined(all[a0..])
    requires forall a: nat, b: nat :: IsRecord(all, a, b) <==> IsRecord(parts, a, b) || (a == a0 && b == |all|)
    ensures Collected(all, out + [record], starts + [a0], stops + [|all|])
  {
    forall i | 0 <= i < |out|
      ensures all[starts[i]..stops[i]] == parts[starts[i]..stops[i]]
    {
    }
    assert all[a0..|all|] == all[a0..];
    OneMoreListed(parts, out, starts, stops, all, a0);
  }

  lemma OneMoreListed(parts: seq<Physical>, out: seq<Bytes>, starts: seq<nat>, stops: seq<nat>, all: seq<Physical>, a0: nat)
    requires Collected(parts, out, starts, stops)
    requires forall a: nat, b: nat :: IsRecord(all, a, b) <==> IsRecord(parts, a, b) || (a == a0 && b == |all|)
    ensures forall a: nat, b: nat :: IsRecord(all, a, b) ==>
              exists i :: 0 <= i <= |out| && (starts + [a0])[i] == a && (stops + [|all|])[i] == b
  {
    var starts', stops' := starts + [a0], stops + [|all|];
    forall a: nat, b: nat | IsRecord(all, a, b)
      ensures exists i :: 0 <= i <= |out| && starts'[i] == a && stops'[i] == b
    {
      if IsRecord(parts, a, b) {
        var i :| 0 <= i < |out| && starts[i] == a && stops[i] == b;
        assert starts'[i] == a && stops'[i] == b;
      } else {
        assert starts'[|out|] == a && stops'[|out|] == b;
      }
    }
  }

  lemma GatheredGrows(parts: seq<Physical>, out: seq<Bytes>, starts: seq<nat>, stops: seq<nat>,
                      more: seq<Physical>, record: Bytes, start: nat)
    requires Gathered(parts, out, starts, stops, true) && Ended(more, true, record, start)
    ensures Gathered(parts + more, out + [record], starts + [|parts| + start], stops + [|parts| + |more|], true)
  {
    GatheredIs(parts, out, starts, stops, true);
    CollectedGrows(parts, out, starts, stops, more, record, start);
  }

  lemma GatheredEnds(parts: seq<Physical>, out: seq<Bytes>, starts: seq<nat>, stops: seq<nat>, more: seq<Physical>)
    requires Gathered(parts, out, starts, stops, true) && Ended(more, false, [], 0)
    ensures Gathered(parts + more, out, starts, stops, false)
  {
    GatheredIs(parts, out, starts, stops, true);
    CollectedEnds(parts, out, starts, stops, more);
  }

  // ---- What checksums are for ----

  /** Whatever a checking reader takes for a fragment is the payload behind a header in
      the file, and the checksum stored there is that of type and payload. */
  lemma FragmentsAreIntact(file: Bytes, crc: Checksum, r: Physical)
    requires IsRead(file, crc, true, r) && FULL_TYPE as int <= r.kind <= LAST_TYPE as int
    ensures var h := r.from + Pad(r.from);
            && h + 7 + |r.data| <= |file| && r.to == h + 7 + |r.data| && r.lost == []
            && file[h + 4] as int + 256 * file[h + 5] as int == |r.data| && file[h + 6] as int == r.kind
            && file[h + 7..h + 7 + |r.data|] == r.data
            && Unmask(DecodeFixed32(file[h..])) == crc([r.kind] + r.data)
  {
    ReadIs(file, crc, true, r);
    var h := r.from + Pad(r.from);
    assert file[h + 6..h + 7 + |r.data|] == [file[h + 6]] + file[h + 7..h + 7 + |r.data|];
  }

  /** Where the stored checksum is another, nothing is returned, and what was left of the
      block is dropped and reported. */
  lemma DamageIsDropped(file: Bytes, crc: Checksum, parts: seq<Physical>, from: nat, to: nat, drops: seq<nat>, k: nat, len: nat)
    requires Trace(file, crc, true, parts, from, to, drops) && k < |parts|
    requires var h := parts[k].from + Pad(parts[k].from);
             && h + 7 + len <= |file| && file[h + 4] as int + 256 * file[h + 5] as int == len
             && 7 + len <= Gap(h) && !(file[h + 6] == 0 && len == 0)
             && Unmask(DecodeFixed32(file[h..])) != crc(file[h + 6..h + 7 + len])
    ensures var h := parts[k].from + Pad(parts[k].from);
            && parts[k].data == [] && parts[k].kind == 6 && parts[k].to == h + Window(file, h)
            && Window(file, h) in drops
  {
    DamageIsLost(file, crc, parts[k], len);
    assert Window(file, parts[k].from + Pad(parts[k].from)) in parts[k].lost;
  }

  lemma DamageIsLost(file: Bytes, crc: Checksum, r: Physical, len: nat)
    requires IsRead(file, crc, true, r)
    requires var h := r.from + Pad(r.from);
             && h + 7 + len <= |file| && file[h + 4] as int + 256 * file[h + 5] as int == len
             && 7 + len <= Gap(h) && !(file[h + 6] == 0 && len == 0)
             && Unmask(DecodeFixed32(file[h..])) != crc(file[h + 6..h + 7 + len])
    ensures var h := r.from + Pad(r.from);
            r.data == [] && r.kind == 6 && r.to == h + Window(file, h) && r.lost == [Window(file, h)]
  {
    ReadIs(file, crc, true, r);
  }
}
