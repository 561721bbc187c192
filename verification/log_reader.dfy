/** `log::Reader`, reading from the start of a file: every byte sequence is read
    without failing, damage is reported, and a file that is a prefix of what a
    writer wrote, cut anywhere, yields its complete records and no report. */
module LogReaders {
  import opened Keys
  import opened Coding
  import opened LogFormat
  import opened LogFragments

  lemma HeaderFields(sum: Bytes, a: Byte, b: Byte, k: Byte)
    requires |sum| == 4
    ensures var h := sum + [a, b] + [k]; h[4] == a && h[5] == b && h[6] == k && DecodeFixed32(h) == DecodeFixed32(sum)
  {
  }

  lemma LengthBytes(n: nat)
    requires n < BLOCK
    ensures n % 256 + n / 256 % 256 * 256 == n
  {
  }

  /** A header says what it was made from. */
  lemma HeaderParses(crc: Checksum, f: Fragment)
    requires |f.data| < BLOCK
    ensures var h := Header(crc, f);
            && h[4] as int + h[5] as int * 256 == |f.data| && h[6] == f.kind
            && Unmask(DecodeFixed32(h)) == crc([f.kind] + f.data)
  {
    var sum := crc([f.kind] + f.data);
    LengthBytes(|f.data|);
    HeaderFields(Fixed32(Mask(sum)), |f.data| % 256, |f.data| / 256 % 256, f.kind);
    StoredSum(sum);
  }

  lemma StoredSum(sum: Word)
    ensures Unmask(DecodeFixed32(Fixed32(Mask(sum)))) == sum
  {
    Fixed32RoundTrip(Mask(sum), []);
    assert Fixed32(Mask(sum)) + [] == Fixed32(Mask(sum));
    UnmaskMask(sum);
  }

  /** Dropping a leading part from both sides of a prefix. */
  lemma DropFront(full: Bytes, c: nat, a: Bytes, b: Bytes)
    requires c <= |full| && a + b <= full[c..]
    ensures c + |a| <= |full| && b <= full[c + |a|..] && a <= full[c..]
  {
    assert full[c..][|a|..] == full[c + |a|..];
    assert (a + b)[|a|..] == b && (a + b)[..|a|] == a;
  }

  lemma WindowSlice(file: Bytes, a: nat, b: nat, i: nat, j: nat)
    requires a <= b <= |file| && i <= j <= b - a
    ensures file[a..b][i..j] == file[a + i..a + j]
  {
    forall k | 0 <= k < j - i
      ensures file[a..b][i..j][k] == file[a + i..a + j][k]
    {
    }
  }

  /** The file is a prefix of `full`, in which fragment `f` comes next from `c` on. */
  ghost predicate AtFragment(file: Bytes, full: Bytes, frame: Framing, f: Fragment, c: nat) {
    && file <= full && c <= |full| && FULL_TYPE <= f.kind <= LAST_TYPE && |f.data| <= Avail(c)
    && Emitted(frame, f, c) <= full[c..]
  }

  lemma HeaderComesNext(file: Bytes, full: Bytes, frame: Framing, f: Fragment, c: nat)
    requires AtFragment(file, full, frame, f, c)
    ensures var h := c + Pad(c);
            HEADER + |f.data| <= Gap(h) && h <= |full| && frame(f) + f.data <= full[h..]
  {
    FullFragment(c);
    assert Emitted(frame, f, c) == Zeros(Pad(c)) + (frame(f) + f.data);
    DropFront(full, c, Zeros(Pad(c)), frame(f) + f.data);
  }

  /** A header that was written is found again, and so is the payload behind it. */
  lemma WrittenIsThere(file: Bytes, full: Bytes, header: HeaderBytes, data: Bytes, h: nat)
    requires file <= full && h + HEADER <= |file| && header + data <= full[h..]
    ensures forall i :: 0 <= i < HEADER ==> file[h + i] == header[i]
    ensures DecodeFixed32(file[h..]) == DecodeFixed32(header)
    ensures h + HEADER + |data| <= |file| ==>
              file[h + HEADER..h + HEADER + |data|] == data && file[h + 6..h + HEADER + |data|] == [header[6]] + data
  {
    var own := header + data;
    assert forall i :: 0 <= i < |own| ==> full[h..][i] == own[i];
    forall i | 0 <= i < |own| && h + i < |file|
      ensures file[h + i] == own[i]
    {
      assert full[h..][i] == full[h + i];
    }
    if h + |own| <= |file| {
      assert file[h + HEADER..h + |own|] == data;
    }
  }

  /** A fragment that was written is read as what it is, unless the file was cut inside it. */
  lemma FragmentIsRead(file: Bytes, full: Bytes, codec: Codec, checksum: bool, f: Fragment, r: Physical)
    requires AtFragment(file, full, codec.frame, f, r.from) && IsRead(file, codec.crc, checksum, r)
    ensures r.lost == [] && if After(|f.data|, r.from) <= |file|
                            then r.kind == f.kind as int && r.data == f.data && r.to == After(|f.data|, r.from)
                            else r.kind == EOF
  {
    ReadIs(file, codec.crc, checksum, r);
    var h := r.from + Pad(r.from);
    HeaderComesNext(file, full, codec.frame, f, r.from);
    if h + HEADER <= |file| {
      assert Frames(codec.frame, codec.crc);
      HeaderParses(codec.crc, f);
      WrittenIsThere(file, full, codec.frame(f), f.data, h);
    }
  }

  /** A record in pieces stays whole when a piece moves from what is left to what is read. */
  lemma Regroup(rec: Bytes, scratch: Bytes, rest: Bytes, n: nat)
    requires rec == scratch + rest && n <= |rest|
    ensures rec == (scratch + rest[..n]) + rest[n..]
    ensures n == |rest| ==> rec == scratch + rest[..n]
    ensures scratch == [] ==> rec == rest[..n] + rest[n..]
  {
    assert rest == rest[..n] + rest[n..];
  }

  class Reader {
    const codec: Codec
    const checksum: bool
    const file: Bytes
    var filePos: nat
    var buffer: Bytes
    var eof: bool
    /** The sizes of the drops reported. */
    var drops: seq<nat>

    constructor (file: Bytes, codec: Codec, checksum: bool)
      ensures Ok() && Consumed() == 0 && drops == []
      ensures this.file == file && this.codec == codec && this.checksum == checksum
    {
      this.file, this.codec, this.checksum := file, codec, checksum;
      filePos, buffer, eof, drops := 0, [], false, [];
      new;
      GapEnds(0);
      assert this.file[0..0] == [];
    }

    /** The buffer is the window of the file before `filePos`, within one block and,
        short of the end of the file, up to that block's end. */
    ghost predicate Ok()
      reads this
    {
      && |buffer| <= filePos <= |file|
      && buffer == file[filePos - |buffer|..filePos]
      && |buffer| <= Gap(filePos - |buffer|)
      && (if eof then filePos == |file| && (|buffer| > 0 ==> |buffer| < Gap(filePos - |buffer|)) else Gap(filePos) == BLOCK && (|buffer| > 0 ==> |buffer| == Gap(filePos - |buffer|)))
    }

    /** How far into the file the records handed out reach. */
    ghost function Consumed(): nat
      requires Ok()
      reads this
    {
      filePos - |buffer|
    }

    method ReportCorruption(bytes: nat)
      modifies this`drops
      ensures drops == old(drops) + [bytes]
    {
      drops := drops + [bytes];
    }

    /** `file_->Read`: the next block, or what there is of it. */
    method ReadBlock()
      requires Ok() && !eof && |buffer| < HEADER
      modifies this`filePos, this`buffer, this`eof
      ensures Ok() && Consumed() == old(filePos)
      ensures eof || |buffer| == BLOCK
    {
      var n := if |file| - filePos < BLOCK then |file| - filePos else BLOCK;
      GapEnds(filePos);
      buffer := file[filePos..filePos + n];
      filePos := filePos + n;
      if n < BLOCK {
        eof := true;
      }
    }

    /** Bring a whole header into the buffer, skipping a block's trailer, or find the end of the file. */
    method FillBuffer() returns (ok: bool)
      requires Ok()
      modifies this`filePos, this`buffer, this`eof
      ensures Ok() && Consumed() >= old(Consumed()) && (ok ==> |buffer| >= HEADER) && (!ok ==> eof && buffer == [])
      ensures ok ==> Consumed() == old(Consumed()) + Pad(old(Consumed()))
      ensures !ok ==> Consumed() == |file|
      ensures !ok ==> |file| < old(Consumed()) + Pad(old(Consumed())) + HEADER
      ensures old(Consumed()) == |file| ==> !ok
    {
      while |buffer| < HEADER
        invariant Ok() && (old(eof) ==> eof)
        invariant (filePos == old(filePos) && buffer == old(buffer) && eof == old(eof))
                  || (old(|buffer|) < HEADER && old(!eof) && Consumed() == old(filePos) && (eof || |buffer| >= HEADER))
        decreases !eof, |buffer| < HEADER
      {
        if !eof {
          // Last read was a full read, so this is a trailer to skip
          ReadBlock();
        } else {
          // A truncated header at the end of the file is not an error
          buffer := [];
          return false;
        }
      }
      ok := true;
    }

    /** What the buffer shows is what the file has there. */
    lemma BufferIsWindow()
      requires Ok() && |buffer| >= HEADER
      ensures Consumed() + HEADER <= |file| && |buffer| == Window(file, Consumed())
      ensures if eof then |buffer| < Gap(Consumed()) else |buffer| == Gap(Consumed())
      ensures buffer[4] as int + buffer[5] as int * 256 == LengthAt(file, Consumed())
      ensures buffer[6] == file[Consumed() + 6]
    {
    }

    lemma BufferHoldsSum(len: nat)
      requires Ok() && HEADER + len <= |buffer| && Consumed() + HEADER <= |file| && len == LengthAt(file, Consumed())
      ensures SumMatches(file, codec.crc, Consumed()) <==> Unmask(DecodeFixed32(buffer)) == codec.crc(buffer[6..HEADER + len])
    {
      WindowSlice(file, Consumed(), filePos, 6, HEADER + len);
      assert forall i :: 0 <= i < 4 ==> buffer[i] == file[Consumed()..][i];
    }

    /** Take `k` bytes from the front of the buffer. */
    method Consume(k: nat)
      requires Ok() && k <= |buffer|
      modifies this`buffer
      ensures Ok() && Consumed() == old(Consumed()) + k
    {
      if k < |buffer| { GapShrinks(Consumed(), k); }
      buffer := buffer[k..];
    }

    /** Drop what is left in the buffer, with or without a report. */
    method DropBuffer(report: bool) returns (ghost lost: seq<nat>)
      requires Ok()
      modifies this`buffer, this`drops
      ensures Ok() && buffer == [] && Consumed() == old(Consumed()) + old(|buffer|)
      ensures drops == old(drops) + lost && lost == if report then [old(|buffer|)] else []
    {
      var dropSize := |buffer|;
      buffer := [];
      lost := [];
      if report {
        ReportCorruption(dropSize);
        lost := [dropSize];
      }
    }

    /** Compare the stored checksum with that of type and payload, if that is asked for. */
    method CheckSum(length: nat) returns (good: bool)
      requires Ok() && HEADER + length <= |buffer|
      requires Consumed() + HEADER <= |file| && length == LengthAt(file, Consumed())
      ensures Consumed() + HEADER + length <= |file| && (good <==> !checksum || SumMatches(file, codec.crc, Consumed()))
    {
      good := true;
      if checksum {
        BufferHoldsSum(length);
        var expectedCrc := Unmask(DecodeFixed32(buffer));
        var actualCrc := codec.crc(buffer[6..HEADER + length]);
        good := actualCrc == expectedCrc;
      }
    }

    /** Hand out the fragment if its checksum is right, else drop the rest of the buffer:
        the length itself may be damaged. */
    method TakeRecord(length: nat) returns (kind: nat, result: Bytes, ghost lost: seq<nat>)
      requires Ok() && HEADER + length <= |buffer|
      requires Consumed() + HEADER <= |file| && length == LengthAt(file, Consumed())
      modifies this`buffer, this`drops
      ensures Ok() && drops == old(drops) + lost
      ensures old(Consumed()) + HEADER + length <= |file|
      ensures var h := old(Consumed());
              if checksum && !SumMatches(file, codec.crc, h) then
                kind == BAD_RECORD && result == [] && Consumed() == h + old(|buffer|) && lost == [old(|buffer|)]
              else
                && kind == file[h + 6] as int && result == file[h + HEADER..h + HEADER + length]
                && Consumed() == h + HEADER + length && lost == []
    {
      var good := CheckSum(length);
      if good {
        WindowSlice(file, Consumed(), filePos, HEADER, HEADER + length);
        assert buffer[6] == file[Consumed() + 6];
        kind, result, lost := buffer[6], buffer[HEADER..HEADER + length], [];
        Consume(HEADER + length);
      } else {
        kind, result := BAD_RECORD, [];
        lost := DropBuffer(true);
      }
    }

    /** Parse and check the record whose header is in the buffer. */
    method ParseRecord(ghost from: nat) returns (kind: nat, result: Bytes, ghost lost: seq<nat>)
      requires Ok() && |buffer| >= HEADER
      modifies this`buffer, this`drops
      ensures Ok() && Consumed() > old(Consumed()) && old(Consumed()) + HEADER <= |file|
      ensures drops == old(drops) + lost
      ensures Parsed(file, codec.crc, checksum, old(Consumed()), Physical(from, kind, result, Consumed(), lost))
    {
      BufferIsWindow();
      lost, result := [], [];
      var length := buffer[4] as int + buffer[5] as int * 256;
      var recordType := buffer[6];
      if HEADER + length > |buffer| {
        // At the end of the file, assume the writer died in the middle of writing the record
        kind := if eof then EOF else BAD_RECORD;
        lost := DropBuffer(!eof);
        return;
      }
      if recordType == ZERO_TYPE && length == 0 {
        // Preallocated file regions hold such records; skip without reporting
        kind := BAD_RECORD;
        lost := DropBuffer(false);
        return;
      }
      kind, result, lost := TakeRecord(length);
    }

    /** The next physical record of any file. */
    method ReadPhysicalRecord() returns (kind: nat, result: Bytes, ghost lost: seq<nat>)
      requires Ok()
      modifies this
      ensures Ok() && Consumed() >= old(Consumed()) && (kind != EOF ==> Consumed() > old(Consumed()))
      ensures old(Consumed()) == |file| ==> kind == EOF && drops == old(drops)
      ensures drops == old(drops) + lost
      ensures IsRead(file, codec.crc, checksum, Physical(old(Consumed()), kind, result, Consumed(), lost))
    {
      var ok := FillBuffer();
      if ok {
        kind, result, lost := ParseRecord(old(Consumed()));
      } else {
        kind, result, lost := EOF, [], [];
      }
      ReadIs(file, codec.crc, checksum, Physical(old(Consumed()), kind, result, Consumed(), lost));
    }

    /** The file is a prefix of `full`, where the rest of a record comes next. */
    ghost predicate AtRest(full: Bytes, rest: Bytes, begin: bool)
      requires Ok()
      reads this
    {
      file <= full && Layout(codec.frame, rest, begin, Consumed()) <= full[Consumed()..]
    }

    /** A record in progress shows its next fragment. */
    lemma RestIsFragment(full: Bytes, rest: Bytes, begin: bool)
      requires Ok() && AtRest(full, rest, begin)
      ensures AtFragment(file, full, codec.frame, Next(rest, begin, Consumed()), Consumed())
    {
      LayoutSplits(codec.frame, rest, begin, Consumed());
    }

    /** What is left of a record follows its fragment. */
    lemma RestFollows(full: Bytes, rest: Bytes, begin: bool)
      requires Ok() && AtRest(full, rest, begin) && Room(|rest|, Consumed()) < |rest|
      ensures var c, n := Consumed(), Room(|rest|, Consumed());
              After(n, c) <= |full| && Layout(codec.frame, rest[n..], false, After(n, c)) <= full[After(n, c)..]
    {
      var c, n := Consumed(), Room(|rest|, Consumed());
      LayoutSplits(codec.frame, rest, begin, c);
      DropFront(full, c, Emitted(codec.frame, Next(rest, begin, c), c), Layout(codec.frame, rest[n..], false, After(n, c)));
    }

    /** The record types a well-formed log shows at this point. */
    ghost predicate Expected(kind: nat, inFragmentedRecord: bool) {
      if inFragmentedRecord then kind == MIDDLE_TYPE as int || kind == LAST_TYPE as int
      else kind == FULL_TYPE as int || kind == FIRST_TYPE as int
    }

    /** The switch of `ReadRecord`: put a fragment where it belongs, report what does not fit. */
    method Assemble(kind: nat, fragment: Bytes, inFragmentedRecord: bool, scratch: Bytes)
      returns (done: bool, ok: bool, inFragmentedRecord': bool, scratch': Bytes)
      modifies this`drops
      ensures Turn(inFragmentedRecord, scratch, Physical(0, kind, fragment, 0, []), done, ok, inFragmentedRecord', scratch')
      ensures old(drops) <= drops
      ensures (kind == EOF || Expected(kind, inFragmentedRecord)) ==> drops == old(drops)
    {
      done, ok, inFragmentedRecord', scratch' := false, false, inFragmentedRecord, scratch;
      if kind == FULL_TYPE {
        if inFragmentedRecord && scratch != [] {
          ReportCorruption(|scratch|);
        }
        done, ok, scratch' := true, true, fragment;
      } else if kind == FIRST_TYPE {
        if inFragmentedRecord && scratch != [] {
          ReportCorruption(|scratch|);
        }
        scratch', inFragmentedRecord' := fragment, true;
      } else if kind == MIDDLE_TYPE {
        if !inFragmentedRecord {
          ReportCorruption(|fragment|);
        } else {
          scratch' := scratch + fragment;
        }
      } else if kind == LAST_TYPE {
        if !inFragmentedRecord {
          ReportCorruption(|fragment|);
        } else {
          done, ok, scratch' := true, true, scratch + fragment;
        }
      } else if kind == EOF {
        // The writer may have died inside a record; that is not a corruption
        done, scratch' := true, [];
      } else if kind == BAD_RECORD {
        if inFragmentedRecord {
          ReportCorruption(|scratch|);
          inFragmentedRecord', scratch' := false, [];
        }
      } else {
        ReportCorruption(|fragment| + if inFragmentedRecord then |scratch| else 0);
        inFragmentedRecord', scratch' := false, [];
      }
    }

    /** Part-way through reading `rec`, which ends at `end`. */
    ghost predicate Reading(full: Bytes, rec: Bytes, inFragmentedRecord: bool, scratch: Bytes, rest: Bytes, end: nat)
      requires Ok()
      reads this
    {
      && AtRest(full, rest, !inFragmentedRecord) && end == EndOf(|rest|, Consumed())
      && rec == (if inFragmentedRecord then scratch else []) + rest
    }

    /** One turn of the loop of `ReadRecord`. */
    method ReadAndAssemble(ghost full: Bytes, ghost there: bool, ghost rec: Bytes, inFragmentedRecord: bool, scratch: Bytes,
                           ghost rest: Bytes, ghost end: nat)
      returns (done: bool, ok: bool, inFragmentedRecord': bool, scratch': Bytes, ghost rest': Bytes, ghost r: Physical)
      requires Ok() && (there ==> Reading(full, rec, inFragmentedRecord, scratch, rest, end))
      modifies this
      ensures Ok() && (ok ==> done) && Consumed() >= old(Consumed()) && (!done || ok ==> Consumed() > old(Consumed()))
      ensures IsRead(file, codec.crc, checksum, r) && r.from == old(Consumed()) && r.to == Consumed()
      ensures old(drops) + r.lost <= drops && Turn(inFragmentedRecord, scratch, r, done, ok, inFragmentedRecord', scratch')
      ensures old(Consumed()) == |file| ==> done && !ok && drops == old(drops)
      ensures there ==> drops == old(drops)
      ensures there && done ==> if end <= |file| then ok && scratch' == rec && Consumed() == end else !ok
      ensures there && !done ==> Reading(full, rec, inFragmentedRecord', scratch', rest', end)
    {
      ghost var n := Room(|rest|, Consumed());
      ghost var f := Next(rest, !inFragmentedRecord, Consumed());
      if there {
        RestIsFragment(full, rest, !inFragmentedRecord);
        LayoutSplits(codec.frame, rest, !inFragmentedRecord, Consumed());
        if n < |rest| { RestFollows(full, rest, !inFragmentedRecord); }
        Regroup(rec, if inFragmentedRecord then scratch else [], rest, n);
      }
      rest' := rest[n..];
      var kind, fragment, lost := ReadPhysicalRecord();
      r := Physical(old(Consumed()), kind, fragment, Consumed(), lost);
      if there { FragmentIsRead(file, full, codec, checksum, f, r); }
      done, ok, inFragmentedRecord', scratch' := Assemble(kind, fragment, inFragmentedRecord, scratch);
    }

    /** Reads the next record of any file. From a prefix of a written log it returns
        the next record exactly when the record's last fragment is complete. */
    method ReadRecord(ghost full: Bytes, ghost rec: Bytes)
      returns (ok: bool, record: Bytes, ghost parts: seq<Physical>, ghost start: nat)
      requires Ok()
      modifies this
      ensures Ok() && Trace(file, codec.crc, checksum, parts, old(Consumed()), Consumed(), drops) && old(drops) <= drops
      ensures Ended(parts, ok, record, start)
      ensures (ok ==> Consumed() > old(Consumed()))
      ensures old(Consumed()) == |file| ==> !ok && drops == old(drops)
      ensures old(AtRest(full, rec, true)) ==>
                && drops == old(drops)
                && if EndOf(|rec|, old(Consumed())) <= |file| then ok && record == rec && Consumed() == EndOf(|rec|, old(Consumed())) else !ok
    {
      ghost var there, rest, end := AtRest(full, rec, true), rec, EndOf(|rec|, Consumed());
      var scratch: Bytes := [];
      var inFragmentedRecord, done := false, false;
      record, ok, parts, start := [], false, [], 0;
      while !done
        invariant Ok() && Consumed() >= old(Consumed()) && (ok ==> Consumed() > old(Consumed()))
        invariant Trace(file, codec.crc, checksum, parts, old(Consumed()), Consumed(), drops) && old(drops) <= drops
        invariant if done then Ended(parts, ok, scratch, start)
                  else Collecting(parts, inFragmentedRecord, scratch, start) && (parts != [] ==> parts[|parts| - 1].kind != EOF)
        invariant old(Consumed()) == |file| ==> drops == old(drops) && if done then !ok else Consumed() == |file|
        invariant there ==> drops == old(drops)
        invariant there && !done ==> Reading(full, rec, inFragmentedRecord, scratch, rest, end)
        invariant there && done ==> if end <= |file| then ok && scratch == rec && Consumed() == end else !ok
        decreases !done, |file| - Consumed()
      {
        ghost var was, before, early := inFragmentedRecord, scratch, drops;
        ghost var r;
        done, ok, inFragmentedRecord, scratch, rest, r := ReadAndAssemble(full, there, rec, inFragmentedRecord, scratch, rest, end);
        start := TurnMade(parts, was, before, start, r, done, ok, inFragmentedRecord, scratch);
        TraceGrows(file, codec.crc, checksum, parts, r, old(Consumed()), early, drops);
        parts := parts + [r];
      }
      record := scratch;
    }
  }

  /** The reader has come to record `i` of a file that is a prefix of a log. */
  ghost predicate AtRecord(reader: Reader, recs: seq<Bytes>, i: nat)
    requires reader.Ok()
    reads reader
  {
    i <= |recs| && reader.file <= Log(reader.codec.frame, recs) && reader.Consumed() == Ends(recs[..i])
  }

  /** Record `i` if it is complete, or the end of what is. */
  method RecoverNext(reader: Reader, ghost recs: seq<Bytes>, ghost i: nat)
    returns (more: bool, record: Bytes, ghost parts: seq<Physical>, ghost start: nat)
    requires reader.Ok()
    modifies reader
    ensures reader.Ok() && (more ==> reader.Consumed() > old(reader.Consumed()))
    ensures Trace(reader.file, reader.codec.crc, reader.checksum, parts, old(reader.Consumed()), reader.Consumed(), reader.drops)
    ensures old(reader.drops) <= reader.drops && Ended(parts, more, record, start)
    ensures old(AtRecord(reader, recs, i)) ==>
              && reader.drops == old(reader.drops)
              && (more <==> i < |recs| && Ends(recs[..i + 1]) <= |reader.file|)
              && (more ==> record == recs[i] && AtRecord(reader, recs, i + 1))
  {
    ghost var rec := [];
    assert recs[..|recs|] == recs;
    if AtRecord(reader, recs, i) && i < |recs| {
      rec := recs[i];
      RecordAt(reader.codec.frame, recs, i);
      assert recs[..i + 1][..i] == recs[..i];
    }
    more, record, parts, start := reader.ReadRecord(Log(reader.codec.frame, recs), rec);
  }

  /** `out` are leading records that end within a file of `size` bytes. */
  ghost predicate CompletePrefix(recs: seq<Bytes>, out: seq<Bytes>, size: nat) {
    out <= recs && Ends(out) <= size
  }

  lemma NextPrefix(recs: seq<Bytes>, out: seq<Bytes>, record: Bytes, size: nat)
    requires out <= recs && |out| < |recs| && record == recs[|out|] && Ends(recs[..|out| + 1]) <= size
    ensures CompletePrefix(recs, out + [record], size)
  {
    assert out + [record] == recs[..|out| + 1];
  }

  lemma Found(parts: seq<Physical>, out: seq<Bytes>, starts: seq<nat>, stops: seq<nat>,
              got: seq<Physical>, more: bool, record: Bytes, start: nat)
    returns (parts': seq<Physical>, starts': seq<nat>, stops': seq<nat>)
    requires Gathered(parts, out, starts, stops, true) && Ended(got, more, record, start)
    ensures parts' == parts + got
    ensures Gathered(parts', if more then out + [record] else out, starts', stops', more)
  {
    parts' := parts + got;
    if more {
      starts', stops' := starts + [|parts| + start], stops + [|parts| + |got|];
      GatheredGrows(parts, out, starts, stops, got, record, start);
    } else {
      starts', stops' := starts, stops;
      GatheredEnds(parts, out, starts, stops, got);
    }
  }

  /** What holds of a written log while its records are read back. */
  ghost predicate Recovering(reader: Reader, recs: seq<Bytes>, out: seq<Bytes>, more: bool)
    requires reader.Ok()
    reads reader
  {
    && reader.drops == [] && CompletePrefix(recs, out, |reader.file|)
    && if more then AtRecord(reader, recs, |out|) else |out| < |recs| ==> |reader.file| < Ends(recs[..|out| + 1])
  }

  /** One turn of the loop of recovery. */
  method RecoverStep(reader: Reader, ghost recs: seq<Bytes>, ghost there: bool, out: seq<Bytes>,
                     ghost parts: seq<Physical>, ghost starts: seq<nat>, ghost stops: seq<nat>)
    returns (more: bool, out': seq<Bytes>, ghost parts': seq<Physical>, ghost starts': seq<nat>, ghost stops': seq<nat>)
    requires reader.Ok() && Trace(reader.file, reader.codec.crc, reader.checksum, parts, 0, reader.Consumed(), reader.drops)
    requires Gathered(parts, out, starts, stops, true)
    requires there ==> Recovering(reader, recs, out, true)
    modifies reader
    ensures reader.Ok() && (more ==> reader.Consumed() > old(reader.Consumed()))
    ensures Trace(reader.file, reader.codec.crc, reader.checksum, parts', 0, reader.Consumed(), reader.drops)
    ensures Gathered(parts', out', starts', stops', more)
    ensures there ==> Recovering(reader, recs, out', more)
  {
    ghost var got, start;
    var record;
    more, record, got, start := RecoverNext(reader, recs, |out|);
    GatheredIs(parts, out, starts, stops, true);
    parts', starts', stops' := Found(parts, out, starts, stops, got, more, record, start);
    TraceJoins(reader.file, reader.codec.crc, reader.checksum, parts, got, 0, old(reader.Consumed()), reader.Consumed(),
               old(reader.drops), reader.drops);
    out' := out;
    if more {
      if there { NextPrefix(recs, out, record, |reader.file|); }
      out' := out + [record];
    }
  }

  method RecoverAll(reader: Reader, ghost recs: seq<Bytes>, ghost there: bool)
    returns (out: seq<Bytes>, ghost parts: seq<Physical>, ghost starts: seq<nat>, ghost stops: seq<nat>)
    requires reader.Ok() && reader.Consumed() == 0
    requires there ==> Recovering(reader, recs, [], true)
    modifies reader
    ensures reader.Ok() && Trace(reader.file, reader.codec.crc, reader.checksum, parts, 0, reader.Consumed(), reader.drops)
    ensures Gathered(parts, out, starts, stops, false)
    ensures there ==> Recovering(reader, recs, out, false)
  {
    GatheredIs([], [], [], [], true);
    out, parts, starts, stops := [], [], [], [];
    var more := true;
    while more
      invariant reader.Ok()
      invariant Trace(reader.file, reader.codec.crc, reader.checksum, parts, 0, reader.Consumed(), reader.drops)
      invariant Gathered(parts, out, starts, stops, more)
      invariant there ==> Recovering(reader, recs, out, more)
      decreases more, |reader.file| - reader.Consumed()
    {
      more, out, parts, starts, stops := RecoverStep(reader, recs, there, out, parts, starts, stops);
    }
  }

  /** Recovery. Whatever the file, it is read from its start to its end, what comes back
      is exactly the records among the fragments read, in order, and all damage met is
      reported. However a written log was cut, exactly the records whose last fragment
      survived come back, and no corruption is reported. */
  method RecoverRecords(codec: Codec, file: Bytes, checksum: bool, ghost recs: seq<Bytes>)
    returns (out: seq<Bytes>, drops: seq<nat>,
             ghost parts: seq<Physical>, ghost starts: seq<nat>, ghost stops: seq<nat>)
    ensures parts != [] && Trace(file, codec.crc, checksum, parts, 0, parts[|parts| - 1].to, drops)
    ensures parts[|parts| - 1].kind == EOF
    ensures Collected(parts, out, starts, stops)
    ensures file <= Log(codec.frame, recs) ==>
              && drops == [] && out <= recs && Ends(out) <= |file|
              && (|out| < |recs| ==> |file| < Ends(recs[..|out| + 1]))
  {
    var reader := new Reader(file, codec, checksum);
    ghost var there := file <= Log(codec.frame, recs);
    out, parts, starts, stops := RecoverAll(reader, recs, there);
    drops := reader.drops;
    GatheredIs(parts, out, starts, stops, false);
  }

  /** Of a log that was not cut no record is left out. */
  lemma NoneLeftOut(frame: Framing, recs: seq<Bytes>, size: nat, k: nat)
    requires size == Ends(recs) && k <= |recs| && (k < |recs| ==> size < Ends(recs[..k + 1]))
    ensures k == |recs|
  {
    if k < |recs| {
      RecordAt(frame, recs, k);
    }
  }

  /** A log that was not cut comes back whole. */
  lemma UncutLogLosesNothing(frame: Framing, file: Bytes, recs: seq<Bytes>, out: seq<Bytes>)
    requires file == Log(frame, recs) && out <= recs
    requires |out| < |recs| ==> |file| < Ends(recs[..|out| + 1])
    ensures out == recs
  {
    NoneLeftOut(frame, recs, |file|, |out|);
  }
}
