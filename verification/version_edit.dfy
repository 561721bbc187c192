/** Records of the manifest as bytes: tagged fields, one behind the other. */
module VersionEdits {
  import opened Keys
  import opened Coding
  import opened Varints
  import opened Slices
  import opened Files

  const K_COMPARATOR := 1
  const K_LOG_NUMBER := 2
  const K_NEXT_FILE_NUMBER := 3
  const K_LAST_SEQUENCE := 4
  const K_COMPACT_POINTER := 5
  const K_DELETED_FILE := 6
  const K_NEW_FILE := 7
  const K_PREV_LOG_NUMBER := 9

  /** A table's metadata; keys are encoded internal keys. */
  datatype FileMetaData = FileMetaData(number: nat, fileSize: nat, smallest: Bytes, largest: Bytes)

  /** `deleted` is a `std::set`: in ascending order, nothing twice. */
  datatype Fields = Fields(
    comparator: Option<Bytes>,
    logNumber: Option<nat>,
    prevLogNumber: Option<nat>,
    nextFileNumber: Option<nat>,
    lastSequence: Option<nat>,
    compactPointers: seq<(nat, Bytes)>,
    deleted: seq<(nat, nat)>,
    added: seq<(nat, FileMetaData)>)

  predicate PairLess(a: (nat, nat), b: (nat, nat)) {
    a.0 < b.0 || (a.0 == b.0 && a.1 < b.1)
  }

  ghost predicate Ascending(s: seq<(nat, nat)>) {
    forall i, j :: 0 <= i < j < |s| ==> PairLess(s[i], s[j])
  }

  function InsertPair(s: seq<(nat, nat)>, x: (nat, nat)): seq<(nat, nat)> {
    if s == [] then [x]
    else if PairLess(x, s[0]) then [x] + s
    else if PairLess(s[0], x) then [s[0]] + InsertPair(s[1..], x)
    else s
  }

  lemma {:induction false} InsertLast(s: seq<(nat, nat)>, x: (nat, nat))
    requires Ascending(s + [x])
    ensures InsertPair(s, x) == s + [x]
  {
    if s != [] {
      assert PairLess((s + [x])[0], (s + [x])[|s|]);
      assert (s + [x])[1..] == s[1..] + [x];
      InsertLast(s[1..], x);
      assert [s[0]] + (s[1..] + [x]) == s + [x];
    }
  }

  // ---- The fields of a record, one by one ----

  datatype Item =
    | Comparator(name: Bytes)
    | LogNumber(n: nat)
    | PrevLogNumber(n: nat)
    | NextFileNumber(n: nat)
    | LastSequence(n: nat)
    | CompactPointer(level: nat, key: Bytes)
    | DeletedFile(level: nat, n: nat)
    | NewFile(level: nat, f: FileMetaData)

  function Tag(x: Item): (t: Word)
    ensures t < 128
  {
    match x
    case Comparator(_) => K_COMPARATOR
    case LogNumber(_) => K_LOG_NUMBER
    case PrevLogNumber(_) => K_PREV_LOG_NUMBER
    case NextFileNumber(_) => K_NEXT_FILE_NUMBER
    case LastSequence(_) => K_LAST_SEQUENCE
    case CompactPointer(_, _) => K_COMPACT_POINTER
    case DeletedFile(_, _) => K_DELETED_FILE
    case NewFile(_, _) => K_NEW_FILE
  }

  function FileBytes(f: FileMetaData): Bytes {
    Varint(f.number) + (Varint(f.fileSize) + RangeBytes(f.smallest, f.largest))
  }

  function RangeBytes(smallest: Bytes, largest: Bytes): Bytes {
    WithLength(smallest) + WithLength(largest)
  }

  /** What stands behind the tag. */
  function Payload(x: Item): Bytes {
    match x
    case Comparator(name) => WithLength(name)
    case CompactPointer(level, key) => Varint(level) + WithLength(key)
    case DeletedFile(level, n) => Varint(level) + Varint(n)
    case NewFile(level, f) => Varint(level) + FileBytes(f)
    case _ => Varint(x.n)
  }

  function EncodeItem(x: Item): Bytes {
    Varint(Tag(x)) + Payload(x)
  }

  /** Pieces one behind the other, whatever encodes them. */
  function EncodeAll(enc: Item -> Bytes, xs: seq<Item>): Bytes
    decreases xs
  {
    if xs == [] then [] else enc(xs[0]) + EncodeAll(enc, xs[1..])
  }

  function EncodeItems(xs: seq<Item>): Bytes {
    EncodeAll(EncodeItem, xs)
  }

  function Pointers(s: seq<(nat, Bytes)>): seq<Item> {
    seq(|s|, i requires 0 <= i < |s| => CompactPointer(s[i].0, s[i].1))
  }

  function Deletions(s: seq<(nat, nat)>): seq<Item> {
    seq(|s|, i requires 0 <= i < |s| => DeletedFile(s[i].0, s[i].1))
  }

  function Additions(s: seq<(nat, FileMetaData)>): seq<Item> {
    seq(|s|, i requires 0 <= i < |s| => NewFile(s[i].0, s[i].1))
  }

  function Head(e: Fields): seq<Item> {
    (if e.comparator.Some? then [Comparator(e.comparator.value)] else [])
    + (if e.logNumber.Some? then [LogNumber(e.logNumber.value)] else [])
    + (if e.prevLogNumber.Some? then [PrevLogNumber(e.prevLogNumber.value)] else [])
    + (if e.nextFileNumber.Some? then [NextFileNumber(e.nextFileNumber.value)] else [])
    + (if e.lastSequence.Some? then [LastSequence(e.lastSequence.value)] else [])
  }

  /** A record's fields in the order they are written. */
  function Items(e: Fields): seq<Item> {
    Head(e) + Pointers(e.compactPointers) + Deletions(e.deleted) + Additions(e.added)
  }

  /** What reading one field does. */
  function Applied(e: Fields, x: Item): Fields {
    match x
    case Comparator(name) => e.(comparator := Some(name))
    case LogNumber(n) => e.(logNumber := Some(n))
    case PrevLogNumber(n) => e.(prevLogNumber := Some(n))
    case NextFileNumber(n) => e.(nextFileNumber := Some(n))
    case LastSequence(n) => e.(lastSequence := Some(n))
    case CompactPointer(level, key) => e.(compactPointers := e.compactPointers + [(level, key)])
    case DeletedFile(level, n) => e.(deleted := InsertPair(e.deleted, (level, n)))
    case NewFile(level, f) => e.(added := e.added + [(level, f)])
  }

  function AllApplied(e: Fields, xs: seq<Item>): Fields
    decreases xs
  {
    if xs == [] then e else AllApplied(Applied(e, xs[0]), xs[1..])
  }

  // ---- Parsing ----

  function ReadNumber(data: Bytes, p: nat, limit: nat): (r: Option<(nat, nat)>)
    requires limit <= |data|
    ensures r.Some? ==> p < r.value.1 <= limit
  {
    var r := DecodeVarint(data, p, limit, 10);
    if r == None then None else Some((Low64(r.value.0), r.value.1))
  }

  function ReadLevel(data: Bytes, p: nat, limit: nat): (r: Option<(nat, nat)>)
    requires limit <= |data|
    ensures r.Some? ==> p < r.value.1 <= limit
  {
    var r := DecodeVarint(data, p, limit, 5);
    if r == None || Low32(r.value.0) >= NUM_LEVELS then None else Some((Low32(r.value.0), r.value.1))
  }

  function ReadRange(data: Bytes, p: nat, limit: nat): (r: Option<(Bytes, Bytes, nat)>)
    requires limit <= |data|
    ensures r.Some? ==> p < r.value.2 <= limit
  {
    var smallest := ReadSlice(data, p, limit);
    if smallest == None then None else
    var largest := ReadSlice(data, smallest.value.1, limit);
    if largest == None then None else Some((smallest.value.0, largest.value.0, largest.value.1))
  }

  function ReadFile(data: Bytes, p: nat, limit: nat): (r: Option<(FileMetaData, nat)>)
    requires limit <= |data|
    ensures r.Some? ==> p < r.value.1 <= limit
  {
    var number := ReadNumber(data, p, limit);
    if number == None then None else
    var size := ReadNumber(data, number.value.1, limit);
    if size == None then None else
    var range := ReadRange(data, size.value.1, limit);
    if range == None then None
    else Some((FileMetaData(number.value.0, size.value.0, range.value.0, range.value.1), range.value.2))
  }

  function NumberItem(tag: nat, n: nat): Option<Item> {
    if tag == K_LOG_NUMBER then Some(LogNumber(n))
    else if tag == K_PREV_LOG_NUMBER then Some(PrevLogNumber(n))
    else if tag == K_NEXT_FILE_NUMBER then Some(NextFileNumber(n))
    else if tag == K_LAST_SEQUENCE then Some(LastSequence(n))
    else None
  }

  /** What stands behind a tag; unknown tags and anything malformed are refused. */
  function ReadPayload(tag: nat, data: Bytes, p: nat, limit: nat): (r: Option<(Item, nat)>)
    requires limit <= |data|
    ensures r.Some? ==> p < r.value.1 <= limit
  {
    if tag == K_COMPARATOR then
      var name := ReadSlice(data, p, limit);
      if name == None then None else Some((Comparator(name.value.0), name.value.1))
    else if tag == K_COMPACT_POINTER then
      var level := ReadLevel(data, p, limit);
      if level == None then None else
      var key := ReadSlice(data, level.value.1, limit);
      if key == None then None else Some((CompactPointer(level.value.0, key.value.0), key.value.1))
    else if tag == K_DELETED_FILE then
      var level := ReadLevel(data, p, limit);
      if level == None then None else
      var n := ReadNumber(data, level.value.1, limit);
      if n == None then None else Some((DeletedFile(level.value.0, n.value.0), n.value.1))
    else if tag == K_NEW_FILE then
      var level := ReadLevel(data, p, limit);
      if level == None then None else
      var f := ReadFile(data, level.value.1, limit);
      if f == None then None else Some((NewFile(level.value.0, f.value.0), f.value.1))
    else if NumberItem(tag, 0) == None then None
    else
      var n := ReadNumber(data, p, limit);
      if n == None then None else Some((NumberItem(tag, n.value.0).value, n.value.1))
  }

  /** The loop of `DecodeFrom` from `p` on. */
  function DecodeItems(data: Bytes, p: nat, limit: nat, e: Fields): Option<Fields>
    requires limit <= |data|
    decreases limit - p
  {
    var tag := DecodeVarint(data, p, limit, 5);
    if tag == None then (if p < limit then None else Some(e))
    else
      var x := ReadPayload(Low32(tag.value.0), data, tag.value.1, limit);
      if x == None then None else DecodeItems(data, x.value.1, limit, Applied(e, x.value.0))
  }

  /** `Clear`, which leaves the compaction pointers alone. */
  function Cleared(e: Fields): Fields {
    Fields(None, None, None, None, None, e.compactPointers, [], [])
  }

  // ---- Reading what was written ----

  ghost predicate Small(n: nat) {
    n < TWO_TO_THE_64
  }

  /** What fits into the C++ fields. */
  ghost predicate ItemOk(x: Item) {
    match x
    case Comparator(name) => Short(name)
    case CompactPointer(level, key) => level < NUM_LEVELS && Short(key)
    case DeletedFile(level, n) => level < NUM_LEVELS && Small(n)
    case NewFile(level, f) => level < NUM_LEVELS && Small(f.number) && Small(f.fileSize) && Short(f.smallest) && Short(f.largest)
    case _ => Small(x.n)
  }

  lemma NumberBack(n: nat, data: Bytes, p: nat, end: nat, limit: nat)
    requires Small(n) && At(Varint(n), data, p, end) && end <= limit <= |data|
    ensures ReadNumber(data, p, limit) == Some((n, end))
  {
    assert Asked(OfPart, 0);
    Varint64Back(n, data, p, limit);
  }

  lemma LevelBack(n: nat, data: Bytes, p: nat, end: nat, limit: nat)
    requires n < NUM_LEVELS && At(Varint(n), data, p, end) && end <= limit <= |data|
    ensures ReadLevel(data, p, limit) == Some((n, end))
  {
    assert Asked(OfPart, 0);
    Varint32Back(n, data, p, limit);
  }

  lemma RangeBack(smallest: Bytes, largest: Bytes, data: Bytes, p: nat, end: nat, limit: nat)
    requires Short(smallest) && Short(largest) && At(RangeBytes(smallest, largest), data, p, end) && end <= limit <= |data|
    ensures ReadRange(data, p, limit) == Some((smallest, largest, end))
  {
    var mid := AtBoth(WithLength(smallest), WithLength(largest), data, p, end);
    SliceBack(smallest, data, p, mid, limit);
    SliceBack(largest, data, mid, end, limit);
  }

  lemma FileBack(f: FileMetaData, data: Bytes, p: nat, end: nat, limit: nat)
    requires Small(f.number) && Small(f.fileSize) && Short(f.smallest) && Short(f.largest)
    requires At(FileBytes(f), data, p, end) && end <= limit <= |data|
    ensures ReadFile(data, p, limit) == Some((f, end))
  {
    var range := RangeBytes(f.smallest, f.largest);
    var p2 := AtBoth(Varint(f.number), Varint(f.fileSize) + range, data, p, end);
    var p3 := AtBoth(Varint(f.fileSize), range, data, p2, end);
    NumberBack(f.number, data, p, p2, limit);
    NumberBack(f.fileSize, data, p2, p3, limit);
    RangeBack(f.smallest, f.largest, data, p3, end, limit);
  }

  lemma NewFileBack(level: nat, f: FileMetaData, data: Bytes, p: nat, end: nat, limit: nat)
    requires ItemOk(NewFile(level, f)) && At(Varint(level) + FileBytes(f), data, p, end) && end <= limit <= |data|
    ensures ReadPayload(K_NEW_FILE, data, p, limit) == Some((NewFile(level, f), end))
  {
    var mid := AtBoth(Varint(level), FileBytes(f), data, p, end);
    LevelBack(level, data, p, mid, limit);
    FileBack(f, data, mid, end, limit);
  }

  lemma CompactPointerBack(level: nat, key: Bytes, data: Bytes, p: nat, end: nat, limit: nat)
    requires ItemOk(CompactPointer(level, key)) && At(Varint(level) + WithLength(key), data, p, end) && end <= limit <= |data|
    ensures ReadPayload(K_COMPACT_POINTER, data, p, limit) == Some((CompactPointer(level, key), end))
  {
    var mid := AtBoth(Varint(level), WithLength(key), data, p, end);
    LevelBack(level, data, p, mid, limit);
    SliceBack(key, data, mid, end, limit);
  }

  lemma DeletedFileBack(level: nat, n: nat, data: Bytes, p: nat, end: nat, limit: nat)
    requires ItemOk(DeletedFile(level, n)) && At(Varint(level) + Varint(n), data, p, end) && end <= limit <= |data|
    ensures ReadPayload(K_DELETED_FILE, data, p, limit) == Some((DeletedFile(level, n), end))
  {
    var mid := AtBoth(Varint(level), Varint(n), data, p, end);
    LevelBack(level, data, p, mid, limit);
    NumberBack(n, data, mid, end, limit);
  }

  lemma NumberItemBack(x: Item, t: nat, data: Bytes, p: nat, end: nat, limit: nat)
    requires t == Tag(x) && NumberItem(t, 0).Some? && Small(x.n) && At(Varint(x.n), data, p, end) && end <= limit <= |data|
    ensures ReadPayload(t, data, p, limit) == Some((x, end))
  {
    NumberBack(x.n, data, p, end, limit);
  }

  lemma ComparatorBack(name: Bytes, data: Bytes, p: nat, end: nat, limit: nat)
    requires Short(name) && At(WithLength(name), data, p, end) && end <= limit <= |data|
    ensures ReadPayload(K_COMPARATOR, data, p, limit) == Some((Comparator(name), end))
  {
    SliceBack(name, data, p, end, limit);
  }

  /** What stands behind a tag is read back. */
  lemma PayloadBack(x: Item, t: Word, data: Bytes, p: nat, end: nat, limit: nat)
    requires ItemOk(x) && t == Tag(x) && At(Payload(x), data, p, end) && end <= limit <= |data|
    ensures ReadPayload(t, data, p, limit) == Some((x, end))
  {
    match x {
      case Comparator(name) => ComparatorBack(name, data, p, end, limit);
      case CompactPointer(level, key) => CompactPointerBack(level, key, data, p, end, limit);
      case DeletedFile(level, n) => DeletedFileBack(level, n, data, p, end, limit);
      case NewFile(level, f) => NewFileBack(level, f, data, p, end, limit);
      case _ => NumberItemBack(x, t, data, p, end, limit);
    }
  }

  /** The loop that stands at `p` with `e` ends with `r`. */
  ghost predicate Decodes(data: Bytes, p: nat, limit: nat, e: Fields, r: Fields) {
    forall i {:trigger Asked(OfPart, i)} :: Asked(OfPart, i) ==> limit <= |data| && DecodeItems(data, p, limit, e) == Some(r)
  }

  lemma TagReads(t: Word, data: Bytes, p: nat, limit: nat, next: nat, x: Item, end: nat, e: Fields, r: Fields)
    requires limit <= |data| && DecodeVarint(data, p, limit, 5) == Some((t as nat, next)) && ReadPayload(t, data, next, limit) == Some((x, end))
    requires Decodes(data, end, limit, Applied(e, x), r)
    ensures Decodes(data, p, limit, e, r)
  {
    assert Asked(OfPart, 0);
  }

  lemma TagBack(t: Word, data: Bytes, p: nat, end: nat, limit: nat)
    requires At(Varint(t), data, p, end) && end <= limit <= |data|
    ensures DecodeVarint(data, p, limit, 5) == Some((t as nat, end))
  {
    assert Asked(OfPart, 0);
    Varint32Back(t, data, p, limit);
  }

  /** One turn of the loop reads one field. */
  lemma ItemBack(x: Item, t: Word, data: Bytes, p: nat, end: nat, limit: nat, e: Fields, r: Fields)
    requires ItemOk(x) && t == Tag(x) && At(Varint(t) + Payload(x), data, p, end) && end <= limit <= |data|
    requires Decodes(data, end, limit, Applied(e, x), r)
    ensures Decodes(data, p, limit, e, r)
  {
    var next := AtBoth(Varint(t), Payload(x), data, p, end);
    TagBack(t, data, p, next, limit);
    PayloadBack(x, t, data, next, end, limit);
    TagReads(t, data, p, limit, next, x, end, e, r);
  }

  ghost predicate ItemsOk(xs: seq<Item>) {
    forall i :: 0 <= i < |xs| ==> ItemOk(xs[i])
  }

  lemma LoopEnds(data: Bytes, p: nat, limit: nat, e: Fields)
    requires At([], data, p, limit) && limit <= |data|
    ensures Decodes(data, p, limit, e, e)
  {
    assert Asked(OfPart, 0);
  }

  lemma {:induction false} ItemsBack(xs: seq<Item>, data: Bytes, p: nat, limit: nat, e: Fields)
    requires ItemsOk(xs) && At(EncodeItems(xs), data, p, limit) && limit <= |data|
    ensures Decodes(data, p, limit, e, AllApplied(e, xs))
    decreases xs
  {
    if xs == [] {
      LoopEnds(data, p, limit, e);
    } else {
      var mid := AtBoth(EncodeItem(xs[0]), EncodeItems(xs[1..]), data, p, limit);
      ItemsBack(xs[1..], data, mid, limit, Applied(e, xs[0]));
      ItemBack(xs[0], Tag(xs[0]), data, p, mid, limit, e, AllApplied(e, xs));
    }
  }

  // ---- A record's fields bring the record back ----

  lemma {:induction false} AppliedInTurn(e: Fields, xs: seq<Item>, ys: seq<Item>)
    ensures AllApplied(e, xs + ys) == AllApplied(AllApplied(e, xs), ys)
    decreases xs
  {
    if xs == [] {
      assert xs + ys == ys;
    } else {
      AppliedInTurn(Applied(e, xs[0]), xs[1..], ys);
      assert (xs + ys)[1..] == xs[1..] + ys;
    }
  }

  lemma {:induction false} PointersApplied(e: Fields, s: seq<(nat, Bytes)>)
    ensures AllApplied(e, Pointers(s)) == e.(compactPointers := e.compactPointers + s)
    decreases s
  {
    if s == [] {
      assert e.compactPointers + s == e.compactPointers;
    } else {
      assert Pointers(s)[1..] == Pointers(s[1..]);
      var e1 := Applied(e, Pointers(s)[0]);
      PointersApplied(e1, s[1..]);
      assert e.compactPointers + [s[0]] + s[1..] == e.compactPointers + s;
    }
  }

  lemma {:induction false} DeletionsApplied(e: Fields, s: seq<(nat, nat)>)
    requires Ascending(e.deleted + s)
    ensures AllApplied(e, Deletions(s)) == e.(deleted := e.deleted + s)
    decreases s
  {
    if s == [] {
      assert e.deleted + s == e.deleted;
    } else {
      assert Deletions(s)[1..] == Deletions(s[1..]);
      assert e.deleted + [s[0]] + s[1..] == e.deleted + s;
      assert (e.deleted + s)[..|e.deleted| + 1] == e.deleted + [s[0]];
      InsertLast(e.deleted, s[0]);
      DeletionsApplied(Applied(e, Deletions(s)[0]), s[1..]);
    }
  }

  lemma {:induction false} AdditionsApplied(e: Fields, s: seq<(nat, FileMetaData)>)
    ensures AllApplied(e, Additions(s)) == e.(added := e.added + s)
    decreases s
  {
    if s == [] {
      assert e.added + s == e.added;
    } else {
      assert Additions(s)[1..] == Additions(s[1..]);
      AdditionsApplied(Applied(e, Additions(s)[0]), s[1..]);
      assert e.added + [s[0]] + s[1..] == e.added + s;
    }
  }

  lemma OneApplied(e: Fields, x: Item)
    ensures AllApplied(e, [x]) == Applied(e, x) && AllApplied(e, []) == e
  {
    assert [x][1..] == [];
  }

  lemma HeadApplied(e: Fields, start: Fields)
    requires start == Fields(None, None, None, None, None, start.compactPointers, [], [])
    ensures AllApplied(start, Head(e))
            == Fields(e.comparator, e.logNumber, e.prevLogNumber, e.nextFileNumber, e.lastSequence, start.compactPointers, [], [])
  {
    var h1 := if e.comparator.Some? then [Comparator(e.comparator.value)] else [];
    var h2 := if e.logNumber.Some? then [LogNumber(e.logNumber.value)] else [];
    var h3 := if e.prevLogNumber.Some? then [PrevLogNumber(e.prevLogNumber.value)] else [];
    var h4 := if e.nextFileNumber.Some? then [NextFileNumber(e.nextFileNumber.value)] else [];
    var h5 := if e.lastSequence.Some? then [LastSequence(e.lastSequence.value)] else [];
    AppliedInTurn(start, h1 + h2 + h3 + h4, h5);
    AppliedInTurn(start, h1 + h2 + h3, h4);
    AppliedInTurn(start, h1 + h2, h3);
    AppliedInTurn(start, h1, h2);
    var s1 := start.(comparator := e.comparator);
    var s2 := s1.(logNumber := e.logNumber);
    var s3 := s2.(prevLogNumber := e.prevLogNumber);
    var s4 := s3.(nextFileNumber := e.nextFileNumber);
    OneApplied(start, Comparator(e.comparator.GetOr([])));
    OneApplied(s1, LogNumber(e.logNumber.GetOr(0)));
    OneApplied(s2, PrevLogNumber(e.prevLogNumber.GetOr(0)));
    OneApplied(s3, NextFileNumber(e.nextFileNumber.GetOr(0)));
    OneApplied(s4, LastSequence(e.lastSequence.GetOr(0)));
  }

  ghost predicate FieldsOk(e: Fields) {
    ItemsOk(Items(e)) && Ascending(e.deleted)
  }

  /** What decoding leaves in an edit that was used before. */
  function OnTop(before: Fields, e: Fields): Fields {
    e.(compactPointers := before.compactPointers + e.compactPointers)
  }

  lemma ItemsApplied(e: Fields, before: Fields)
    requires Ascending(e.deleted)
    ensures AllApplied(Cleared(before), Items(e)) == OnTop(before, e)
  {
    var h, p, del, add := Head(e), Pointers(e.compactPointers), Deletions(e.deleted), Additions(e.added);
    AppliedInTurn(Cleared(before), h + p + del, add);
    AppliedInTurn(Cleared(before), h + p, del);
    AppliedInTurn(Cleared(before), h, p);
    HeadApplied(e, Cleared(before));
    var s1 := AllApplied(Cleared(before), h);
    PointersApplied(s1, e.compactPointers);
    var s2 := AllApplied(s1, p);
    assert s2.deleted + e.deleted == e.deleted;
    DeletionsApplied(s2, e.deleted);
    var s3 := AllApplied(s2, del);
    AdditionsApplied(s3, e.added);
    assert s3.added + e.added == e.added;
  }

  /** Decoding an encoded record gives it back, on top of the compaction pointers that were
      there; so it is the record exactly for an edit without any, such as a new one. */
  lemma RoundTrip(e: Fields, before: Fields)
    requires FieldsOk(e)
    ensures var b := EncodeItems(Items(e)); DecodeItems(b, 0, |b|, Cleared(before)) == Some(OnTop(before, e))
    ensures OnTop(before, e) == e <==> before.compactPointers == []
  {
    var b := EncodeItems(Items(e));
    assert At(b, b, 0, |b|) by {
      assert b[0..0 + |b|] == b;
    }
    ItemsBack(Items(e), b, 0, |b|, Cleared(before));
    assert Asked(OfPart, 0);
    ItemsApplied(e, before);
    if before.compactPointers == [] {
      assert [] + e.compactPointers == e.compactPointers;
    } else {
      assert |before.compactPointers + e.compactPointers| > |e.compactPointers|;
    }
  }

  /** An edit that had a compaction pointer and reads a record without any: it keeps the pointer. */
  lemma ReusedEditKeepsPointer(key: Bytes, before: Fields, e: Fields)
    requires before == Fields(None, None, None, None, None, [(0, key)], [], []) && e == Fields(None, Some(7), None, None, None, [], [], [])
    ensures var b := EncodeItems(Items(e));
            DecodeItems(b, 0, |b|, Cleared(before)) == Some(e.(compactPointers := [(0, key)])) && e.(compactPointers := [(0, key)]) != e
  {
    assert Items(e) == [LogNumber(7)];
    RoundTrip(e, before);
    assert before.compactPointers + e.compactPointers == [(0, key)];
  }

  // ---- The code ----

  method GetLevel(data: Bytes, p: nat, limit: nat) returns (r: Option<(nat, nat)>)
    requires limit <= |data|
    ensures r == ReadLevel(data, p, limit)
  {
    var v := GetVarint32Ptr(data, p, limit);
    r := if v.Some? && v.value.0 < NUM_LEVELS then Some((v.value.0 as nat, v.value.1)) else None;
  }

  method GetNumber(data: Bytes, p: nat, limit: nat) returns (r: Option<(nat, nat)>)
    requires limit <= |data|
    ensures r == ReadNumber(data, p, limit)
  {
    r := GetVarint64Ptr(data, p, limit);
  }

  method GetFile(data: Bytes, p: nat, limit: nat) returns (r: Option<(FileMetaData, nat)>)
    requires limit <= |data|
    ensures r == ReadFile(data, p, limit)
  {
    var number := GetNumber(data, p, limit);
    if number == None {
      return None;
    }
    var size := GetNumber(data, number.value.1, limit);
    if size == None {
      return None;
    }
    var smallest := GetLengthPrefixedSlice(data, size.value.1, limit);
    if smallest == None {
      return None;
    }
    var largest := GetLengthPrefixedSlice(data, smallest.value.1, limit);
    if largest == None {
      return None;
    }
    r := Some((FileMetaData(number.value.0, size.value.0, smallest.value.0, largest.value.0), largest.value.1));
  }

  /** One arm of the switch over the tags. */
  method GetPayload(tag: nat, data: Bytes, p: nat, limit: nat) returns (r: Option<(Item, nat)>)
    requires limit <= |data|
    ensures r == ReadPayload(tag, data, p, limit)
  {
    r := None;
    if tag == K_COMPARATOR {
      var name := GetLengthPrefixedSlice(data, p, limit);
      if name.Some? {
        r := Some((Comparator(name.value.0), name.value.1));
      }
    } else if tag == K_COMPACT_POINTER || tag == K_DELETED_FILE || tag == K_NEW_FILE {
      var level := GetLevel(data, p, limit);
      if level == None {
        return;
      }
      if tag == K_COMPACT_POINTER {
        var key := GetLengthPrefixedSlice(data, level.value.1, limit);
        if key.Some? {
          r := Some((CompactPointer(level.value.0, key.value.0), key.value.1));
        }
      } else if tag == K_DELETED_FILE {
        var n := GetNumber(data, level.value.1, limit);
        if n.Some? {
          r := Some((DeletedFile(level.value.0, n.value.0), n.value.1));
        }
      } else {
        var f := GetFile(data, level.value.1, limit);
        if f.Some? {
          r := Some((NewFile(level.value.0, f.value.0), f.value.1));
        }
      }
    } else if NumberItem(tag, 0).Some? {
      var n := GetNumber(data, p, limit);
      if n.Some? {
        r := Some((NumberItem(tag, n.value.0).value, n.value.1));
      }
    }
  }

  /** A field behind its tag. */
  method PutItem(dst: Bytes, x: Item) returns (dst2: Bytes)
    ensures dst2 == dst + EncodeItem(x)
  {
    var tag := EncodeVarint32(Tag(x));
    var first, second: Bytes := [], [];
    match x {
      case Comparator(name) => first := PutSlice(name);
      case CompactPointer(level, key) =>
        first := EncodeVarint64(level);
        second := PutSlice(key);
      case DeletedFile(level, n) =>
        first := EncodeVarint64(level);
        second := EncodeVarint64(n);
      case NewFile(level, f) =>
        first := EncodeVarint64(level);
        second := PutFile(f);
      case _ => first := EncodeVarint64(x.n);
    }
    assert Payload(x) == first + second;
    dst2 := dst + (tag + (first + second));
  }

  method PutFile(f: FileMetaData) returns (r: Bytes)
    ensures r == FileBytes(f)
  {
    var number := EncodeVarint64(f.number);
    var size := EncodeVarint64(f.fileSize);
    var smallest := PutSlice(f.smallest);
    var largest := PutSlice(f.largest);
    r := number + (size + (smallest + largest));
  }

  lemma Regroup(a: Bytes, b: Bytes, c: Bytes)
    ensures (a + b) + c == a + (b + c)
  {
  }

  lemma {:induction false} EncodeInTurn(enc: Item -> Bytes, xs: seq<Item>, ys: seq<Item>)
    ensures EncodeAll(enc, xs + ys) == EncodeAll(enc, xs) + EncodeAll(enc, ys)
    decreases xs
  {
    if xs == [] {
      assert xs + ys == ys;
    } else {
      EncodeInTurn(enc, xs[1..], ys);
      assert (xs + ys)[1..] == xs[1..] + ys;
      Regroup(enc(xs[0]), EncodeAll(enc, xs[1..]), EncodeAll(enc, ys));
    }
  }

  lemma EncodeNext(enc: Item -> Bytes, dst: Bytes, xs: seq<Item>, i: nat)
    requires i < |xs|
    ensures dst + EncodeAll(enc, xs[i..]) == dst + enc(xs[i]) + EncodeAll(enc, xs[i + 1..])
  {
    assert xs[i..][1..] == xs[i + 1..];
    Regroup(dst, enc(xs[i]), EncodeAll(enc, xs[i + 1..]));
  }

  /** The fields `xs`, behind what is there. */
  method PutItems(dst: Bytes, ghost done: seq<Item>, xs: seq<Item>) returns (dst2: Bytes)
    requires dst == EncodeItems(done)
    ensures dst2 == EncodeItems(done + xs)
  {
    dst2 := dst;
    EncodeInTurn(EncodeItem, done, xs);
    for i := 0 to |xs|
      invariant dst2 + EncodeItems(xs[i..]) == EncodeItems(done + xs)
    {
      EncodeNext(EncodeItem, dst2, xs, i);
      dst2 := PutItem(dst2, xs[i]);
    }
    assert EncodeItems(xs[|xs|..]) == [];
  }

  /** The scalar fields and the three lists, in this order. */
  method PutLists(head: seq<Item>, pointers: seq<Item>, deletions: seq<Item>, additions: seq<Item>) returns (dst: Bytes)
    ensures dst == EncodeItems(head + pointers + deletions + additions)
  {
    dst := PutItems([], [], head);
    assert [] + head == head;
    dst := PutItems(dst, head, pointers);
    dst := PutItems(dst, head + pointers, deletions);
    dst := PutItems(dst, head + pointers + deletions, additions);
  }

  class VersionEdit {
    var fields: Fields

    constructor ()
      ensures fields == Fields(None, None, None, None, None, [], [], [])
    {
      fields := Fields(None, None, None, None, None, [], [], []);
    }

    method EncodeTo() returns (dst: Bytes)
      ensures dst == EncodeItems(Items(fields))
    {
      dst := PutLists(Head(fields), Pointers(fields.compactPointers), Deletions(fields.deleted), Additions(fields.added));
    }

    method Clear()
      modifies this
      ensures fields == Cleared(old(fields))
    {
      fields := fields.(comparator := None, logNumber := None, prevLogNumber := None, nextFileNumber := None,
                        lastSequence := None, deleted := [], added := []);
    }

    method DecodeFrom(src: Bytes) returns (ok: bool)
      modifies this
      ensures ok == DecodeItems(src, 0, |src|, Cleared(old(fields))).Some?
      ensures ok ==> fields == DecodeItems(src, 0, |src|, Cleared(old(fields))).value
    {
      Clear();
      ghost var whole := DecodeItems(src, 0, |src|, fields);
      var p: nat := 0;
      var tag := GetVarint32Ptr(src, p, |src|);
      while tag.Some?
        invariant p <= |src| && whole == DecodeItems(src, p, |src|, fields)
        invariant tag.Some? <==> DecodeVarint(src, p, |src|, 5).Some?
        invariant tag.Some? ==> tag.value.1 == DecodeVarint(src, p, |src|, 5).value.1
                                && tag.value.0 == Low32(DecodeVarint(src, p, |src|, 5).value.0)
        decreases |src| - p
      {
        var x := GetPayload(tag.value.0, src, tag.value.1, |src|);
        if x == None {
          return false;
        }
        fields := Applied(fields, x.value.0);
        p := x.value.1;
        tag := GetVarint32Ptr(src, p, |src|);
      }
      // Anything left has no valid tag
      ok := p == |src|;
    }
  }

  /** A new edit reads what another one wrote. */
  method WriteAndRead(edit: VersionEdit) returns (copy: VersionEdit, ok: bool)
    requires FieldsOk(edit.fields)
    ensures fresh(copy) && ok && copy.fields == edit.fields
  {
    var dst := edit.EncodeTo();
    copy := new VersionEdit();
    RoundTrip(edit.fields, copy.fields);
    ok := copy.DecodeFrom(dst);
  }
}
