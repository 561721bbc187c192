/** Decoding an encoded message gives its present fields back, exactly when every present
    string has its terminator. */
module PbRoundTrips {
  import opened Keys
  import opened Varints
  import opened PbFields
  import opened PbFormat
  import opened PbScalars

  /** A message and its descriptor, as C and the generator make them. */
  ghost predicate Fit(d: Descriptor, m: Message) {
    && |m.slots| == |d.fields|
    && forall x {:trigger Asked(OfPart, x)} :: Asked(OfPart, x) ==> DescriptorOk(d) && MessageTyped(d, m)
  }

  lemma FitIs(d: Descriptor, m: Message)
    ensures Fit(d, m) <==> DescriptorOk(d) && MessageTyped(d, m)
  {
    assert Asked(OfPart, 0);
  }

  lemma FieldFit(d: Descriptor, m: Message, i: nat)
    requires Fit(d, m) && i < |d.fields|
    ensures TagsOk(d.fields) && 0 < d.fields[i].tag < 0x2000_0000 && FieldOk(d.fields[i]) && SlotTyped(d.fields[i], m.slots[i])
  {
    FitIs(d, m);
  }

  // ---- What is there after decoding ----

  /** Strings as C reads them, absent fields as the defaults. */
  function NormValue(f: Field, v: Value): Value
    decreases v, 0
  {
    if f.ltype.SubmessageType? && v.Msg? then Msg(NormMessage(f.ltype.sub, v.message))
    else if f.ltype.StringType? && v.Raw? then Raw(CString(f, v.bytes))
    else v
  }

  function NormSlot(f: Field, s: Slot): Slot
    decreases s, 1
  {
    match s
    case One(v) => One(NormValue(f, v))
    case Opt(has, v) => Opt(has, if has then NormValue(f, v) else DefaultValue(f))
    case Many(items) => Many(seq(|items|, j requires 0 <= j < |items| => NormValue(f, items[j])))
    case Choice(content) => Choice(if content.Some? then Some(NormValue(f, content.value)) else None)
  }

  function NormMessage(d: Descriptor, m: Message): Message
    decreases m, 2
  {
    if |m.slots| != |d.fields| then m
    else Message(seq(|d.fields|, i requires 0 <= i < |d.fields| => NormSlot(d.fields[i], m.slots[i])))
  }

  // ---- Terminated strings ----

  predicate ValueTerminated(f: Field, v: Value)
    decreases v, 0
  {
    && (f.ltype.StringType? && v.Raw? ==> StrLen(v.bytes, f.dataSize) < f.dataSize)
    && (f.ltype.SubmessageType? && v.Msg? ==> MessageTerminated(f.ltype.sub, v.message))
  }

  predicate SlotTerminated(f: Field, s: Slot)
    decreases s, 1
  {
    match s
    case One(v) => ValueTerminated(f, v)
    case Opt(has, v) => has ==> ValueTerminated(f, v)
    case Many(items) => forall j :: 0 <= j < |items| ==> ValueTerminated(f, items[j])
    case Choice(content) => content.Some? ==> ValueTerminated(f, content.value)
  }

  predicate MessageTerminated(d: Descriptor, m: Message)
    decreases m, 2
  {
    |m.slots| == |d.fields| ==> forall i :: 0 <= i < |d.fields| ==> SlotTerminated(d.fields[i], m.slots[i])
  }

  predicate TerminatedFrom(d: Descriptor, m: Message, i: nat)
    requires |m.slots| == |d.fields|
  {
    forall k :: i <= k < |d.fields| ==> SlotTerminated(d.fields[k], m.slots[k])
  }

  // ---- The struct while it is being filled ----

  /** The first `i` fields have come. */
  function Progress(d: Descriptor, m: Message, i: nat): (r: Message)
    requires |m.slots| == |d.fields| && i <= |d.fields|
    ensures |r.slots| == |d.fields|
    decreases i
  {
    if i == 0 then Defaults(d) else Message(Progress(d, m, i - 1).slots[i - 1 := NormSlot(d.fields[i - 1], m.slots[i - 1])])
  }

  lemma {:induction false} ProgressAt(d: Descriptor, m: Message, i: nat, j: nat)
    requires |m.slots| == |d.fields| && i <= |d.fields| && j < |d.fields|
    ensures Progress(d, m, i).slots[j] == if j < i then NormSlot(d.fields[j], m.slots[j]) else DefaultSlot(d.fields[j])
    decreases i
  {
    if i > 0 {
      ProgressAt(d, m, i - 1, j);
    }
  }

  /** The numbers of the required fields among the first `i`. */
  function SeenUpTo(d: Descriptor, i: nat): set<nat>
    requires i <= |d.fields|
  {
    Below(RequiredBefore(d.fields, i))
  }

  lemma ProgressEnds(d: Descriptor, m: Message)
    requires |m.slots| == |d.fields|
    ensures Progress(d, m, |d.fields|) == NormMessage(d, m) && RequiredSeen(d, SeenUpTo(d, |d.fields|))
  {
    forall j | 0 <= j < |d.fields|
      ensures Progress(d, m, |d.fields|).slots[j] == NormMessage(d, m).slots[j]
    {
      ProgressAt(d, m, |d.fields|, j);
    }
    assert Progress(d, m, |d.fields|).slots == NormMessage(d, m).slots;
  }

  /** A field that is not encoded is already as it should be. */
  lemma ProgressSkips(d: Descriptor, m: Message, i: nat)
    requires |m.slots| == |d.fields| && i < |d.fields| && !d.fields[i].htype.Required?
    requires NormSlot(d.fields[i], m.slots[i]) == DefaultSlot(d.fields[i])
    ensures Progress(d, m, i) == Progress(d, m, i + 1) && SeenUpTo(d, i) == SeenUpTo(d, i + 1)
  {
    ProgressAt(d, m, i, i);
    assert Progress(d, m, i).slots == Progress(d, m, i + 1).slots;
  }

  lemma {:induction false} RequiredGrows(fields: seq<Field>, i: nat, k: nat)
    requires i <= k <= |fields|
    ensures RequiredBefore(fields, i) <= RequiredBefore(fields, k)
    decreases k
  {
    if i < k {
      RequiredGrows(fields, i, k - 1);
    }
  }

  /** Storing a decoded field does not disturb its union: no sibling is set. */
  lemma ProgressStores(d: Descriptor, m: Message, i: nat)
    requires MessageTyped(d, m) && i < |d.fields| && m.slots[i] != Choice(None)
    ensures Stored(d, Progress(d, m, i), i, NormSlot(d.fields[i], m.slots[i])) == Progress(d, m, i + 1)
  {
    var a, b := Stored(d, Progress(d, m, i), i, NormSlot(d.fields[i], m.slots[i])), Progress(d, m, i + 1);
    forall j | 0 <= j < |d.fields|
      ensures a.slots[j] == b.slots[j]
    {
      ProgressAt(d, m, i, j);
      if j != i && Siblings(d.fields[i], d.fields[j]) {
        assert SlotTyped(d.fields[j], m.slots[j]);
        assert m.slots[j] == Choice(None);
      }
    }
    assert a.slots == b.slots;
  }

  lemma SeenNext(d: Descriptor, i: nat)
    requires DescriptorOk(d) && i < |d.fields|
    ensures AlsoSeen(d, i, SeenUpTo(d, i)) == SeenUpTo(d, i + 1)
  {
    RequiredGrows(d.fields, i, |d.fields|);
  }

  // ---- One field after the other ----

  /** Where the decoding loop stands. */
  datatype LoopState = LoopState(p: nat, m: Message, seen: set<nat>)

  ghost predicate Outcome(d: Descriptor, data: Bytes, limit: nat, s: LoopState, r: Option<Message>) {
    limit <= |data| && DecodeFields(d, data, s.p, limit, s.m, s.seen) == r
  }

  /** Decoding from `s` comes to what decoding from `t` comes to. */
  ghost predicate LeadsTo(d: Descriptor, data: Bytes, limit: nat, s: LoopState, t: LoopState) {
    forall r {:trigger Outcome(d, data, limit, t, r)} :: Outcome(d, data, limit, t, r) ==> Outcome(d, data, limit, s, r)
  }

  /** Decoding from `s` goes on at `t` if `ok`, and fails otherwise. */
  ghost predicate GoesOn(d: Descriptor, data: Bytes, limit: nat, s: LoopState, ok: bool, t: LoopState) {
    forall x {:trigger Asked(OfPart, x)} :: Asked(OfPart, x) ==> (ok ==> LeadsTo(d, data, limit, s, t)) && (!ok ==> Outcome(d, data, limit, s, None))
  }

  lemma GoesOnTwice(d: Descriptor, data: Bytes, limit: nat, s: LoopState, ok: bool, t: LoopState, ok2: bool, u: LoopState, both: bool)
    requires GoesOn(d, data, limit, s, ok, t) && GoesOn(d, data, limit, t, ok2, u) && both == (ok && ok2)
    ensures GoesOn(d, data, limit, s, both, u)
  {
    assert Asked(OfPart, 0);
    if ok && !ok2 {
      assert Outcome(d, data, limit, t, None);
    }
  }

  /** The step of the loop that meets field `i`. */
  lemma FieldStep(d: Descriptor, data: Bytes, limit: nat, s: LoopState, i: nat, wire: nat, next: nat, ok: bool, slot: Slot, t: LoopState)
    requires TagsOk(d.fields) && i < |d.fields| && |s.m.slots| == |d.fields| && s.p < limit <= |data|
    requires ReadTag(data, s.p, limit) == Tag(wire, d.fields[i].tag, next) && SlotReads(d.fields[i], wire, data, next, limit, s.m.slots[i], ok, slot, t.p)
    requires t.m == Stored(d, s.m, i, slot) && t.seen == AlsoSeen(d, i, s.seen)
    ensures GoesOn(d, data, limit, s, ok, t)
  {
    FieldIndexIs(d.fields, i);
  }

  // ---- One value ----

  /** Reading into a field's slot gives `slot` and ends at `next`, or fails. */
  ghost predicate SlotReads(f: Field, wire: nat, data: Bytes, p: nat, limit: nat, before: Slot, ok: bool, slot: Slot, next: nat) {
    limit <= |data| && DecodeSlot(f, wire, data, p, limit, before) == if ok then Some((slot, next)) else None
  }

  ghost predicate Reads(f: Field, data: Bytes, p: nat, limit: nat, r: Option<(Value, nat)>) {
    limit <= |data| && DecodeValue(f, data, p, limit, DefaultValue(f)) == r
  }

  lemma SubmessageReads(f: Field, data: Bytes, p: nat, limit: nat, start: nat, end: nat, r: Option<Message>)
    requires f.ltype.SubmessageType? && limit <= |data| && ReadLength(data, p, limit) == Some((start, end))
    requires Outcome(f.ltype.sub, data, end, LoopState(start, Defaults(f.ltype.sub), {}), r)
    ensures Reads(f, data, p, limit, if r == None then None else Some((Msg(r.value), end)))
  {
  }

  lemma ScalarReads(f: Field, v: Value, e: Bytes, data: Bytes, p: nat, limit: nat)
    requires f.ltype.Packable() && ValueTyped(f, v) && EncodeValue(f, v) == Some(e)
    requires LiesAt(e, data, p) && p + |e| <= limit <= |data|
    ensures Reads(f, data, p, limit, Some((v, p + |e|)))
  {
    ScalarBack(f, v, e, data, p, limit);
  }

  lemma RawReads(f: Field, v: Value, e: Bytes, data: Bytes, p: nat, limit: nat)
    requires !f.ltype.Packable() && !f.ltype.SubmessageType? && ValueTyped(f, v) && EncodeValue(f, v) == Some(e)
    requires LiesAt(e, data, p) && p + |e| <= limit <= |data| && |e| < 0x1_0000_0000
    ensures Reads(f, data, p, limit, if ValueTerminated(f, v) then Some((NormValue(f, v), p + |e|)) else None)
  {
    RawBack(f, if f.ltype.StringType? then CString(f, v.bytes) else v.bytes, data, p, limit);
  }

  lemma SubmessageSplit(f: Field, v: Value, e: Bytes) returns (inner: Bytes)
    requires f.ltype.SubmessageType? && v.Msg? && EncodeValue(f, v) == Some(e)
    ensures EncodeMessage(f.ltype.sub, v.message) == Some(inner) && e == WithLength(inner)
  {
    inner := EncodeMessage(f.ltype.sub, v.message).value;
  }

  lemma {:induction false} SubmessageBack(f: Field, v: Value, e: Bytes, data: Bytes, p: nat, limit: nat)
    requires f.ltype.SubmessageType? && FieldOk(f) && ValueTyped(f, v) && EncodeValue(f, v) == Some(e)
    requires LiesAt(e, data, p) && p + |e| <= limit <= |data| && |e| < 0x1_0000_0000
    ensures Reads(f, data, p, limit, if ValueTerminated(f, v) then Some((NormValue(f, v), p + |e|)) else None)
    decreases v, 0
  {
    var inner := SubmessageSplit(f, v, e);
    LengthBack(inner, data, p, limit);
    FitIs(f.ltype.sub, v.message);
    var start := p + |Varint(|inner|)|;
    assert start + |inner| == p + |e|;
    MessageBack(f.ltype.sub, v.message, inner, data, start);
    if MessageTerminated(f.ltype.sub, v.message) {
      SubmessageReads(f, data, p, limit, start, p + |e|, Some(NormMessage(f.ltype.sub, v.message)));
    } else {
      SubmessageReads(f, data, p, limit, start, p + |e|, None);
    }
  }

  /** A value comes back, read over the default, if its strings are terminated. */
  lemma {:induction false} ValueBack(f: Field, v: Value, e: Bytes, data: Bytes, p: nat, limit: nat)
    requires FieldOk(f) && ValueTyped(f, v) && EncodeValue(f, v) == Some(e)
    requires LiesAt(e, data, p) && p + |e| <= limit <= |data| && |e| < 0x1_0000_0000
    ensures Reads(f, data, p, limit, if ValueTerminated(f, v) then Some((NormValue(f, v), p + |e|)) else None)
    decreases v, 1
  {
    if f.ltype.Packable() {
      ScalarReads(f, v, e, data, p, limit);
    } else if f.ltype.SubmessageType? {
      SubmessageBack(f, v, e, data, p, limit);
    } else {
      RawReads(f, v, e, data, p, limit);
    }
  }

  lemma TaggedSplit(f: Field, v: Value, e: Bytes, data: Bytes, p: nat, limit: nat) returns (next: nat, value: Bytes)
    requires 0 < f.tag < 0x2000_0000 && EncodeTagged(f, v) == Some(e) && LiesAt(e, data, p) && p + |e| <= limit <= |data|
    ensures p < limit && ReadTag(data, p, limit) == Tag(WireType(f.ltype), f.tag, next)
    ensures EncodeValue(f, v) == Some(value) && LiesAt(value, data, next) && p < next && next + |value| == p + |e|
  {
    var tag := EncodeTag(WireType(f.ltype), f.tag);
    next, value := p + |tag|, EncodeValue(f, v).value;
    LiesBoth(tag, value, data, p);
    TagBack(WireType(f.ltype), f.tag, data, p, limit);
  }

  lemma {:induction false} TaggedBack(f: Field, v: Value, e: Bytes, data: Bytes, p: nat, limit: nat) returns (next: nat)
    requires FieldOk(f) && 0 < f.tag < 0x2000_0000 && ValueTyped(f, v) && EncodeTagged(f, v) == Some(e)
    requires LiesAt(e, data, p) && p + |e| <= limit <= |data| && |e| < 0x1_0000_0000
    ensures p < limit && ReadTag(data, p, limit) == Tag(WireType(f.ltype), f.tag, next)
    ensures Reads(f, data, next, limit, if ValueTerminated(f, v) then Some((NormValue(f, v), p + |e|)) else None)
    decreases v, 2
  {
    var value;
    next, value := TaggedSplit(f, v, e, data, p, limit);
    ValueBack(f, v, value, data, next, limit);
  }

  // ---- One field ----

  ghost predicate Present(s: Slot, v: Value) {
    s == One(v) || s == Opt(true, v) || s == Choice(Some(v))
  }

  /** Reading a value into a field that has not come yet. */
  lemma PresentReads(f: Field, s: Slot, v: Value, wire: nat, data: Bytes, p: nat, limit: nat, ok: bool, next: nat)
    requires SlotTyped(f, s) && Present(s, v) && Reads(f, data, p, limit, if ok then Some((NormValue(f, v), next)) else None)
    ensures SlotReads(f, wire, data, p, limit, DefaultSlot(f), ok, NormSlot(f, s), next)
  {
  }

  /** The loop when the first `i` fields have come. */
  ghost function At(d: Descriptor, m: Message, i: nat, p: nat): (s: LoopState)
    requires |m.slots| == |d.fields| && i <= |d.fields|
  {
    LoopState(p, Progress(d, m, i), SeenUpTo(d, i))
  }

  /** A field present once. */
  lemma {:induction false} PresentBack(d: Descriptor, m: Message, i: nat, v: Value, e: Bytes, data: Bytes, p: nat, limit: nat)
    requires Fit(d, m) && i < |d.fields| && EncodeTagged(d.fields[i], v) == Some(e)
    requires Present(m.slots[i], v) && LiesAt(e, data, p) && p + |e| <= limit <= |data| && |e| < 0x1_0000_0000
    ensures GoesOn(d, data, limit, At(d, m, i, p), ValueTerminated(d.fields[i], v), At(d, m, i + 1, p + |e|))
    decreases m, 0
  {
    var f, ok := d.fields[i], ValueTerminated(d.fields[i], v);
    FieldFit(d, m, i);
    var next := TaggedBack(f, v, e, data, p, limit);
    PresentReads(f, m.slots[i], v, WireType(f.ltype), data, next, limit, ok, p + |e|);
    NextField(d, m, i, WireType(f.ltype), data, p, limit, next, ok, p + |e|);
  }

  /** Once its slot is read, the loop is at the next field. */
  lemma NextField(d: Descriptor, m: Message, i: nat, wire: nat, data: Bytes, p: nat, limit: nat, next: nat, ok: bool, end: nat)
    requires Fit(d, m) && i < |d.fields| && m.slots[i] != Choice(None) && p < limit <= |data|
    requires ReadTag(data, p, limit) == Tag(wire, d.fields[i].tag, next)
    requires SlotReads(d.fields[i], wire, data, next, limit, DefaultSlot(d.fields[i]), ok, NormSlot(d.fields[i], m.slots[i]), end)
    ensures GoesOn(d, data, limit, At(d, m, i, p), ok, At(d, m, i + 1, end))
  {
    FitIs(d, m);
    ProgressStores(d, m, i);
    ProgressAt(d, m, i, i);
    SeenNext(d, i);
    FieldStep(d, data, limit, At(d, m, i, p), i, wire, next, ok, NormSlot(d.fields[i], m.slots[i]), At(d, m, i + 1, end));
  }

  lemma AbsentBack(d: Descriptor, m: Message, i: nat, data: Bytes, p: nat, limit: nat)
    requires |m.slots| == |d.fields| && i < |d.fields| && !d.fields[i].htype.Required?
    requires NormSlot(d.fields[i], m.slots[i]) == DefaultSlot(d.fields[i])
    ensures GoesOn(d, data, limit, At(d, m, i, p), true, At(d, m, i + 1, p))
  {
    ProgressSkips(d, m, i);
  }

  lemma {:induction false} SlotBack(d: Descriptor, m: Message, i: nat, e: Bytes, data: Bytes, p: nat, limit: nat)
    requires Fit(d, m) && i < |d.fields| && EncodeSlot(d.fields[i], m.slots[i]) == Some(e)
    requires LiesAt(e, data, p) && p + |e| <= limit <= |data| && |e| < 0x1_0000_0000
    ensures GoesOn(d, data, limit, At(d, m, i, p), SlotTerminated(d.fields[i], m.slots[i]), At(d, m, i + 1, p + |e|))
    decreases m, 3
  {
    FieldFit(d, m, i);
    match m.slots[i] {
      case One(v) => PresentBack(d, m, i, v, e, data, p, limit);
      case Opt(has, v) =>
        if has {
          PresentBack(d, m, i, v, e, data, p, limit);
        } else {
          AbsentBack(d, m, i, data, p, limit);
        }
      case Choice(content) =>
        if content.Some? {
          PresentBack(d, m, i, content.value, e, data, p, limit);
        } else {
          AbsentBack(d, m, i, data, p, limit);
        }
      case Many(items) =>
        if items == [] {
          AbsentBack(d, m, i, data, p, limit);
        } else if d.fields[i].ltype.Packable() {
          PackedBack(d, m, i, e, data, p, limit);
        } else {
          UnpackedBack(d, m, i, e, data, p, limit);
        }
    }
  }

  // ---- Repeated fields ----

  /** The struct when the first `j` items of field `i` have come, too. */
  function ItemsProgress(d: Descriptor, m: Message, i: nat, j: nat): (r: Message)
    requires |m.slots| == |d.fields| && i < |d.fields| && m.slots[i].Many? && j <= |m.slots[i].items|
    ensures |r.slots| == |d.fields|
  {
    Message(Progress(d, m, i).slots[i := NormSlot(d.fields[i], Many(m.slots[i].items[..j]))])
  }

  predicate ItemsTerminated(f: Field, items: seq<Value>, j: nat) {
    forall k :: j <= k < |items| ==> ValueTerminated(f, items[k])
  }

  lemma ItemsProgressEnds(d: Descriptor, m: Message, i: nat)
    requires MessageTyped(d, m) && i < |d.fields| && m.slots[i].Many?
    ensures ItemsProgress(d, m, i, 0) == Progress(d, m, i)
    ensures ItemsProgress(d, m, i, |m.slots[i].items|) == Progress(d, m, i + 1) && SeenUpTo(d, i) == SeenUpTo(d, i + 1)
  {
    assert SlotTyped(d.fields[i], m.slots[i]);
    assert m.slots[i].items[..|m.slots[i].items|] == m.slots[i].items;
    assert NormSlot(d.fields[i], Many([])) == Many([]) by {
      assert NormSlot(d.fields[i], Many([])).items == [];
    }
    assert m.slots[i].items[..0] == [];
    ProgressAt(d, m, i, i);
    assert ItemsProgress(d, m, i, 0).slots == Progress(d, m, i).slots;
    assert ItemsProgress(d, m, i, |m.slots[i].items|).slots == Progress(d, m, i + 1).slots;
  }

  lemma ItemsProgressStores(d: Descriptor, m: Message, i: nat, j: nat)
    requires MessageTyped(d, m) && i < |d.fields| && m.slots[i].Many? && j < |m.slots[i].items|
    ensures ItemsProgress(d, m, i, j).slots[i].Many? && |ItemsProgress(d, m, i, j).slots[i].items| == j
    ensures ItemsProgress(d, m, i, j + 1)
            == Stored(d, ItemsProgress(d, m, i, j), i,
                      Many(ItemsProgress(d, m, i, j).slots[i].items + [NormValue(d.fields[i], m.slots[i].items[j])]))
  {
    assert SlotTyped(d.fields[i], m.slots[i]);
    var a, b := ItemsProgress(d, m, i, j), ItemsProgress(d, m, i, j + 1);
    assert b.slots[i].items == a.slots[i].items + [NormValue(d.fields[i], m.slots[i].items[j])];
    assert b.slots == Stored(d, a, i, b.slots[i]).slots;
  }

  ghost function AtItem(d: Descriptor, m: Message, i: nat, j: nat, p: nat): LoopState
    requires |m.slots| == |d.fields| && i < |d.fields| && m.slots[i].Many? && j <= |m.slots[i].items|
  {
    LoopState(p, ItemsProgress(d, m, i, j), SeenUpTo(d, i))
  }

  /** Reading one more item. */
  lemma ItemReads(f: Field, items: seq<Value>, v: Value, wire: nat, data: Bytes, p: nat, limit: nat, ok: bool, next: nat)
    requires f.htype.Repeated? && !f.ltype.Packable() && |items| < f.arraySize
    requires Reads(f, data, p, limit, if ok then Some((NormValue(f, v), next)) else None)
    ensures SlotReads(f, wire, data, p, limit, Many(items), ok, Many(items + [NormValue(f, v)]), next)
  {
  }

  lemma NoneSeen(d: Descriptor, i: nat)
    requires i < |d.fields| && d.fields[i].htype.Repeated?
    ensures AlsoSeen(d, i, SeenUpTo(d, i)) == SeenUpTo(d, i)
  {
  }

  lemma {:induction false} ItemBack(d: Descriptor, m: Message, i: nat, j: nat, e: Bytes, data: Bytes, p: nat, limit: nat)
    requires Fit(d, m) && i < |d.fields| && m.slots[i].Many? && j < |m.slots[i].items|
    requires !d.fields[i].ltype.Packable() && EncodeTagged(d.fields[i], m.slots[i].items[j]) == Some(e)
    requires LiesAt(e, data, p) && p + |e| <= limit <= |data| && |e| < 0x1_0000_0000
    ensures GoesOn(d, data, limit, AtItem(d, m, i, j, p), ValueTerminated(d.fields[i], m.slots[i].items[j]), AtItem(d, m, i, j + 1, p + |e|))
    decreases m, 0
  {
    var f, v := d.fields[i], m.slots[i].items[j];
    var ok := ValueTerminated(f, v);
    FieldFit(d, m, i);
    FitIs(d, m);
    assert v in m.slots[i].items;
    var next := TaggedBack(f, v, e, data, p, limit);
    ItemsProgressStores(d, m, i, j);
    var items := ItemsProgress(d, m, i, j).slots[i].items;
    ItemReads(f, items, v, WireType(f.ltype), data, next, limit, ok, p + |e|);
    NoneSeen(d, i);
    FieldStep(d, data, limit, AtItem(d, m, i, j, p), i, WireType(f.ltype), next, ok, Many(items + [NormValue(f, v)]),
              AtItem(d, m, i, j + 1, p + |e|));
  }

  lemma ItemsSplit(f: Field, s: Slot, packed: bool, j: nat, e: Bytes) returns (first: Bytes, rest: Bytes)
    requires s.Many? && j < |s.items| && EncodeItems(f, s, packed, j) == Some(e)
    ensures (if packed then EncodeValue(f, s.items[j]) else EncodeTagged(f, s.items[j])) == Some(first)
    ensures EncodeItems(f, s, packed, j + 1) == Some(rest) && e == first + rest
  {
    first := (if packed then EncodeValue(f, s.items[j]) else EncodeTagged(f, s.items[j])).value;
    rest := EncodeItems(f, s, packed, j + 1).value;
  }

  ghost predicate IsAtItem(d: Descriptor, m: Message, i: nat, j: nat, p: nat, s: LoopState) {
    forall x {:trigger Asked(OfPart, x)} :: Asked(OfPart, x) ==>
      |m.slots| == |d.fields| && i < |d.fields| && m.slots[i].Many? && j <= |m.slots[i].items| && s == AtItem(d, m, i, j, p)
  }

  lemma {:induction false} ItemStep(d: Descriptor, m: Message, i: nat, j: nat, e: Bytes, data: Bytes, p: nat, limit: nat, s: LoopState)
    returns (t: LoopState)
    requires Fit(d, m) && i < |d.fields| && m.slots[i].Many? && j < |m.slots[i].items| && IsAtItem(d, m, i, j, p, s)
    requires !d.fields[i].ltype.Packable() && EncodeTagged(d.fields[i], m.slots[i].items[j]) == Some(e)
    requires LiesAt(e, data, p) && p + |e| <= limit <= |data| && |e| < 0x1_0000_0000
    ensures GoesOn(d, data, limit, s, ValueTerminated(d.fields[i], m.slots[i].items[j]), t) && IsAtItem(d, m, i, j + 1, p + |e|, t)
    decreases m, 1, 0
  {
    ItemBack(d, m, i, j, e, data, p, limit);
    t := AtItem(d, m, i, j + 1, p + |e|);
    assert Asked(OfPart, 0);
  }

  /** Items that come one by one, each behind its tag. */
  lemma {:induction false} ItemsBack(d: Descriptor, m: Message, i: nat, j: nat, e: Bytes, data: Bytes, p: nat, limit: nat, s: LoopState)
    returns (t: LoopState)
    requires Fit(d, m) && i < |d.fields| && m.slots[i].Many? && j <= |m.slots[i].items| && IsAtItem(d, m, i, j, p, s)
    requires !d.fields[i].ltype.Packable() && EncodeItems(d.fields[i], m.slots[i], false, j) == Some(e)
    requires LiesAt(e, data, p) && p + |e| <= limit <= |data| && |e| < 0x1_0000_0000
    ensures GoesOn(d, data, limit, s, ItemsTerminated(d.fields[i], m.slots[i].items, j), t)
    ensures IsAtItem(d, m, i, |m.slots[i].items|, p + |e|, t)
    decreases m, 1, |m.slots[i].items| - j, 1
  {
    if j == |m.slots[i].items| {
      t := s;
    } else {
      var first, rest := ItemsSplit(d.fields[i], m.slots[i], false, j, e);
      LiesBoth(first, rest, data, p);
      assert p + |first| + |rest| == p + |e|;
      var mid := ItemStep(d, m, i, j, first, data, p, limit, s);
      t := ItemsBack(d, m, i, j + 1, rest, data, p + |first|, limit, mid);
      GoesOnTwice(d, data, limit, s, ValueTerminated(d.fields[i], m.slots[i].items[j]), mid,
                  ItemsTerminated(d.fields[i], m.slots[i].items, j + 1), t, ItemsTerminated(d.fields[i], m.slots[i].items, j));
    }
  }

  lemma {:induction false} UnpackedBack(d: Descriptor, m: Message, i: nat, e: Bytes, data: Bytes, p: nat, limit: nat)
    requires Fit(d, m) && i < |d.fields| && m.slots[i].Many?
    requires !d.fields[i].ltype.Packable() && EncodeItems(d.fields[i], m.slots[i], false, 0) == Some(e)
    requires LiesAt(e, data, p) && p + |e| <= limit <= |data| && |e| < 0x1_0000_0000
    ensures GoesOn(d, data, limit, At(d, m, i, p), SlotTerminated(d.fields[i], m.slots[i]), At(d, m, i + 1, p + |e|))
    decreases m, 2
  {
    var t := ItemsBack(d, m, i, 0, e, data, p, limit, AtItem(d, m, i, 0, p));
    assert Asked(OfPart, 0);
    ItemsProgressEnds(d, m, i);
  }

  ghost predicate Unpacks(f: Field, data: Bytes, p: nat, limit: nat, items: seq<Value>, all: seq<Value>) {
    forall x {:trigger Asked(OfPart, x)} :: Asked(OfPart, x) ==>
      limit <= |data| && f.ltype.Packable() && DecodePacked(f, data, p, limit, items) == Some(all)
  }

  lemma PackedStep(f: Field, data: Bytes, p: nat, limit: nat, items: seq<Value>, v: Value, next: nat, all: seq<Value>)
    requires f.ltype.Packable() && p < limit <= |data| && |items| < f.arraySize && DecodeScalar(f, data, p, limit) == Some((v, next))
    requires Unpacks(f, data, next, limit, items + [v], all)
    ensures Unpacks(f, data, p, limit, items, all)
  {
    assert Asked(OfPart, 0);
  }

  lemma PackedItem(f: Field, s: Slot, j: nat, e: Bytes, data: Bytes, p: nat, limit: nat)
    requires f.ltype.Packable() && s.Many? && j < |s.items| <= f.arraySize && ValueTyped(f, s.items[j])
    requires EncodeValue(f, s.items[j]) == Some(e) && LiesAt(e, data, p) && p < p + |e| <= limit <= |data|
    requires Unpacks(f, data, p + |e|, limit, s.items[..j + 1], s.items)
    ensures Unpacks(f, data, p, limit, s.items[..j], s.items)
  {
    ScalarBack(f, s.items[j], e, data, p, limit);
    assert s.items[..j] + [s.items[j]] == s.items[..j + 1];
    PackedStep(f, data, p, limit, s.items[..j], s.items[j], p + |e|, s.items);
  }

  lemma NotEmpty(f: Field, v: Value, e: Bytes)
    requires EncodeValue(f, v) == Some(e)
    ensures |e| > 0
  {
  }

  /** The items of a packed array. */
  lemma {:induction false} PackedItemsBack(f: Field, s: Slot, j: nat, e: Bytes, data: Bytes, p: nat)
    requires f.ltype.Packable() && s.Many? && |s.items| <= f.arraySize && (forall v :: v in s.items ==> ValueTyped(f, v))
    requires j <= |s.items| && EncodeItems(f, s, true, j) == Some(e) && LiesAt(e, data, p)
    ensures Unpacks(f, data, p, p + |e|, s.items[..j], s.items)
    decreases |s.items| - j
  {
    if j == |s.items| {
      assert s.items[..j] == s.items;
    } else {
      var first, rest := ItemsSplit(f, s, true, j, e);
      LiesBoth(first, rest, data, p);
      assert p + |first| + |rest| == p + |e|;
      PackedItemsBack(f, s, j + 1, rest, data, p + |first|);
      NotEmpty(f, s.items[j], first);
      PackedItem(f, s, j, first, data, p, p + |e|);
    }
  }

  lemma PackedReads(f: Field, inner: Bytes, data: Bytes, p: nat, limit: nat, items: seq<Value>)
    requires f.ltype.Packable() && f.htype.Repeated? && LiesAt(WithLength(inner), data, p)
    requires p + |WithLength(inner)| <= limit <= |data| && |inner| < 0x1_0000_0000
    requires Unpacks(f, data, p + |Varint(|inner|)|, p + |WithLength(inner)|, [], items)
    ensures SlotReads(f, WT_STRING, data, p, limit, Many([]), true, Many(items), p + |WithLength(inner)|)
  {
    LengthBack(inner, data, p, limit);
    UnpacksIs(f, data, p + |Varint(|inner|)|, p + |WithLength(inner)|, [], items);
  }

  lemma UnpacksIs(f: Field, data: Bytes, p: nat, limit: nat, items: seq<Value>, all: seq<Value>)
    requires Unpacks(f, data, p, limit, items, all)
    ensures limit <= |data| && f.ltype.Packable() && DecodePacked(f, data, p, limit, items) == Some(all)
  {
    assert Asked(OfPart, 0);
  }

  /** Numbers have no strings to terminate. */
  lemma ScalarsAreNorm(f: Field, items: seq<Value>)
    requires f.ltype.Packable()
    ensures NormSlot(f, Many(items)) == Many(items) && SlotTerminated(f, Many(items))
  {
    assert NormSlot(f, Many(items)).items == items;
  }

  lemma PackedSplit(f: Field, s: Slot, e: Bytes, data: Bytes, p: nat, limit: nat) returns (next: nat, inner: Bytes)
    requires f.ltype.Packable() && s.Many? && s.items != [] && EncodeArray(f, s) == Some(e) && 0 < f.tag < 0x2000_0000
    requires LiesAt(e, data, p) && p + |e| <= limit <= |data|
    ensures p < limit && ReadTag(data, p, limit) == Tag(WT_STRING, f.tag, next)
    ensures EncodeItems(f, s, true, 0) == Some(inner) && LiesAt(WithLength(inner), data, next)
    ensures |inner| <= |e| && next + |WithLength(inner)| == p + |e|
  {
    inner := EncodeItems(f, s, true, 0).value;
    var tag := EncodeTag(WT_STRING, f.tag);
    next := p + |tag|;
    LiesBoth(tag, WithLength(inner), data, p);
    TagBack(WT_STRING, f.tag, data, p, limit);
  }

  lemma PackedSlotReads(f: Field, s: Slot, inner: Bytes, data: Bytes, p: nat, limit: nat, end: nat)
    requires f.ltype.Packable() && f.htype.Repeated? && SlotTyped(f, s) && EncodeItems(f, s, true, 0) == Some(inner)
    requires LiesAt(WithLength(inner), data, p) && p + |WithLength(inner)| == end <= limit <= |data| && |inner| < 0x1_0000_0000
    ensures SlotReads(f, WT_STRING, data, p, limit, Many([]), true, s, end)
  {
    LiesBoth(Varint(|inner|), inner, data, p);
    assert s.items[..0] == [] && p + |Varint(|inner|)| + |inner| == end;
    PackedItemsBack(f, s, 0, inner, data, p + |Varint(|inner|)|);
    PackedReads(f, inner, data, p, limit, s.items);
  }

  lemma {:induction false} PackedBack(d: Descriptor, m: Message, i: nat, e: Bytes, data: Bytes, p: nat, limit: nat)
    requires Fit(d, m) && i < |d.fields| && m.slots[i].Many? && m.slots[i].items != []
    requires d.fields[i].ltype.Packable() && EncodeArray(d.fields[i], m.slots[i]) == Some(e)
    requires LiesAt(e, data, p) && p + |e| <= limit <= |data| && |e| < 0x1_0000_0000
    ensures GoesOn(d, data, limit, At(d, m, i, p), true, At(d, m, i + 1, p + |e|)) && SlotTerminated(d.fields[i], m.slots[i])
  {
    FieldFit(d, m, i);
    var next, inner := PackedSplit(d.fields[i], m.slots[i], e, data, p, limit);
    PackedSlotReads(d.fields[i], m.slots[i], inner, data, next, limit, p + |e|);
    ScalarsAreNorm(d.fields[i], m.slots[i].items);
    NextField(d, m, i, WT_STRING, data, p, limit, next, true, p + |e|);
  }

  // ---- Whole messages ----

  lemma FieldsSplit(d: Descriptor, m: Message, i: nat, e: Bytes) returns (first: Bytes, rest: Bytes)
    requires |m.slots| == |d.fields| && i < |d.fields| && EncodeFrom(d, m, i) == Some(e)
    ensures EncodeSlot(d.fields[i], m.slots[i]) == Some(first) && EncodeFrom(d, m, i + 1) == Some(rest) && e == first + rest
    ensures TerminatedFrom(d, m, i) == (SlotTerminated(d.fields[i], m.slots[i]) && TerminatedFrom(d, m, i + 1))
  {
    first, rest := EncodeSlot(d.fields[i], m.slots[i]).value, EncodeFrom(d, m, i + 1).value;
  }

  ghost predicate IsAt(d: Descriptor, m: Message, i: nat, p: nat, s: LoopState) {
    forall x {:trigger Asked(OfPart, x)} :: Asked(OfPart, x) ==> |m.slots| == |d.fields| && i <= |d.fields| && s == At(d, m, i, p)
  }

  lemma {:induction false} SlotStep(d: Descriptor, m: Message, i: nat, e: Bytes, data: Bytes, p: nat, limit: nat, s: LoopState)
    returns (t: LoopState)
    requires Fit(d, m) && i < |d.fields| && EncodeSlot(d.fields[i], m.slots[i]) == Some(e) && IsAt(d, m, i, p, s)
    requires LiesAt(e, data, p) && p + |e| <= limit <= |data| && |e| < 0x1_0000_0000
    ensures GoesOn(d, data, limit, s, SlotTerminated(d.fields[i], m.slots[i]), t) && IsAt(d, m, i + 1, p + |e|, t)
    decreases m, 4
  {
    SlotBack(d, m, i, e, data, p, limit);
    t := At(d, m, i + 1, p + |e|);
    assert Asked(OfPart, 0);
  }

  lemma {:induction false} FieldsBack(d: Descriptor, m: Message, i: nat, e: Bytes, data: Bytes, p: nat, limit: nat, s: LoopState)
    returns (t: LoopState)
    requires Fit(d, m) && i <= |d.fields| && EncodeFrom(d, m, i) == Some(e) && IsAt(d, m, i, p, s)
    requires LiesAt(e, data, p) && p + |e| <= limit <= |data| && |e| < 0x1_0000_0000
    ensures GoesOn(d, data, limit, s, TerminatedFrom(d, m, i), t) && IsAt(d, m, |d.fields|, p + |e|, t)
    decreases m, 5, |d.fields| - i
  {
    if i == |d.fields| {
      t := s;
    } else {
      var first, rest := FieldsSplit(d, m, i, e);
      LiesBoth(first, rest, data, p);
      assert p + |first| + |rest| == p + |e|;
      var mid := SlotStep(d, m, i, first, data, p, limit, s);
      t := FieldsBack(d, m, i + 1, rest, data, p + |first|, limit, mid);
      GoesOnTwice(d, data, limit, s, SlotTerminated(d.fields[i], m.slots[i]), mid, TerminatedFrom(d, m, i + 1), t, TerminatedFrom(d, m, i));
    }
  }

  lemma AtStart(d: Descriptor, m: Message, p: nat)
    requires |m.slots| == |d.fields|
    ensures IsAt(d, m, 0, p, LoopState(p, Defaults(d), {}))
  {
  }

  lemma AtEnd(d: Descriptor, m: Message, data: Bytes, limit: nat, t: LoopState)
    requires |m.slots| == |d.fields| && limit <= |data| && IsAt(d, m, |d.fields|, limit, t)
    ensures Outcome(d, data, limit, t, Some(NormMessage(d, m)))
  {
    assert Asked(OfPart, 0);
    ProgressEnds(d, m);
  }

  lemma Concluded(d: Descriptor, data: Bytes, limit: nat, s: LoopState, ok: bool, t: LoopState, r: Message)
    requires GoesOn(d, data, limit, s, ok, t) && Outcome(d, data, limit, t, Some(r))
    ensures Outcome(d, data, limit, s, if ok then Some(r) else None)
  {
    assert Asked(OfPart, 0);
  }

  lemma {:induction false} MessageBack(d: Descriptor, m: Message, e: Bytes, data: Bytes, p: nat)
    requires Fit(d, m) && EncodeMessage(d, m) == Some(e) && LiesAt(e, data, p) && |e| < 0x1_0000_0000
    ensures Outcome(d, data, p + |e|, LoopState(p, Defaults(d), {}), if MessageTerminated(d, m) then Some(NormMessage(d, m)) else None)
    decreases m, 6
  {
    var s := LoopState(p, Defaults(d), {});
    AtStart(d, m, p);
    var t := FieldsBack(d, m, 0, e, data, p, p + |e|, s);
    AtEnd(d, m, data, p + |e|, t);
    assert TerminatedFrom(d, m, 0) == MessageTerminated(d, m);
    Concluded(d, data, p + |e|, s, MessageTerminated(d, m), t, NormMessage(d, m));
  }

  // ---- The round trip ----

  /** What C's types allow can be encoded. */
  lemma {:induction false} ValueEncodes(f: Field, v: Value)
    requires FieldOk(f) && ValueTyped(f, v)
    ensures EncodeValue(f, v).Some?
    decreases v, 0
  {
    if f.ltype.SubmessageType? {
      MessageEncodes(f.ltype.sub, v.message);
    }
  }

  lemma {:induction false} ItemsEncode(f: Field, s: Slot, packed: bool, j: nat)
    requires FieldOk(f) && s.Many? && j <= |s.items| && forall v :: v in s.items ==> ValueTyped(f, v)
    ensures EncodeItems(f, s, packed, j).Some?
    decreases s, 0, |s.items| - j
  {
    if j < |s.items| {
      ValueEncodes(f, s.items[j]);
      ItemsEncode(f, s, packed, j + 1);
    }
  }

  lemma {:induction false} SlotEncodes(f: Field, s: Slot)
    requires FieldOk(f) && SlotTyped(f, s)
    ensures EncodeSlot(f, s).Some?
    decreases s, 1
  {
    match s {
      case One(v) => ValueEncodes(f, v);
      case Opt(has, v) => if has { ValueEncodes(f, v); }
      case Many(_) => ItemsEncode(f, s, f.ltype.Packable(), 0);
      case Choice(content) => if content.Some? { ValueEncodes(f, content.value); }
    }
  }

  lemma {:induction false} FieldsEncode(d: Descriptor, m: Message, i: nat)
    requires DescriptorOk(d) && MessageTyped(d, m) && i <= |d.fields|
    ensures EncodeFrom(d, m, i).Some?
    decreases m, 0, |d.fields| - i
  {
    if i < |d.fields| {
      SlotEncodes(d.fields[i], m.slots[i]);
      FieldsEncode(d, m, i + 1);
    }
  }

  lemma {:induction false} MessageEncodes(d: Descriptor, m: Message)
    requires DescriptorOk(d) && MessageTyped(d, m)
    ensures EncodeMessage(d, m).Some?
    decreases m, 1
  {
    FieldsEncode(d, m, 0);
  }

  /** Every message of a well-formed type encodes, and decoding gives its present fields
      back if and only if each of its strings has room for its terminator. */
  lemma RoundTrip(d: Descriptor, m: Message)
    requires DescriptorOk(d) && MessageTyped(d, m)
    ensures EncodeMessage(d, m).Some?
    ensures var e := EncodeMessage(d, m).value;
            |e| < 0x1_0000_0000 ==> DecodeMessage(d, e, 0, |e|) == if MessageTerminated(d, m) then Some(NormMessage(d, m)) else None
  {
    MessageEncodes(d, m);
    var e := EncodeMessage(d, m).value;
    if |e| < 0x1_0000_0000 {
      FitIs(d, m);
      assert e[0..0 + |e|] == e;
      MessageBack(d, m, e, e, 0);
    }
  }

  /** A type with one required string of one character, terminator included. */
  function OneLetter(): Descriptor {
    Descriptor([Field(1, Required, StringType, 1, 0, Raw([]))])
  }

  /** The failing family is not empty: a buffer that is full, so that the string in it has
      no terminator, encodes, and its encoding is refused. */
  lemma UnterminatedStringIsRefused(m: Message)
    requires m == Message([One(Raw([65]))])
    ensures DescriptorOk(OneLetter()) && MessageTyped(OneLetter(), m) && EncodeMessage(OneLetter(), m).Some?
    ensures var e := EncodeMessage(OneLetter(), m).value; DecodeMessage(OneLetter(), e, 0, |e|) == None
  {
    var d := OneLetter();
    assert RequiredBefore(d.fields, 1) == 1;
    assert SlotTyped(d.fields[0], m.slots[0]);
    assert MessageTyped(d, m) && DescriptorOk(d);
    RoundTrip(d, m);
    assert !SlotTerminated(d.fields[0], m.slots[0]);
    var e := EncodeMessage(d, m).value;
    SmallEncoding(d, m);
  }

  lemma SmallEncoding(d: Descriptor, m: Message)
    requires d == OneLetter() && m == Message([One(Raw([65]))]) && EncodeMessage(d, m).Some?
    ensures |EncodeMessage(d, m).value| < 0x1_0000_0000
  {
  }
}
