/** Whatever bytes are accepted, what they decode to is a value of the struct's type: numbers
    within their widths, arrays and strings within their room, every string with its
    terminator, one member of each union. So it can be encoded again. */
module PbTyped {
  import opened Keys
  import opened Coding
  import opened Varints
  import opened PbFields
  import opened PbFormat
  import opened PbScalars
  import opened PbRoundTrips

  // ---- Typed, terminated, and default where nothing has come ----

  ghost predicate ValueReady(f: Field, v: Value)
    decreases v, 0
  {
    if f.ltype.SubmessageType? then v.Msg? && MessageReady(f.ltype.sub, v.message)
    else ValueTyped(f, v) && (f.ltype.StringType? ==> |v.bytes| < f.dataSize)
  }

  ghost predicate SlotReady(f: Field, s: Slot)
    decreases s, 1
  {
    match f.htype
    case Required => s.One? && ValueReady(f, s.value)
    case Optional => s.Opt? && if s.has then ValueReady(f, s.value) else s.value == DefaultValue(f)
    case Repeated => s.Many? && |s.items| <= f.arraySize && forall v :: v in s.items ==> ValueReady(f, v)
    case OneOf(_) => s.Choice? && (s.content.Some? ==> ValueReady(f, s.content.value))
  }

  ghost predicate MessageReady(d: Descriptor, m: Message)
    decreases m, 2
  {
    && |m.slots| == |d.fields| && OneOfEach(d, m)
    && forall i :: 0 <= i < |d.fields| ==> SlotReady(d.fields[i], m.slots[i])
  }

  /** The defaults that the generator gives are of the fields' types. */
  ghost predicate DefaultsOk(d: Descriptor) {
    forall i :: 0 <= i < |d.fields| ==> FieldDefaultOk(d.fields[i])
  }

  ghost predicate FieldDefaultOk(f: Field) {
    if f.ltype.SubmessageType? then DefaultsOk(f.ltype.sub) else f.htype.Required? ==> ValueReady(f, f.default)
  }

  lemma {:induction false} DefaultsAreReady(d: Descriptor)
    requires DefaultsOk(d)
    ensures MessageReady(d, Defaults(d))
    decreases d
  {
    forall i | 0 <= i < |d.fields|
      ensures SlotReady(d.fields[i], DefaultSlot(d.fields[i]))
    {
      assert FieldDefaultOk(d.fields[i]);
      if d.fields[i].ltype.SubmessageType? {
        DefaultsAreReady(d.fields[i].ltype.sub);
      }
    }
  }

  lemma DefaultIsReady(f: Field)
    requires f.ltype.SubmessageType? && FieldDefaultOk(f)
    ensures ValueReady(f, DefaultValue(f))
  {
    DefaultsAreReady(f.ltype.sub);
  }

  // ---- Values ----

  lemma ScalarIsReady(f: Field, data: Bytes, p: nat, limit: nat)
    requires f.ltype.Packable() && limit <= |data| && DecodeScalar(f, data, p, limit).Some?
    ensures ValueReady(f, DecodeScalar(f, data, p, limit).value.0)
  {
  }

  lemma RawIsReady(f: Field, data: Bytes, p: nat, limit: nat)
    requires !f.ltype.Packable() && !f.ltype.SubmessageType? && limit <= |data| && DecodeRaw(f, data, p, limit).Some?
    ensures ValueReady(f, DecodeRaw(f, data, p, limit).value.0)
  {
  }

  lemma {:induction false} PackedIsReady(f: Field, data: Bytes, p: nat, limit: nat, items: seq<Value>)
    requires f.ltype.Packable() && limit <= |data| && DecodePacked(f, data, p, limit, items).Some?
    requires |items| <= f.arraySize && forall v :: v in items ==> ValueReady(f, v)
    ensures var all := DecodePacked(f, data, p, limit, items).value;
            |all| <= f.arraySize && forall v :: v in all ==> ValueReady(f, v)
    decreases limit - p
  {
    if p < limit {
      ScalarIsReady(f, data, p, limit);
      var r := DecodeScalar(f, data, p, limit).value;
      PackedIsReady(f, data, r.1, limit, items + [r.0]);
    }
  }

  lemma {:induction false} ValueIsReady(f: Field, data: Bytes, p: nat, limit: nat, before: Value)
    requires FieldOk(f) && FieldDefaultOk(f) && limit <= |data| && DecodeValue(f, data, p, limit, before).Some?
    requires f.ltype.SubmessageType? ==> ValueReady(f, before)
    ensures ValueReady(f, DecodeValue(f, data, p, limit, before).value.0)
    decreases limit - p, 0
  {
    if f.ltype.Packable() {
      ScalarIsReady(f, data, p, limit);
    } else if f.ltype.SubmessageType? {
      var r := ReadLength(data, p, limit).value;
      FieldsAreReady(f.ltype.sub, data, r.0, r.1, before.message, {});
    } else {
      RawIsReady(f, data, p, limit);
    }
  }

  lemma {:induction false} SlotIsReady(f: Field, wire: nat, data: Bytes, p: nat, limit: nat, s: Slot)
    requires FieldOk(f) && FieldDefaultOk(f) && limit <= |data| && SlotReady(f, s) && DecodeSlot(f, wire, data, p, limit, s).Some?
    ensures SlotReady(f, DecodeSlot(f, wire, data, p, limit, s).value.0)
    decreases limit - p, 1
  {
    if f.ltype.SubmessageType? {
      DefaultIsReady(f);
    }
    match s {
      case One(v) => ValueIsReady(f, data, p, limit, v);
      case Opt(has, v) => ValueIsReady(f, data, p, limit, v);
      case Choice(_) => ValueIsReady(f, data, p, limit, DefaultValue(f));
      case Many(items) =>
        if wire == WT_STRING && f.ltype.Packable() {
          var r := ReadLength(data, p, limit).value;
          PackedIsReady(f, data, r.0, r.1, items);
        } else {
          ValueIsReady(f, data, p, limit, DefaultValue(f));
        }
    }
  }

  // ---- Messages ----

  lemma StoredIsReady(d: Descriptor, m: Message, i: nat, s: Slot)
    requires MessageReady(d, m) && i < |d.fields| && SlotReady(d.fields[i], s)
    ensures MessageReady(d, Stored(d, m, i, s))
  {
    var m2 := Stored(d, m, i, s);
    forall j | 0 <= j < |d.fields|
      ensures SlotReady(d.fields[j], m2.slots[j])
    {
      assert SlotReady(d.fields[j], m.slots[j]);
    }
    forall j, k | 0 <= j < k < |d.fields| && Siblings(d.fields[j], d.fields[k])
      ensures m2.slots[j] == Choice(None) || m2.slots[k] == Choice(None)
    {
      assert j == i || k == i || m.slots[j] == Choice(None) || m.slots[k] == Choice(None);
    }
  }

  lemma {:induction false} FieldsAreReady(d: Descriptor, data: Bytes, p: nat, limit: nat, m: Message, seen: set<nat>)
    requires DescriptorOk(d) && DefaultsOk(d) && limit <= |data| && MessageReady(d, m) && DecodeFields(d, data, p, limit, m, seen).Some?
    ensures MessageReady(d, DecodeFields(d, data, p, limit, m, seen).value)
    decreases limit - p, 2
  {
    if p < limit && ReadTag(data, p, limit).Tag? {
      var t := ReadTag(data, p, limit);
      var i := FieldIndex(d.fields, t.tag);
      if i == None {
        FieldsAreReady(d, data, SkipField(t.wire, data, t.next, limit).value, limit, m, seen);
      } else {
        var f := d.fields[i.value];
        assert FieldOk(f) && FieldDefaultOk(f);
        SlotIsReady(f, t.wire, data, t.next, limit, m.slots[i.value]);
        var r := DecodeSlot(f, t.wire, data, t.next, limit, m.slots[i.value]).value;
        StoredIsReady(d, m, i.value, r.0);
        FieldsAreReady(d, data, r.1, limit, Stored(d, m, i.value, r.0), AlsoSeen(d, i.value, seen));
      }
    }
  }

  // ---- Ready is typed and terminated ----

  lemma {:induction false} ReadyValue(f: Field, v: Value)
    requires ValueReady(f, v)
    ensures ValueTyped(f, v) && ValueTerminated(f, v)
    decreases v, 0
  {
    if f.ltype.SubmessageType? {
      ReadyMessage(f.ltype.sub, v.message);
    }
  }

  lemma {:induction false} ReadySlot(f: Field, s: Slot)
    requires SlotReady(f, s)
    ensures SlotTyped(f, s) && SlotTerminated(f, s)
    decreases s, 1
  {
    match s {
      case One(v) => ReadyValue(f, v);
      case Opt(has, v) => if has { ReadyValue(f, v); }
      case Choice(content) => if content.Some? { ReadyValue(f, content.value); }
      case Many(items) =>
        forall v | v in items
          ensures ValueTyped(f, v) && ValueTerminated(f, v)
        {
          ReadyValue(f, v);
        }
    }
  }

  lemma {:induction false} ReadyMessage(d: Descriptor, m: Message)
    requires MessageReady(d, m)
    ensures MessageTyped(d, m) && MessageTerminated(d, m)
    decreases m, 2
  {
    forall i | 0 <= i < |d.fields|
      ensures SlotTyped(d.fields[i], m.slots[i]) && SlotTerminated(d.fields[i], m.slots[i])
    {
      ReadySlot(d.fields[i], m.slots[i]);
    }
  }

  /** What any bytes decode to is of the struct's type, all strings terminated. Encoded
      again and decoded it is the same up to bytes behind a string's end. */
  lemma DecodedIsTyped(d: Descriptor, data: Bytes, p: nat, limit: nat, r: Message)
    requires DescriptorOk(d) && DefaultsOk(d) && limit <= |data| && DecodeMessage(d, data, p, limit) == Some(r)
    ensures MessageTyped(d, r) && MessageTerminated(d, r) && EncodeMessage(d, r).Some?
    ensures var e := EncodeMessage(d, r).value;
            |e| < 0x1_0000_0000 ==> DecodeMessage(d, e, 0, |e|) == Some(NormMessage(d, r))
  {
    DefaultsAreReady(d);
    FieldsAreReady(d, data, p, limit, Defaults(d), {});
    ReadyMessage(d, r);
    RoundTrip(d, r);
  }
}
