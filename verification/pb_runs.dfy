/** Encoding into a buffer and decoding from it. */
module PbRuns {
  import opened Keys
  import opened PbFields
  import opened PbFormat
  import opened PbScalars
  import opened PbRoundTrips
  import opened PbEncoders
  import opened PbDecoders

  lemma {:induction false} ValueTypedIsShaped(f: Field, v: Value)
    requires ValueTyped(f, v)
    ensures ValueShaped(f, v)
    decreases v, 0
  {
    if f.ltype.SubmessageType? {
      TypedIsShaped(f.ltype.sub, v.message);
    }
  }

  lemma {:induction false} SlotTypedIsShaped(f: Field, s: Slot)
    requires SlotTyped(f, s)
    ensures SlotShaped(f, s)
    decreases s, 1
  {
    match s {
      case One(v) => ValueTypedIsShaped(f, v);
      case Opt(has, v) => if has { ValueTypedIsShaped(f, v); }
      case Many(items) => forall v | v in items ensures ValueShaped(f, v) { ValueTypedIsShaped(f, v); }
      case Choice(content) => if content.Some? { ValueTypedIsShaped(f, content.value); }
    }
  }

  lemma {:induction false} TypedIsShaped(d: Descriptor, m: Message)
    requires MessageTyped(d, m)
    ensures MessageShaped(d, m)
    decreases m, 2
  {
    forall i | 0 <= i < |d.fields|
      ensures SlotShaped(d.fields[i], m.slots[i])
    {
      SlotTypedIsShaped(d.fields[i], m.slots[i]);
    }
  }

  /** A message is encoded if the buffer has room for just its size, and comes back if its
      strings are terminated. */
  method EncodeAndDecode(d: Descriptor, m: Message, maxSize: nat) returns (size: nat, encoded: bool, decoded: Option<Message>)
    requires DescriptorOk(d) && MessageTyped(d, m) && maxSize < 0x1_0000_0000
    ensures EncodeMessage(d, m).Some? && size == |EncodeMessage(d, m).value| && encoded == (size <= maxSize)
    ensures encoded ==> decoded == if MessageTerminated(d, m) then Some(NormMessage(d, m)) else None
  {
    TypedIsShaped(d, m);
    RoundTrip(d, m);
    var ok;
    ok, size := GetEncodedSize(d, m);
    var ostream := new OStream(false, maxSize, []);
    encoded := Encode(ostream, d, m);
    decoded := None;
    if encoded {
      assert ostream.output == EncodeMessage(d, m).value;
      var istream := new IStream(ostream.output, 0, ostream.bytesWritten);
      var r;
      ok, r := Decode(istream, d);
      decoded := if ok then Some(r) else None;
    }
  }

  // ---- What comes back stands for the same bytes ----

  lemma {:induction false} StrLenOfPrefix(s: Bytes, max: nat)
    ensures StrLen(s[..StrLen(s, max)], max) == StrLen(s, max)
    decreases max
  {
    if s != [] && max > 0 && s[0] != 0 {
      StrLenOfPrefix(s[1..], max - 1);
      assert s[..StrLen(s, max)][1..] == s[1..][..StrLen(s[1..], max - 1)];
    }
  }

  lemma {:induction false} SameValueBytes(f: Field, v: Value)
    requires ValueTyped(f, v)
    ensures EncodeValue(f, NormValue(f, v)) == EncodeValue(f, v)
    decreases v, 0
  {
    if f.ltype.SubmessageType? {
      SameBytes(f.ltype.sub, v.message);
    } else if f.ltype.StringType? {
      StrLenOfPrefix(v.bytes, f.dataSize);
      assert CString(f, CString(f, v.bytes)) == CString(f, v.bytes);
    }
  }

  lemma {:induction false} SameItemsBytes(f: Field, s: Slot, packed: bool, j: nat)
    requires s.Many? && j <= |s.items| && forall v :: v in s.items ==> ValueTyped(f, v)
    ensures EncodeItems(f, NormSlot(f, s), packed, j) == EncodeItems(f, s, packed, j)
    decreases s, 0, |s.items| - j
  {
    if j < |s.items| {
      SameValueBytes(f, s.items[j]);
      SameItemsBytes(f, s, packed, j + 1);
    }
  }

  lemma {:induction false} SameSlotBytes(f: Field, s: Slot)
    requires SlotTyped(f, s)
    ensures EncodeSlot(f, NormSlot(f, s)) == EncodeSlot(f, s)
    decreases s, 1
  {
    match s {
      case One(v) => SameValueBytes(f, v);
      case Opt(has, v) => if has { SameValueBytes(f, v); }
      case Many(_) => SameItemsBytes(f, s, f.ltype.Packable(), 0);
      case Choice(content) => if content.Some? { SameValueBytes(f, content.value); }
    }
  }

  lemma {:induction false} SameFieldsBytes(d: Descriptor, m: Message, i: nat)
    requires MessageTyped(d, m) && i <= |d.fields|
    ensures EncodeFrom(d, NormMessage(d, m), i) == EncodeFrom(d, m, i)
    decreases m, 2, |d.fields| - i
  {
    if i < |d.fields| {
      SameSlotBytes(d.fields[i], m.slots[i]);
      SameFieldsBytes(d, m, i + 1);
    }
  }

  /** Encoding what was decoded gives the bytes it was decoded from. */
  lemma {:induction false} SameBytes(d: Descriptor, m: Message)
    requires MessageTyped(d, m)
    ensures EncodeMessage(d, NormMessage(d, m)) == EncodeMessage(d, m)
    decreases m, 3
  {
    SameFieldsBytes(d, m, 0);
  }
}
