/** Field descriptors, the structs they describe, and the iterator over descriptors.

    A struct is one slot a field. The members of a oneof share storage in C: here each has a
    `Choice` slot, and writing one clears the others of its union. */
module PbFields {
  import opened Keys

  datatype LType =
    | VarintType | UVarintType | SVarintType | Fixed32Type | Fixed64Type
    | BytesType | StringType | SubmessageType(sub: Descriptor) | FixedLengthBytesType
  {
    /** PB_LTYPE_LAST_PACKABLE */
    predicate Packable() {
      VarintType? || UVarintType? || SVarintType? || Fixed32Type? || Fixed64Type?
    }
  }

  datatype HType = Required | Optional | Repeated | OneOf(union: nat)

  datatype Field = Field(tag: nat, htype: HType, ltype: LType, dataSize: nat, arraySize: nat, default: Value)

  datatype Descriptor = Descriptor(fields: seq<Field>)

  datatype Value = Num(n: int) | Raw(bytes: Bytes) | Msg(message: Message)

  datatype Slot = One(value: Value) | Opt(has: bool, value: Value) | Many(items: seq<Value>) | Choice(content: Option<Value>)

  datatype Message = Message(slots: seq<Slot>)

  // ---- Defaults ----

  function DefaultValue(f: Field): Value
    decreases f, 0
  {
    if f.ltype.SubmessageType? then Msg(Defaults(f.ltype.sub)) else f.default
  }

  function DefaultSlot(f: Field): Slot
    decreases f, 1
  {
    match f.htype
    case Required => One(DefaultValue(f))
    case Optional => Opt(false, DefaultValue(f))
    case Repeated => Many([])
    case OneOf(_) => Choice(None)
  }

  /** `pb_message_set_to_defaults` */
  function Defaults(d: Descriptor): (m: Message)
    ensures |m.slots| == |d.fields|
    decreases d
  {
    Message(seq(|d.fields|, i requires 0 <= i < |d.fields| => DefaultSlot(d.fields[i])))
  }

  // ---- What C's types guarantee ----

  /** How many values an integer of `size` bytes has. */
  function Span(size: nat): nat {
    if size == 1 then 0x100
    else if size == 2 then 0x1_0000
    else if size == 4 then 0x1_0000_0000
    else if size == 8 then 0x1_0000_0000_0000_0000
    else 0
  }

  predicate SignedFits(n: int, size: nat) {
    2 * n < Span(size) && -2 * n <= Span(size)
  }

  predicate UnsignedFits(n: int, size: nat) {
    0 <= n < Span(size)
  }

  ghost predicate ValueTyped(f: Field, v: Value)
    decreases v, 0
  {
    match f.ltype
    case VarintType => v.Num? && SignedFits(v.n, f.dataSize)
    case UVarintType => v.Num? && UnsignedFits(v.n, f.dataSize)
    case SVarintType => v.Num? && SignedFits(v.n, f.dataSize)
    case Fixed32Type => v.Num? && UnsignedFits(v.n, 4)
    case Fixed64Type => v.Num? && UnsignedFits(v.n, 8)
    case BytesType => v.Raw? && |v.bytes| + 4 <= f.dataSize
    case StringType => v.Raw? && |v.bytes| <= f.dataSize
    case SubmessageType(sub) => v.Msg? && MessageTyped(sub, v.message)
    case FixedLengthBytesType => v.Raw? && |v.bytes| == f.dataSize
  }

  ghost predicate SlotTyped(f: Field, s: Slot)
    decreases s, 1
  {
    match f.htype
    case Required => s.One? && ValueTyped(f, s.value)
    case Optional => s.Opt? && (s.has ==> ValueTyped(f, s.value))
    case Repeated => s.Many? && |s.items| <= f.arraySize && forall v :: v in s.items ==> ValueTyped(f, v)
    case OneOf(_) => s.Choice? && (s.content.Some? ==> ValueTyped(f, s.content.value))
  }

  predicate Siblings(f: Field, g: Field) {
    f.htype.OneOf? && g.htype == f.htype
  }

  /** At most one member of a union is set. */
  ghost predicate OneOfEach(d: Descriptor, m: Message)
    requires |m.slots| == |d.fields|
  {
    forall i, j :: 0 <= i < j < |d.fields| && Siblings(d.fields[i], d.fields[j]) ==> m.slots[i] == Choice(None) || m.slots[j] == Choice(None)
  }

  ghost predicate MessageTyped(d: Descriptor, m: Message)
    decreases m, 2
  {
    && |m.slots| == |d.fields| && OneOfEach(d, m)
    && forall i :: 0 <= i < |d.fields| ==> SlotTyped(d.fields[i], m.slots[i])
  }

  // ---- What the layout of a struct guarantees by itself ----

  ghost predicate ValueShaped(f: Field, v: Value)
    decreases v, 0
  {
    match f.ltype
    case BytesType => v.Raw?
    case StringType => v.Raw? && |v.bytes| <= f.dataSize
    case SubmessageType(sub) => v.Msg? && MessageShaped(sub, v.message)
    case FixedLengthBytesType => v.Raw? && |v.bytes| == f.dataSize
    case _ => v.Num?
  }

  ghost predicate SlotShaped(f: Field, s: Slot)
    decreases s, 1
  {
    match f.htype
    case Required => s.One? && ValueShaped(f, s.value)
    case Optional => s.Opt? && (s.has ==> ValueShaped(f, s.value))
    case Repeated => s.Many? && forall v :: v in s.items ==> ValueShaped(f, v)
    case OneOf(_) => s.Choice? && (s.content.Some? ==> ValueShaped(f, s.content.value))
  }

  ghost predicate MessageShaped(d: Descriptor, m: Message)
    decreases m, 2
  {
    |m.slots| == |d.fields| && forall i :: 0 <= i < |d.fields| ==> SlotShaped(d.fields[i], m.slots[i])
  }

  // ---- What the generator guarantees ----

  /** How many of the first `n` fields are required. */
  function RequiredBefore(fields: seq<Field>, n: nat): nat
    requires n <= |fields|
  {
    if n == 0 then 0 else RequiredBefore(fields, n - 1) + if fields[n - 1].htype.Required? then 1 else 0
  }

  function Below(n: nat): (s: set<nat>)
    ensures forall k :: k in s <==> 0 <= k < n
  {
    if n == 0 then {} else Below(n - 1) + {n - 1}
  }

  ghost predicate TagsOk(fields: seq<Field>) {
    && (forall i :: 0 <= i < |fields| ==> 0 < fields[i].tag < 0x2000_0000)
    && forall i, j :: 0 <= i < j < |fields| ==> fields[i].tag != fields[j].tag
  }

  /** The check for required fields shifts a word by `32 - (count & 31)` and has two words. */
  predicate RequiredCountOk(count: nat) {
    count == 0 || (count < 64 && count != 32)
  }

  ghost predicate FieldOk(f: Field)
    decreases f, 0
  {
    && ((f.ltype.VarintType? || f.ltype.UVarintType? || f.ltype.SVarintType?) ==> Span(f.dataSize) > 0)
    && (f.ltype.SubmessageType? ==> DescriptorOk(f.ltype.sub))
  }

  ghost predicate DescriptorOk(d: Descriptor)
    decreases d, 1
  {
    && TagsOk(d.fields) && RequiredCountOk(RequiredBefore(d.fields, |d.fields|))
    && forall i :: 0 <= i < |d.fields| ==> FieldOk(d.fields[i])
  }

  // ---- Finding a field ----

  function FieldIndex(fields: seq<Field>, tag: nat): (r: Option<nat>)
    ensures r.Some? ==> r.value < |fields| && fields[r.value].tag == tag
    ensures r == None ==> forall i :: 0 <= i < |fields| ==> fields[i].tag != tag
  {
    if fields == [] then None
    else if fields[|fields| - 1].tag == tag then Some(|fields| - 1)
    else FieldIndex(fields[..|fields| - 1], tag)
  }

  lemma FieldIndexIs(fields: seq<Field>, i: nat)
    requires TagsOk(fields) && i < |fields|
    ensures FieldIndex(fields, fields[i].tag) == Some(i)
  {
    var r := FieldIndex(fields, fields[i].tag);
    assert r.Some?;
  }

  /** The cyclic iterator. Only in an empty message does it stand on the terminator. */
  class FieldIter {
    const fields: seq<Field>
    var pos: nat
    var requiredFieldIndex: nat

    ghost predicate Valid()
      reads this
    {
      (if fields == [] then pos == 0 else pos < |fields|) && requiredFieldIndex == RequiredBefore(fields, pos)
    }

    constructor Begin(fields: seq<Field>)
      ensures Valid() && this.fields == fields && pos == 0
    {
      this.fields := fields;
      pos, requiredFieldIndex := 0, 0;
    }

    /** To the next field; false when it wraps around to the first. */
    method Next() returns (more: bool)
      requires Valid()
      modifies this
      ensures Valid() && more == (old(pos) + 1 < |fields|) && pos == if more then old(pos) + 1 else 0
    {
      if fields == [] {
        // Empty message: the first field is already the terminator
        return false;
      }
      if pos + 1 == |fields| {
        // Wrapped back to beginning, reinitialize
        pos, requiredFieldIndex := 0, 0;
        return false;
      }
      if fields[pos].htype.Required? {
        // Counted for the check of their presence in the decoder
        requiredFieldIndex := requiredFieldIndex + 1;
      }
      pos := pos + 1;
      more := true;
    }

    /** Search for a tag from where the iterator stands, once around. The terminator of an
        empty message has tag 0. */
    method Find(tag: nat) returns (found: bool)
      requires Valid()
      modifies this
      ensures Valid() && (found && fields != [] ==> fields[pos].tag == tag)
      ensures fields == [] ==> found == (tag == 0)
      ensures !found ==> pos == old(pos) && forall i :: 0 <= i < |fields| ==> fields[i].tag != tag
    {
      var start := pos;
      var wrapped := false;
      while true
        invariant Valid()
        invariant if wrapped then pos < start && NotIn(tag, start, |fields|) && NotIn(tag, 0, pos)
                  else start <= pos && NotIn(tag, start, pos)
        decreases !wrapped, |fields| - pos
      {
        if (if fields == [] then 0 else fields[pos].tag) == tag {
          return true;
        }
        var more := Next();
        if pos == start {
          return false;
        }
        wrapped := wrapped || !more;
      }
      found := false;
    }

    ghost predicate NotIn(tag: nat, from: nat, to: nat)
    {
      forall i :: from <= i < to && i < |fields| ==> fields[i].tag != tag
    }
  }
}
