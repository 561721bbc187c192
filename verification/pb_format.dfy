/** What a message is as bytes, and what bytes are as a message. */
module PbFormat {
  import opened Keys
  import opened Coding
  import opened Varints
  import opened PbFields

  const WT_VARINT := 0
  const WT_64BIT := 1
  const WT_STRING := 2
  const WT_32BIT := 5

  // ---- Integers ----

  /** An unsigned integer below `span` read as two's complement. */
  function Signed(n: nat, span: nat): int {
    if 2 * n < span then n else n - span
  }

  /** Zigzag: small numbers of either sign become small. */
  function ZigZag(n: int): nat {
    if n < 0 then -2 * n - 1 else 2 * n
  }

  function UnZigZag(n: nat): int {
    if n % 2 == 1 then -(n / 2) - 1 else n / 2
  }

  // ---- Encoding ----

  function Cat(a: Option<Bytes>, b: Option<Bytes>): Option<Bytes> {
    if a.Some? && b.Some? then Some(a.value + b.value) else None
  }

  function WireType(t: LType): (w: nat)
    ensures w < 8
  {
    match t
    case VarintType => WT_VARINT
    case UVarintType => WT_VARINT
    case SVarintType => WT_VARINT
    case Fixed32Type => WT_32BIT
    case Fixed64Type => WT_64BIT
    case _ => WT_STRING
  }

  function EncodeTag(wire: nat, tag: nat): Bytes {
    Varint(8 * tag + wire)
  }

  /** The characters up to the first NUL, or all `max`. */
  function StrLen(s: Bytes, max: nat): (n: nat)
    ensures n <= |s| && n <= max
    ensures n < |s| && n < max ==> s[n] == 0
    ensures forall i :: 0 <= i < n ==> s[i] != 0
  {
    if s == [] || max == 0 || s[0] == 0 then 0 else 1 + StrLen(s[1..], max - 1)
  }

  function EncodeValue(f: Field, v: Value): Option<Bytes>
    decreases v, 0
  {
    match (f.ltype, v)
    case (VarintType, Num(n)) => if Span(f.dataSize) > 0 then Some(Varint(Low64(n))) else None
    case (UVarintType, Num(n)) => if Span(f.dataSize) > 0 then Some(Varint(Low64(n))) else None
    case (SVarintType, Num(n)) => if Span(f.dataSize) > 0 then Some(Varint(ZigZag(n))) else None
    case (Fixed32Type, Num(n)) => Some(Fixed32(n % 0x1_0000_0000))
    case (Fixed64Type, Num(n)) => Some(Fixed64(Low64(n)))
    case (BytesType, Raw(b)) => if |b| + 4 <= f.dataSize then Some(WithLength(b)) else None
    case (StringType, Raw(s)) => Some(WithLength(s[..StrLen(s, f.dataSize)]))
    case (SubmessageType(sub), Msg(m)) =>
      var inner := EncodeMessage(sub, m);
      if inner.Some? then Some(WithLength(inner.value)) else None
    case (FixedLengthBytesType, Raw(b)) => if |b| == f.dataSize then Some(WithLength(b)) else None
    case _ => None
  }

  /** A value behind its tag. */
  function EncodeTagged(f: Field, v: Value): Option<Bytes>
    decreases v, 1
  {
    Cat(Some(EncodeTag(WireType(f.ltype), f.tag)), EncodeValue(f, v))
  }

  /** The items from the `j`-th on, each behind its tag or, packed, without. */
  function EncodeItems(f: Field, s: Slot, packed: bool, j: nat): Option<Bytes>
    requires s.Many? && j <= |s.items|
    decreases s, |s.items| - j
  {
    if j == |s.items| then Some([])
    else Cat(if packed then EncodeValue(f, s.items[j]) else EncodeTagged(f, s.items[j]), EncodeItems(f, s, packed, j + 1))
  }

  /** Arrays are packed if the type allows it. */
  function EncodeArray(f: Field, s: Slot): Option<Bytes>
    requires s.Many?
    decreases s, |s.items| + 1
  {
    if s.items == [] then Some([])
    else if |s.items| > f.arraySize then None
    else
      var data := EncodeItems(f, s, f.ltype.Packable(), 0);
      if data.Some? && f.ltype.Packable() then Some(EncodeTag(WT_STRING, f.tag) + WithLength(data.value)) else data
  }

  function EncodeSlot(f: Field, s: Slot): Option<Bytes>
    decreases s, if s.Many? then |s.items| + 2 else 0
  {
    match (f.htype, s)
    case (Required, One(v)) => EncodeTagged(f, v)
    case (Optional, Opt(has, v)) => if has then EncodeTagged(f, v) else Some([])
    case (Repeated, Many(_)) => EncodeArray(f, s)
    case (OneOf(_), Choice(content)) => if content.Some? then EncodeTagged(f, content.value) else Some([])
    case _ => None
  }

  /** The fields from the `i`-th on, in descriptor order. */
  function EncodeFrom(d: Descriptor, m: Message, i: nat): Option<Bytes>
    requires |m.slots| == |d.fields| && i <= |d.fields|
    decreases m, |d.fields| - i
  {
    if i == |d.fields| then Some([])
    else Cat(EncodeSlot(d.fields[i], m.slots[i]), EncodeFrom(d, m, i + 1))
  }

  function EncodeMessage(d: Descriptor, m: Message): Option<Bytes>
    decreases m, |d.fields| + 1
  {
    if |m.slots| == |d.fields| then EncodeFrom(d, m, 0) else None
  }

  // ---- Decoding ----

  datatype TagRead = Tag(wire: nat, tag: nat, next: nat) | Eof | Bad

  /** A tag; what fails at the end of the stream and a zero byte end the message. */
  function ReadTag(data: Bytes, p: nat, limit: nat): (r: TagRead)
    requires limit <= |data|
    ensures r.Tag? ==> p < r.next <= limit
  {
    var r := DecodeVarint(data, p, limit, 5);
    if r == None then (if limit <= p + 5 then Eof else Bad)
    else
      var t := Low32(r.value.0);
      if t == 0 then Eof else Tag(t % 8, t / 8, r.value.1)
  }

  function SkipVarint(data: Bytes, p: nat, limit: nat): (r: Option<nat>)
    requires limit <= |data|
    ensures r.Some? ==> p < r.value <= limit
    decreases limit - p
  {
    if p >= limit then None else if data[p] < 128 then Some(p + 1) else SkipVarint(data, p + 1, limit)
  }

  function SkipField(wire: nat, data: Bytes, p: nat, limit: nat): (r: Option<nat>)
    requires limit <= |data|
    ensures r.Some? ==> p < r.value <= limit
  {
    if wire == WT_VARINT then SkipVarint(data, p, limit)
    else if wire == WT_64BIT then (if p + 8 <= limit then Some(p + 8) else None)
    else if wire == WT_STRING then
      var r := ReadLength(data, p, limit);
      if r == None then None else Some(r.value.1)
    else if wire == WT_32BIT then (if p + 4 <= limit then Some(p + 4) else None)
    else None
  }

  /** An integer that must fit into the field. */
  function Checked(fits: bool, n: int, next: nat): Option<(Value, nat)> {
    if fits then Some((Num(n), next)) else None
  }

  /** Fields of up to 32 bits take negative numbers cast to `int32_t`. */
  function SignedValue(n: nat, size: nat): int {
    if size == 8 then Signed(n, TWO_TO_THE_64) else Signed(Low32(n), 0x1_0000_0000)
  }

  function DecodeScalar(f: Field, data: Bytes, p: nat, limit: nat): (r: Option<(Value, nat)>)
    requires limit <= |data| && f.ltype.Packable()
    ensures r.Some? ==> p < r.value.1 <= limit
  {
    if f.ltype == Fixed32Type then
      if p + 4 <= limit then Some((Num(DecodeFixed32(data[p..])), p + 4)) else None
    else if f.ltype == Fixed64Type then
      if p + 8 <= limit then Some((Num(DecodeFixed64(data[p..])), p + 8)) else None
    else
      var r := DecodeVarint(data, p, limit, 10);
      if r == None then None else
      var n := Low64(r.value.0);
      if f.ltype == VarintType then Checked(SignedFits(SignedValue(n, f.dataSize), f.dataSize), SignedValue(n, f.dataSize), r.value.1)
      else if f.ltype == UVarintType then Checked(UnsignedFits(n, f.dataSize), n, r.value.1)
      else Checked(SignedFits(UnZigZag(n), f.dataSize), UnZigZag(n), r.value.1)
  }

  /** A string or byte array from its length on. */
  function DecodeRaw(f: Field, data: Bytes, p: nat, limit: nat): (r: Option<(Value, nat)>)
    requires limit <= |data|
    ensures r.Some? ==> p < r.value.1 <= limit
  {
    var r := ReadLength(data, p, limit);
    if r == None then None
    else
      var (start, end) := r.value;
      if f.ltype.FixedLengthBytesType? && start == end then Some((Raw(Zeros(f.dataSize)), end)) else
      var fits := match f.ltype
        case BytesType => end - start + 4 <= f.dataSize
        case StringType => end - start + 1 <= f.dataSize
        case _ => end - start == f.dataSize;
      if fits then Some((Raw(data[start..end]), end)) else None
  }

  /** A value, read over the old one: only submessages are merged. */
  ghost function DecodeValue(f: Field, data: Bytes, p: nat, limit: nat, before: Value): (r: Option<(Value, nat)>)
    requires limit <= |data|
    ensures r.Some? ==> p < r.value.1 <= limit
    decreases limit - p, 0
  {
    if f.ltype.Packable() then DecodeScalar(f, data, p, limit)
    else if !f.ltype.SubmessageType? then DecodeRaw(f, data, p, limit)
    else
      var r := ReadLength(data, p, limit);
      if r == None || !before.Msg? then None else
      var inner := DecodeFields(f.ltype.sub, data, r.value.0, r.value.1, before.message, {});
      if inner == None then None else Some((Msg(inner.value), r.value.1))
  }

  /** A packed array's items, until its bytes or the array's room run out. */
  function DecodePacked(f: Field, data: Bytes, p: nat, limit: nat, items: seq<Value>): Option<seq<Value>>
    requires limit <= |data| && f.ltype.Packable()
    decreases limit - p
  {
    if p >= limit then Some(items)
    else if |items| >= f.arraySize then None
    else
      var r := DecodeScalar(f, data, p, limit);
      if r == None then None else DecodePacked(f, data, r.value.1, limit, items + [r.value.0])
  }

  ghost function DecodeSlot(f: Field, wire: nat, data: Bytes, p: nat, limit: nat, s: Slot): (r: Option<(Slot, nat)>)
    requires limit <= |data|
    ensures r.Some? ==> p < r.value.1 <= limit
    decreases limit - p, 1
  {
    match (f.htype, s)
    case (Required, One(v)) =>
      var r := DecodeValue(f, data, p, limit, v);
      if r == None then None else Some((One(r.value.0), r.value.1))
    case (Optional, Opt(_, v)) =>
      var r := DecodeValue(f, data, p, limit, v);
      if r == None then None else Some((Opt(true, r.value.0), r.value.1))
    case (Repeated, Many(items)) =>
      if wire == WT_STRING && f.ltype.Packable() then
        var r := ReadLength(data, p, limit);
        if r == None then None else
        var packed := DecodePacked(f, data, r.value.0, r.value.1, items);
        if packed == None then None else Some((Many(packed.value), r.value.1))
      else if |items| >= f.arraySize then None
      else
        var r := DecodeValue(f, data, p, limit, DefaultValue(f));
        if r == None then None else Some((Many(items + [r.value.0]), r.value.1))
    case (OneOf(_), Choice(_)) =>
      var r := DecodeValue(f, data, p, limit, DefaultValue(f));
      if r == None then None else Some((Choice(Some(r.value.0)), r.value.1))
    case _ => None
  }

  /** Writing a member of a union makes it the one that is set. */
  function Stored(d: Descriptor, m: Message, i: nat, s: Slot): (m2: Message)
    requires |m.slots| == |d.fields| && i < |d.fields|
    ensures |m2.slots| == |d.fields|
  {
    Message(seq(|d.fields|, j requires 0 <= j < |d.fields| =>
      if j == i then s else if Siblings(d.fields[i], d.fields[j]) then Choice(None) else m.slots[j]))
  }

  ghost predicate RequiredSeen(d: Descriptor, seen: set<nat>) {
    forall k :: 0 <= k < RequiredBefore(d.fields, |d.fields|) ==> k in seen
  }

  function AlsoSeen(d: Descriptor, i: nat, seen: set<nat>): set<nat>
    requires i < |d.fields|
  {
    if d.fields[i].htype.Required? && RequiredBefore(d.fields, i) < 64 then seen + {RequiredBefore(d.fields, i)} else seen
  }

  /** `pb_decode_noinit`: the fields in the order they come, unknown ones skipped, onto what
      the struct holds; `seen` has the numbers of the required fields met. */
  ghost function DecodeFields(d: Descriptor, data: Bytes, p: nat, limit: nat, m: Message, seen: set<nat>): (r: Option<Message>)
    requires limit <= |data|
    decreases limit - p, 2
  {
    if |m.slots| != |d.fields| then None else
    var t := if p < limit then ReadTag(data, p, limit) else Eof;
    match t
    case Eof => if RequiredSeen(d, seen) then Some(m) else None
    case Bad => None
    case Tag(wire, tag, next) =>
      var i := FieldIndex(d.fields, tag);
      if i == None then
        // The terminator of an empty message has tag 0, and is no field
        if d.fields == [] && tag == 0 then None else
        var skipped := SkipField(wire, data, next, limit);
        if skipped == None then None else DecodeFields(d, data, skipped.value, limit, m, seen)
      else
        var r := DecodeSlot(d.fields[i.value], wire, data, next, limit, m.slots[i.value]);
        if r == None then None
        else DecodeFields(d, data, r.value.1, limit, Stored(d, m, i.value, r.value.0), AlsoSeen(d, i.value, seen))
  }

  ghost function DecodeMessage(d: Descriptor, data: Bytes, p: nat, limit: nat): Option<Message>
    requires limit <= |data|
  {
    DecodeFields(d, data, p, limit, Defaults(d), {})
  }
}
