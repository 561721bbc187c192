/** The decoder: it reads from a stream of which substreams are stretches. */
module PbDecoders {
  import opened Keys
  import opened Coding
  import opened Varints
  import opened PbFields
  import opened PbBitmaps
  import opened PbFormat

  /** An input stream on a buffer. */
  class IStream {
    const data: Bytes
    var state: nat
    var bytesLeft: nat

    ghost predicate Valid()
      reads this
    {
      state + bytesLeft <= |data|
    }

    ghost function Limit(): nat
      reads this
    {
      state + bytesLeft
    }

    constructor (data: Bytes, state: nat, bytesLeft: nat)
      requires state + bytesLeft <= |data|
      ensures Valid() && this.data == data && this.state == state && this.bytesLeft == bytesLeft
    {
      this.data, this.state, this.bytesLeft := data, state, bytesLeft;
    }

    /** If there was something to read, it ended at `next`. */
    twostate predicate ReadTo(ok: bool, new next: Option<nat>)
      reads this
    {
      && Valid() && Limit() == old(Limit())
      && ok == next.Some? && (ok ==> state == next.value)
    }

    method ReadByte() returns (ok: bool, b: Byte)
      requires Valid()
      modifies this
      ensures ReadTo(ok, if old(bytesLeft) > 0 then Some(old(state) + 1) else None)
      ensures if ok then b == data[old(state)] else state == old(state) && bytesLeft == 0
    {
      if bytesLeft == 0 {
        // end-of-stream
        return false, 0;
      }
      ok, b := true, data[state];
      state, bytesLeft := state + 1, bytesLeft - 1;
    }

    method Read(count: nat) returns (ok: bool, b: Bytes)
      requires Valid()
      modifies this
      ensures ReadTo(ok, if count <= old(bytesLeft) then Some(old(state) + count) else None)
      ensures ok ==> b == data[old(state)..state]
    {
      if bytesLeft < count {
        // end-of-stream
        return false, [];
      }
      ok, b := true, data[state..state + count];
      state, bytesLeft := state + count, bytesLeft - count;
    }

    /** At most `max` groups of seven bits. */
    method ReadGroups(max: nat) returns (ok: bool, result: nat)
      requires Valid() && max > 0
      modifies this
      ensures var r := DecodeVarint(data, old(state), old(Limit()), max);
              && ReadTo(ok, if r == None then None else Some(r.value.1)) && (ok ==> result == r.value.0)
              && (!ok ==> (bytesLeft == 0 <==> old(bytesLeft) <= max))
    {
      ghost var p, limit := state, Limit();
      ghost var whole := DecodeVarint(data, p, limit, max);
      var group: nat := 0;
      result := 0;
      while true
        invariant Valid() && state == p + group && Limit() == limit && group <= max
        invariant Gathered(whole, result, DecodeVarint(data, state, limit, max - group), group)
        decreases max - group
      {
        if group >= max {
          // varint overflow
          return false, 0;
        }
        ghost var q := state;
        var byte;
        ok, byte := ReadByte();
        if !ok {
          return false, 0;
        }
        GatherByte(whole, result, data, q, limit, group, max);
        if byte < 128 {
          result := result + Shifted(byte, group);
          return true, result;
        }
        result := result + Shifted(byte - 128, group);
        group := group + 1;
      }
    }
  }

  // ---- Helpers ----

  method DecodeVarint32(stream: IStream) returns (ok: bool, v: Word)
    requires stream.Valid()
    modifies stream
    ensures var r := DecodeVarint(stream.data, old(stream.state), old(stream.Limit()), 5);
            && stream.ReadTo(ok, if r == None then None else Some(r.value.1)) && (ok ==> v == Low32(r.value.0))
            && (!ok ==> (stream.bytesLeft == 0 <==> old(stream.bytesLeft) <= 5))
  {
    var n;
    ok, n := stream.ReadGroups(5);
    v := Low32(n);
  }

  /** A tag; `eof` tells whether a failure is the end of the message. */
  method DecodeTag(stream: IStream) returns (ok: bool, wire: nat, tag: nat, eof: bool)
    requires stream.Valid()
    modifies stream
    ensures var r := ReadTag(stream.data, old(stream.state), old(stream.Limit()));
            && stream.ReadTo(ok, if r.Tag? then Some(r.next) else None)
            && (ok ==> r == Tag(wire, tag, r.next)) && (!ok ==> eof == r.Eof?)
  {
    var temp;
    ok, temp := DecodeVarint32(stream);
    if !ok {
      return false, 0, 0, stream.bytesLeft == 0;
    }
    if temp == 0 {
      // Special feature: allow 0-terminated messages
      return false, 0, 0, true;
    }
    wire, tag, eof := temp % 8, temp / 8, false;
  }

  method SkipVarintBytes(stream: IStream) returns (ok: bool)
    requires stream.Valid()
    modifies stream
    ensures stream.ReadTo(ok, SkipVarint(stream.data, old(stream.state), old(stream.Limit())))
  {
    ghost var whole, limit := SkipVarint(stream.data, stream.state, stream.Limit()), stream.Limit();
    var byte: Byte := 128;
    while byte >= 128
      invariant stream.Valid() && stream.Limit() == limit
      invariant whole == if byte >= 128 then SkipVarint(stream.data, stream.state, limit) else Some(stream.state)
      decreases byte >= 128, stream.bytesLeft
    {
      ok, byte := stream.ReadByte();
      if !ok {
        return;
      }
    }
    ok := true;
  }

  /** Where a string starts and ends; the stream is left at its start. */
  method DecodeLength(stream: IStream) returns (ok: bool, size: nat)
    requires stream.Valid()
    modifies stream
    ensures var r := ReadLength(stream.data, old(stream.state), old(stream.Limit()));
            && stream.Valid() && stream.Limit() == old(stream.Limit())
            && ok == r.Some? && (ok ==> r.value == (stream.state, stream.state + size))
  {
    ok, size := DecodeVarint32(stream);
    if ok && stream.bytesLeft < size {
      ok := false;
    }
  }

  method SkipFieldBytes(stream: IStream, wire: nat) returns (ok: bool)
    requires stream.Valid()
    modifies stream
    ensures stream.ReadTo(ok, SkipField(wire, stream.data, old(stream.state), old(stream.Limit())))
  {
    if wire == WT_VARINT {
      ok := SkipVarintBytes(stream);
    } else if wire == WT_64BIT {
      var skipped;
      ok, skipped := stream.Read(8);
    } else if wire == WT_STRING {
      var size, skipped;
      ok, size := DecodeLength(stream);
      if ok {
        ok, skipped := stream.Read(size);
      }
    } else if wire == WT_32BIT {
      var skipped;
      ok, skipped := stream.Read(4);
    } else {
      // invalid wire_type
      ok := false;
    }
  }

  /** A stream limited to the string; the parent stays behind until it is closed. */
  method MakeStringSubstream(stream: IStream) returns (ok: bool, sub: IStream)
    requires stream.Valid()
    modifies stream
    ensures var r := ReadLength(stream.data, old(stream.state), old(stream.Limit()));
            && stream.Valid() && ok == r.Some? && fresh(sub) && sub.data == stream.data && sub.Valid()
            && (if ok then r.value == (sub.state, sub.Limit()) && sub.Limit() + stream.bytesLeft == old(stream.Limit())
                else stream.Limit() == old(stream.Limit()))
  {
    var size;
    ok, size := DecodeLength(stream);
    if !ok {
      sub := new IStream(stream.data, 0, 0);
      return;
    }
    sub := new IStream(stream.data, stream.state, size);
    stream.bytesLeft := stream.bytesLeft - size;
  }

  /** The parent goes on behind the string, even if not all of it was read. */
  method CloseStringSubstream(stream: IStream, sub: IStream)
    requires stream != sub && sub.Valid() && sub.data == stream.data && sub.Limit() + stream.bytesLeft <= |stream.data|
    modifies stream, sub
    ensures stream.Valid() && stream.state == old(sub.Limit()) && stream.bytesLeft == old(stream.bytesLeft)
  {
    if sub.bytesLeft > 0 {
      var _, _ := sub.Read(sub.bytesLeft);
    }
    stream.state := sub.state;
  }

  // ---- Values ----

  method DecodeScalarValue(stream: IStream, f: Field) returns (ok: bool, v: Value)
    requires stream.Valid() && f.ltype.Packable()
    modifies stream
    ensures var r := DecodeScalar(f, stream.data, old(stream.state), old(stream.Limit()));
            stream.ReadTo(ok, if r == None then None else Some(r.value.1)) && (ok ==> v == r.value.0)
  {
    v := Num(0);
    if f.ltype.Fixed32Type? || f.ltype.Fixed64Type? {
      var bytes;
      ok, bytes := stream.Read(if f.ltype.Fixed32Type? then 4 else 8);
      if ok {
        v := Num(if f.ltype.Fixed32Type? then DecodeFixed32(bytes) else DecodeFixed64(bytes));
      }
      return;
    }
    var n;
    ok, n := stream.ReadGroups(10);
    if !ok {
      return;
    }
    n := Low64(n);
    if f.ltype.VarintType? {
      var svalue := SignedValue(n, f.dataSize);
      ok, v := SignedFits(svalue, f.dataSize), Num(svalue);
    } else if f.ltype.UVarintType? {
      ok, v := UnsignedFits(n, f.dataSize), Num(n);
    } else {
      var svalue := UnZigZag(n);
      ok, v := SignedFits(svalue, f.dataSize), Num(svalue);
    }
  }

  method DecodeRawValue(stream: IStream, f: Field) returns (ok: bool, v: Value)
    requires stream.Valid()
    modifies stream
    ensures var r := DecodeRaw(f, stream.data, old(stream.state), old(stream.Limit()));
            stream.ReadTo(ok, if r == None then None else Some(r.value.1)) && (ok ==> v == r.value.0)
  {
    v := Raw([]);
    var size;
    ok, size := DecodeVarint32(stream);
    if !ok {
      return;
    }
    if f.ltype.FixedLengthBytesType? && size == 0 {
      // Treat empty bytes string as all zeros
      v := Raw(Zeros(f.dataSize));
      return;
    }
    if f.ltype.BytesType? {
      ok := size + 4 <= f.dataSize;
    } else if f.ltype.StringType? {
      // Space for null terminator
      ok := size + 1 <= f.dataSize;
    } else {
      ok := size == f.dataSize;
    }
    if !ok {
      return;
    }
    var bytes;
    ok, bytes := stream.Read(size);
    if ok {
      v := Raw(bytes);
    }
  }

  method DecodeSubmessage(stream: IStream, f: Field, before: Value) returns (ok: bool, v: Value)
    requires stream.Valid() && FieldOk(f) && f.ltype.SubmessageType? && (f.htype.Repeated? ==> before == DefaultValue(f))
    modifies stream
    ensures var r := DecodeValue(f, stream.data, old(stream.state), old(stream.Limit()), before);
            stream.ReadTo(ok, if r == None then None else Some(r.value.1)) && (ok ==> v == r.value.0)
    decreases f, 0
  {
    v := before;
    if !before.Msg? {
      return false, v;
    }
    var substream, m;
    ok, substream := MakeStringSubstream(stream);
    if !ok {
      return;
    }
    // New array entries need to be initialized, others have been with their struct
    if f.htype.Repeated? {
      ok, m := Decode(substream, f.ltype.sub);
    } else {
      ok, m := DecodeNoInit(substream, f.ltype.sub, before.message);
    }
    CloseStringSubstream(stream, substream);
    v := Msg(m);
  }

  method DecodeOne(stream: IStream, f: Field, before: Value) returns (ok: bool, v: Value)
    requires stream.Valid() && FieldOk(f) && (f.htype.Repeated? ==> before == DefaultValue(f))
    modifies stream
    ensures var r := DecodeValue(f, stream.data, old(stream.state), old(stream.Limit()), before);
            stream.ReadTo(ok, if r == None then None else Some(r.value.1)) && (ok ==> v == r.value.0)
    decreases f, 1
  {
    if f.ltype.Packable() {
      ok, v := DecodeScalarValue(stream, f);
    } else if f.ltype.SubmessageType? {
      ok, v := DecodeSubmessage(stream, f, before);
    } else {
      ok, v := DecodeRawValue(stream, f);
    }
  }

  /** The items of a packed array, until the bytes or the room run out. */
  method DecodePackedItems(stream: IStream, f: Field, items: seq<Value>) returns (ok: bool, all: seq<Value>)
    requires stream.Valid() && f.ltype.Packable()
    modifies stream
    ensures var r := DecodePacked(f, stream.data, old(stream.state), old(stream.Limit()), items);
            && stream.Valid() && stream.Limit() == old(stream.Limit()) && ok == r.Some? && (ok ==> all == r.value)
  {
    ghost var whole, limit := DecodePacked(f, stream.data, stream.state, stream.Limit(), items), stream.Limit();
    all := items;
    while stream.bytesLeft > 0 && |all| < f.arraySize
      invariant stream.Valid() && stream.Limit() == limit && whole == DecodePacked(f, stream.data, stream.state, limit, all)
      decreases stream.bytesLeft
    {
      var v;
      ok, v := DecodeScalarValue(stream, f);
      if !ok {
        return;
      }
      all := all + [v];
    }
    // array overflow
    ok := stream.bytesLeft == 0;
  }

  method DecodeStaticField(stream: IStream, wire: nat, f: Field, before: Slot) returns (ok: bool, s: Slot)
    requires stream.Valid() && FieldOk(f)
    modifies stream
    ensures var r := DecodeSlot(f, wire, stream.data, old(stream.state), old(stream.Limit()), before);
            stream.ReadTo(ok, if r == None then None else Some(r.value.1)) && (ok ==> s == r.value.0)
    decreases f, 2
  {
    var v;
    s := before;
    match (f.htype, before) {
      case (Required, One(value)) =>
        ok, v := DecodeOne(stream, f, value);
        s := One(v);
      case (Optional, Opt(_, value)) =>
        ok, v := DecodeOne(stream, f, value);
        s := Opt(true, v);
      case (Repeated, Many(items)) =>
        if wire == WT_STRING && f.ltype.Packable() {
          ok, s := DecodePackedArray(stream, f, items);
        } else if |items| >= f.arraySize {
          // array overflow
          ok := false;
        } else {
          ok, v := DecodeOne(stream, f, DefaultValue(f));
          s := Many(items + [v]);
        }
      case (OneOf(_), Choice(_)) =>
        ok, v := DecodeOne(stream, f, DefaultValue(f));
        s := Choice(Some(v));
      case _ => ok := false;
    }
  }

  method DecodePackedArray(stream: IStream, f: Field, items: seq<Value>) returns (ok: bool, s: Slot)
    requires stream.Valid() && f.htype.Repeated? && f.ltype.Packable()
    modifies stream
    ensures var r := DecodeSlot(f, WT_STRING, stream.data, old(stream.state), old(stream.Limit()), Many(items));
            stream.ReadTo(ok, if r == None then None else Some(r.value.1)) && (ok ==> s == r.value.0)
  {
    var substream, all;
    s := Many(items);
    ok, substream := MakeStringSubstream(stream);
    if !ok {
      return;
    }
    ok, all := DecodePackedItems(substream, f, items);
    CloseStringSubstream(stream, substream);
    s := Many(all);
  }

  // ---- Messages ----

  method MarkSeen(d: Descriptor, i: nat, index: nat, w: Words, ghost seen: set<nat>) returns (w2: Words)
    requires i < |d.fields| && index == RequiredBefore(d.fields, i) && Marks(w, seen)
    ensures Marks(w2, AlsoSeen(d, i, seen))
  {
    w2 := w;
    if d.fields[i].htype.Required? && index < 64 {
      w2 := Mark(w, index, seen);
    }
  }

  lemma {:induction false} RequiredStep(fields: seq<Field>, i: nat, n: nat)
    requires i < n <= |fields|
    ensures RequiredBefore(fields, i) + (if fields[i].htype.Required? then 1 else 0) <= RequiredBefore(fields, n)
    decreases n
  {
    if i < n - 1 {
      RequiredStep(fields, i, n - 1);
    }
  }

  /** The numbers seen are numbers of required fields. */
  ghost predicate InRange(d: Descriptor, seen: set<nat>) {
    seen <= Below(RequiredBefore(d.fields, |d.fields|))
  }

  lemma StaysInRange(d: Descriptor, i: nat, seen: set<nat>)
    requires i < |d.fields| && InRange(d, seen)
    ensures InRange(d, AlsoSeen(d, i, seen))
  {
    RequiredStep(d.fields, i, |d.fields|);
  }

  datatype Status = Done | Failed | More

  method Decode(stream: IStream, d: Descriptor) returns (ok: bool, m: Message)
    requires stream.Valid() && DescriptorOk(d)
    modifies stream
    ensures var r := DecodeMessage(d, stream.data, old(stream.state), old(stream.Limit()));
            && stream.Valid() && stream.Limit() == old(stream.Limit()) && ok == r.Some? && (ok ==> m == r.value)
    decreases d, 4
  {
    ok, m := DecodeNoInit(stream, d, Defaults(d));
  }

  /** What decoding comes to after one turn of the loop. */
  ghost function AfterTurn(status: Status, d: Descriptor, data: Bytes, p: nat, limit: nat, m: Message, seen: set<nat>): Option<Message>
    requires limit <= |data|
  {
    match status
    case Done => if RequiredSeen(d, seen) then Some(m) else None
    case Failed => None
    case More => DecodeFields(d, data, p, limit, m, seen)
  }

  /** One turn of the loop: a field, an unknown field or the end. */
  method DecodeTurn(stream: IStream, d: Descriptor, iter: FieldIter, m: Message, w: Words, ghost seen: set<nat>)
    returns (status: Status, m2: Message, w2: Words, ghost seen2: set<nat>)
    requires stream.Valid() && stream.bytesLeft > 0 && DescriptorOk(d) && |m.slots| == |d.fields|
    requires iter.Valid() && iter.fields == d.fields && Marks(w, seen) && InRange(d, seen)
    modifies stream, iter
    ensures iter.Valid() && Marks(w2, seen2) && InRange(d, seen2) && |m2.slots| == |d.fields|
    ensures stream.Valid() && stream.Limit() == old(stream.Limit())
    ensures status == More ==> stream.bytesLeft < old(stream.bytesLeft)
    ensures DecodeFields(d, stream.data, old(stream.state), old(stream.Limit()), m, seen)
            == AfterTurn(status, d, stream.data, stream.state, stream.Limit(), m2, seen2)
    decreases d, 2
  {
    status, m2, w2, seen2 := Failed, m, w, seen;
    var ok, wire, tag, eof := DecodeTag(stream);
    if !ok {
      if eof {
        status := Done;
      }
      return;
    }
    var found := iter.Find(tag);
    if !found {
      // No match found, skip data
      ok := SkipFieldBytes(stream, wire);
    } else if d.fields == [] {
      // The terminator of an empty message decodes as a number without a size
      ok := false;
    } else {
      var i := iter.pos;
      var s;
      FieldIndexIs(d.fields, i);
      w2 := MarkSeen(d, i, iter.requiredFieldIndex, w, seen);
      StaysInRange(d, i, seen);
      seen2 := AlsoSeen(d, i, seen);
      ok, s := DecodeStaticField(stream, wire, d.fields[i], m.slots[i]);
      m2 := Stored(d, m, i, s);
    }
    if ok {
      status := More;
    }
  }

  method DecodeNoInit(stream: IStream, d: Descriptor, before: Message) returns (ok: bool, m: Message)
    requires stream.Valid() && DescriptorOk(d)
    modifies stream
    ensures var r := DecodeFields(d, stream.data, old(stream.state), old(stream.Limit()), before, {});
            && stream.Valid() && stream.Limit() == old(stream.Limit()) && ok == r.Some? && (ok ==> m == r.value)
    decreases d, 3
  {
    ok, m := false, before;
    if |before.slots| != |d.fields| {
      return;
    }
    ghost var p, limit := stream.state, stream.Limit();
    var iter := new FieldIter.Begin(d.fields);
    var status, w := More, NONE_SEEN;
    ghost var seen: set<nat> := {};
    NoneMarked();
    while status == More && stream.bytesLeft > 0
      invariant stream.Valid() && stream.Limit() == limit && |m.slots| == |d.fields|
      invariant iter.Valid() && iter.fields == d.fields && fresh(iter)
      invariant Marks(w, seen) && InRange(d, seen)
      invariant DecodeFields(d, stream.data, p, limit, before, {}) == AfterTurn(status, d, stream.data, stream.state, limit, m, seen)
      decreases status == More, stream.bytesLeft
    {
      status, m, w, seen := DecodeTurn(stream, d, iter, m, w, seen);
    }
    if status != Failed {
      ok := CheckRequired(d, iter, w, seen);
    }
  }

  /** The check for required fields, on whole words and then the remaining bits. */
  method CheckRequired(d: Descriptor, iter: FieldIter, w: Words, ghost seen: set<nat>) returns (ok: bool)
    requires iter.Valid() && iter.fields == d.fields && DescriptorOk(d) && Marks(w, seen) && InRange(d, seen)
    modifies iter
    ensures ok == RequiredSeen(d, seen)
  {
    // Figure out the number of required fields by seeking to the end
    var more, count, last := true, 0, 0;
    while more
      invariant iter.Valid() && iter.fields == d.fields
      invariant !more ==> last + 1 >= |d.fields| && (d.fields == [] ==> last == 0) && (d.fields != [] ==> last < |d.fields|)
      invariant !more ==> count == RequiredBefore(d.fields, last)
      decreases more, |d.fields| - iter.pos
    {
      count, last := iter.requiredFieldIndex, iter.pos;
      more := iter.Next();
    }
    // Fixup if last field was also required
    if d.fields != [] && d.fields[last].htype.Required? {
      count := count + 1;
    }
    assert count == RequiredBefore(d.fields, |d.fields|);
    ok := true;
    if count > 0 {
      assert forall k :: k in seen ==> k in Below(count);
      ok := AllSeen(w, count, seen);
    }
  }
}
