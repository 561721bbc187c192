/** The encoder: it writes into a stream with a limited size, or only counts. */
module PbEncoders {
  import opened Keys
  import opened Coding
  import opened Varints
  import opened PbFields
  import opened PbFormat

  /** An output stream; without a callback it only counts bytes. `output` is what stands at
      the destination. */
  class OStream {
    const sizing: bool
    var maxSize: nat
    var bytesWritten: nat
    var output: Bytes

    ghost predicate Valid()
      reads this
    {
      !sizing ==> bytesWritten <= maxSize
    }

    constructor (sizing: bool, maxSize: nat, output: Bytes)
      ensures Valid() && this.sizing == sizing && this.maxSize == maxSize && bytesWritten == 0 && this.output == output
    {
      this.sizing, this.maxSize, this.output := sizing, maxSize, output;
      bytesWritten := 0;
    }

    /** Whether `count` more bytes find room. */
    ghost predicate Room(count: nat)
      reads this
    {
      sizing || bytesWritten + count <= maxSize
    }

    /** `ok` tells that `b` could be encoded and fitted; then it has been written or counted. */
    twostate predicate Wrote(ok: bool, new b: Option<Bytes>)
      reads this
    {
      && Valid() && maxSize == old(maxSize)
      && ok == (b.Some? && old(Room(|b.value|)))
      && (ok ==> bytesWritten == old(bytesWritten) + |b.value| && output == if sizing then old(output) else old(output) + b.value)
    }

    method Write(b: Bytes) returns (ok: bool)
      requires Valid()
      modifies this
      ensures Wrote(ok, Some(b))
    {
      if !sizing {
        if bytesWritten + |b| > maxSize {
          // stream full
          return false;
        }
        output := output + b;
      }
      bytesWritten := bytesWritten + |b|;
      ok := true;
    }

    /** Count bytes that are not written. */
    method Count(count: nat) returns (ok: bool)
      requires Valid() && sizing
      modifies this
      ensures Valid() && ok && bytesWritten == old(bytesWritten) + count && output == old(output) && maxSize == old(maxSize)
    {
      bytesWritten := bytesWritten + count;
      ok := true;
    }
  }

  // ---- Helpers ----

  /** Groups of seven bits, each with the high bit set. */
  function Groups(v: nat): Bytes {
    if v == 0 then [] else [v % 128 + 128] + Groups(v / 128)
  }

  /** A varint is its groups with the last high bit cleared. */
  lemma {:induction false} ClearLast(v: nat)
    requires v > 0
    ensures Groups(v) != [] && Groups(v)[|Groups(v)| - 1] >= 128
    ensures Varint(v) == Groups(v)[|Groups(v)| - 1 := Groups(v)[|Groups(v)| - 1] - 128]
    decreases v
  {
    if v >= 128 {
      ClearLast(v / 128);
    }
  }

  method EncodeVarint(stream: OStream, v: nat) returns (ok: bool)
    requires stream.Valid()
    modifies stream
    ensures stream.Wrote(ok, Some(Varint(v)))
  {
    if v <= 0x7f {
      ok := stream.Write([v]);
      return;
    }
    var buffer: Bytes, value := [], v;
    while value > 0
      invariant buffer + Groups(value) == Groups(v)
    {
      buffer := buffer + [value % 128 + 128];
      value := value / 128;
    }
    ClearLast(v);
    // Unset top bit on last byte
    buffer := buffer[|buffer| - 1 := buffer[|buffer| - 1] - 128];
    ok := stream.Write(buffer);
  }

  method PutTag(stream: OStream, wire: nat, tag: nat) returns (ok: bool)
    requires stream.Valid()
    modifies stream
    ensures stream.Wrote(ok, Some(EncodeTag(wire, tag)))
  {
    ok := EncodeVarint(stream, 8 * tag + wire);
  }

  method EncodeString(stream: OStream, b: Bytes) returns (ok: bool)
    requires stream.Valid()
    modifies stream
    ensures stream.Wrote(ok, Some(WithLength(b)))
  {
    ok := EncodeVarint(stream, |b|);
    if ok {
      ok := stream.Write(b);
    }
  }

  /** The loop that looks for the terminator. */
  method StringLength(s: Bytes, max: nat) returns (n: nat)
    ensures n == StrLen(s, max)
  {
    n := 0;
    while n < max && n < |s| && s[n] != 0
      invariant n <= |s| && n <= max && StrLen(s, max) == n + StrLen(s[n..], max - n)
    {
      assert s[n..][1..] == s[n + 1..];
      n := n + 1;
    }
  }

  method EncodeSVarint(stream: OStream, n: int) returns (ok: bool)
    requires stream.Valid()
    modifies stream
    ensures stream.Wrote(ok, Some(Varint(ZigZag(n))))
  {
    ok := EncodeVarint(stream, if n < 0 then -2 * n - 1 else 2 * n);
  }

  /** Little-endian, 32 bits at a time. */
  method EncodeFixed64(stream: OStream, n: nat) returns (ok: bool)
    requires stream.Valid() && n < TWO_TO_THE_64
    modifies stream
    ensures stream.Wrote(ok, Some(Fixed64(n)))
  {
    var low, high := n % 0x1_0000_0000, n / 0x1_0000_0000;
    ok := stream.Write([low % 256, low / 0x100 % 256, low / 0x1_0000 % 256, low / 0x100_0000,
                        high % 256, high / 0x100 % 256, high / 0x1_0000 % 256, high / 0x100_0000]);
  }

  // ---- Values ----

  method EncodeScalar(stream: OStream, f: Field, v: Value) returns (ok: bool)
    requires stream.Valid() && f.ltype.Packable() && v.Num?
    modifies stream
    ensures stream.Wrote(ok, EncodeValue(f, v))
  {
    if f.ltype.Fixed32Type? {
      ok := stream.Write(Fixed32(v.n % 0x1_0000_0000));
    } else if f.ltype.Fixed64Type? {
      ok := EncodeFixed64(stream, Low64(v.n));
    } else if Span(f.dataSize) == 0 {
      // invalid data_size
      ok := false;
    } else if f.ltype.SVarintType? {
      ok := EncodeSVarint(stream, v.n);
    } else {
      ok := EncodeVarint(stream, Low64(v.n));
    }
  }

  method EncodeOne(stream: OStream, f: Field, v: Value) returns (ok: bool)
    requires stream.Valid() && ValueShaped(f, v)
    modifies stream
    ensures stream.Wrote(ok, EncodeValue(f, v))
    decreases v, 0
  {
    if f.ltype.Packable() {
      ok := EncodeScalar(stream, f, v);
    } else if f.ltype.BytesType? {
      if |v.bytes| + 4 > f.dataSize {
        // bytes size exceeded
        return false;
      }
      ok := EncodeString(stream, v.bytes);
    } else if f.ltype.StringType? {
      var size := StringLength(v.bytes, f.dataSize);
      ok := EncodeString(stream, v.bytes[..size]);
    } else if f.ltype.FixedLengthBytesType? {
      ok := EncodeString(stream, v.bytes);
    } else {
      ok := EncodeSubmessage(stream, f.ltype.sub, v.message);
    }
  }

  method EncodeTaggedOne(stream: OStream, f: Field, v: Value) returns (ok: bool)
    requires stream.Valid() && ValueShaped(f, v)
    modifies stream
    ensures stream.Wrote(ok, EncodeTagged(f, v))
    decreases v, 1
  {
    ok := PutTag(stream, WireType(f.ltype), f.tag);
    if ok {
      ok := EncodeOne(stream, f, v);
    }
  }

  /** Sized first with a stream that only counts, then written behind its size. */
  method EncodeSubmessage(stream: OStream, d: Descriptor, m: Message) returns (ok: bool)
    requires stream.Valid() && MessageShaped(d, m)
    modifies stream
    ensures stream.Wrote(ok, if EncodeMessage(d, m).Some? then Some(WithLength(EncodeMessage(d, m).value)) else None)
    decreases m, 1
  {
    var substream := new OStream(true, 0, []);
    ok := Encode(substream, d, m);
    if !ok {
      return;
    }
    var size := substream.bytesWritten;
    ok := EncodeVarint(stream, size);
    if !ok {
      return;
    }
    if stream.sizing {
      ok := stream.Count(size);
      return;
    }
    if stream.bytesWritten + size > stream.maxSize {
      return false;
    }
    substream := new OStream(false, size, stream.output);
    ok := Encode(substream, d, m);
    stream.bytesWritten := stream.bytesWritten + substream.bytesWritten;
    stream.output := substream.output;
    if substream.bytesWritten != size {
      // submsg size changed
      ok := false;
    }
  }

  // ---- Fields ----

  /** The items from here on come to `rest`, with what stands before them to `all`. */
  ghost predicate Joins(done: Bytes, rest: Option<Bytes>, all: Option<Bytes>) {
    all == if rest.Some? then Some(done + rest.value) else None
  }

  lemma JoinsStart(all: Option<Bytes>)
    ensures Joins([], all, all)
  {
    assert all.Some? ==> [] + all.value == all.value;
  }

  lemma JoinsNext(done: Bytes, piece: Option<Bytes>, rest: Option<Bytes>, all: Option<Bytes>)
    requires Joins(done, Cat(piece, rest), all)
    ensures piece.Some? ==> Joins(done + piece.value, rest, all)
    ensures all.Some? ==> piece.Some? && |all.value| >= |done| + |piece.value|
  {
    if piece.Some? && rest.Some? {
      assert done + (piece.value + rest.value) == done + piece.value + rest.value;
    }
  }

  /** The items without tags, one behind the other. */
  method EncodePackedItems(stream: OStream, f: Field, s: Slot) returns (ok: bool)
    requires stream.Valid() && f.ltype.Packable() && s.Many? && forall v :: v in s.items ==> ValueShaped(f, v)
    modifies stream
    ensures stream.Wrote(ok, EncodeItems(f, s, true, 0))
  {
    ghost var done: Bytes, all := [], EncodeItems(f, s, true, 0);
    JoinsStart(all);
    for j := 0 to |s.items|
      invariant stream.Wrote(true, Some(done)) && Joins(done, EncodeItems(f, s, true, j), all)
    {
      ghost var piece, rest := EncodeValue(f, s.items[j]), EncodeItems(f, s, true, j + 1);
      JoinsNext(done, piece, rest, all);
      assert s.items[j] in s.items;
      ok := EncodeScalar(stream, f, s.items[j]);
      if !ok {
        return;
      }
      done := done + piece.value;
    }
    ok := true;
  }

  method EncodeTaggedItems(stream: OStream, f: Field, s: Slot) returns (ok: bool)
    requires stream.Valid() && s.Many? && forall v :: v in s.items ==> ValueShaped(f, v)
    modifies stream
    ensures stream.Wrote(ok, EncodeItems(f, s, false, 0))
    decreases s, 0
  {
    ghost var done: Bytes, all := [], EncodeItems(f, s, false, 0);
    JoinsStart(all);
    for j := 0 to |s.items|
      invariant stream.Wrote(true, Some(done)) && Joins(done, EncodeItems(f, s, false, j), all)
    {
      ghost var piece, rest := EncodeTagged(f, s.items[j]), EncodeItems(f, s, false, j + 1);
      JoinsNext(done, piece, rest, all);
      ok := EncodeTaggedOne(stream, f, s.items[j]);
      if !ok {
        return;
      }
      done := done + piece.value;
    }
    ok := true;
  }

  /** Numbers of fixed width need no sizing. */
  lemma {:induction false} FixedWidth(f: Field, s: Slot, j: nat)
    requires (f.ltype.Fixed32Type? || f.ltype.Fixed64Type?) && s.Many? && j <= |s.items| && forall v :: v in s.items ==> v.Num?
    ensures EncodeItems(f, s, true, j).Some?
    ensures |EncodeItems(f, s, true, j).value| == (|s.items| - j) * (if f.ltype.Fixed32Type? then 4 else 8)
    decreases |s.items| - j
  {
    if j < |s.items| {
      assert s.items[j] in s.items;
      FixedWidth(f, s, j + 1);
    }
  }

  /** How many bytes the packed items take. */
  method PackedSize(f: Field, s: Slot) returns (ok: bool, size: nat)
    requires f.ltype.Packable() && s.Many? && forall v :: v in s.items ==> ValueShaped(f, v)
    ensures ok == EncodeItems(f, s, true, 0).Some? && (ok ==> size == |EncodeItems(f, s, true, 0).value|)
  {
    if f.ltype.Fixed32Type? {
      FixedWidth(f, s, 0);
      return true, 4 * |s.items|;
    }
    if f.ltype.Fixed64Type? {
      FixedWidth(f, s, 0);
      return true, 8 * |s.items|;
    }
    var sizestream := new OStream(true, 0, []);
    ok := EncodePackedItems(sizestream, f, s);
    size := sizestream.bytesWritten;
  }

  /** Arrays are always packed if the type allows it. */
  method EncodeArrayField(stream: OStream, f: Field, s: Slot) returns (ok: bool)
    requires stream.Valid() && s.Many? && forall v :: v in s.items ==> ValueShaped(f, v)
    modifies stream
    ensures stream.Wrote(ok, EncodeArray(f, s))
    decreases s, 1
  {
    if |s.items| == 0 {
      return true;
    }
    if |s.items| > f.arraySize {
      // array max size exceeded
      return false;
    }
    if !f.ltype.Packable() {
      ok := EncodeTaggedItems(stream, f, s);
      return;
    }
    ok := PutTag(stream, WT_STRING, f.tag);
    if !ok {
      return;
    }
    var size;
    ok, size := PackedSize(f, s);
    if !ok {
      return;
    }
    ok := EncodeVarint(stream, size);
    if !ok {
      return;
    }
    if stream.sizing {
      // Just sizing
      ok := stream.Count(size);
      return;
    }
    ok := EncodePackedItems(stream, f, s);
  }

  method EncodeBasicField(stream: OStream, f: Field, s: Slot) returns (ok: bool)
    requires stream.Valid() && SlotShaped(f, s)
    modifies stream
    ensures stream.Wrote(ok, EncodeSlot(f, s))
    decreases s, 2
  {
    match s {
      case One(v) => ok := EncodeTaggedOne(stream, f, v);
      case Opt(has, v) =>
        ok := true;
        if has {
          ok := EncodeTaggedOne(stream, f, v);
        }
      case Many(_) => ok := EncodeArrayField(stream, f, s);
      case Choice(content) =>
        ok := true;
        if content.Some? {
          ok := EncodeTaggedOne(stream, f, content.value);
        }
    }
  }

  /** All fields, in descriptor order. */
  method Encode(stream: OStream, d: Descriptor, m: Message) returns (ok: bool)
    requires stream.Valid() && MessageShaped(d, m)
    modifies stream
    ensures stream.Wrote(ok, EncodeMessage(d, m))
    decreases m, 0
  {
    var iter := new FieldIter.Begin(d.fields);
    if d.fields == [] {
      // Empty message type
      return true;
    }
    ghost var done: Bytes, all := [], EncodeMessage(d, m);
    JoinsStart(all);
    var more := true;
    while more
      invariant iter.Valid() && iter.fields == d.fields && fresh(iter)
      invariant stream.Wrote(true, Some(done))
      invariant Joins(done, EncodeFrom(d, m, if more then iter.pos else |d.fields|), all)
      decreases more, |d.fields| - iter.pos
    {
      ghost var piece := EncodeSlot(d.fields[iter.pos], m.slots[iter.pos]);
      JoinsNext(done, piece, EncodeFrom(d, m, iter.pos + 1), all);
      ok := EncodeBasicField(stream, d.fields[iter.pos], m.slots[iter.pos]);
      if !ok {
        return;
      }
      done := done + piece.value;
      more := iter.Next();
    }
    ok := true;
  }

  /** The sizing pass alone. */
  method GetEncodedSize(d: Descriptor, m: Message) returns (ok: bool, size: nat)
    requires MessageShaped(d, m)
    ensures ok == EncodeMessage(d, m).Some? && (ok ==> size == |EncodeMessage(d, m).value|)
  {
    var stream := new OStream(true, 0, []);
    ok := Encode(stream, d, m);
    size := stream.bytesWritten;
  }
}
