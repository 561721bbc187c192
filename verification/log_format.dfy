/** The write-ahead log: records cut into fragments that never cross a 32 KB block,
    each behind a checksummed header. Everything is laid out by file position. */
module LogFormat {
  import opened Keys
  import opened Coding

  const BLOCK: nat := 32768
  const HEADER: nat := 7

  // Record types; zero is reserved for preallocated files
  const ZERO_TYPE: Byte := 0
  const FULL_TYPE: Byte := 1
  const FIRST_TYPE: Byte := 2
  const MIDDLE_TYPE: Byte := 3
  const LAST_TYPE: Byte := 4

  // ---- Positions ----

  /** The bytes from position `p` to the end of its block. */
  function Gap(p: nat): (g: nat)
    ensures 0 < g <= BLOCK
  {
    if p < BLOCK then BLOCK - p else Gap(p - BLOCK)
  }

  lemma {:induction false} GapIsRemainder(p: nat)
    ensures Gap(p) == 32768 - p % 32768
  {
    if p >= BLOCK { GapIsRemainder(p - BLOCK); }
  }

  lemma {:induction false} GapShrinks(p: nat, k: nat)
    requires k < Gap(p)
    ensures Gap(p + k) == Gap(p) - k
  {
    if p >= BLOCK { GapShrinks(p - BLOCK, k); }
  }

  lemma {:induction false} GapEnds(p: nat)
    ensures Gap(p + Gap(p)) == BLOCK
  {
    if p >= BLOCK { GapEnds(p - BLOCK); }
  }

  /** Filler before a fragment whose block has no room for its header. */
  function Pad(p: nat): nat {
    if Gap(p) < HEADER then Gap(p) else 0
  }

  /** The room for payload behind a header placed from position `p`. */
  function Avail(p: nat): nat {
    if Gap(p) < HEADER then BLOCK - HEADER else Gap(p) - HEADER
  }

  /** How many of `len` bytes go into the fragment at `p`. */
  function Room(len: nat, p: nat): (n: nat)
    ensures n <= len && n <= Avail(p) && (n < len ==> n == Avail(p))
  {
    if len < Avail(p) then len else Avail(p)
  }

  /** The position after a fragment of `n` payload bytes placed at `p`. */
  function After(n: nat, p: nat): nat {
    p + Pad(p) + HEADER + n
  }

  /** The position after the rest of a record, `len` bytes, is written from `p`. */
  function EndOf(len: nat, p: nat): (e: nat)
    ensures e >= p + HEADER
    decreases len, BLOCK - Gap(p)
  {
    var n := Room(len, p);
    if n == len then After(n, p)
    else
      FullFragment(p);
      EndOf(len - n, After(n, p))
  }

  /** A fragment that fills its block is followed by a fresh block. */
  lemma FullFragment(p: nat)
    ensures Gap(After(Avail(p), p)) == BLOCK
    ensures Gap(p + Pad(p)) == Avail(p) + HEADER
  {
    GapEnds(p);
    GapEnds(p + Pad(p));
  }

  // ---- Bytes ----

  datatype Fragment = Fragment(kind: Byte, data: Bytes)

  type HeaderBytes = b: Bytes | |b| == HEADER witness [0, 0, 0, 0, 0, 0, 0]

  /** What is written before a fragment's payload. */
  type Framing = Fragment -> HeaderBytes

  /** Masked checksum of type and payload, payload length in two bytes, type. */
  function Header(crc: Checksum, f: Fragment): HeaderBytes {
    Fixed32(Mask(crc([f.kind] + f.data))) + [|f.data| % 256, |f.data| / 256 % 256] + [f.kind]
  }

  function FramingOf(crc: Checksum): Framing {
    (f: Fragment) => Header(crc, f)
  }

  /** `frame` writes the headers that go with `crc`. */
  ghost predicate Frames(frame: Framing, crc: Checksum) {
    forall f: Fragment {:trigger crc([f.kind] + f.data)} :: frame(f) == Header(crc, f)
  }

  datatype ChecksumAndFraming = Codec(crc: Checksum, frame: Framing)

  function ZeroChecksum(): Checksum {
    (b: Bytes) => 0
  }

  /** A checksum with the framing that uses it. */
  type Codec = c: ChecksumAndFraming | Frames(c.frame, c.crc) ghost witness Codec(ZeroChecksum(), FramingOf(ZeroChecksum()))

  function Kind(begin: bool, end: bool): Byte {
    if begin && end then FULL_TYPE
    else if begin then FIRST_TYPE
    else if end then LAST_TYPE
    else MIDDLE_TYPE
  }

  /** The next fragment of a record of which `rest` is still to be written at `p`. */
  function Next(rest: Bytes, begin: bool, p: nat): (f: Fragment)
    ensures |f.data| == Room(|rest|, p) < BLOCK
  {
    var n := Room(|rest|, p);
    Fragment(Kind(begin, n == |rest|), rest[..n])
  }

  function Emitted(frame: Framing, f: Fragment, p: nat): (b: Bytes)
    requires |f.data| < BLOCK
    ensures |b| == After(|f.data|, p) - p
  {
    Zeros(Pad(p)) + frame(f) + f.data
  }

  /** The bytes of the rest of a record written from `p`. */
  function Layout(frame: Framing, rest: Bytes, begin: bool, p: nat): (b: Bytes)
    ensures |b| == EndOf(|rest|, p) - p
    decreases |rest|, BLOCK - Gap(p)
  {
    var n := Room(|rest|, p);
    var e := Emitted(frame, Next(rest, begin, p), p);
    if n == |rest| then e
    else
      FullFragment(p);
      e + Layout(frame, rest[n..], false, After(n, p))
  }

  /** A layout begins with its first fragment, and what is left of the record follows. */
  lemma LayoutSplits(frame: Framing, rest: Bytes, begin: bool, p: nat)
    ensures var n := Room(|rest|, p);
            && (n == |rest| ==> Layout(frame, rest, begin, p) == Emitted(frame, Next(rest, begin, p), p) && EndOf(|rest|, p) == After(n, p))
            && (n < |rest| ==> Layout(frame, rest, begin, p) ==
                               Emitted(frame, Next(rest, begin, p), p) + Layout(frame, rest[n..], false, After(n, p))
                               && EndOf(|rest|, p) == EndOf(|rest| - n, After(n, p)))
  {
  }

  /** The position at which the last of `recs` ends. */
  function Ends(recs: seq<Bytes>): nat {
    if recs == [] then 0 else EndOf(|recs[|recs| - 1]|, Ends(recs[..|recs| - 1]))
  }

  /** The bytes of a file of whole records. */
  function Log(frame: Framing, recs: seq<Bytes>): (b: Bytes)
    ensures |b| == Ends(recs)
  {
    if recs == [] then []
    else Log(frame, recs[..|recs| - 1]) + Layout(frame, recs[|recs| - 1], true, Ends(recs[..|recs| - 1]))
  }

  /** Record `i` of a log is laid out where the records before it end. */
  lemma {:induction false} RecordAt(frame: Framing, recs: seq<Bytes>, i: nat)
    requires i < |recs|
    ensures Ends(recs[..i]) <= Ends(recs[..i + 1]) <= Ends(recs)
    ensures Layout(frame, recs[i], true, Ends(recs[..i])) <= Log(frame, recs)[Ends(recs[..i])..]
  {
    var front := recs[..|recs| - 1];
    var last := Layout(frame, recs[|recs| - 1], true, Ends(front));
    assert Log(frame, recs) == Log(frame, front) + last;
    if i < |front| {
      RecordAt(frame, front, i);
      assert front[..i] == recs[..i] && front[..i + 1] == recs[..i + 1] && front[i] == recs[i];
      PrefixOfExtension(Layout(frame, recs[i], true, Ends(recs[..i])), Log(frame, front), Ends(recs[..i]), last);
    } else {
      assert recs[..i] == front && recs[..i + 1] == recs;
      PrefixOfExtension([], Log(frame, front), Ends(front), last);
    }
  }

  lemma PrefixOfExtension(x: Bytes, a: Bytes, c: nat, b: Bytes)
    requires c <= |a| && x <= a[c..]
    ensures x <= (a + b)[c..]
  {
    assert (a + b)[c..] == a[c..] + b;
  }
}
