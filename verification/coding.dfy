/** Fixed-width and variable-length integers as bytes, and the masking of checksums. */
module Coding {
  import opened Keys

  type Word = x: int | 0 <= x < 0x1_0000_0000

  function Fixed32(x: Word): (b: Bytes)
    ensures |b| == 4
  {
    [x % 256, x / 0x100 % 256, x / 0x1_0000 % 256, x / 0x100_0000]
  }

  function DecodeFixed32(b: Bytes): Word
    requires |b| >= 4
  {
    b[0] as int + b[1] as int * 0x100 + b[2] as int * 0x1_0000 + b[3] as int * 0x100_0000
  }

  lemma Fixed32RoundTrip(x: Word, rest: Bytes)
    ensures DecodeFixed32(Fixed32(x) + rest) == x
  {
    var q1, q2 := x / 0x100, x / 0x1_0000;
    assert q2 == q1 / 0x100 && x / 0x100_0000 == q2 / 0x100;
  }

  const TWO_TO_THE_64 := 0x1_0000_0000_0000_0000

  function Fixed64(n: nat): (b: Bytes)
    requires n < TWO_TO_THE_64
    ensures |b| == 8
  {
    Fixed32(n % 0x1_0000_0000) + Fixed32(n / 0x1_0000_0000)
  }

  function DecodeFixed64(b: Bytes): nat
    requires |b| >= 8
  {
    DecodeFixed32(b) + 0x1_0000_0000 * DecodeFixed32(b[4..])
  }

  /** Word `index` of an array of words that starts at `base`. */
  function WordAt(data: Bytes, base: nat, index: nat): Word
    requires base + 4 * index + 4 <= |data|
  {
    DecodeFixed32(data[base + 4 * index..])
  }

  ghost predicate AllWords(xs: seq<nat>) {
    forall i :: 0 <= i < |xs| ==> xs[i] < 0x1_0000_0000
  }

  ghost function Fixed32s(xs: seq<nat>): (b: Bytes)
    requires AllWords(xs)
    ensures |b| == 4 * |xs|
  {
    if xs == [] then [] else Fixed32s(xs[..|xs| - 1]) + Fixed32(xs[|xs| - 1])
  }

  /** An array of words reads back, whatever stands before and behind it. */
  lemma {:induction false} Fixed32sDecode(front: Bytes, xs: seq<nat>, tail: Bytes, j: nat)
    requires AllWords(xs) && j < |xs|
    ensures WordAt(front + Fixed32s(xs) + tail, |front|, j) == xs[j]
    decreases |xs|
  {
    var before, last := xs[..|xs| - 1], xs[|xs| - 1];
    var bytes := Fixed32s(before);
    if j < |before| {
      Fixed32sDecode(front, before, Fixed32(last) + tail, j);
      assert front + Fixed32s(xs) + tail == front + bytes + (Fixed32(last) + tail);
    } else {
      var all := front + Fixed32s(xs) + tail;
      assert all[|front| + 4 * j..] == Fixed32(last) + tail;
      Fixed32RoundTrip(last, tail);
    }
  }

  /** Writes an array of words. */
  method PutFixed32s(xs: seq<nat>) returns (b: Bytes)
    requires AllWords(xs)
    ensures b == Fixed32s(xs)
  {
    b := [];
    for i := 0 to |xs|
      invariant b == Fixed32s(xs[..i])
    {
      assert xs[..i + 1][..i] == xs[..i];
      b := b + Fixed32(xs[i]);
    }
    assert xs[..|xs|] == xs;
  }

  /** The checksum in use: any function of the covered bytes. */
  type Checksum = Bytes -> Word

  /** Rotate right by 15 bits and add a constant, modulo 2^32. */
  function Mask(crc: Word): Word {
    (crc / 0x8000 + crc % 0x8000 * 0x2_0000 + 0xa282ead8) % 0x1_0000_0000
  }

  /** Subtract the constant, modulo 2^32, and rotate left by 15 bits. */
  function Unmask(masked: Word): Word {
    var rot := (masked + 0x1_0000_0000 - 0xa282ead8) % 0x1_0000_0000;
    rot / 0x2_0000 + rot % 0x2_0000 * 0x8000
  }

  lemma Parts(hi: nat, lo: nat)
    requires hi < 0x2_0000
    ensures (hi + lo * 0x2_0000) / 0x2_0000 == lo && (hi + lo * 0x2_0000) % 0x2_0000 == hi
  {
  }

  lemma AddThenSubtract(rot: Word)
    ensures ((rot + 0xa282ead8) % 0x1_0000_0000 + 0x1_0000_0000 - 0xa282ead8) % 0x1_0000_0000 == rot
  {
    if rot + 0xa282ead8 < 0x1_0000_0000 {
      assert (rot + 0xa282ead8) % 0x1_0000_0000 == rot + 0xa282ead8;
    } else {
      assert (rot + 0xa282ead8) % 0x1_0000_0000 == rot + 0xa282ead8 - 0x1_0000_0000;
    }
  }

  lemma UnmaskMask(crc: Word)
    ensures Unmask(Mask(crc)) == crc
  {
    var hi, lo := crc / 0x8000, crc % 0x8000;
    Parts(hi, lo);
    AddThenSubtract(hi + lo * 0x2_0000);
  }
}
