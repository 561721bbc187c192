/** CRC32C, four bytes at a time.

    A word is the set of its one-bits, bit 0 the lowest; exclusive or is then symmetric
    difference. A byte is a word whose bits are below 8. */
module Crc32cs {
  type Word = set<nat>

  function Xor(a: Word, b: Word): Word {
    (a - b) + (b - a)
  }

  function ShiftRight(c: Word, n: nat): (r: Word)
    ensures forall j: nat {:trigger j in r} :: j in r <==> j + n in c
  {
    var r := set k | k in c && k >= n :: k - n;
    assert forall j: nat {:trigger j in r} :: j + n in c ==> j in r by {
      forall j: nat | j + n in c
        ensures j in r
      {
        assert j + n - n == j;
      }
    }
    r
  }

  function ShiftLeft(c: Word, n: nat): (r: Word)
    ensures forall j: nat {:trigger j in r} :: j in r <==> j >= n && j - n in c
  {
    set k | k in c :: k + n
  }

  /** The bits `from` to `to - 1`, in place. */
  function Bits(c: Word, from: nat, to: nat): Word {
    set k | k in c && from <= k < to
  }

  /** 0x82f63b78, the polynomial 0x1edc6f41 with its bits reflected. */
  const POLYNOMIAL: Word := {3, 4, 5, 6, 8, 9, 11, 12, 13, 17, 18, 20, 21, 22, 23, 25, 31}

  /** One bit of the division. */
  function BitStep(c: Word): Word {
    Xor(ShiftRight(c, 1), If(0 in c, POLYNOMIAL))
  }

  function If(b: bool, w: Word): Word {
    if b then w else {}
  }

  function Advance(c: Word, n: nat): Word
    decreases n
  {
    if n == 0 then c else Advance(BitStep(c), n - 1)
  }

  // ---- The register is linear ----

  lemma ShiftLinear(a: Word, b: Word, n: nat)
    ensures ShiftRight(Xor(a, b), n) == Xor(ShiftRight(a, n), ShiftRight(b, n))
  {
    forall j: nat
      ensures j in ShiftRight(Xor(a, b), n) <==> j in Xor(ShiftRight(a, n), ShiftRight(b, n))
    {
    }
  }

  lemma XorRegroups(a: Word, b: Word, c: Word, d: Word)
    ensures Xor(Xor(a, b), Xor(c, d)) == Xor(Xor(a, c), Xor(b, d))
  {
  }

  lemma IfLinear(p: bool, q: bool, w: Word)
    ensures If(p != q, w) == Xor(If(p, w), If(q, w))
  {
  }

  lemma BitStepLinear(a: Word, b: Word)
    ensures BitStep(Xor(a, b)) == Xor(BitStep(a), BitStep(b))
  {
    ShiftLinear(a, b, 1);
    assert 0 in Xor(a, b) <==> (0 in a) != (0 in b);
    IfLinear(0 in a, 0 in b, POLYNOMIAL);
    XorRegroups(ShiftRight(a, 1), ShiftRight(b, 1), If(0 in a, POLYNOMIAL), If(0 in b, POLYNOMIAL));
  }

  lemma {:induction false} AdvanceLinear(a: Word, b: Word, n: nat)
    ensures Advance(Xor(a, b), n) == Xor(Advance(a, n), Advance(b, n))
    decreases n
  {
    if n > 0 {
      BitStepLinear(a, b);
      AdvanceLinear(BitStep(a), BitStep(b), n - 1);
    }
  }

  lemma {:induction false} AdvanceAdds(c: Word, m: nat, n: nat)
    ensures Advance(Advance(c, m), n) == Advance(c, m + n)
    decreases m
  {
    if m > 0 {
      AdvanceAdds(BitStep(c), m - 1, n);
    }
  }

  /** Bits that do not reach the low end are only shifted. */
  lemma {:induction false} AdvanceShifts(c: Word, n: nat)
    requires forall k :: k in c ==> k >= n
    ensures Advance(c, n) == ShiftRight(c, n)
    decreases n
  {
    if n == 0 {
      assert ShiftRight(c, 0) == c;
    } else {
      var c1 := BitStep(c);
      assert c1 == ShiftRight(c, 1);
      AdvanceShifts(c1, n - 1);
      assert ShiftRight(c1, n - 1) == ShiftRight(c, n);
    }
  }

  // ---- Bytes and words: `w` is the width of a byte, eight bits ----

  ghost predicate Within(c: Word, n: nat) {
    forall k :: k in c ==> k < n
  }

  ghost predicate AreBytes(buf: seq<Word>, w: nat) {
    forall i :: 0 <= i < |buf| ==> Within(buf[i], w)
  }

  /** A little-endian load of four bytes. */
  function Load(b0: Word, b1: Word, b2: Word, b3: Word, w: nat): Word {
    Xor(Xor(Xor(b0, ShiftLeft(b1, w)), ShiftLeft(b2, 2 * w)), ShiftLeft(b3, 3 * w))
  }

  /** Entry `b` of the table for `n` bits: a byte and zero bits behind it. Tables 0 to 3 are
      for 8, 16, 24 and 32 bits. */
  function Table(n: nat, b: Word): Word {
    Advance(b, n)
  }

  /** The byte that starts at bit `from`. */
  function ByteAt(c: Word, from: nat, w: nat): Word {
    Bits(ShiftRight(c, from), 0, w)
  }

  /** The macro STEP1. */
  function Step1(l: Word, b: Word, w: nat): Word {
    Xor(Table(w, Xor(Bits(l, 0, w), b)), ShiftRight(l, w))
  }

  /** The macro STEP4. */
  function Step4(l: Word, word: Word, w: nat): Word {
    var c := Xor(l, word);
    Xor(Xor(Xor(Table(4 * w, ByteAt(c, 0, w)), Table(3 * w, ByteAt(c, w, w))), Table(2 * w, ByteAt(c, 2 * w, w))),
        Table(w, ByteAt(c, 3 * w, w)))
  }

  // ---- The serial form ----

  /** A byte goes into the low end and is divided bit by bit. */
  function ByteStep(l: Word, b: Word, w: nat): Word {
    Advance(Xor(l, b), w)
  }

  function Divide(l: Word, buf: seq<Word>, w: nat): Word {
    if buf == [] then l else ByteStep(Divide(l, buf[..|buf| - 1], w), buf[|buf| - 1], w)
  }

  function Ones(n: nat): (c: Word)
    ensures forall k: nat :: k in c <==> k < n
  {
    if n == 0 then {} else Ones(n - 1) + {n - 1}
  }

  /** The register starts and ends inverted. */
  function Inverted(c: Word, w: nat): Word {
    Xor(c, Ones(4 * w))
  }

  /** CRC32C (section 12.1 of RFC 3720) of what came before carried on over `buf`. */
  function Crc(crc: Word, buf: seq<Word>, w: nat): Word {
    Inverted(Divide(Inverted(crc, w), buf, w), w)
  }

  lemma {:induction false} DivideAdds(l: Word, a: seq<Word>, b: seq<Word>, w: nat)
    ensures Divide(Divide(l, a, w), b, w) == Divide(l, a + b, w)
    decreases |b|
  {
    if b == [] {
      assert a + b == a;
    } else {
      DivideAdds(l, a, b[..|b| - 1], w);
      assert (a + b)[..|a + b| - 1] == a + b[..|b| - 1];
    }
  }

  lemma InvertTwice(c: Word, w: nat)
    ensures Inverted(Inverted(c, w), w) == c
  {
  }

  /** Extending by two strings in turn is extending by both. */
  lemma ExtendTwice(crc: Word, a: seq<Word>, b: seq<Word>, w: nat)
    ensures Crc(Crc(crc, a, w), b, w) == Crc(crc, a + b, w)
  {
    InvertTwice(Divide(Inverted(crc, w), a, w), w);
    DivideAdds(Inverted(crc, w), a, b, w);
  }

  // ---- The fast form ----

  /** STEP1 is a byte step. */
  lemma Step1IsByteStep(l: Word, b: Word, w: nat)
    requires Within(b, w)
    ensures Step1(l, b, w) == ByteStep(l, b, w)
  {
    var low, high := Xor(Bits(l, 0, w), b), ShiftLeft(ShiftRight(l, w), w);
    assert Xor(l, b) == Xor(low, high);
    AdvanceLinear(low, high, w);
    AdvanceShifts(high, w);
    assert ShiftRight(high, w) == ShiftRight(l, w);
  }

  /** A byte that comes in after `n` steps could have come in `n` places further up. */
  lemma Absorb(x: Word, b: Word, n: nat)
    ensures Xor(Advance(x, n), b) == Advance(Xor(x, ShiftLeft(b, n)), n)
  {
    AdvanceLinear(x, ShiftLeft(b, n), n);
    AdvanceShifts(ShiftLeft(b, n), n);
    assert ShiftRight(ShiftLeft(b, n), n) == b;
  }

  /** Absorb one more byte behind `n` steps. */
  lemma AbsorbByte(x: Word, b: Word, n: nat, w: nat)
    ensures ByteStep(Advance(x, n), b, w) == Advance(Xor(x, ShiftLeft(b, n)), n + w)
  {
    Absorb(x, b, n);
    AdvanceAdds(Xor(x, ShiftLeft(b, n)), n, w);
  }

  lemma XorAssociates(l: Word, b0: Word, b1: Word, b2: Word, b3: Word)
    ensures Xor(Xor(Xor(Xor(l, b0), b1), b2), b3) == Xor(l, Xor(Xor(Xor(b0, b1), b2), b3))
  {
  }

  lemma FourByteSteps(l: Word, b0: Word, b1: Word, b2: Word, b3: Word, w: nat)
    ensures ByteStep(ByteStep(ByteStep(ByteStep(l, b0, w), b1, w), b2, w), b3, w) == Advance(Xor(l, Load(b0, b1, b2, b3, w)), 4 * w)
  {
    var x0 := Xor(l, b0);
    var x1 := Xor(x0, ShiftLeft(b1, w));
    var x2 := Xor(x1, ShiftLeft(b2, 2 * w));
    AbsorbByte(x0, b1, w, w);
    AbsorbByte(x1, b2, 2 * w, w);
    AbsorbByte(x2, b3, 3 * w, w);
    XorAssociates(l, b0, ShiftLeft(b1, w), ShiftLeft(b2, 2 * w), ShiftLeft(b3, 3 * w));
  }

  /** A byte in the middle of a word is looked up in the table for the bits it has to go. */
  lemma OneByte(c: Word, from: nat, w: nat)
    requires from <= 4 * w
    ensures Advance(Bits(c, from, from + w), 4 * w) == Table(4 * w - from, ByteAt(c, from, w))
  {
    var part := Bits(c, from, from + w);
    AdvanceAdds(part, from, 4 * w - from);
    AdvanceShifts(part, from);
    assert ShiftRight(part, from) == ByteAt(c, from, w);
  }

  lemma FourParts(c: Word, w: nat)
    requires Within(c, 4 * w)
    ensures c == Xor(Xor(Xor(Bits(c, 0, w), Bits(c, w, 2 * w)), Bits(c, 2 * w, 3 * w)), Bits(c, 3 * w, 4 * w))
  {
  }

  lemma Step4IsAdvance(l: Word, word: Word, w: nat)
    requires Within(Xor(l, word), 4 * w)
    ensures Step4(l, word, w) == Advance(Xor(l, word), 4 * w)
  {
    var c := Xor(l, word);
    var p0, p1, p2, p3 := Bits(c, 0, w), Bits(c, w, 2 * w), Bits(c, 2 * w, 3 * w), Bits(c, 3 * w, 4 * w);
    FourParts(c, w);
    AdvanceLinear(Xor(Xor(p0, p1), p2), p3, 4 * w);
    AdvanceLinear(Xor(p0, p1), p2, 4 * w);
    AdvanceLinear(p0, p1, 4 * w);
    OneByte(c, 0, w);
    OneByte(c, w, w);
    OneByte(c, 2 * w, w);
    OneByte(c, 3 * w, w);
  }

  /** Words stay words: the polynomial has 32 bits. */
  lemma {:induction false} AdvanceWithin(c: Word, n: nat, m: nat)
    requires Within(c, n) && n >= 32
    ensures Within(Advance(c, m), n)
    decreases m
  {
    if m > 0 {
      assert Within(POLYNOMIAL, n);
      assert Within(ShiftRight(c, 1), n);
      AdvanceWithin(BitStep(c), n, m - 1);
    }
  }

  /** STEP4 is four byte steps. */
  lemma Step4IsFourByteSteps(l: Word, b0: Word, b1: Word, b2: Word, b3: Word, w: nat)
    requires Within(l, 4 * w) && Within(b0, w) && Within(b1, w) && Within(b2, w) && Within(b3, w) && w >= 8
    ensures Step4(l, Load(b0, b1, b2, b3, w), w) == ByteStep(ByteStep(ByteStep(ByteStep(l, b0, w), b1, w), b2, w), b3, w)
    ensures Within(Step4(l, Load(b0, b1, b2, b3, w), w), 4 * w)
  {
    var word := Load(b0, b1, b2, b3, w);
    assert Within(ShiftLeft(b1, w), 4 * w) && Within(ShiftLeft(b2, 2 * w), 4 * w) && Within(ShiftLeft(b3, 3 * w), 4 * w);
    assert Within(Xor(l, word), 4 * w);
    Step4IsAdvance(l, word, w);
    FourByteSteps(l, b0, b1, b2, b3, w);
    AdvanceWithin(Xor(l, word), 4 * w, 4 * w);
  }

  /** What the register holds behind the first `p` bytes. */
  ghost predicate Divided(l: Word, start: Word, buf: seq<Word>, p: nat, w: nat) {
    p <= |buf| && l == Divide(start, buf[..p], w) && Within(l, 4 * w)
  }

  lemma DivideNext(start: Word, buf: seq<Word>, p: nat, w: nat)
    requires p < |buf|
    ensures Divide(start, buf[..p + 1], w) == ByteStep(Divide(start, buf[..p], w), buf[p], w)
  {
    assert buf[..p + 1][..p] == buf[..p];
  }

  lemma Divide1(l: Word, start: Word, buf: seq<Word>, p: nat, w: nat)
    requires p < |buf| && AreBytes(buf, w) && Divided(l, start, buf, p, w) && w >= 8
    ensures Divided(Step1(l, buf[p], w), start, buf, p + 1, w)
  {
    Step1IsByteStep(l, buf[p], w);
    DivideNext(start, buf, p, w);
    assert Within(Xor(l, buf[p]), 4 * w);
    AdvanceWithin(Xor(l, buf[p]), 4 * w, w);
  }

  lemma Divide4(l: Word, start: Word, buf: seq<Word>, p: nat, w: nat)
    requires p + 4 <= |buf| && AreBytes(buf, w) && Divided(l, start, buf, p, w) && w >= 8
    ensures Divided(Step4(l, Load(buf[p], buf[p + 1], buf[p + 2], buf[p + 3], w), w), start, buf, p + 4, w)
  {
    Step4IsFourByteSteps(l, buf[p], buf[p + 1], buf[p + 2], buf[p + 3], w);
    DivideNext(start, buf, p, w);
    DivideNext(start, buf, p + 1, w);
    DivideNext(start, buf, p + 2, w);
    DivideNext(start, buf, p + 3, w);
  }

  method OneByteMore(l: Word, ghost start: Word, buf: seq<Word>, p: nat, w: nat) returns (l2: Word)
    requires p < |buf| && AreBytes(buf, w) && Divided(l, start, buf, p, w) && w >= 8
    ensures Divided(l2, start, buf, p + 1, w)
  {
    Divide1(l, start, buf, p, w);
    l2 := Step1(l, buf[p], w);
  }

  /** Four bytes from `p` on. */
  method FourBytes(l: Word, ghost start: Word, buf: seq<Word>, p: nat, w: nat) returns (l2: Word)
    requires p + 4 <= |buf| && AreBytes(buf, w) && Divided(l, start, buf, p, w) && w >= 8
    ensures Divided(l2, start, buf, p + 4, w)
  {
    Divide4(l, start, buf, p, w);
    l2 := Step4(l, Load(buf[p], buf[p + 1], buf[p + 2], buf[p + 3], w), w);
  }

  method SixteenBytes(l: Word, ghost start: Word, buf: seq<Word>, p: nat, w: nat) returns (l2: Word)
    requires p + 16 <= |buf| && AreBytes(buf, w) && Divided(l, start, buf, p, w) && w >= 8
    ensures Divided(l2, start, buf, p + 16, w)
  {
    l2 := FourBytes(l, start, buf, p, w);
    l2 := FourBytes(l2, start, buf, p + 4, w);
    l2 := FourBytes(l2, start, buf, p + 8, w);
    l2 := FourBytes(l2, start, buf, p + 12, w);
  }

  /** Single bytes from `p` up to `end`. */
  method ByteLoop(l: Word, ghost start: Word, buf: seq<Word>, p: nat, end: nat, w: nat) returns (l2: Word)
    requires p <= end <= |buf| && AreBytes(buf, w) && Divided(l, start, buf, p, w) && w >= 8
    ensures Divided(l2, start, buf, end, w)
  {
    var q := p;
    l2 := l;
    while q != end
      invariant q <= end && Divided(l2, start, buf, q, w)
      decreases end - q
    {
      l2 := OneByteMore(l2, start, buf, q, w);
      q := q + 1;
    }
  }

  /** The buffer stands at address `pval`: bytes up to a word boundary, sixteen at a time,
      four at a time and the last ones. */
  method ExtendBytes(crc: Word, buf: seq<Word>, pval: nat, w: nat) returns (r: Word)
    requires Within(crc, 4 * w) && AreBytes(buf, w) && w >= 8
    ensures r == Crc(crc, buf, w)
  {
    var l, p: nat := Inverted(crc, w), 0;
    ghost var start := l;
    assert buf[..0] == [];
    // Point x at first 4-byte aligned byte, which might be past the end
    var x := (pval + 3) / 4 * 4 - pval;
    if x <= |buf| {
      l := ByteLoop(l, start, buf, p, x, w);
      p := x;
    }
    while |buf| - p >= 16
      invariant Divided(l, start, buf, p, w)
    {
      l := SixteenBytes(l, start, buf, p, w);
      p := p + 16;
    }
    while |buf| - p >= 4
      invariant Divided(l, start, buf, p, w)
    {
      l := FourBytes(l, start, buf, p, w);
      p := p + 4;
    }
    l := ByteLoop(l, start, buf, p, |buf|, w);
    assert buf[..|buf|] == buf;
    r := Inverted(l, w);
  }

  /** With bytes of eight bits. */
  method Extend(crc: Word, buf: seq<Word>, pval: nat) returns (r: Word)
    requires Within(crc, 32) && AreBytes(buf, 8)
    ensures r == Crc(crc, buf, 8)
  {
    r := ExtendBytes(crc, buf, pval, 8);
  }
}
