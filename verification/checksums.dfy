/** The checksum of logs and tables: CRC32C on numbers, through the bits of words. */
module Checksums {
  import opened Keys
  import opened Bits
  import Coding
  import opened Crc32cs

  /** The number whose one-bits below `n` are those of `c`. */
  function NumberOf(c: Word, n: nat): (v: nat)
    ensures v < Pow2(n)
  {
    if n == 0 then 0 else NumberOf(c, n - 1) + if n - 1 in c then Pow2(n - 1) else 0
  }

  /** The one-bits of a number. */
  function BitsOf(v: nat, n: nat): (c: Word)
    requires v < Pow2(n)
    ensures Within(c, n)
  {
    if n == 0 then {}
    else if v >= Pow2(n - 1) then BitsOf(v - Pow2(n - 1), n - 1) + {n - 1}
    else BitsOf(v, n - 1)
  }

  lemma {:induction false} SameBitsSameNumber(c: Word, d: Word, n: nat)
    requires forall k :: 0 <= k < n ==> (k in c <==> k in d)
    ensures NumberOf(c, n) == NumberOf(d, n)
  {
    if n > 0 {
      SameBitsSameNumber(c, d, n - 1);
    }
  }

  lemma {:induction false} NumberOfBits(v: nat, n: nat)
    requires v < Pow2(n)
    ensures NumberOf(BitsOf(v, n), n) == v
  {
    if n > 0 {
      var rest := if v >= Pow2(n - 1) then v - Pow2(n - 1) else v;
      NumberOfBits(rest, n - 1);
      SameBitsSameNumber(BitsOf(v, n), BitsOf(rest, n - 1), n - 1);
    }
  }

  lemma {:induction false} BitsOfNumber(c: Word, n: nat)
    requires Within(c, n)
    ensures BitsOf(NumberOf(c, n), n) == c
  {
    if n > 0 {
      BitsOfNumber(c - {n - 1}, n - 1);
      SameBitsSameNumber(c, c - {n - 1}, n - 1);
    }
  }

  lemma BitAdds(c: Word, n: nat, below: nat, power: nat)
    requires NumberOf(c, n) == below && Pow2(n) == power
    ensures NumberOf(c, n + 1) == below + (if n in c then power else 0) && Pow2(n + 1) == 2 * power
  {
  }

  /** Eight bits of a number. */
  lemma ByteAdds(c: Word, n: nat, below: nat, power: nat)
    requires NumberOf(c, n) == below && Pow2(n) == power
    ensures NumberOf(c, n + 8) == below + (if n in c then power else 0) + (if n + 1 in c then 2 * power else 0)
              + (if n + 2 in c then 4 * power else 0) + (if n + 3 in c then 8 * power else 0)
              + (if n + 4 in c then 16 * power else 0) + (if n + 5 in c then 32 * power else 0)
              + (if n + 6 in c then 64 * power else 0) + (if n + 7 in c then 128 * power else 0)
    ensures Pow2(n + 8) == 256 * power
  {
    BitAdds(c, n, below, power);
    BitAdds(c, n + 1, NumberOf(c, n + 1), 2 * power);
    BitAdds(c, n + 2, NumberOf(c, n + 2), 4 * power);
    BitAdds(c, n + 3, NumberOf(c, n + 3), 8 * power);
    BitAdds(c, n + 4, NumberOf(c, n + 4), 16 * power);
    BitAdds(c, n + 5, NumberOf(c, n + 5), 32 * power);
    BitAdds(c, n + 6, NumberOf(c, n + 6), 64 * power);
    BitAdds(c, n + 7, NumberOf(c, n + 7), 128 * power);
  }

  ghost predicate InPolynomial(k: nat) {
    k == 3 || k == 4 || k == 5 || k == 6 || k == 8 || k == 9 || k == 11 || k == 12 || k == 13
    || k == 17 || k == 18 || k == 20 || k == 21 || k == 22 || k == 23 || k == 25 || k == 31
  }

  /** The polynomial in the usual reflected notation. */
  lemma PolynomialIs(start: nat)
    requires start == 0
    ensures NumberOf(POLYNOMIAL, start + 32) == 0x82f63b78
  {
    forall k: nat
      ensures k in POLYNOMIAL <==> InPolynomial(k)
    {
    }
    BothHalves(POLYNOMIAL, start);
  }

  lemma BothHalves(c: Word, start: nat)
    requires start == 0 && forall k: nat {:trigger k in c} :: k in c <==> InPolynomial(k)
    ensures NumberOf(c, start + 32) == 0x82f63b78
  {
    LowHalf(c, start);
    HighHalf(c, start + 16);
  }

  lemma LowHalf(c: Word, n: nat)
    requires n == 0 && forall k: nat {:trigger k in c} :: k < 16 ==>
      (k in c <==> k == 3 || k == 4 || k == 5 || k == 6 || k == 8 || k == 9 || k == 11 || k == 12 || k == 13)
    ensures NumberOf(c, n + 16) == 0x3b78 && Pow2(n + 16) == 0x1_0000
  {
    ByteAdds(c, n, 0, 1);
    ByteAdds(c, n + 8, 0x78, 0x100);
  }

  lemma HighHalf(c: Word, n: nat)
    requires n == 16 && NumberOf(c, n) == 0x3b78 && Pow2(n) == 0x1_0000
    requires forall k: nat {:trigger k in c} :: 16 <= k < 32 ==>
      (k in c <==> k == 17 || k == 18 || k == 20 || k == 21 || k == 22 || k == 23 || k == 25 || k == 31)
    ensures NumberOf(c, n + 16) == 0x82f63b78
  {
    ByteAdds(c, n, 0x3b78, 0x1_0000);
    ByteAdds(c, n + 8, 0xf6_3b78, 0x100_0000);
  }

  /** It is what remains of a one in the top bit of a byte, an entry of the table. */
  lemma PolynomialIsInTable(c: Word, w: nat)
    requires w > 0 && c == {w - 1}
    ensures Advance(c, w) == POLYNOMIAL
  {
    AdvanceShifts(c, w - 1);
    AdvanceAdds(c, w - 1, 1);
    OneBit(Crc32cs.ShiftRight(c, w - 1));
  }

  lemma OneBit(c: Word)
    requires forall k: nat {:trigger k in c} :: k in c <==> k == 0
    ensures Advance(c, 1) == POLYNOMIAL
  {
    var rest := Crc32cs.ShiftRight(c, 1);
    assert rest == {};
    NothingElse(rest, POLYNOMIAL);
    assert Advance(c, 1) == Advance(BitStep(c), 0);
  }

  lemma NothingElse(a: Word, b: Word)
    requires a == {}
    ensures Xor(a, b) == b
  {
  }

  // ---- The checksum of a string ----

  function Pieces(b: Bytes, w: nat): (buf: seq<Word>)
    requires Pow2(w) >= 256
    ensures |buf| == |b| && AreBytes(buf, w)
  {
    seq(|b|, i requires 0 <= i < |b| => BitsOf(b[i], w))
  }

  /** `crc32c::Extend` on numbers. */
  function ExtendSum(crc: nat, b: Bytes, w: nat): (v: nat)
    requires Pow2(w) >= 256 && crc < Pow2(4 * w)
    ensures v < Pow2(4 * w)
  {
    NumberOf(Crc(BitsOf(crc, 4 * w), Pieces(b, w), w), 4 * w)
  }

  /** `crc32c::Value` */
  function Sum(b: Bytes, w: nat): (v: nat)
    requires Pow2(w) >= 256
    ensures v < Pow2(4 * w)
  {
    ExtendSum(0, b, w)
  }

  lemma {:induction false} DivideWithin(l: Word, buf: seq<Word>, w: nat)
    requires Within(l, 4 * w) && AreBytes(buf, w) && w >= 8
    ensures Within(Divide(l, buf, w), 4 * w)
  {
    if buf != [] {
      var rest := buf[..|buf| - 1];
      DivideWithin(l, rest, w);
      AdvanceWithin(Xor(Divide(l, rest, w), buf[|buf| - 1]), 4 * w, w);
    }
  }

  lemma CrcWithin(crc: Word, buf: seq<Word>, w: nat)
    requires Within(crc, 4 * w) && AreBytes(buf, w) && w >= 8
    ensures Within(Crc(crc, buf, w), 4 * w)
  {
    DivideWithin(Inverted(crc, w), buf, w);
  }

  lemma CarriedOn(start: Word, a: seq<Word>, b: seq<Word>, w: nat, n: nat)
    requires Within(start, n) && AreBytes(a, w) && w >= 8 && n == 4 * w
    ensures Crc(BitsOf(NumberOf(Crc(start, a, w), n), n), b, w) == Crc(start, a + b, w)
  {
    CrcWithin(start, a, w);
    BitsOfNumber(Crc(start, a, w), n);
    ExtendTwice(start, a, b, w);
  }

  /** A checksum may be carried on from piece to piece: the checksum of a block and its type
      byte is that of the block, extended by the byte. */
  lemma SumExtends(a: Bytes, b: Bytes, w: nat)
    requires Pow2(w) >= 256 && w >= 8
    ensures ExtendSum(Sum(a, w), b, w) == Sum(a + b, w)
  {
    CarriedOn(BitsOf(0, 4 * w), Pieces(a, w), Pieces(b, w), w, 4 * w);
    PiecesAdd(a, b, w);
  }

  lemma PiecesAdd(a: Bytes, b: Bytes, w: nat)
    requires Pow2(w) >= 256
    ensures Pieces(a + b, w) == Pieces(a, w) + Pieces(b, w)
  {
  }

  lemma WordSizes()
    ensures Pow2(8) == 256 && Pow2(32) == 0x1_0000_0000
  {
    assert Pow2(8) == 256;
    WordSize();
  }

  /** The checksum the logs and tables are written with. */
  function Castagnoli(b: Bytes): Coding.Word {
    WordSizes();
    Sum(b, 8)
  }

  const CRC32C: Coding.Checksum := Castagnoli

  /** The accelerated form computes it. */
  method ExtendNumber(crc: nat, b: Bytes, pval: nat, w: nat) returns (r: nat)
    requires Pow2(w) >= 256 && w >= 8 && crc < Pow2(4 * w)
    ensures r == ExtendSum(crc, b, w)
  {
    var c := ExtendBytes(BitsOf(crc, 4 * w), Pieces(b, w), pval, w);
    r := NumberOf(c, 4 * w);
  }
}
