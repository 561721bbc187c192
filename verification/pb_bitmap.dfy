/** The bitmap of required fields that were seen: two words, marked by shifted ones and compared
    with shifted masks. */
module PbBitmaps {
  import opened Coding
  import opened Bits
  import opened PbFields

  /** `fields_seen`, for up to 64 fields. */
  datatype Words = Words(low: Word, high: Word)

  const NONE_SEEN := Words(0, 0)

  predicate SeenFrom(base: nat, k: nat, seen: set<nat>) {
    base + k in seen
  }

  /** A word of `width` bits marks the fields from `base` on. */
  ghost predicate WordMarks(v: nat, width: nat, base: nat, seen: set<nat>) {
    forall k: nat :: k < width ==> (Bit(v, k) <==> SeenFrom(base, k, seen))
  }

  ghost predicate Marks(w: Words, seen: set<nat>) {
    WordMarks(w.low, 32, 0, seen) && WordMarks(w.high, 32, 32, seen) && forall k :: k in seen ==> k < 64
  }

  lemma NoneMarked()
    ensures Marks(NONE_SEEN, {})
  {
    forall k: nat
      ensures !Bit(0, k)
    {
      NoBits(k);
    }
  }

  /** `1 << bit` in a word. */
  lemma WordMarked(v: nat, width: nat, base: nat, bit: nat, seen: set<nat>)
    requires WordMarks(v, width, base, seen) && bit < width
    ensures WordMarks(Or(v, Pow2(bit)), width, base, seen + {base + bit})
  {
    forall k: nat | k < width
      ensures Bit(Or(v, Pow2(bit)), k) <==> SeenFrom(base, k, seen + {base + bit})
    {
      BitOfOr(v, Pow2(bit), k);
      BitOfPow2(bit, k);
    }
  }

  /** The other word does not change. */
  lemma WordStays(v: nat, width: nat, base: nat, index: nat, seen: set<nat>)
    requires WordMarks(v, width, base, seen) && (index < base || base + width <= index)
    ensures WordMarks(v, width, base, seen + {index})
  {
    forall k: nat | k < width
      ensures SeenFrom(base, k, seen + {index}) <==> SeenFrom(base, k, seen)
    {
    }
  }

  lemma OrFits(v: Word, bit: nat)
    requires bit < 32
    ensures Or(v, Pow2(bit)) < 0x1_0000_0000
  {
    WordSize();
    Pow2Grows(bit, 32);
    OrStaysBelow(v, Pow2(bit), 32);
  }

  /** Which word, and which bit of it. */
  lemma WordOf(index: nat)
    ensures And(index, 31) == index % 32 && ShiftRight(index, 5) == index / 32
  {
    assert Pow2(5) == 32;
    MaskIsRemainder(index, 5);
    ShiftIsDivision(index, 5);
  }

  /** A word with one more bit. */
  function WithBit(v: Word, bit: nat): (r: Word)
    requires bit < 32
    ensures r == Or(v, Pow2(bit))
  {
    OrFits(v, bit);
    Or(v, Pow2(bit))
  }

  /** Mark a field as seen. */
  method Mark(w: Words, index: nat, ghost seen: set<nat>) returns (w2: Words)
    requires Marks(w, seen) && index < 64
    ensures Marks(w2, seen + {index})
  {
    WordOf(index);
    if ShiftRight(index, 5) == 0 {
      WordMarked(w.low, 32, 0, index, seen);
      WordStays(w.high, 32, 32, index, seen);
      w2 := w.(low := WithBit(w.low, And(index, 31)));
    } else {
      WordMarked(w.high, 32, 32, index - 32, seen);
      WordStays(w.low, 32, 0, index, seen);
      w2 := w.(high := WithBit(w.high, And(index, 31)));
    }
  }

  /** The bits below `n` and no other. */
  ghost predicate OnesBelow(v: nat, width: nat, n: nat) {
    forall k: nat :: k < width ==> (Bit(v, k) <==> k < n)
  }

  lemma OnesAre(ones: nat, width: nat, n: nat)
    requires ones == Pow2(n) - 1
    ensures OnesBelow(ones, width, n)
  {
    forall k: nat | k < width
      ensures Bit(ones, k) <==> k < n
    {
      BitOfOnes(n, k);
    }
  }

  lemma WordIsOnes(v: nat, width: nat, n: nat, ones: nat)
    requires v < Pow2(width) && n <= width && ones == Pow2(n) - 1
    ensures v == ones <==> OnesBelow(v, width, n)
  {
    OnesAre(ones, width, n);
    if n < width {
      Pow2Grows(n, width);
    }
    if OnesBelow(v, width, n) {
      assert forall k: nat :: k < width ==> (Bit(v, k) <==> Bit(ones, k));
      SameBits(v, ones, width);
    }
  }

  const ALL_BITS: Word := 0xFFFF_FFFF

  /** `allbits >> (32 - n)` */
  function Mask(n: nat): (m: nat)
    requires n <= 32
    ensures m == Pow2(n) - 1
  {
    WordSize();
    ShiftedOnes(32, n);
    ShiftRight(ALL_BITS, 32 - n)
  }

  /** A word is that mask when all of its first `n` fields are seen, if there are no more. */
  lemma WordFull(v: nat, width: nat, base: nat, n: nat, ones: nat, seen: set<nat>)
    requires v < Pow2(width) && WordMarks(v, width, base, seen) && n <= width && ones == Pow2(n) - 1
    requires forall k :: k in seen ==> k < base + n || n == width
    ensures v == ones <==> forall k: nat :: k < n ==> SeenFrom(base, k, seen)
  {
    WordIsOnes(v, width, n, ones);
    assert forall k: nat :: n <= k < width ==> !SeenFrom(base, k, seen);
    if forall k: nat :: k < n ==> SeenFrom(base, k, seen) {
      assert OnesBelow(v, width, n);
    }
    if v == ones {
      forall k: nat | k < n
        ensures SeenFrom(base, k, seen)
      {
        assert Bit(v, k);
      }
    }
  }

  lemma Word32Full(v: Word, base: nat, n: nat, seen: set<nat>)
    requires WordMarks(v, 32, base, seen) && n <= 32 && forall k :: k in seen ==> k < base + n || n == 32
    ensures v == Mask(n) <==> forall k: nat :: k < n ==> SeenFrom(base, k, seen)
  {
    WordSize();
    WordFull(v, 32, base, n, Mask(n), seen);
  }

  /** Whole words first, and then the remaining bits of the next one. */
  method AllSeen(w: Words, count: nat, ghost seen: set<nat>) returns (ok: bool)
    requires Marks(w, seen) && (forall k :: k in seen ==> k < count) && 0 < count < 64 && count != 32
    ensures ok <==> forall k :: 0 <= k < count ==> k in seen
  {
    var rest := And(count, 31);
    WordOf(count);
    if ShiftRight(count, 5) == 0 {
      Word32Full(w.low, 0, rest, seen);
      ok := w.low == Mask(rest);
      OneWord(count, seen);
    } else {
      Word32Full(w.low, 0, 32, seen);
      Word32Full(w.high, 32, rest, seen);
      AllOnes();
      ok := w.low == ALL_BITS && w.high == Mask(rest);
      TwoWords(count, rest, seen);
    }
  }

  lemma AllOnes()
    ensures Mask(32) == ALL_BITS
  {
    WordSize();
  }

  lemma OneWord(count: nat, seen: set<nat>)
    ensures (forall k: nat :: k < count ==> SeenFrom(0, k, seen)) <==> forall k :: 0 <= k < count ==> k in seen
  {
    forall k: nat
      ensures SeenFrom(0, k, seen) <==> k in seen
    {
    }
  }

  lemma TwoWords(count: nat, rest: nat, seen: set<nat>)
    requires count == 32 + rest
    ensures (forall k: nat :: k < 32 ==> SeenFrom(0, k, seen)) && (forall k: nat :: k < rest ==> SeenFrom(32, k, seen))
            <==> forall k :: 0 <= k < count ==> k in seen
  {
    if (forall k: nat :: k < 32 ==> SeenFrom(0, k, seen)) && (forall k: nat :: k < rest ==> SeenFrom(32, k, seen)) {
      forall k | 0 <= k < count
        ensures k in seen
      {
        assert k < 32 ==> SeenFrom(0, k, seen);
        assert k >= 32 ==> SeenFrom(32, k - 32, seen);
      }
    }
  }
}
