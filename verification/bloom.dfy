/** Bloom filters: a few bits per key, chosen by double hashing. A key that went in is
    never turned away. */
module Blooms {
  import opened Keys
  import opened Coding
  import Bits

  /** The hash in use: any function. */
  type HashFunction = Bytes -> Word

  /** Bit `i` of a byte, the lowest first. */
  predicate Bit(x: nat, i: nat)
    decreases i
  {
    if i == 0 then x % 2 == 1 else Bit(x / 2, i - 1)
  }

  function WithBit(x: nat, i: nat): (y: nat)
    decreases i
  {
    if i == 0 then x - x % 2 + 1 else x % 2 + 2 * WithBit(x / 2, i - 1)
  }

  /** Setting a bit sets that bit and no other. */
  lemma {:induction false} WithBitIs(x: nat, i: nat, j: nat)
    ensures Bit(WithBit(x, i), j) <==> i == j || Bit(x, j)
    decreases i
  {
    if i > 0 {
      var y := WithBit(x / 2, i - 1);
      assert (x % 2 + 2 * y) / 2 == y && (x % 2 + 2 * y) % 2 == x % 2;
      if j > 0 {
        WithBitIs(x / 2, i - 1, j - 1);
      }
    } else if j > 0 {
      assert (x - x % 2 + 1) / 2 == x / 2;
    }
  }

  lemma {:induction false} WithBitFits(x: nat, i: nat, n: nat)
    requires x < Power(n) && i < n
    ensures WithBit(x, i) < Power(n)
    decreases i
  {
    assert Power(n) == 2 * Power(n - 1);
    if i > 0 {
      assert Power(n - 1) == 2 * Power(n - 2);
      WithBitFits(x / 2, i - 1, n - 1);
    }
  }

  function Power(n: nat): (p: nat)
    ensures p > 0
    decreases n
  {
    if n == 0 then 1 else 2 * Power(n - 1)
  }

  function SetBit(x: Byte, i: nat): Byte
    requires i < 8
  {
    assert Power(8) == 256;
    WithBitFits(x, i, 8);
    WithBit(x, i)
  }

  /** The bit of a filter that a hash picks, out of `bits`. */
  function BitPos(h: Word, bits: nat): (p: nat)
    requires bits > 0
    ensures p < bits
  {
    h % bits
  }

  function RotateRight17(h: Word): Word {
    h / 0x2_0000 + h % 0x2_0000 * 0x8000
  }

  function Add32(a: Word, b: Word): Word {
    if a + b < 0x1_0000_0000 then a + b else a + b - 0x1_0000_0000
  }

  /** The hash of probe `j`. */
  function Probe(h: Word, j: nat): Word
    decreases j
  {
    if j == 0 then h else Add32(Probe(h, j - 1), RotateRight17(h))
  }

  /** Double hashing: each probe adds the hash rotated by 17 bits, modulo 2^32. */
  lemma {:induction false} ProbeIs(h: Word, j: nat)
    ensures Probe(h, j) == (h + j * (h / 0x2_0000 + h % 0x2_0000 * 0x8000)) % 0x1_0000_0000
    decreases j
  {
    if j > 0 {
      ProbeIs(h, j - 1);
      OneMoreStep(h, j - 1, RotateRight17(h), Probe(h, j - 1), 0x1_0000_0000);
    }
  }

  lemma OneMoreStep(h: nat, j: nat, delta: nat, x: nat, m: nat)
    requires m > 0 && x == (h + j * delta) % m && delta < m
    ensures (h + (j + 1) * delta) % m == if x + delta < m then x + delta else x + delta - m
  {
    var a := h + j * delta;
    assert h + (j + 1) * delta == a + delta;
    Carry(a, delta, m);
  }

  lemma Carry(a: nat, d: nat, m: nat)
    requires m > 0 && d < m
    ensures (a + d) % m == if a % m + d < m then a % m + d else a % m + d - m
  {
    var q := a / m;
    assert a == m * q + a % m;
    var r := if a % m + d < m then a % m + d else a % m + d - m;
    var k := if a % m + d < m then q else q + 1;
    assert m * (q + 1) == m * q + m;
    assert a + d == m * k + r;
    Bits.OnlyRemainder(a + d, m, k, r);
  }

  predicate BitSet(bytes: Bytes, p: nat)
    requires p < 8 * |bytes|
  {
    Bit(bytes[p / 8], p % 8)
  }

  /** All of the first `k` probes of `h` find their bit set. */
  ghost predicate ProbesSet(bytes: Bytes, h: Word, k: nat)
    requires bytes != []
  {
    forall j: nat :: j < k ==> ProbeSet(bytes, h, j)
  }

  predicate ProbeSet(bytes: Bytes, h: Word, j: nat)
    requires bytes != []
  {
    BitSet(bytes, BitPos(Probe(h, j), 8 * |bytes|))
  }

  /** What a filter says about a key: the last byte tells how many probes to make. */
  ghost predicate MayMatch(hash: HashFunction, key: Bytes, filter: Bytes) {
    |filter| >= 2 &&
    var k := filter[|filter| - 1];
    (k > 30 || ProbesSet(filter[..|filter| - 1], hash(key), k))
  }

  method KeyMayMatch(hash: HashFunction, key: Bytes, filter: Bytes) returns (r: bool)
    ensures r <==> MayMatch(hash, key, filter)
  {
    if |filter| < 2 {
      return false;
    }
    var bytes := filter[..|filter| - 1];
    var k := filter[|filter| - 1];
    if k > 30 {
      // Reserved for other encodings; consider it a match
      return true;
    }
    var h0 := hash(key);
    var h, delta := h0, RotateRight17(h0);
    for j := 0 to k
      invariant h == Probe(h0, j) && ProbesSet(bytes, h0, j)
    {
      var bitpos := BitPos(h, 8 * |bytes|);
      if !BitSet(bytes, bitpos) {
        assert !ProbeSet(bytes, h0, j);
        return false;
      }
      assert ProbeSet(bytes, h0, j);
      h := Add32(h, delta);
    }
    r := true;
  }

  function WithBitAt(bytes: Bytes, p: nat): Bytes
    requires p < 8 * |bytes|
  {
    bytes[p / 8 := SetBit(bytes[p / 8], p % 8)]
  }

  lemma OneBitSet(bytes: Bytes, p: nat)
    requires p < 8 * |bytes|
    ensures var r := WithBitAt(bytes, p); |r| == |bytes| && forall q :: 0 <= q < 8 * |r| ==> (BitSet(r, q) <==> q == p || BitSet(bytes, q))
  {
    var r := WithBitAt(bytes, p);
    forall q | 0 <= q < 8 * |bytes|
      ensures BitSet(r, q) <==> q == p || BitSet(bytes, q)
    {
      if q / 8 == p / 8 {
        WithBitIs(bytes[p / 8], p % 8, q % 8);
      }
    }
  }

  /** One of the first `k` probes of `h` picks bit `q`. */
  ghost predicate Picks(h: Word, k: nat, bits: nat, q: nat)
    requires bits > 0
  {
    exists j: nat :: j < k && PicksAt(h, j, bits, q)
  }

  predicate PicksAt(h: Word, j: nat, bits: nat, q: nat)
    requires bits > 0
  {
    BitPos(Probe(h, j), bits) == q
  }

  /** `r` is `bytes` with the bits of the first `k` probes of `h`, and no others, set. */
  ghost predicate Added(bytes: Bytes, h: Word, k: nat, r: Bytes)
    requires bytes != []
  {
    && |r| == |bytes|
    && forall q :: 0 <= q < 8 * |r| ==> (BitSet(r, q) <==> BitSet(bytes, q) || Picks(h, k, 8 * |bytes|, q))
  }

  lemma OneMoreProbe(bytes: Bytes, h: Word, j: nat, r: Bytes, next: Bytes)
    requires bytes != [] && Added(bytes, h, j, r) && next == WithBitAt(r, BitPos(Probe(h, j), 8 * |bytes|))
    ensures Added(bytes, h, j + 1, next)
  {
    var p := BitPos(Probe(h, j), 8 * |bytes|);
    OneBitSet(r, p);
    assert PicksAt(h, j, 8 * |bytes|, p);
    forall q | 0 <= q < 8 * |bytes|
      ensures Picks(h, j + 1, 8 * |bytes|, q) <==> q == p || Picks(h, j, 8 * |bytes|, q)
    {
      if Picks(h, j + 1, 8 * |bytes|, q) {
        var m: nat :| m < j + 1 && PicksAt(h, m, 8 * |bytes|, q);
        assert m == j ==> q == p;
      }
    }
  }

  /** Set the bits of one key. */
  method AddKey(bytes: Bytes, h0: Word, k: nat) returns (r: Bytes)
    requires bytes != []
    ensures Added(bytes, h0, k, r)
  {
    r := bytes;
    var h, delta := h0, RotateRight17(h0);
    for j := 0 to k
      invariant |r| == |bytes| && h == Probe(h0, j) && Added(bytes, h0, j, r)
    {
      var next := WithBitAt(r, BitPos(h, 8 * |r|));
      OneMoreProbe(bytes, h0, j, r, next);
      r := next;
      h := Add32(h, delta);
    }
  }

  ghost predicate KeyPicks(hash: HashFunction, keys: seq<Bytes>, i: nat, k: nat, bits: nat, q: nat)
    requires i < |keys| && bits > 0
  {
    Picks(hash(keys[i]), k, bits, q)
  }

  /** The bits of the first `n` keys, and no others. */
  ghost predicate BitsOf(hash: HashFunction, keys: seq<Bytes>, n: nat, k: nat, bytes: Bytes)
    requires n <= |keys| && bytes != []
  {
    forall q :: 0 <= q < 8 * |bytes| ==>
      (BitSet(bytes, q) <==> exists i: nat :: i < n && KeyPicks(hash, keys, i, k, 8 * |bytes|, q))
  }

  /** A filter for `keys`: at least 64 bits, and the number of probes remembered at the end. */
  method CreateFilter(hash: HashFunction, bitsPerKey: nat, k: Byte, keys: seq<Bytes>) returns (filter: Bytes)
    requires 1 <= k <= 30
    ensures |filter| >= 9 && filter[|filter| - 1] == k && 8 * (|filter| - 1) >= |keys| * bitsPerKey
    ensures BitsOf(hash, keys, |keys|, k, filter[..|filter| - 1]) && 8 * |filter| <= |keys| * bitsPerKey + 80
  {
    var bits := |keys| * bitsPerKey;
    if bits < 64 {
      bits := 64;
    }
    var size := (bits + 7) / 8;
    var bytes := Zeros(size);
    ZerosAreClear(size);
    for i := 0 to |keys|
      invariant |bytes| == size && BitsOf(hash, keys, i, k, bytes)
    {
      ghost var before := bytes;
      bytes := AddKey(bytes, hash(keys[i]), k);
      OneMoreKey(hash, keys, i, k, before, bytes);
    }
    filter := bytes + [k];
    assert filter[..|filter| - 1] == bytes;
  }

  lemma ZerosAreClear(n: nat)
    ensures forall p :: 0 <= p < 8 * n ==> !BitSet(Zeros(n), p)
  {
    forall p: nat | p < 8 * n
      ensures !Bit(0, p % 8)
    {
      ZeroBit(p % 8);
    }
  }

  lemma {:induction false} ZeroBit(i: nat)
    ensures !Bit(0, i)
    decreases i
  {
    if i > 0 {
      ZeroBit(i - 1);
    }
  }

  lemma OneMoreKey(hash: HashFunction, keys: seq<Bytes>, i: nat, k: nat, before: Bytes, bytes: Bytes)
    requires i < |keys| && before != [] && BitsOf(hash, keys, i, k, before) && Added(before, hash(keys[i]), k, bytes)
    ensures BitsOf(hash, keys, i + 1, k, bytes)
  {
    forall q | 0 <= q < 8 * |bytes|
      ensures BitSet(bytes, q) <==> exists m: nat :: m < i + 1 && KeyPicks(hash, keys, m, k, 8 * |bytes|, q)
    {
      if m: nat :| m < i + 1 && KeyPicks(hash, keys, m, k, 8 * |bytes|, q) {
        assert m == i ==> Picks(hash(keys[i]), k, 8 * |bytes|, q);
      }
      assert Picks(hash(keys[i]), k, 8 * |bytes|, q) ==> KeyPicks(hash, keys, i, k, 8 * |bytes|, q);
    }
  }

  /** No key that went into a filter is turned away by it. */
  lemma NoFalseNegatives(hash: HashFunction, keys: seq<Bytes>, k: Byte, filter: Bytes, i: nat)
    requires |filter| >= 2 && filter[|filter| - 1] == k && BitsOf(hash, keys, |keys|, k, filter[..|filter| - 1]) && i < |keys|
    ensures MayMatch(hash, keys[i], filter)
  {
    var bytes := filter[..|filter| - 1];
    forall j: nat | j < k
      ensures ProbeSet(bytes, hash(keys[i]), j)
    {
      var q := BitPos(Probe(hash(keys[i]), j), 8 * |bytes|);
      assert PicksAt(hash(keys[i]), j, 8 * |bytes|, q);
      assert KeyPicks(hash, keys, i, k, 8 * |bytes|, q);
    }
  }
}
