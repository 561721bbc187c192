/** Internal keys as bytes: a user key and eight bytes of sequence number and kind. The
    entries the rest of the model speaks of are what such keys and their values say. */
module InternalKeys {
  import opened Keys
  import opened Coding
  import opened Entries
  import opened BlockFormat
  import opened Separators

  /** `AppendInternalKey` */
  function EncodeKey(user: Bytes, tag: nat): Bytes
    requires tag < TWO_TO_THE_64
  {
    user + Fixed64(tag)
  }

  /** `ExtractUserKey`; the caller knows that eight more bytes follow. */
  function UserPart(k: Bytes): Bytes {
    if |k| < 8 then [] else k[..|k| - 8]
  }

  function TagPart(k: Bytes): (t: nat)
    ensures t < TWO_TO_THE_64
  {
    if |k| < 8 then 0 else DecodeFixed64(k[|k| - 8..])
  }

  /** The key can be parsed: its kind is one of the two. */
  predicate KeyOk(k: Bytes) {
    |k| >= 8 && TagPart(k) % 256 <= 1
  }

  lemma Fixed64RoundTrip(n: nat)
    requires n < TWO_TO_THE_64
    ensures DecodeFixed64(Fixed64(n)) == n
  {
    var low, high := n % 0x1_0000_0000, n / 0x1_0000_0000;
    Fixed32RoundTrip(low, Fixed32(high));
    Fixed32RoundTrip(high, []);
    assert Fixed64(n)[4..] == Fixed32(high) + [];
  }

  lemma KeyParts(user: Bytes, tag: nat)
    requires tag < TWO_TO_THE_64
    ensures UserPart(EncodeKey(user, tag)) == user && TagPart(EncodeKey(user, tag)) == tag
  {
    var k := EncodeKey(user, tag);
    assert k[|k| - 8..] == Fixed64(tag);
    Fixed64RoundTrip(tag);
  }

  /** What a key and a value say. */
  function EntryOf(kv: Pair): Entry {
    Entry(Rank(UserPart(kv.key)), TagPart(kv.key) / 256, if TagPart(kv.key) % 256 == 1 then Put else Deletion, kv.value)
  }

  function EntriesOf(kvs: seq<Pair>): (list: seq<Entry>)
    ensures |list| == |kvs| && forall i :: 0 <= i < |kvs| ==> list[i] == EntryOf(kvs[i])
  {
    seq(|kvs|, i requires 0 <= i < |kvs| => EntryOf(kvs[i]))
  }

  lemma EntryTag(kv: Pair)
    requires KeyOk(kv.key)
    ensures Tag(EntryOf(kv)) == TagPart(kv.key)
  {
  }

  // ---- The internal order, as ranks ----

  /** User keys as in `Rank`; equal ones by descending tag, below all that are longer. */
  function InternalRankOf(user: Bytes, tag: nat): (r: real)
    requires tag < TWO_TO_THE_64
    ensures 0.0 <= r < 1.0 && (r < 1.0 / 257.0 <==> user == [])
  {
    if user == [] then (TWO_TO_THE_64 - 1 - tag) as real / TWO_TO_THE_64 as real / 257.0
    else (user[0] as real + 1.0 + InternalRankOf(user[1..], tag)) / 257.0
  }

  function InternalRank(k: Bytes): real {
    InternalRankOf(UserPart(k), TagPart(k))
  }

  lemma {:induction false} InternalRankOrder(a: Bytes, t: nat, b: Bytes, u: nat)
    requires t < TWO_TO_THE_64 && u < TWO_TO_THE_64
    ensures InternalRankOf(a, t) < InternalRankOf(b, u) <==> Less(a, b) || (a == b && t > u)
    decreases a
  {
    if a != [] && b != [] {
      InternalRankOrder(a[1..], t, b[1..], u);
      assert a == [a[0]] + a[1..] && b == [b[0]] + b[1..];
    }
  }

  /** Comparing ranks of keys is comparing the entries. */
  lemma RankIsBefore(a: Pair, b: Pair)
    requires KeyOk(a.key) && KeyOk(b.key)
    ensures InternalRank(a.key) < InternalRank(b.key) <==> Before(EntryOf(a), EntryOf(b))
  {
    InternalRankOrder(UserPart(a.key), TagPart(a.key), UserPart(b.key), TagPart(b.key));
    RankEmbedsOrder(UserPart(a.key), UserPart(b.key));
    EntryTag(a);
    EntryTag(b);
  }

  // ---- Shorter keys between others ----

  /** `r` may stand in an index between `start`, the last key of a block, and what follows. */
  ghost predicate Follows(start: Bytes, r: Bytes) {
    KeyOk(r) && |r| <= |start| && (r == start || Rank(UserPart(start)) < Rank(UserPart(r)))
  }

  lemma SeekKeyIsOk(user: Bytes)
    ensures MAX_TAG < TWO_TO_THE_64 && KeyOk(EncodeKey(user, MAX_TAG)) && UserPart(EncodeKey(user, MAX_TAG)) == user
  {
    KeyParts(user, MAX_TAG);
  }

  /** `InternalKeyComparator::FindShortestSeparator` on the bytes of keys. */
  method SeparatorKey(start: Bytes, limit: Bytes) returns (r: Bytes)
    requires KeyOk(start) && KeyOk(limit)
    ensures Follows(start, r) && (r == start || Rank(UserPart(r)) < Rank(UserPart(limit)))
    ensures var user, next := UserPart(start), UserPart(limit);
            forall i: nat :: DifferAt(user, next, i) ==>
              r == if i + 1 < |user| && user[i] < 0xff && user[i] + 1 < next[i] then EncodeKey(user[..i] + [user[i] + 1], MAX_TAG) else start
  {
    var short := InternalSeparator(InternalKey(UserPart(start), TagPart(start)), InternalKey(UserPart(limit), TagPart(limit)));
    r := start;
    if |short.user| < |UserPart(start)| {
      ShorterFollows(start, short.user, limit);
      r := EncodeKey(short.user, MAX_TAG);
    }
  }

  lemma ShorterFollows(start: Bytes, short: Bytes, limit: Bytes)
    requires KeyOk(start) && KeyOk(limit) && |short| < |UserPart(start)|
    requires Less(UserPart(start), short) && Less(short, UserPart(limit))
    ensures Follows(start, EncodeKey(short, MAX_TAG)) && Rank(UserPart(EncodeKey(short, MAX_TAG))) < Rank(UserPart(limit))
  {
    SeekKeyIsOk(short);
    RankEmbedsOrder(UserPart(start), short);
    RankEmbedsOrder(short, UserPart(limit));
  }

  /** `InternalKeyComparator::FindShortSuccessor` on the bytes of a key. */
  method SuccessorKey(key: Bytes) returns (r: Bytes)
    requires KeyOk(key)
    ensures Follows(key, r)
    ensures var user := UserPart(key);
            forall i: nat :: RaisedAt(user, i) && i + 1 < |user| ==> r == EncodeKey(user[..i] + [user[i] + 1], MAX_TAG)
  {
    var short := InternalSuccessor(InternalKey(UserPart(key), TagPart(key)));
    r := key;
    if |short.user| < |UserPart(key)| {
      SeekKeyIsOk(short.user);
      RankEmbedsOrder(UserPart(key), short.user);
      r := EncodeKey(short.user, MAX_TAG);
    }
  }

  lemma SeekTag(s: nat)
    requires s <= MAX_SEQUENCE
    ensures 256 * s + 1 < TWO_TO_THE_64 && (256 * s + 1) / 256 == s && (256 * s + 1) % 256 == 1
  {
  }

  /** `LookupKey`: where to seek for the newest entry of a user key at a snapshot. */
  lemma LookupKeySeeks(user: Bytes, s: nat)
    requires s <= MAX_SEQUENCE
    ensures 256 * s + 1 < TWO_TO_THE_64 && KeyOk(EncodeKey(user, 256 * s + 1))
    ensures EntryOf(Pair(EncodeKey(user, 256 * s + 1), [])) == SeekKey(Rank(user), s)
    ensures UserPart(EncodeKey(user, 256 * s + 1)) == user
  {
    SeekTag(s);
    KeyParts(user, 256 * s + 1);
  }
}
