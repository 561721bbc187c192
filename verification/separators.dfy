/** Short keys between or after others, for the index of a table: first for byte
    strings in bytewise order, then for internal keys. */
module Separators {
  import opened Keys
  import opened Entries

  lemma {:induction false} LessOrder(a: Bytes, b: Bytes)
    ensures !(Less(a, b) && Less(b, a)) && !Less(a, a)
    ensures a == b || Less(a, b) || Less(b, a)
  {
    RankEmbedsOrder(a, b);
    RankEmbedsOrder(b, a);
    RankEmbedsOrder(a, a);
  }

  /** Strings that agree before `i` compare as their bytes at `i` do. */
  lemma {:induction false} FirstDifference(a: Bytes, b: Bytes, i: nat)
    requires i < |a| && i < |b| && a[..i] == b[..i] && a[i] != b[i]
    ensures Less(a, b) <==> a[i] < b[i]
  {
    if i > 0 {
      assert a[0] == a[..i][0] && b[0] == b[..i][0];
      assert a[1..][..i - 1] == a[..i][1..] && b[1..][..i - 1] == b[..i][1..];
      FirstDifference(a[1..], b[1..], i - 1);
    }
  }

  /** `i` is the first place where the strings differ. */
  ghost predicate DifferAt(a: Bytes, b: Bytes, i: nat) {
    i < |a| && i < |b| && a[..i] == b[..i] && a[i] != b[i]
  }

  lemma SamePrefix(a: Bytes, b: Bytes, n: nat)
    requires n <= |a| && n <= |b| && a[..n] == b[..n]
    ensures forall i :: 0 <= i < n ==> a[i] == b[i]
  {
    forall i | 0 <= i < n
      ensures a[i] == b[i]
    {
      assert a[i] == a[..n][i] && b[i] == b[..n][i];
    }
  }

  /** Raise the first differing byte of `start` and cut behind it, if that stays below `limit`. */
  method FindShortestSeparator(start: Bytes, limit: Bytes) returns (r: Bytes)
    ensures r == start || (|r| <= |start| && Less(start, r) && Less(r, limit))
    ensures forall i: nat :: DifferAt(start, limit, i) ==>
              r == if start[i] < 0xff && start[i] + 1 < limit[i] then start[..i] + [start[i] + 1] else start
  {
    var minLength := if |start| < |limit| then |start| else |limit|;
    var diffIndex := 0;
    while diffIndex < minLength && start[diffIndex] == limit[diffIndex]
      invariant diffIndex <= minLength && start[..diffIndex] == limit[..diffIndex]
    {
      diffIndex := diffIndex + 1;
    }
    r := start;
    forall i: nat | DifferAt(start, limit, i)
      ensures i == diffIndex
    {
      SamePrefix(start, limit, i);
      SamePrefix(start, limit, diffIndex);
    }
    if diffIndex < minLength {
      var diffByte := start[diffIndex];
      if diffByte < 0xff && diffByte + 1 < limit[diffIndex] {
        r := start[..diffIndex] + [diffByte + 1];
        assert r[..diffIndex] == start[..diffIndex];
        FirstDifference(start, r, diffIndex);
        FirstDifference(r, limit, diffIndex);
      }
    }
  }

  /** `i` is the first byte that is not 0xff. */
  ghost predicate RaisedAt(key: Bytes, i: nat) {
    i < |key| && key[i] < 0xff && forall j :: 0 <= j < i ==> key[j] == 0xff
  }

  /** Raise the first byte that can be and cut behind it. */
  method FindShortSuccessor(key: Bytes) returns (r: Bytes)
    ensures r == key || (|r| <= |key| && Less(key, r))
    ensures r == key <==> forall i :: 0 <= i < |key| ==> key[i] == 0xff
    ensures forall i: nat :: RaisedAt(key, i) ==> r == key[..i] + [key[i] + 1]
  {
    for i := 0 to |key|
      invariant forall j :: 0 <= j < i ==> key[j] == 0xff
    {
      if key[i] != 0xff {
        r := key[..i] + [key[i] + 1];
        assert r[..i] == key[..i];
        FirstDifference(key, r, i);
        assert forall k: nat :: RaisedAt(key, k) ==> k == i;
        return;
      }
    }
    // A run of 0xffs; leave it alone
    r := key;
  }

  /** An internal key by its bytes: the user key and the tag. */
  datatype InternalKey = InternalKey(user: Bytes, tag: nat)

  predicate InternalLess(a: InternalKey, b: InternalKey) {
    Less(a.user, b.user) || (a.user == b.user && a.tag > b.tag)
  }

  /** The earliest position of a user key. */
  const MAX_TAG: nat := 0xffff_ffff_ffff_ff01

  /** Shorten the user key; only a result that is shorter and larger is taken. */
  method InternalSeparator(start: InternalKey, limit: InternalKey) returns (r: InternalKey)
    ensures InternalLess(start, limit) ==> !InternalLess(r, start) && InternalLess(r, limit)
    ensures r == start || (Less(start.user, r.user) && Less(r.user, limit.user))
    ensures forall i: nat :: DifferAt(start.user, limit.user, i) ==>
              r == if i + 1 < |start.user| && start.user[i] < 0xff && start.user[i] + 1 < limit.user[i]
                   then InternalKey(start.user[..i] + [start.user[i] + 1], MAX_TAG) else start
  {
    LessOrder(start.user, start.user);
    LessOrder(start.user, limit.user);
    r := start;
    var tmp := FindShortestSeparator(start.user, limit.user);
    if |tmp| < |start.user| && Less(start.user, tmp) {
      // Shorter physically, but larger logically
      LessOrder(start.user, tmp);
      r := InternalKey(tmp, MAX_TAG);
    }
  }

  method InternalSuccessor(key: InternalKey) returns (r: InternalKey)
    ensures !InternalLess(r, key) && (r == key || Less(key.user, r.user))
    ensures forall i: nat :: RaisedAt(key.user, i) && i + 1 < |key.user| ==> r == InternalKey(key.user[..i] + [key.user[i] + 1], MAX_TAG)
  {
    LessOrder(key.user, key.user);
    r := key;
    var tmp := FindShortSuccessor(key.user);
    if |tmp| < |key.user| && Less(key.user, tmp) {
      LessOrder(key.user, tmp);
      r := InternalKey(tmp, MAX_TAG);
    }
  }
}
