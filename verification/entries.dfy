/** Internal keys: a user key with a sequence number and a kind, ordered by
    ascending user key and then by descending tag (sequence number and kind). */
module Entries {
  import opened Keys

  datatype Kind = Deletion | Put

  datatype Entry = Entry(key: UserKey, seqno: nat, kind: Kind, value: Bytes)

  /** The largest sequence number that fits beside the kind in 64 bits. */
  const MAX_SEQUENCE: nat := 0x100_0000_0000_0000 - 1

  /** `PackSequenceAndType`: the kind in the low eight bits. */
  function Tag(e: Entry): nat {
    e.seqno * 256 + if e.kind.Put? then 1 else 0
  }

  /** `InternalKeyComparator::Compare(a, b) < 0`. */
  predicate Before(a: Entry, b: Entry) {
    a.key < b.key || (a.key == b.key && Tag(a) > Tag(b))
  }

  /** The position to seek to for the newest entry of `u` at snapshot `s`. */
  function SeekKey(u: UserKey, s: nat): Entry {
    Entry(u, s, Put, [])
  }

  /** No two entries carry the same user key and sequence number. */
  ghost predicate Distinct(es: set<Entry>) {
    forall e, f :: e in es && f in es && e.key == f.key && e.seqno == f.seqno ==> e == f
  }

  /** Strictly ascending in internal-key order, with distinct sequence numbers per user key. */
  ghost predicate Sorted(list: seq<Entry>) {
    forall i, j :: 0 <= i < j < |list| ==> Precedes(list[i], list[j])
  }

  ghost predicate Precedes(a: Entry, b: Entry) {
    a.key < b.key || (a.key == b.key && a.seqno > b.seqno)
  }

  ghost function Elements(list: seq<Entry>): set<Entry> {
    set e | e in list
  }

  /** `e` is the entry of `u` with the largest sequence number not above `s`. */
  ghost predicate Newest(es: set<Entry>, e: Entry, u: UserKey, s: nat) {
    && e in es && e.key == u && e.seqno <= s
    && forall f :: f in es && f.key == u && f.seqno <= s ==> f.seqno <= e.seqno
  }

  /** What an entry answers to a reader who finds it. */
  function Answer(e: Entry): Option<Bytes> {
    if e.kind.Put? then Some(e.value) else None
  }

  /** What a read of `u` at snapshot `s` answers: the newest entry decides, and a
      deletion counts as absent. */
  ghost function Read(es: set<Entry>, u: UserKey, s: nat): Option<Bytes> {
    if exists e :: Newest(es, e, u, s) && e.kind.Put?
    then var e :| Newest(es, e, u, s) && e.kind.Put?; Some(e.value)
    else None
  }

  /** The user's map at snapshot `s`. */
  ghost function Visible(es: set<Entry>, s: nat): map<UserKey, Bytes> {
    map u | u in (set e | e in es :: e.key) && Read(es, u, s).Some? :: Read(es, u, s).value
  }

  lemma ReadOfNewest(es: set<Entry>, e: Entry, u: UserKey, s: nat)
    requires Distinct(es) && Newest(es, e, u, s)
    ensures Read(es, u, s) == if e.kind.Put? then Some(e.value) else None
  {
  }

  lemma ReadOfNothing(es: set<Entry>, u: UserKey, s: nat)
    requires forall e :: e in es && e.key == u ==> e.seqno > s
    ensures Read(es, u, s) == None
  {
  }

  /** A finite set with an entry of `u` not above `s` has a newest one. */
  lemma {:induction false} NewestExists(es: set<Entry>, f: Entry, s: nat) returns (e: Entry)
    requires f in es && f.seqno <= s
    ensures Newest(es, e, f.key, s)
    decreases s - f.seqno
  {
    if g :| g in es && g.key == f.key && f.seqno < g.seqno <= s {
      e := NewestExists(es, g, s);
    } else {
      e := f;
    }
  }

  /** A read names a newest entry: the way from an answer back to the set. */
  lemma ReadWitness(es: set<Entry>, u: UserKey, s: nat) returns (e: Entry)
    requires Read(es, u, s).Some?
    ensures Newest(es, e, u, s) && e.kind.Put? && Read(es, u, s) == Some(e.value)
  {
    e :| Newest(es, e, u, s) && e.kind.Put? && Read(es, u, s) == Some(e.value);
  }

  /** Entries in a sorted list are distinct, and the comparator's order agrees with the list's. */
  lemma SortedFacts(list: seq<Entry>)
    requires Sorted(list)
    ensures Distinct(Elements(list))
    ensures forall i, j :: 0 <= i < j < |list| ==> Before(list[i], list[j])
  {
  }

  lemma TwoElements(e: Entry, f: Entry)
    ensures Elements([e, f]) == {e, f} && Elements([e]) == {e}
  {
  }
}
