/** The LRU cache: reference counts decide whether an entry waits on the LRU list, is in
    use, or is freed. */
module LRUCaches {
  import opened Keys
  import opened HandleTables

  ghost predicate NoDup(list: seq<Handle>) {
    list == [] || (list[0] !in list[1..] && NoDup(list[1..]))
  }

  function Charges(list: seq<Handle>): nat {
    if list == [] then 0 else list[0].charge + Charges(list[1..])
  }

  /** `LRU_Remove`: the list without `e`. */
  function Without(list: seq<Handle>, e: Handle): seq<Handle> {
    if list == [] then [] else if list[0] == e then list[1..] else [list[0]] + Without(list[1..], e)
  }

  lemma {:induction false} WithoutIs(list: seq<Handle>, e: Handle)
    requires NoDup(list)
    ensures NoDup(Without(list, e)) && forall h :: h in Without(list, e) <==> h in list && h != e
    ensures Charges(list) == Charges(Without(list, e)) + if e in list then e.charge else 0
    ensures e !in list ==> Without(list, e) == list
  {
    if list != [] {
      assert list == [list[0]] + list[1..];
      if list[0] != e {
        WithoutIs(list[1..], e);
        assert ([list[0]] + Without(list[1..], e))[1..] == Without(list[1..], e);
      }
    }
  }

  lemma {:induction false} ChargesAppend(list: seq<Handle>, e: Handle)
    ensures Charges(list + [e]) == Charges(list) + e.charge
  {
    if list == [] {
      assert ([e])[1..] == [];
    } else {
      ChargesAppend(list[1..], e);
      assert (list + [e])[1..] == list[1..] + [e];
    }
  }

  lemma {:induction false} AppendNew(list: seq<Handle>, e: Handle)
    requires NoDup(list) && e !in list
    ensures NoDup(list + [e]) && forall h :: h in list + [e] <==> h in list || h == e
  {
    if list == [] {
      assert ([e])[1..] == [];
    } else {
      AppendNew(list[1..], e);
      assert (list + [e])[1..] == list[1..] + [e];
    }
  }

  type Counts = map<Handle, int>

  /** The references clients hold, each as often as it is held. */
  type Clients = multiset<Handle>

  ghost predicate Within(inCache: set<Handle>, refs: Counts) {
    forall h :: h in inCache ==> h in refs
  }

  /** `lru` lists the entries in the cache nobody else refers to. */
  ghost predicate OnLru(lru: seq<Handle>, inCache: set<Handle>, refs: Counts)
    requires Within(inCache, refs)
  {
    NoDup(lru) && forall h :: h in lru <==> h in inCache && refs[h] == 1
  }

  /** `inUse` lists those clients refer to. */
  ghost predicate OnInUse(inUse: seq<Handle>, inCache: set<Handle>, refs: Counts)
    requires Within(inCache, refs)
  {
    NoDup(inUse) && forall h :: h in inUse <==> h in inCache && refs[h] >= 2
  }

  /** Each entry in the cache is on the list its reference count calls for, and `usage`
      is what they are charged. */
  ghost predicate ListsOk(lru: seq<Handle>, inUse: seq<Handle>, inCache: set<Handle>, refs: Counts, usage: nat) {
    forall x {:trigger Asked(OfPart, x)} :: Asked(OfPart, x) ==>
      && Within(inCache, refs) && OnLru(lru, inCache, refs) && OnInUse(inUse, inCache, refs)
      && usage == Charges(lru) + Charges(inUse)
  }

  lemma ListsFacts(lru: seq<Handle>, inUse: seq<Handle>, inCache: set<Handle>, refs: Counts, usage: nat)
    requires ListsOk(lru, inUse, inCache, refs, usage)
    ensures Within(inCache, refs) && OnLru(lru, inCache, refs) && OnInUse(inUse, inCache, refs)
    ensures usage == Charges(lru) + Charges(inUse)
  {
    assert Asked(OfPart, 0);
  }

  /** A count is the clients' references and the cache's own. */
  ghost predicate Counted(refs: Counts, held: Clients, inCache: set<Handle>, nextId: nat) {
    && (forall h :: h in held ==> h in refs)
    && forall h :: h in refs ==> refs[h] >= 1 && refs[h] == held[h] + (if h in inCache then 1 else 0) && h.id < nextId
  }

  /** What has been passed to its deleter is no longer counted, so it cannot be again. */
  ghost predicate DeletedOnce(refs: Counts, nextId: nat, deleted: set<Handle>) {
    forall h :: h in deleted ==> h !in refs && h.id < nextId
  }

  ghost predicate CountsOk(refs: Counts, held: Clients, inCache: set<Handle>, nextId: nat, deleted: set<Handle>) {
    forall x {:trigger Asked(OfPart, x)} :: Asked(OfPart, x) ==> Counted(refs, held, inCache, nextId) && DeletedOnce(refs, nextId, deleted)
  }

  lemma CountsFacts(refs: Counts, held: Clients, inCache: set<Handle>, nextId: nat, deleted: set<Handle>)
    requires CountsOk(refs, held, inCache, nextId, deleted)
    ensures Counted(refs, held, inCache, nextId) && DeletedOnce(refs, nextId, deleted)
  {
    assert Asked(OfPart, 0);
  }

  /** What has been deleted once a reference to `e` is dropped. */
  ghost function Deleted(deleted: set<Handle>, refs: Counts, e: Handle): set<Handle>
    requires e in refs
  {
    if refs[e] == 1 then deleted + {e} else deleted
  }

  /** What has been deleted once the cache drops its reference: entries nobody holds. */
  function Unheld(deleted: set<Handle>, held: Clients, e: Handle): set<Handle> {
    if held[e] == 0 then deleted + {e} else deleted
  }

  /** The counts with one reference less; the last one takes the entry out. */
  function OneLess(refs: Counts, e: Handle): Counts
    requires e in refs && refs[e] >= 1
  {
    if refs[e] == 1 then refs - {e} else refs[e := refs[e] - 1]
  }

  lemma ToInUse(lru: seq<Handle>, inUse: seq<Handle>, inCache: set<Handle>, refs: Counts, usage: nat, e: Handle)
    requires ListsOk(lru, inUse, inCache, refs, usage) && e in inCache && e in refs && refs[e] == 1
    ensures ListsOk(Without(lru, e), inUse + [e], inCache, refs[e := 2], usage)
  {
    ListsFacts(lru, inUse, inCache, refs, usage);
    WithoutIs(lru, e);
    AppendNew(inUse, e);
    ChargesAppend(inUse, e);
    assert OnLru(Without(lru, e), inCache, refs[e := 2]);
    assert OnInUse(inUse + [e], inCache, refs[e := 2]);
  }

  lemma ToLru(lru: seq<Handle>, inUse: seq<Handle>, inCache: set<Handle>, refs: Counts, usage: nat, e: Handle)
    requires ListsOk(lru, inUse, inCache, refs, usage) && e in inCache && e in refs && refs[e] == 2
    ensures ListsOk(lru + [e], Without(inUse, e), inCache, refs[e := 1], usage)
  {
    ListsFacts(lru, inUse, inCache, refs, usage);
    WithoutIs(inUse, e);
    AppendNew(lru, e);
    ChargesAppend(lru, e);
    assert OnLru(lru + [e], inCache, refs[e := 1]);
    assert OnInUse(Without(inUse, e), inCache, refs[e := 1]);
  }

  lemma OutOfCache(lru: seq<Handle>, inUse: seq<Handle>, inCache: set<Handle>, refs: Counts, usage: nat, e: Handle)
    requires ListsOk(lru, inUse, inCache, refs, usage) && e in inCache && e in refs && refs[e] >= 1
    ensures e.charge <= usage && ListsOk(Without(lru, e), Without(inUse, e), inCache - {e}, refs, usage - e.charge)
    ensures (refs[e] == 1 ==> Without(inUse, e) == inUse) && (refs[e] > 1 ==> Without(lru, e) == lru)
  {
    ListsFacts(lru, inUse, inCache, refs, usage);
    WithoutIs(lru, e);
    WithoutIs(inUse, e);
    assert OnLru(Without(lru, e), inCache - {e}, refs);
    assert OnInUse(Without(inUse, e), inCache - {e}, refs);
  }

  /** Dropping a reference that leaves the entry where it is. */
  lemma ListsKept(lru: seq<Handle>, inUse: seq<Handle>, inCache: set<Handle>, refs: Counts, usage: nat, e: Handle)
    requires ListsOk(lru, inUse, inCache, refs, usage) && e in refs && refs[e] >= 1 && (e in inCache ==> refs[e] > 2)
    ensures ListsOk(lru, inUse, inCache, OneLess(refs, e), usage)
  {
    ListsFacts(lru, inUse, inCache, refs, usage);
    assert OnLru(lru, inCache, OneLess(refs, e));
    assert OnInUse(inUse, inCache, OneLess(refs, e));
  }

  lemma ListsKeptMore(lru: seq<Handle>, inUse: seq<Handle>, inCache: set<Handle>, refs: Counts, usage: nat, e: Handle)
    requires ListsOk(lru, inUse, inCache, refs, usage) && e in refs && refs[e] >= 1 && (e in inCache ==> refs[e] > 1)
    ensures Without(lru, e) == lru
    ensures ListsOk(lru, inUse, inCache, refs[e := refs[e] + 1], usage)
  {
    ListsFacts(lru, inUse, inCache, refs, usage);
    WithoutIs(lru, e);
    assert OnLru(lru, inCache, refs[e := refs[e] + 1]);
    assert OnInUse(inUse, inCache, refs[e := refs[e] + 1]);
  }

  lemma OneMoreReference(refs: Counts, held: Clients, inCache: set<Handle>, nextId: nat, deleted: set<Handle>, e: Handle)
    requires CountsOk(refs, held, inCache, nextId, deleted) && e in refs
    ensures CountsOk(refs[e := refs[e] + 1], held[e := held[e] + 1], inCache, nextId, deleted) && refs[e] >= 1
  {
    CountsFacts(refs, held, inCache, nextId, deleted);
  }

  class LRUCache {
    const capacity: nat
    const table: HandleTable
    var usage: nat
    var lru: seq<Handle>            // oldest first
    var inUse: seq<Handle>
    var inCache: set<Handle>        // the entries whose flag is set
    var refs: Counts                // of every entry not freed
    var nextId: nat
    ghost var held: Clients
    ghost var deleted: set<Handle>  // entries passed to their deleters
    ghost var deleterRuns: nat

    /** Besides, no deleter has run twice for an entry. */
    ghost predicate Linked()
      reads `lru, `inUse, `inCache, `refs, `usage, `held, `nextId, `deleted, `deleterRuns
    {
      ListsOk(lru, inUse, inCache, refs, usage) && CountsOk(refs, held, inCache, nextId, deleted) && deleterRuns == |deleted|
    }

    /** The table names exactly the entries in the cache. */
    ghost predicate TableMatches()
      reads `inCache, table
    {
      table.Ok() && (capacity == 0 ==> inCache == {}) && Mirrors(inCache, table.contents)
    }

    ghost predicate Valid()
      reads this, table
    {
      Linked() && TableMatches()
    }

    ghost predicate NamedBy(e: Handle)
      reads table
    {
      Names(table.contents, e)
    }

    constructor (capacity: nat)
      ensures Valid() && fresh(table) && this.capacity == capacity && held == multiset{} && deleted == {}
    {
      this.capacity := capacity;
      table := new HandleTable();
      usage, lru, inUse, inCache, refs, nextId := 0, [], [], {}, map[], 0;
      held, deleted, deleterRuns := multiset{}, {}, 0;
    }

    /** An entry that gets its first client leaves the LRU list. */
    method LeaveLru(e: Handle)
      requires ListsOk(lru, inUse, inCache, refs, usage) && e in refs && refs[e] >= 1
      modifies `lru, `inUse
      ensures ListsOk(lru, inUse, inCache, refs[e := refs[e] + 1], usage) && lru == Without(old(lru), e)
    {
      if refs[e] == 1 && e in inCache {
        ToInUse(lru, inUse, inCache, refs, usage, e);
        lru := Without(lru, e);
        inUse := inUse + [e];
      } else {
        ListsKeptMore(lru, inUse, inCache, refs, usage, e);
      }
    }

    /** One more reference, which a client has already. */
    method Ref(e: Handle)
      requires ListsOk(lru, inUse, inCache, refs, usage) && e in refs && refs[e] >= 1 && deleterRuns == |deleted|
      requires CountsOk(refs[e := refs[e] + 1], held, inCache, nextId, deleted)
      modifies `lru, `inUse, `refs
      ensures Linked() && lru == Without(old(lru), e)
    {
      LeaveLru(e);
      refs := refs[e := refs[e] + 1];
    }

    /** An entry that loses its last client goes to the young end of the LRU list. */
    method JoinLru(e: Handle)
      requires ListsOk(lru, inUse, inCache, refs, usage) && e in refs && refs[e] >= 1 && (e in inCache ==> refs[e] >= 2)
      modifies `lru, `inUse
      ensures ListsOk(lru, inUse, inCache, OneLess(refs, e), usage)
      ensures lru == if e in inCache && refs[e] == 2 then old(lru) + [e] else old(lru)
      ensures inUse == if e in inCache && refs[e] == 2 then Without(old(inUse), e) else old(inUse)
    {
      if e in inCache && refs[e] == 2 {
        ToLru(lru, inUse, inCache, refs, usage, e);
        inUse := Without(inUse, e);
        lru := lru + [e];
      } else {
        ListsKept(lru, inUse, inCache, refs, usage, e);
      }
    }

    /** Drop a reference, which nobody has any more: the entry may go to the LRU list, or is
        freed if the cache has given it up. */
    method Unref(e: Handle)
      requires ListsOk(lru, inUse, inCache, refs, usage) && e in refs && refs[e] >= 1 && (e in inCache ==> refs[e] >= 2)
      requires CountsOk(OneLess(refs, e), held, inCache, nextId, Deleted(deleted, refs, e))
      requires deleterRuns == |deleted| && e !in deleted
      modifies `lru, `inUse, `refs, `deleted, `deleterRuns
      ensures Linked()
      ensures deleted == Deleted(old(deleted), old(refs), e)
      ensures lru == if e in inCache && old(refs)[e] == 2 then old(lru) + [e] else old(lru)
      ensures inUse == if e in inCache && old(refs)[e] == 2 then Without(old(inUse), e) else old(inUse)
    {
      JoinLru(e);
      if refs[e] == 1 {
        // Deallocate
        deleted, deleterRuns := deleted + {e}, deleterRuns + 1;
      }
      refs := OneLess(refs, e);
    }

    /** One more client. */
    method Hold(e: Handle)
      requires Linked() && e in refs
      modifies `lru, `inUse, `refs, `held
      ensures Linked() && held == old(held)[e := old(held)[e] + 1] && lru == Without(old(lru), e)
    {
      OneMoreReference(refs, held, inCache, nextId, deleted, e);
      held := held[e := held[e] + 1];
      Ref(e);
    }

    /** The entry of a name, with one more client; on its way it leaves the LRU list. */
    method Lookup(key: UserKey, hash: nat) returns (r: Option<Handle>)
      requires Valid()
      modifies `lru, `inUse, `refs, `held
      ensures Valid()
      ensures r == if (key, hash) in table.contents then Some(table.contents[(key, hash)]) else None
      ensures r.Some? ==> held == old(held)[r.value := old(held)[r.value] + 1] && lru == Without(old(lru), r.value)
      ensures r == None ==> held == old(held) && lru == old(lru)
    {
      r := table.Lookup(key, hash);
      if r.Some? {
        NamedIsCached(key, hash);
        Hold(r.value);
      }
    }

    lemma NamedIsCached(key: UserKey, hash: nat)
      requires table.Ok() && TableMatches() && (key, hash) in table.contents && ListsOk(lru, inUse, inCache, refs, usage)
      ensures table.contents[(key, hash)] in inCache && table.contents[(key, hash)] in refs
    {
      var h := table.contents[(key, hash)];
      ListsFacts(lru, inUse, inCache, refs, usage);
      assert NameOf(h) == (key, hash);
      assert Names(table.contents, h);
    }

    /** A client gives a reference back. */
    method Release(h: Handle)
      requires Valid() && held[h] > 0
      modifies `lru, `inUse, `refs, `held, `deleted, `deleterRuns
      ensures Valid() && held == old(held)[h := old(held)[h] - 1]
      ensures deleted == if h !in inCache && old(held)[h] == 1 then old(deleted) + {h} else old(deleted)
      ensures lru == if h in inCache && old(held)[h] == 1 then old(lru) + [h] else old(lru)
    {
      ReleaseCounts(refs, held, inCache, nextId, deleted, h);
      held := held[h := held[h] - 1];
      Unref(h);
    }

    /** Finish removing an entry that is no longer in the table. */
    method FinishErase(e: Option<Handle>) returns (erased: bool)
      requires Linked() && (e.Some? ==> e.value in inCache)
      modifies `lru, `inUse, `inCache, `usage, `refs, `deleted, `deleterRuns
      ensures Linked() && erased == e.Some?
      ensures e == None ==> lru == old(lru) && inUse == old(inUse) && inCache == old(inCache) && usage == old(usage) && refs == old(refs)
                            && deleted == old(deleted)
      ensures e.Some? ==>
                && inCache == old(inCache) - {e.value} && usage == old(usage) - e.value.charge
                && lru == Without(old(lru), e.value) && inUse == Without(old(inUse), e.value)
                && deleted == Unheld(old(deleted), held, e.value)
    {
      erased := e.Some?;
      if e.Some? {
        var h := e.value;
        ListsFacts(lru, inUse, inCache, refs, usage);
        EraseCounts(refs, held, inCache, nextId, deleted, h);
        OutOfCache(lru, inUse, inCache, refs, usage, h);
        lru, inUse := Without(lru, h), Without(inUse, h);
        inCache := inCache - {h};
        usage := usage - h.charge;
        Unref(h);
      }
    }

    /** Remove a named entry from the cache; clients may still hold it. */
    method Erase(key: UserKey, hash: nat)
      requires Valid()
      modifies `lru, `inUse, `inCache, `usage, `refs, `deleted, `deleterRuns, table
      ensures Valid() && table.contents == old(table.contents) - {(key, hash)}
      ensures deleted == if (key, hash) in old(table.contents)
                         then Unheld(old(deleted), held, old(table.contents)[(key, hash)]) else old(deleted)
    {
      if (key, hash) in table.contents { NamedIsCached(key, hash); }
      ghost var before := table.contents;
      var e := table.Remove(key, hash);
      var _ := FinishErase(e);
      RemovedMatches(before, (key, hash), old(inCache), inCache, table.contents);
    }

    /** Take the oldest entry off the LRU list. */
    method EvictOldest()
      requires Valid() && lru != []
      modifies `lru, `inUse, `inCache, `usage, `refs, `deleted, `deleterRuns, table
      ensures Valid() && lru == old(lru)[1..] && inUse == old(inUse) && usage == old(usage) - old(lru)[0].charge
      ensures inCache == old(inCache) - {old(lru)[0]}
      ensures deleted == old(deleted) + {old(lru)[0]} && old(lru)[0] !in old(deleted)
    {
      var oldest := lru[0];
      ListsFacts(lru, inUse, inCache, refs, usage);
      CountsFacts(refs, held, inCache, nextId, deleted);
      assert oldest in lru;
      assert Names(table.contents, oldest);
      ghost var before := table.contents;
      WithoutIs(inUse, oldest);
      var e := table.Remove(oldest.key, oldest.hash);
      var _ := FinishErase(e);
      RemovedMatches(before, NameOf(oldest), old(inCache), inCache, table.contents);
    }

    /** `k` entries have gone from the old end of the list to their deleters. */
    ghost predicate EvictedFrom(before: seq<Handle>, used: seq<Handle>, gone: set<Handle>, k: nat)
      reads `lru, `inUse, `deleted
    {
      k <= |before| && lru == before[k..] && deleted == gone + FirstOf(before, k) && inUse == used
    }

    /** The last of the `k` evicted entries would not have fitted. */
    ghost predicate NeededRoom(before: seq<Handle>, k: nat)
      requires k <= |before|
      reads `usage
    {
      k > 0 ==> usage + before[k - 1].charge > capacity
    }

    ghost function FirstOf(list: seq<Handle>, k: nat): set<Handle>
      requires k <= |list|
    {
      set i | 0 <= i < k :: list[i]
    }

    lemma OneMoreEvicted(before: seq<Handle>, gone: set<Handle>, k: nat)
      requires k < |before|
      ensures before[k..][1..] == before[k + 1..] && before[k..][0] == before[k]
      ensures gone + FirstOf(before, k) + {before[k]} == gone + FirstOf(before, k + 1)
    {
      assert FirstOf(before, k + 1) == FirstOf(before, k) + {before[k]};
    }

    method EvictNext(ghost before: seq<Handle>, ghost used: seq<Handle>, ghost gone: set<Handle>, ghost k: nat)
      requires Valid() && lru != [] && EvictedFrom(before, used, gone, k)
      modifies `lru, `inUse, `inCache, `usage, `refs, `deleted, `deleterRuns, table
      ensures Valid() && EvictedFrom(before, used, gone, k + 1) && (old(usage) > capacity ==> NeededRoom(before, k + 1))
    {
      OneMoreEvicted(before, gone, k);
      EvictOldest();
    }

    /** Evict in order until the rest fits or nothing unused is left. */
    method Evict() returns (ghost evicted: nat)
      requires Valid()
      modifies `lru, `inUse, `inCache, `usage, `refs, `deleted, `deleterRuns, table
      ensures Valid() && (usage <= capacity || lru == [])
      ensures EvictedFrom(old(lru), old(inUse), old(deleted), evicted) && NeededRoom(old(lru), evicted)
    {
      evicted := 0;
      ghost var before, used, gone := lru, inUse, deleted;
      while usage > capacity && lru != []
        invariant Valid() && EvictedFrom(before, used, gone, evicted)
        invariant NeededRoom(before, evicted)
        decreases |lru|
      {
        EvictNext(before, used, gone, evicted);
        evicted := evicted + 1;
      }
    }

    /** Evict everything unused. */
    method Prune()
      requires Valid()
      modifies `lru, `inUse, `inCache, `usage, `refs, `deleted, `deleterRuns, table
      ensures Valid() && lru == [] && EvictedFrom(old(lru), old(inUse), old(deleted), |old(lru)|)
    {
      ghost var evicted: nat, before, used, gone := 0, lru, inUse, deleted;
      while lru != []
        invariant Valid() && EvictedFrom(before, used, gone, evicted)
        decreases |lru|
      {
        EvictNext(before, used, gone, evicted);
        evicted := evicted + 1;
      }
    }

    /** A new entry referred to by a client and by the cache. */
    method AddCached(e: Handle)
      requires Linked() && e.id == nextId
      modifies `inUse, `inCache, `usage, `refs, `nextId, `held
      ensures Linked() && inCache == old(inCache) + {e} && e !in old(inCache)
      ensures held == old(held)[e := 1] && old(held)[e] == 0 && inUse == old(inUse) + [e] && usage == old(usage) + e.charge
    {
      NewEntry(lru, inUse, inCache, refs, usage, held, nextId, deleted, e);
      refs, held, nextId := refs[e := 2], held[e := 1], nextId + 1;
      inCache := inCache + {e};
      inUse := inUse + [e];
      usage := usage + e.charge;
    }

    /** Put the new entry into the table and let go of the one it replaces. */
    method Replace(e: Handle, ghost cached: set<Handle>) returns (ghost replaced: Option<Handle>)
      requires Linked() && capacity > 0 && table.Ok() && Mirrors(cached, table.contents)
      requires e !in cached && inCache == cached + {e} && held[e] == 1
      modifies `lru, `inUse, `inCache, `usage, `refs, `deleted, `deleterRuns, table
      ensures Linked() && table.Ok() && Mirrors(inCache, table.contents) && e in inUse
      ensures deleted == if replaced.Some? then Unheld(old(deleted), held, replaced.value) else old(deleted)
      ensures table.contents == old(table.contents)[NameOf(e) := e]
      ensures replaced == if NameOf(e) in old(table.contents) then Some(old(table.contents)[NameOf(e)]) else None
      ensures lru == if replaced.Some? then Without(old(lru), replaced.value) else old(lru)
    {
      ghost var before := table.contents;
      InsertedMatches(before, e, cached);
      var previous := table.Insert(e);
      replaced := previous;
      var _ := FinishErase(previous);
      HeldIsInUse(lru, inUse, inCache, refs, usage, held, nextId, deleted, e);
    }

    /** Make an entry for a client and the cache. */
    method Cache(e: Handle) returns (ghost replaced: Option<Handle>)
      requires Valid() && capacity > 0 && e.id == nextId
      modifies `lru, `inUse, `inCache, `usage, `refs, `nextId, `held, `deleted, `deleterRuns, table
      ensures Valid() && held == old(held)[e := 1] && old(held)[e] == 0 && e in inUse
      ensures deleted == if replaced.Some? then Unheld(old(deleted), held, replaced.value) else old(deleted)
      ensures table.contents == old(table.contents)[NameOf(e) := e]
      ensures replaced == if NameOf(e) in old(table.contents) then Some(old(table.contents)[NameOf(e)]) else None
      ensures lru == if replaced.Some? then Without(old(lru), replaced.value) else old(lru)
    {
      ghost var cached := inCache;
      AddCached(e);
      replaced := Replace(e, cached);
    }

    /** With capacity 0 nothing is cached: the entry is its client's alone. */
    method AddUncached(e: Handle)
      requires Linked() && e.id == nextId
      modifies `refs, `nextId, `held
      ensures Linked() && held == old(held)[e := 1] && old(held)[e] == 0
    {
      NewUncached(lru, inUse, inCache, refs, usage, held, nextId, deleted, e);
      refs, held, nextId := refs[e := 1], held[e := 1], nextId + 1;
    }

    /** A new entry, in use by its creator; an entry of the same name leaves the cache, and
        then as many of the oldest unused ones as it takes to fit. */
    method Insert(key: UserKey, hash: nat, value: int, charge: nat)
      returns (e: Handle, ghost replaced: Option<Handle>, ghost evicted: nat)
      requires Valid()
      modifies `lru, `inUse, `inCache, `usage, `refs, `nextId, `held, `deleted, `deleterRuns, table
      ensures Valid() && e == Handle(old(nextId), key, hash, value, charge) && held == old(held)[e := 1] && old(held)[e] == 0
      ensures replaced == if capacity > 0 && (key, hash) in old(table.contents) then Some(old(table.contents)[(key, hash)]) else None
      ensures capacity > 0 ==> e in inUse && NamedBy(e)
      ensures usage <= capacity || lru == []
      ensures ghost var unused := if replaced.Some? then Without(old(lru), replaced.value) else old(lru);
              ghost var gone := if replaced.Some? then Unheld(old(deleted), held, replaced.value) else old(deleted);
              EvictedFrom(unused, inUse, gone, evicted) && NeededRoom(unused, evicted)
    {
      e := Handle(nextId, key, hash, value, charge);
      replaced := None;
      if capacity > 0 {
        replaced := Cache(e);
      } else {
        AddUncached(e);
      }
      evicted := Evict();
      if capacity > 0 {
        ListsFacts(lru, inUse, inCache, refs, usage);
      }
    }
  }

  // ---- Any sequence of calls ----

  /** A client's call; releases are only for what is held. */
  datatype Call =
    | DoLookup(key: UserKey, hash: nat)
    | DoRelease(h: Handle)
    | DoInsert(key: UserKey, hash: nat, value: int, charge: nat)
    | DoErase(key: UserKey, hash: nat)
    | DoPrune

  /** A run as its clients see it: the handles they were given and gave back. */
  datatype Trace = Trace(given: multiset<Handle>, returned: multiset<Handle>)

  /** What was given and not returned is held. */
  ghost predicate Balanced(held: Clients, before: Clients, t: Trace) {
    forall h :: held[h] + t.returned[h] == before[h] + t.given[h]
  }

  function Given(t: Trace, h: Handle): Trace {
    t.(given := t.given[h := t.given[h] + 1])
  }

  function Returned(t: Trace, h: Handle): Trace {
    t.(returned := t.returned[h := t.returned[h] + 1])
  }

  lemma OneGiven(held: Clients, before: Clients, t: Trace, h: Handle)
    requires Balanced(held, before, t)
    ensures Balanced(held[h := held[h] + 1], before, Given(t, h))
  {
  }

  lemma OneReturned(held: Clients, before: Clients, t: Trace, h: Handle)
    requires Balanced(held, before, t) && held[h] > 0
    ensures Balanced(held[h := held[h] - 1], before, Returned(t, h))
  {
  }

  /** References balance, no deleter ran twice, and nothing comes back from its deleter. */
  ghost predicate Accounted(cache: LRUCache, before: Clients, gone: set<Handle>, t: Trace)
    reads cache`held, cache`deleted, cache`deleterRuns
  {
    Balanced(cache.held, before, t) && gone <= cache.deleted && cache.deleterRuns == |cache.deleted|
  }

  /** A handle that has been deleted is not held. */
  lemma DeletedIsNotHeld(cache: LRUCache, h: Handle)
    requires cache.Valid() && h in cache.deleted
    ensures cache.held[h] == 0
  {
    CountsFacts(cache.refs, cache.held, cache.inCache, cache.nextId, cache.deleted);
  }

  method StepLookup(cache: LRUCache, key: UserKey, hash: nat, ghost before: Clients, ghost gone: set<Handle>, t: Trace) returns (t2: Trace)
    requires cache.Valid() && Accounted(cache, before, gone, t)
    modifies cache, cache.table
    ensures cache.Valid() && Accounted(cache, before, gone, t2)
  {
    ghost var held := cache.held;
    var r := cache.Lookup(key, hash);
    t2 := t;
    if r.Some? {
      OneGiven(held, before, t, r.value);
      t2 := Given(t, r.value);
    }
  }

  method StepInsert(cache: LRUCache, call: Call, ghost before: Clients, ghost gone: set<Handle>, t: Trace) returns (t2: Trace)
    requires call.DoInsert?
    requires cache.Valid() && Accounted(cache, before, gone, t)
    modifies cache, cache.table
    ensures cache.Valid() && Accounted(cache, before, gone, t2)
  {
    ghost var held := cache.held;
    var e, _, _ := cache.Insert(call.key, call.hash, call.value, call.charge);
    OneGiven(held, before, t, e);
    t2 := Given(t, e);
  }

  /** Clients release only what they were given and still have. */
  method StepRelease(cache: LRUCache, h: Handle, ghost before: Clients, ghost gone: set<Handle>, t: Trace) returns (t2: Trace)
    requires cache.Valid() && Accounted(cache, before, gone, t)
    modifies cache, cache.table
    ensures cache.Valid() && Accounted(cache, before, gone, t2)
  {
    t2 := t;
    if t.given[h] > t.returned[h] {
      OneReturned(cache.held, before, t, h);
      cache.Release(h);
      t2 := Returned(t, h);
    }
  }

  method Step(cache: LRUCache, call: Call, ghost before: Clients, ghost gone: set<Handle>, t: Trace) returns (t2: Trace)
    requires cache.Valid() && Accounted(cache, before, gone, t)
    modifies cache, cache.table
    ensures cache.Valid() && Accounted(cache, before, gone, t2)
  {
    t2 := t;
    match call {
      case DoLookup(key, hash) => t2 := StepLookup(cache, key, hash, before, gone, t);
      case DoRelease(h) => t2 := StepRelease(cache, h, before, gone, t);
      case DoInsert(_, _, _, _) => t2 := StepInsert(cache, call, before, gone, t);
      case DoErase(key, hash) => cache.Erase(key, hash);
      case DoPrune => cache.Prune();
    }
  }

  /** Over any calls, references are conserved, each deleter runs at most once, and only
      for what no client holds. */
  method Run(cache: LRUCache, calls: seq<Call>) returns (t: Trace)
    requires cache.Valid()
    modifies cache, cache.table
    ensures cache.Valid() && Accounted(cache, old(cache.held), old(cache.deleted), t)
    ensures forall h :: h in cache.deleted ==> cache.held[h] == 0
  {
    t := Trace(multiset{}, multiset{});
    for i := 0 to |calls|
      invariant cache.Valid() && Accounted(cache, old(cache.held), old(cache.deleted), t)
    {
      t := Step(cache, calls[i], old(cache.held), old(cache.deleted), t);
    }
    forall h | h in cache.deleted
      ensures cache.held[h] == 0
    {
      DeletedIsNotHeld(cache, h);
    }
  }

  lemma HeldIsInUse(lru: seq<Handle>, inUse: seq<Handle>, inCache: set<Handle>, refs: Counts, usage: nat, held: Clients, nextId: nat,
                    deleted: set<Handle>, e: Handle)
    requires ListsOk(lru, inUse, inCache, refs, usage) && CountsOk(refs, held, inCache, nextId, deleted) && e in inCache && held[e] > 0
    ensures e in inUse
  {
    ListsFacts(lru, inUse, inCache, refs, usage);
    CountsFacts(refs, held, inCache, nextId, deleted);
  }

  /** The table knows `h` under its name. */
  predicate Names(contents: map<Name, Handle>, h: Handle) {
    NameOf(h) in contents && contents[NameOf(h)] == h
  }

  /** A client gives a reference back. */
  lemma ReleaseCounts(refs: Counts, held: Clients, inCache: set<Handle>, nextId: nat, deleted: set<Handle>, e: Handle)
    requires CountsOk(refs, held, inCache, nextId, deleted) && held[e] > 0
    ensures e in refs && refs[e] == held[e] + (if e in inCache then 1 else 0) && e !in deleted
    ensures CountsOk(OneLess(refs, e), held[e := held[e] - 1], inCache, nextId, Deleted(deleted, refs, e))
  {
    CountsFacts(refs, held, inCache, nextId, deleted);
    assert e in held;
  }

  /** The cache gives its own reference back. */
  lemma EraseCounts(refs: Counts, held: Clients, inCache: set<Handle>, nextId: nat, deleted: set<Handle>, e: Handle)
    requires CountsOk(refs, held, inCache, nextId, deleted) && e in inCache && e in refs
    ensures refs[e] == held[e] + 1 && e !in deleted && Deleted(deleted, refs, e) == Unheld(deleted, held, e)
    ensures CountsOk(OneLess(refs, e), held, inCache - {e}, nextId, Deleted(deleted, refs, e))
  {
    CountsFacts(refs, held, inCache, nextId, deleted);
  }

  ghost predicate Mirrors(cached: set<Handle>, contents: map<Name, Handle>) {
    forall h :: h in cached <==> Names(contents, h)
  }

  /** Taking a name out of the table matches taking its entry out of the cache. */
  lemma RemovedMatches(before: map<Name, Handle>, n: Name, cached: set<Handle>, cached2: set<Handle>, after: map<Name, Handle>)
    requires Mirrors(cached, before) && NamesOk(before) && after == before - {n}
    requires cached2 == if n in before then cached - {before[n]} else cached
    ensures Mirrors(cached2, after)
  {
  }

  lemma InsertedMatches(before: map<Name, Handle>, e: Handle, cached: set<Handle>)
    requires Mirrors(cached, before) && NamesOk(before) && e !in cached
    ensures if NameOf(e) in before
            then before[NameOf(e)] in cached && Mirrors(cached + {e} - {before[NameOf(e)]}, before[NameOf(e) := e])
            else Mirrors(cached + {e}, before[NameOf(e) := e])
  {
    if NameOf(e) in before {
      assert Names(before, before[NameOf(e)]);
    }
  }

  lemma NewEntry(lru: seq<Handle>, inUse: seq<Handle>, inCache: set<Handle>, refs: Counts, usage: nat, held: Clients, nextId: nat,
                 deleted: set<Handle>, e: Handle)
    requires ListsOk(lru, inUse, inCache, refs, usage) && CountsOk(refs, held, inCache, nextId, deleted) && e.id == nextId
    ensures e !in refs && e !in inCache && held[e] == 0 && ListsOk(lru, inUse + [e], inCache + {e}, refs[e := 2], usage + e.charge)
    ensures CountsOk(refs[e := 2], held[e := 1], inCache + {e}, nextId + 1, deleted)
  {
    ListsFacts(lru, inUse, inCache, refs, usage);
    CountsFacts(refs, held, inCache, nextId, deleted);
    AppendNew(inUse, e);
    ChargesAppend(inUse, e);
    assert OnLru(lru, inCache + {e}, refs[e := 2]);
    assert OnInUse(inUse + [e], inCache + {e}, refs[e := 2]);
  }

  lemma NewUncached(lru: seq<Handle>, inUse: seq<Handle>, inCache: set<Handle>, refs: Counts, usage: nat, held: Clients, nextId: nat,
                    deleted: set<Handle>, e: Handle)
    requires ListsOk(lru, inUse, inCache, refs, usage) && CountsOk(refs, held, inCache, nextId, deleted) && e.id == nextId
    ensures e !in refs && held[e] == 0 && ListsOk(lru, inUse, inCache, refs[e := 1], usage)
    ensures CountsOk(refs[e := 1], held[e := 1], inCache, nextId + 1, deleted)
  {
    ListsFacts(lru, inUse, inCache, refs, usage);
    CountsFacts(refs, held, inCache, nextId, deleted);
    assert OnLru(lru, inCache, refs[e := 1]);
    assert OnInUse(inUse, inCache, refs[e := 1]);
  }
}
