/** The cache's hash table: buckets of chains, doubled when chains get long. */
module HandleTables {
  import opened Keys
  import opened Bits

  /** A cache entry's fixed part. `id` tells handles apart as their addresses do. */
  datatype Handle = Handle(id: nat, key: UserKey, hash: nat, value: int, charge: nat)

  type Name = (UserKey, nat)

  function NameOf(h: Handle): Name {
    (h.key, h.hash)
  }

  /** The bucket of a hash: `hash & (length_ - 1)`. */
  function Slot(hash: nat, length: nat): (i: nat)
    requires length > 0
    ensures i < length
  {
    And(hash, length - 1)
  }

  ghost predicate PowerOfTwo(n: nat) {
    exists k: nat :: n == Pow2(k)
  }

  /** The number of buckets is a power of two, so masking spreads hashes as the remainder does. */
  lemma SlotIsRemainder(hash: nat, length: nat)
    requires PowerOfTwo(length)
    ensures Slot(hash, length) == hash % length
  {
    var k: nat :| length == Pow2(k);
    MaskIsRemainder(hash, k);
  }

  ghost predicate NoTwins(chain: seq<Handle>) {
    forall i, j :: 0 <= i < j < |chain| ==> NameOf(chain[i]) != NameOf(chain[j])
  }

  /** `chain` holds exactly the entries of `contents` whose names fall into bucket `slot`. */
  ghost predicate ChainOk(chain: seq<Handle>, slot: nat, length: nat, contents: map<Name, Handle>)
    requires length > 0
  {
    && NoTwins(chain)
    && (forall h :: h in chain ==> Slot(h.hash, length) == slot && NameOf(h) in contents && contents[NameOf(h)] == h)
    && (forall n :: n in contents && Slot(n.1, length) == slot ==> contents[n] in chain)
  }

  ghost predicate NamesOk(contents: map<Name, Handle>) {
    forall n :: n in contents ==> NameOf(contents[n]) == n
  }

  ghost predicate TableOk(list: seq<seq<Handle>>, contents: map<Name, Handle>) {
    && list != [] && NamesOk(contents)
    && forall i :: 0 <= i < |list| ==> ChainOk(list[i], i, |list|, contents)
  }

  /** Replacing the chain of one bucket along with the entry of one name in that bucket. */
  lemma OneChainChanged(list: seq<seq<Handle>>, contents: map<Name, Handle>, n: Name, chain: seq<Handle>, contents2: map<Name, Handle>)
    requires TableOk(list, contents) && NamesOk(contents2)
    requires forall m :: m != n ==> (m in contents2 <==> m in contents) && (m in contents ==> contents2[m] == contents[m])
    requires ChainOk(chain, Slot(n.1, |list|), |list|, contents2)
    ensures TableOk(list[Slot(n.1, |list|) := chain], contents2)
  {
    var slot := Slot(n.1, |list|);
    var list2 := list[slot := chain];
    forall i | 0 <= i < |list2|
      ensures ChainOk(list2[i], i, |list2|, contents2)
    {
      if i != slot {
        assert ChainOk(list[i], i, |list|, contents);
      }
    }
  }

  class HandleTable {
    var elems: nat
    var list: seq<seq<Handle>>
    ghost var contents: map<Name, Handle>

    ghost predicate Ok()
      reads this
    {
      TableOk(list, contents) && elems == |contents| && PowerOfTwo(|list|)
    }

    constructor ()
      ensures Ok() && contents == map[]
    {
      elems := 0;
      list := [[], [], [], []];
      contents := map[];
      new;
      assert |list| == Pow2(2);
    }

    /** The place in its chain of the entry with this name, or the end of the chain. */
    method FindPointer(key: UserKey, hash: nat) returns (i: nat)
      requires Ok()
      ensures i <= |Chain(hash)|
      ensures if (key, hash) in contents then i < |Chain(hash)| && Chain(hash)[i] == contents[(key, hash)] else i == |Chain(hash)|
    {
      var chain := Chain(hash);
      assert ChainOk(chain, Slot(hash, |list|), |list|, contents);
      assert (key, hash) in contents ==> contents[(key, hash)] in chain && NameOf(contents[(key, hash)]) == (key, hash);
      i := 0;
      while i < |chain| && (chain[i].hash != hash || key != chain[i].key)
        invariant i <= |chain| && forall j :: 0 <= j < i ==> NameOf(chain[j]) != (key, hash)
      {
        i := i + 1;
      }
    }

    function Chain(hash: nat): seq<Handle>
      requires list != []
      reads this
    {
      list[Slot(hash, |list|)]
    }

    method Lookup(key: UserKey, hash: nat) returns (r: Option<Handle>)
      requires Ok()
      ensures r == if (key, hash) in contents then Some(contents[(key, hash)]) else None
    {
      var i := FindPointer(key, hash);
      r := if i < |Chain(hash)| then Some(Chain(hash)[i]) else None;
    }

    /** Put the handle in, in place of the one with the same name, if any. */
    method Insert(h: Handle) returns (previous: Option<Handle>)
      requires Ok()
      modifies this
      ensures Ok() && contents == old(contents)[NameOf(h) := h]
      ensures previous == if NameOf(h) in old(contents) then Some(old(contents)[NameOf(h)]) else None
      ensures elems <= |list| || previous.Some?
    {
      var i := FindPointer(h.key, h.hash);
      var chain := Chain(h.hash);
      ghost var more := contents[NameOf(h) := h];
      if i < |chain| {
        previous := Some(chain[i]);
        ChainReplaced(chain, i, h, Slot(h.hash, |list|), |list|, contents);
        OneChainChanged(list, contents, NameOf(h), chain[i := h], more);
        list := list[Slot(h.hash, |list|) := chain[i := h]];
        contents := more;
      } else {
        previous := None;
        ChainExtended(chain, h, Slot(h.hash, |list|), |list|, contents);
        OneChainChanged(list, contents, NameOf(h), chain + [h], more);
        list := list[Slot(h.hash, |list|) := chain + [h]];
        contents := more;
        elems := elems + 1;
        if elems > |list| {
          // Aim for a small average chain length
          Resize();
        }
      }
    }

    method Remove(key: UserKey, hash: nat) returns (r: Option<Handle>)
      requires Ok()
      modifies this
      ensures Ok() && contents == old(contents) - {(key, hash)}
      ensures r == if (key, hash) in old(contents) then Some(old(contents)[(key, hash)]) else None
    {
      var i := FindPointer(key, hash);
      var chain := Chain(hash);
      ghost var rest := contents - {(key, hash)};
      r := None;
      if i < |chain| {
        r := Some(chain[i]);
        ChainCut(chain, i, Slot(hash, |list|), |list|, contents);
        OneChainChanged(list, contents, (key, hash), chain[..i] + chain[i + 1..], rest);
        list := list[Slot(hash, |list|) := chain[..i] + chain[i + 1..]];
        assert contents.Keys == rest.Keys + {(key, hash)};
        contents := rest;
        elems := elems - 1;
      } else {
        assert rest == contents;
      }
    }

    /** Twice the buckets, until there is one for each entry; every chain is taken apart and
        its entries pushed in front of their new chains. */
    method Resize()
      requires Ok()
      modifies `list
      ensures Ok() && elems <= |list|
    {
      var newLength: nat := 4;
      assert newLength == Pow2(2);
      while newLength < elems
        invariant newLength >= 4 && PowerOfTwo(newLength)
        decreases elems - newLength
      {
        ghost var k: nat :| newLength == Pow2(k);
        newLength := newLength * 2;
        assert newLength == Pow2(k + 1);
      }
      var newList: seq<seq<Handle>> := seq(newLength, _ => []);
      ghost var moved: map<Name, Handle> := map[];
      for i := 0 to |list|
        invariant list == old(list) && |newList| == newLength && TableOk(newList, moved) && Moved(list, contents, i, moved)
      {
        ChainNames(list, contents, i, moved);
        newList, moved := MoveChain(list[i], newList, moved);
      }
      AllMoved(list, contents, moved);
      list := newList;
    }
  }

  /** `moved` has the entries of the first `n` buckets. */
  ghost predicate Moved(list: seq<seq<Handle>>, contents: map<Name, Handle>, n: nat, moved: map<Name, Handle>)
    requires list != []
  {
    && (forall m :: m in moved <==> m in contents && Slot(m.1, |list|) < n)
    && (forall m :: m in moved ==> moved[m] == contents[m])
  }

  ghost predicate Joined(moved: map<Name, Handle>, chain: seq<Handle>, moved2: map<Name, Handle>) {
    && (forall m :: m in moved2 <==> m in moved || exists h :: h in chain && NameOf(h) == m)
    && (forall m :: m in moved ==> m in moved2 && moved2[m] == moved[m])
    && (forall h :: h in chain ==> NameOf(h) in moved2 && moved2[NameOf(h)] == h)
  }

  /** The entries of the next bucket are those not moved yet. */
  lemma ChainNames(list: seq<seq<Handle>>, contents: map<Name, Handle>, i: nat, moved: map<Name, Handle>)
    requires TableOk(list, contents) && i < |list| && Moved(list, contents, i, moved)
    ensures NoTwins(list[i]) && forall h :: h in list[i] ==> NameOf(h) !in moved
    ensures forall moved2 :: Joined(moved, list[i], moved2) ==> Moved(list, contents, i + 1, moved2)
  {
    assert ChainOk(list[i], i, |list|, contents);
    forall moved2 | Joined(moved, list[i], moved2)
      ensures Moved(list, contents, i + 1, moved2)
    {
      forall m | m in contents && Slot(m.1, |list|) == i
        ensures m in moved2 && moved2[m] == contents[m]
      {
        assert contents[m] in list[i];
      }
    }
  }

  lemma AllMoved(list: seq<seq<Handle>>, contents: map<Name, Handle>, moved: map<Name, Handle>)
    requires TableOk(list, contents) && Moved(list, contents, |list|, moved)
    ensures moved == contents
  {
  }

  method MoveChain(chain: seq<Handle>, list: seq<seq<Handle>>, ghost moved: map<Name, Handle>)
    returns (list2: seq<seq<Handle>>, ghost moved2: map<Name, Handle>)
    requires TableOk(list, moved) && NoTwins(chain) && forall h :: h in chain ==> NameOf(h) !in moved
    ensures |list2| == |list| && TableOk(list2, moved2) && Joined(moved, chain, moved2)
  {
    list2, moved2 := list, moved;
    for j := 0 to |chain|
      invariant |list2| == |list| && TableOk(list2, moved2) && Joined(moved, chain[..j], moved2)
    {
      var h := chain[j];
      NotYetJoined(moved, chain, j, moved2);
      var slot := Slot(h.hash, |list2|);
      ghost var more := moved2[NameOf(h) := h];
      ChainPushed(list2[slot], h, slot, |list2|, moved2);
      OneChainChanged(list2, moved2, NameOf(h), [h] + list2[slot], more);
      list2, moved2 := list2[slot := [h] + list2[slot]], more;
    }
    assert chain[..|chain|] == chain;
  }

  lemma NotYetJoined(moved: map<Name, Handle>, chain: seq<Handle>, j: nat, moved2: map<Name, Handle>)
    requires j < |chain| && NoTwins(chain) && NameOf(chain[j]) !in moved && Joined(moved, chain[..j], moved2)
    requires forall h :: h in chain ==> NameOf(h) !in moved
    ensures NameOf(chain[j]) !in moved2 && Joined(moved, chain[..j + 1], moved2[NameOf(chain[j]) := chain[j]])
  {
    assert chain[..j + 1] == chain[..j] + [chain[j]];
    forall h | h in chain[..j]
      ensures NameOf(h) != NameOf(chain[j])
    {
      var i :| 0 <= i < j && chain[..j][i] == h;
      assert chain[i] == h;
    }
  }

  // ---- Chains ----

  lemma ChainPushed(chain: seq<Handle>, h: Handle, slot: nat, length: nat, contents: map<Name, Handle>)
    requires length > 0 && ChainOk(chain, slot, length, contents) && NameOf(h) !in contents && Slot(h.hash, length) == slot
    ensures ChainOk([h] + chain, slot, length, contents[NameOf(h) := h])
  {
    forall i | 0 <= i < |chain|
      ensures NameOf(chain[i]) != NameOf(h)
    {
      assert chain[i] in chain;
    }
  }

  lemma ChainExtended(chain: seq<Handle>, h: Handle, slot: nat, length: nat, contents: map<Name, Handle>)
    requires length > 0 && ChainOk(chain, slot, length, contents) && NameOf(h) !in contents && Slot(h.hash, length) == slot
    ensures ChainOk(chain + [h], slot, length, contents[NameOf(h) := h])
  {
    forall i | 0 <= i < |chain|
      ensures NameOf(chain[i]) != NameOf(h)
    {
      assert chain[i] in chain;
    }
  }

  lemma ChainReplaced(chain: seq<Handle>, i: nat, h: Handle, slot: nat, length: nat, contents: map<Name, Handle>)
    requires length > 0 && ChainOk(chain, slot, length, contents) && NamesOk(contents) && i < |chain| && NameOf(chain[i]) == NameOf(h)
    ensures ChainOk(chain[i := h], slot, length, contents[NameOf(h) := h])
  {
    var chain2 := chain[i := h];
    assert chain[i] in chain;
    forall j | 0 <= j < |chain| && j != i
      ensures chain2[j] in chain && NameOf(chain2[j]) != NameOf(h)
    {
      assert chain2[j] == chain[j];
    }
    forall n | n in contents && Slot(n.1, length) == slot && n != NameOf(h)
      ensures contents[n] in chain2
    {
      var j :| 0 <= j < |chain| && chain[j] == contents[n];
      assert j != i && chain2[j] == contents[n];
    }
    assert chain2[i] == h;
  }

  lemma CutSequence(chain: seq<Handle>, i: nat)
    requires i < |chain| && NoTwins(chain)
    ensures NoTwins(chain[..i] + chain[i + 1..])
    ensures forall h :: h in chain[..i] + chain[i + 1..] <==> h in chain && NameOf(h) != NameOf(chain[i])
  {
    var chain2 := chain[..i] + chain[i + 1..];
    forall j | 0 <= j < |chain2|
      ensures chain2[j] == chain[if j < i then j else j + 1]
    {
    }
    forall h | h in chain && NameOf(h) != NameOf(chain[i])
      ensures h in chain2
    {
      var j :| 0 <= j < |chain| && chain[j] == h;
      assert chain2[if j < i then j else j - 1] == h;
    }
  }

  lemma ChainCut(chain: seq<Handle>, i: nat, slot: nat, length: nat, contents: map<Name, Handle>)
    requires length > 0 && ChainOk(chain, slot, length, contents) && NamesOk(contents) && i < |chain|
    ensures ChainOk(chain[..i] + chain[i + 1..], slot, length, contents - {NameOf(chain[i])})
  {
    CutSequence(chain, i);
  }
}
