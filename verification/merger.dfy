/** The k-way merge: children stand at their own positions, and the merged cursor
    behaves as one cursor over the sorted union, whichever way it moves. */
module MergingIterators {
  import opened Entries
  import opened Cursors

  datatype Direction = Forward | Reverse

  /** `list` is the sorted union of the children's lists, which share no entry. */
  ghost predicate IsMergeOf(list: seq<Entry>, parts: seq<seq<Entry>>) {
    && Sorted(list)
    && (forall i, k :: 0 <= i < |parts| && 0 <= k < |parts[i]| ==> parts[i][k] in list)
    && (forall p :: 0 <= p < |list| ==> exists i :: 0 <= i < |parts| && list[p] in parts[i])
    && (forall i, j, k :: 0 <= i < j < |parts| && 0 <= k < |parts[i]| ==> parts[i][k] !in parts[j])
  }

  /** The first `c` entries of `part` are the ones among the first `p` merged entries. */
  ghost predicate Splits(list: seq<Entry>, part: seq<Entry>, c: nat, p: nat) {
    && c <= |part| && p <= |list|
    && (forall k :: 0 <= k < c ==> part[k] in list[..p])
    && (forall k :: c <= k < |part| ==> part[k] in list[p..])
  }

  lemma ListOrder(list: seq<Entry>, p: nat, x: Entry)
    requires Sorted(list) && p < |list|
    ensures x in list[..p] ==> Precedes(x, list[p]) && Before(x, list[p])
    ensures x in list[p + 1..] ==> Precedes(list[p], x) && Before(list[p], x)
    ensures x in list[p..] ==> x == list[p] || Before(list[p], x)
  {
  }

  lemma SplitMembers(list: seq<Entry>, part: seq<Entry>, p: nat, c: nat)
    requires Sorted(list) && p < |list| && c <= |part|
    requires forall k :: 0 <= k < |part| ==> part[k] in list
    requires forall k :: 0 <= k < c ==> !Before(list[p], part[k])
    requires forall k :: c <= k < |part| ==> Before(list[p], part[k])
    ensures Splits(list, part, c, p + 1)
  {
    forall k | 0 <= k < |part|
      ensures k < c ==> part[k] in list[..p + 1]
      ensures k >= c ==> part[k] in list[p + 1..]
    {
      var m :| 0 <= m < |list| && list[m] == part[k];
      ListOrder(list, p, list[m]);
      if m <= p { assert list[..p + 1][m] == part[k]; } else { assert list[p + 1..][m - p - 1] == part[k]; }
    }
  }

  lemma SplitBelow(list: seq<Entry>, part: seq<Entry>, p: nat, c: nat)
    requires Sorted(list) && p < |list| && c <= |part|
    requires forall k :: 0 <= k < |part| ==> part[k] in list
    requires forall k :: 0 <= k < c ==> Before(part[k], list[p])
    requires forall k :: c <= k < |part| ==> !Before(part[k], list[p])
    ensures Splits(list, part, c, p)
  {
    forall k | 0 <= k < |part|
      ensures k < c ==> part[k] in list[..p]
      ensures k >= c ==> part[k] in list[p..]
    {
      var m :| 0 <= m < |list| && list[m] == part[k];
      ListOrder(list, p, list[m]);
      if m < p { assert list[..p][m] == part[k]; } else { assert list[p..][m - p] == part[k]; }
    }
  }

  lemma EndSplits(list: seq<Entry>, part: seq<Entry>)
    requires forall k :: 0 <= k < |part| ==> part[k] in list
    ensures Splits(list, part, 0, 0) && Splits(list, part, |part|, |list|)
  {
    assert list[0..] == list == list[..|list|];
  }

  lemma SplitsHere(list: seq<Entry>, part: seq<Entry>, c: nat, p: nat)
    requires Sorted(list) && Sorted(part) && p < |list| && c < |part| && part[c] == list[p]
    requires forall k :: 0 <= k < |part| ==> part[k] in list
    ensures Splits(list, part, c, p) && Splits(list, part, c + 1, p + 1)
  {
    SortedFacts(part);
    SplitBelow(list, part, p, c);
    SplitMembers(list, part, p, c + 1);
  }

  lemma FirstNotBefore(list: seq<Entry>, target: Entry) returns (p: nat)
    requires Sorted(list)
    ensures IsLowerBound(list, target, p)
  {
    SortedFacts(list);
    p := 0;
    while p < |list| && Before(list[p], target)
      invariant p <= |list| && forall i :: 0 <= i < p ==> Before(list[i], target)
    {
      p := p + 1;
    }
  }

  lemma BoundsSplit(list: seq<Entry>, part: seq<Entry>, target: Entry, p: nat, c: nat)
    requires IsLowerBound(list, target, p) && IsLowerBound(part, target, c)
    requires forall k :: 0 <= k < |part| ==> part[k] in list
    ensures Splits(list, part, c, p)
  {
    forall k | 0 <= k < |part|
      ensures if k < c then part[k] in list[..p] else part[k] in list[p..]
    {
      var m :| 0 <= m < |list| && list[m] == part[k];
      if m < p { assert list[..p][m] == part[k]; } else { assert list[p..][m - p] == part[k]; }
    }
  }

  /** A part that holds the next merged entry stands at it. */
  lemma FirstBeyond(list: seq<Entry>, part: seq<Entry>, c: nat, p: nat, k: nat)
    requires Sorted(list) && Sorted(part) && Splits(list, part, c, p)
    requires p < |list| && k < |part| && part[k] == list[p]
    ensures c < |part| && part[c] == list[p]
  {
    ListOrder(list, p, list[p]);
    ListOrder(list, p, part[c]);
    SortedFacts(part);
  }

  /** A part that holds the last merged entry so far stands just past it. */
  lemma LastWithin(list: seq<Entry>, part: seq<Entry>, c: nat, p: nat, k: nat)
    requires Sorted(list) && Sorted(part) && Splits(list, part, c, p)
    requires 0 < p <= |list| && k < |part| && part[k] == list[p - 1]
    ensures c > 0 && part[c - 1] == list[p - 1]
  {
    assert p - 1 + 1 == p;
    ListOrder(list, p - 1, list[p - 1]);
    assert k < c by { assert part[k] !in list[p..]; }
    var m :| 0 <= m < p && list[m] == part[c - 1];
    SortedFacts(part);
    SortedFacts(list);
  }

  /** Place `child` at its first entry strictly after `e`. */
  method PlaceAfter(child: EntryCursor, e: Entry)
    requires child.Ok()
    modifies child
    ensures child.Ok()
    ensures forall k :: 0 <= k < child.pos ==> !Before(e, child.list[k])
    ensures forall k :: child.pos <= k < |child.list| ==> Before(e, child.list[k])
  {
    SortedFacts(child.list);
    child.Seek(e);
    if child.Valid() && !Before(child.Current(), e) && !Before(e, child.Current()) {
      child.Next();
    }
  }

  /** Place `child` at its last entry strictly before `e`. */
  method PlaceBefore(child: EntryCursor, e: Entry) returns (ghost c: nat)
    requires child.Ok()
    modifies child
    ensures child.Ok() && IsLowerBound(child.list, e, c) && child.pos == PrevPos(c, |child.list|)
  {
    child.Seek(e);
    c := child.pos;
    if child.Valid() {
      child.Prev();
    } else {
      child.SeekToLast();
    }
  }

  class MergingIterator {
    const children: seq<EntryCursor>
    ghost const list: seq<Entry>
    var current: int
    var direction: Direction
    ghost var pos: nat

    ghost function Parts(): seq<seq<Entry>> {
      seq(|children|, i requires 0 <= i < |children| => children[i].list)
    }

    ghost predicate Shape()
      reads this, children
    {
      && (forall i :: 0 <= i < |children| ==> children[i].Ok())
      && (forall i, j :: 0 <= i < j < |children| ==> children[i] != children[j])
      && IsMergeOf(list, Parts())
    }

    /** Every child stands at its first entry not among the first `p` merged ones. */
    ghost predicate AllAt(p: nat)
      reads this, children
    {
      forall i :: 0 <= i < |children| ==> Splits(list, children[i].list, children[i].pos, p)
    }

    /** Every child stands at its last entry among the first `p` merged ones. */
    ghost predicate AllBefore(p: nat)
      reads this, children
    {
      forall i :: 0 <= i < |children| ==> LastOf(children[i], p)
    }

    ghost predicate LastOf(child: EntryCursor, p: nat)
      reads child
    {
      exists c: nat :: Splits(list, child.list, c, p) && child.pos == PrevPos(c, |child.list|)
    }

    ghost predicate Ok()
      reads this, children
    {
      && Shape()
      && -1 <= current < |children| && pos <= |list|
      && (current == -1 <==> pos == |list|)
      && (current != -1 ==> children[current].Valid() && children[current].Current() == list[pos])
      && (current != -1 && direction.Forward? ==> AllAt(pos))
      && (current != -1 && direction.Reverse? ==> AllBefore(pos + 1))
    }

    constructor (children: seq<EntryCursor>, ghost list: seq<Entry>)
      requires forall i :: 0 <= i < |children| ==> children[i].Ok()
      requires forall i, j :: 0 <= i < j < |children| ==> children[i] != children[j]
      requires IsMergeOf(list, seq(|children|, i requires 0 <= i < |children| => children[i].list))
      ensures Ok() && !Valid() && this.children == children && this.list == list
    {
      this.children := children;
      this.list := list;
      current := -1;
      direction := Forward;
      pos := |list|;
    }

    predicate Valid()
      reads this
    {
      current != -1
    }

    function Current(): Entry
      requires Ok() && Valid()
      reads this, children
    {
      children[current].Current()
    }

    lemma SmallestIsNext(p: nat, smallest: int)
      requires Shape() && AllAt(p) && p <= |list| && -1 <= smallest < |children|
      requires smallest == -1 ==> forall j :: 0 <= j < |children| ==> !children[j].Valid()
      requires smallest != -1 ==> children[smallest].Valid() && forall j :: 0 <= j < |children| && children[j].Valid() ==>
                  !Before(children[j].Current(), children[smallest].Current())
      ensures smallest == -1 <==> p == |list|
      ensures smallest != -1 ==> children[smallest].Current() == list[p]
    {
      if p < |list| {
        var j :| 0 <= j < |children| && list[p] in Parts()[j];
        var k :| 0 <= k < |children[j].list| && children[j].list[k] == list[p];
        FirstBeyond(list, children[j].list, children[j].pos, p, k);
      }
      if smallest != -1 {
        var part, c := children[smallest].list, children[smallest].pos;
        assert Splits(list, part, c, p);
        assert part[c] in list[p..];
        ListOrder(list, p, part[c]);
      }
    }

    /** The scan of `FindSmallest`: the child standing at the smallest entry, or -1. */
    method Smallest() returns (smallest: int)
      requires forall i :: 0 <= i < |children| ==> children[i].Ok()
      ensures -1 <= smallest < |children|
      ensures smallest == -1 ==> forall j :: 0 <= j < |children| ==> !children[j].Valid()
      ensures smallest != -1 ==> children[smallest].Valid() && forall j :: 0 <= j < |children| && children[j].Valid() ==>
                !Before(children[j].Current(), children[smallest].Current())
    {
      smallest := -1;
      for i := 0 to |children|
        invariant -1 <= smallest < i
        invariant smallest == -1 ==> forall j :: 0 <= j < i ==> !children[j].Valid()
        invariant smallest != -1 ==> children[smallest].Valid()
        invariant smallest != -1 ==> forall j :: 0 <= j < i && children[j].Valid() ==>
                    !Before(children[j].Current(), children[smallest].Current())
      {
        var child := children[i];
        if child.Valid() {
          if smallest == -1 {
            smallest := i;
          } else if Before(child.Current(), children[smallest].Current()) {
            smallest := i;
          }
        }
      }
    }

    method FindSmallest(ghost p: nat)
      requires Shape() && AllAt(p) && p <= |list| && direction.Forward?
      modifies this
      ensures Ok() && pos == p && direction.Forward?
    {
      var smallest := Smallest();
      SmallestIsNext(p, smallest);
      current := smallest;
      pos := p;
    }

    /** Some child stands at the entry before `p`. */
    lemma SomeChildAtLast(p: nat) returns (j: nat)
      requires Shape() && AllBefore(p) && 0 < p <= |list|
      ensures j < |children| && children[j].Valid() && children[j].Current() == list[p - 1]
    {
      assert list[p - 1] in list;
      var i :| 0 <= i < |children| && list[p - 1] in Parts()[i];
      j := i;
      assert LastOf(children[j], p);
      var part := children[j].list;
      var c: nat :| Splits(list, part, c, p) && children[j].pos == PrevPos(c, |part|);
      var k :| 0 <= k < |part| && part[k] == list[p - 1];
      LastWithin(list, part, c, p, k);
    }

    /** No child stands beyond it. */
    lemma ChildNotAfterLast(p: nat, j: nat)
      requires Shape() && AllBefore(p) && p <= |list| && j < |children| && children[j].Valid()
      ensures p > 0 && (children[j].Current() == list[p - 1] || Before(children[j].Current(), list[p - 1]))
    {
      assert LastOf(children[j], p);
      var part := children[j].list;
      var c: nat :| Splits(list, part, c, p) && children[j].pos == PrevPos(c, |part|);
      assert part[c - 1] in list[..p];
      ListOrder(list, p - 1, part[c - 1]);
    }

    lemma LargestIsLast(p: nat, largest: int)
      requires Shape() && AllBefore(p) && p <= |list| && -1 <= largest < |children|
      requires largest == -1 ==> forall j :: 0 <= j < |children| ==> !children[j].Valid()
      requires largest != -1 ==> children[largest].Valid() && forall j :: 0 <= j < |children| && children[j].Valid() ==>
                  !Before(children[largest].Current(), children[j].Current())
      ensures largest == -1 <==> p == 0
      ensures largest != -1 ==> children[largest].Current() == list[p - 1]
    {
      if p > 0 {
        var j := SomeChildAtLast(p);
      }
      if largest != -1 {
        ChildNotAfterLast(p, largest);
      }
    }

    /** The scan of `FindLargest`, from the last child down. */
    method Largest() returns (largest: int)
      requires forall i :: 0 <= i < |children| ==> children[i].Ok()
      ensures -1 <= largest < |children|
      ensures largest == -1 ==> forall j :: 0 <= j < |children| ==> !children[j].Valid()
      ensures largest != -1 ==> children[largest].Valid() && forall j :: 0 <= j < |children| && children[j].Valid() ==>
                !Before(children[largest].Current(), children[j].Current())
    {
      largest := -1;
      for i := |children| downto 0
        invariant largest == -1 || i <= largest < |children|
        invariant largest == -1 ==> forall j :: i <= j < |children| ==> !children[j].Valid()
        invariant largest != -1 ==> children[largest].Valid()
        invariant largest != -1 ==> forall j :: i <= j < |children| && children[j].Valid() ==>
                    !Before(children[largest].Current(), children[j].Current())
      {
        var child := children[i];
        if child.Valid() {
          if largest == -1 {
            largest := i;
          } else if Before(children[largest].Current(), child.Current()) {
            largest := i;
          }
        }
      }
    }

    method FindLargest(ghost p: nat)
      requires Shape() && AllBefore(p) && p <= |list| && direction.Reverse?
      modifies this
      ensures Ok() && pos == PrevPos(p, |list|) && direction.Reverse?
    {
      var largest := Largest();
      LargestIsLast(p, largest);
      current := largest;
      pos := PrevPos(p, |list|);
    }

    method SeekToFirst()
      requires Shape()
      modifies this, children
      ensures Ok() && pos == 0
    {
      for i := 0 to |children|
        invariant Shape()
        invariant forall j :: 0 <= j < i ==> children[j].pos == 0
      {
        children[i].SeekToFirst();
      }
      forall i | 0 <= i < |children|
        ensures Splits(list, children[i].list, 0, 0)
      {
        EndSplits(list, Parts()[i]);
      }
      direction := Forward;
      FindSmallest(0);
    }

    method SeekToLast()
      requires Shape()
      modifies this, children
      ensures Ok() && pos == LastPos(|list|)
    {
      for i := 0 to |children|
        invariant Shape()
        invariant forall j :: 0 <= j < i ==> children[j].pos == LastPos(|children[j].list|)
      {
        children[i].SeekToLast();
      }
      forall i | 0 <= i < |children|
        ensures LastOf(children[i], |list|)
      {
        EndSplits(list, Parts()[i]);
      }
      direction := Reverse;
      FindLargest(|list|);
    }

    method Seek(target: Entry)
      requires Shape()
      modifies this, children
      ensures Ok() && IsLowerBound(list, target, pos)
    {
      for i := 0 to |children|
        invariant Shape()
        invariant forall j :: 0 <= j < i ==> IsLowerBound(children[j].list, target, children[j].pos)
      {
        children[i].Seek(target);
      }
      ghost var p := LowerBound(target);
      direction := Forward;
      FindSmallest(p);
    }

    /** The children's lower bounds split the union at its own lower bound. */
    lemma LowerBound(target: Entry) returns (p: nat)
      requires Shape()
      requires forall j :: 0 <= j < |children| ==> IsLowerBound(children[j].list, target, children[j].pos)
      ensures IsLowerBound(list, target, p) && AllAt(p)
    {
      p := FirstNotBefore(list, target);
      forall j | 0 <= j < |children|
        ensures Splits(list, children[j].list, children[j].pos, p)
      {
        BoundsSplit(list, Parts()[j], target, p, children[j].pos);
      }
    }

    /** Only the current child holds the current entry. */
    lemma OthersPass(i: nat)
      requires Ok() && Valid() && direction.Forward? && i < |children| && i != current
      ensures Splits(list, children[i].list, children[i].pos, pos + 1)
    {
      var part, c, e := Parts()[i], children[i].pos, list[pos];
      assert Splits(list, part, c, pos);
      assert e in Parts()[current] && Parts()[current][children[current].pos] == e;
      assert e !in part;
      forall k | 0 <= k < |part|
        ensures if k < c then !Before(e, part[k]) else Before(e, part[k])
      {
        ListOrder(list, pos, part[k]);
      }
      SplitMembers(list, part, pos, c);
    }

    /** Only the current child holds the current entry, seen from behind. */
    lemma OthersFallBack(i: nat)
      requires Ok() && Valid() && direction.Reverse? && i < |children| && i != current
      ensures LastOf(children[i], pos)
    {
      assert LastOf(children[i], pos + 1);
      var part, e := Parts()[i], list[pos];
      var c: nat :| Splits(list, part, c, pos + 1) && children[i].pos == PrevPos(c, |part|);
      assert Parts()[current][children[current].pos] == e;
      assert e !in part;
      forall k | 0 <= k < |part|
        ensures if k < c then Before(part[k], e) else !Before(part[k], e)
      {
        ListOrder(list, pos, part[k]);
        if k < c { var m :| 0 <= m < pos + 1 && list[m] == part[k]; }
      }
      SplitBelow(list, part, pos, c);
    }

    /** The current child stands at the current entry. */
    lemma CurrentSplits()
      requires Ok() && Valid()
      ensures Splits(list, children[current].list, children[current].pos, pos)
      ensures Splits(list, children[current].list, children[current].pos + 1, pos + 1)
    {
      SplitsHere(list, Parts()[current], children[current].pos, pos);
    }

    /** Turning forwards: place every other child after the current entry. */
    method OthersAfter()
      requires Shape() && 0 <= current < |children| && pos < |list|
      requires children[current].Valid() && children[current].Current() == list[pos]
      modifies children
      ensures Shape() && children[current].pos == old(children[current].pos)
      ensures forall j :: 0 <= j < |children| && j != current ==> Splits(list, children[j].list, children[j].pos, pos + 1)
    {
      var key := children[current].Current();
      for i := 0 to |children|
        invariant Shape() && children[current].pos == old(children[current].pos)
        invariant forall j :: 0 <= j < i && j != current ==> Splits(list, children[j].list, children[j].pos, pos + 1)
      {
        if i != current {
          PlaceAfter(children[i], key);
          SplitMembers(list, Parts()[i], pos, children[i].pos);
        }
      }
    }

    /** Turning backwards: place every other child before the current entry. */
    method OthersBefore()
      requires Shape() && 0 <= current < |children| && pos < |list|
      requires children[current].Valid() && children[current].Current() == list[pos]
      modifies children
      ensures Shape() && children[current].pos == old(children[current].pos)
      ensures forall j :: 0 <= j < |children| && j != current ==> LastOf(children[j], pos)
    {
      var key := children[current].Current();
      for i := 0 to |children|
        invariant Shape() && children[current].pos == old(children[current].pos)
        invariant forall j :: 0 <= j < i && j != current ==> LastOf(children[j], pos)
      {
        if i != current {
          ghost var c := PlaceBefore(children[i], key);
          SplitBelow(list, Parts()[i], pos, c);
        }
      }
    }

    method Next()
      requires Ok() && Valid()
      modifies this, children
      ensures Ok() && pos == old(pos) + 1
    {
      CurrentSplits();
      if direction != Forward {
        OthersAfter();
        direction := Forward;
      } else {
        forall j | 0 <= j < |children| && j != current
          ensures Splits(list, children[j].list, children[j].pos, pos + 1)
        {
          OthersPass(j);
        }
      }
      children[current].Next();
      FindSmallest(pos + 1);
    }

    method Prev()
      requires Ok() && Valid()
      modifies this, children
      ensures Ok() && pos == PrevPos(old(pos), |list|)
    {
      CurrentSplits();
      if direction != Reverse {
        OthersBefore();
        direction := Reverse;
      } else {
        forall j | 0 <= j < |children| && j != current
          ensures LastOf(children[j], pos)
        {
          OthersFallBack(j);
        }
      }
      children[current].Prev();
      assert LastOf(children[current], pos);
      FindLargest(pos);
    }
  }
}
