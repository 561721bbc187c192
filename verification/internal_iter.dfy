/** The store's internal cursor: the memtables and the tables of a version, merged. */
module InternalIterators {
  import opened Keys
  import opened Entries
  import opened Cursors
  import opened MergingIterators

  class InternalIterator {
    const inner: MergingIterator
    ghost const list: seq<Entry>
    ghost var pos: nat

    /** The merged cursor is in order; what that takes is its own affair. */
    ghost predicate Merges()
      reads inner, inner.children
    {
      forall x {:trigger Asked(OfPart, x)} :: Asked(OfPart, x) ==> inner.Ok() && inner.list == list
    }

    ghost predicate Ok()
      reads this, inner, inner.children
    {
      Merges() && Sorted(list) && pos == inner.pos <= |list| && (Valid() <==> pos < |list|)
    }

    /** The children are cursors over the parts. */
    constructor (children: seq<EntryCursor>, ghost list: seq<Entry>)
      requires forall i :: 0 <= i < |children| ==> children[i].Ok()
      requires forall i, j :: 0 <= i < j < |children| ==> children[i] != children[j]
      requires IsMergeOf(list, seq(|children|, i requires 0 <= i < |children| => children[i].list))
      ensures Ok() && !Valid() && this.list == list && fresh(inner) && inner.children == children
    {
      inner := new MergingIterator(children, list);
      this.list := list;
      pos := |list|;
    }

    predicate Valid()
      reads inner
    {
      inner.Valid()
    }

    function Current(): (e: Entry)
      requires Ok() && Valid()
      reads this, inner, inner.children
      ensures pos < |list| && e == list[pos]
    {
      assert Asked(OfPart, 0);
      inner.Current()
    }

    method SeekToFirst()
      requires Ok()
      modifies this, inner, inner.children
      ensures Ok() && pos == 0
    {
      assert Asked(OfPart, 0);
      inner.SeekToFirst();
      pos := inner.pos;
    }

    method SeekToLast()
      requires Ok()
      modifies this, inner, inner.children
      ensures Ok() && pos == LastPos(|list|)
    {
      assert Asked(OfPart, 0);
      inner.SeekToLast();
      pos := inner.pos;
    }

    method Next()
      requires Ok() && Valid()
      modifies this, inner, inner.children
      ensures Ok() && pos == old(pos) + 1
    {
      assert Asked(OfPart, 0);
      inner.Next();
      pos := inner.pos;
    }

    method Prev()
      requires Ok() && Valid()
      modifies this, inner, inner.children
      ensures Ok() && pos == PrevPos(old(pos), |list|)
    {
      assert Asked(OfPart, 0);
      inner.Prev();
      pos := inner.pos;
    }

    method Seek(target: Entry)
      requires Ok()
      modifies this, inner, inner.children
      ensures Ok() && IsLowerBound(list, target, pos)
    {
      assert Asked(OfPart, 0);
      inner.Seek(target);
      pos := inner.pos;
    }
  }
}
