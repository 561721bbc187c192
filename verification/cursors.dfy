/** The iterator contract every component is proved against: a position in a
    sorted list of entries, with `|list|` standing for "not valid". */
module Cursors {
  import opened Keys
  import opened Entries

  /** `p` is the first position whose entry does not come before `target`. */
  ghost predicate IsLowerBound(list: seq<Entry>, target: Entry, p: nat) {
    && p <= |list|
    && (forall i :: 0 <= i < p ==> Before(list[i], target))
    && (forall i :: p <= i < |list| ==> !Before(list[i], target))
  }

  function LastPos(n: nat): nat {
    if n == 0 then 0 else n - 1
  }

  function PrevPos(p: nat, n: nat): nat {
    if p == 0 then n else p - 1
  }

  /** A cursor over a fixed list, searched as `Version::LevelFileNumIterator` does. */
  class EntryCursor {
    const list: seq<Entry>
    var pos: nat

    ghost predicate Ok()
      reads this
    {
      Sorted(list) && pos <= |list|
    }

    predicate Valid()
      reads this
    {
      pos < |list|
    }

    constructor (list: seq<Entry>)
      requires Sorted(list)
      ensures Ok() && this.list == list && !Valid()
    {
      this.list := list;
      pos := |list|;
    }

    function Current(): Entry
      requires Valid()
      reads this
    {
      list[pos]
    }

    method SeekToFirst()
      requires Ok()
      modifies this
      ensures Ok() && pos == 0
    {
      pos := 0;
    }

    method SeekToLast()
      requires Ok()
      modifies this
      ensures Ok() && pos == LastPos(|list|)
    {
      pos := if |list| == 0 then 0 else |list| - 1;
    }

    method Next()
      requires Ok() && Valid()
      modifies this
      ensures Ok() && pos == old(pos) + 1
    {
      pos := pos + 1;
    }

    method Prev()
      requires Ok() && Valid()
      modifies this
      ensures Ok() && pos == PrevPos(old(pos), |list|)
    {
      if pos == 0 {
        pos := |list|;
      } else {
        pos := pos - 1;
      }
    }

    /** Binary search for the first entry at or after `target`. */
    method Seek(target: Entry)
      requires Ok()
      modifies this
      ensures Ok() && IsLowerBound(list, target, pos)
    {
      SortedFacts(list);
      var left, right := 0, |list|;
      while left < right
        invariant 0 <= left <= right <= |list|
        invariant forall i :: 0 <= i < left ==> Before(list[i], target)
        invariant forall i :: right <= i < |list| ==> !Before(list[i], target)
      {
        var mid := (left + right) / 2;
        if Before(list[mid], target) {
          left := mid + 1;
        } else {
          right := mid;
        }
      }
      pos := right;
    }
  }
}
