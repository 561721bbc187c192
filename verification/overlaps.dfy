/** Which files of a level overlap a range of user keys. Level-0 files overlap each
    other, so there the range grows until no file sticks out of it. */
module Overlaps {
  import opened Keys
  import opened Entries
  import opened Files

  /** One end of a range of user keys; `None` is unbounded. */
  type Bound = Option<UserKey>

  predicate Overlapping(f: File, lo: Bound, hi: Bound) {
    && (lo.Some? ==> lo.value <= f.largest.key)
    && (hi.Some? ==> f.smallest.key <= hi.value)
  }

  predicate Within(f: File, lo: Bound, hi: Bound) {
    && (lo.Some? ==> lo.value <= f.smallest.key)
    && (hi.Some? ==> f.largest.key <= hi.value)
  }

  /** `[lo, hi]` lies inside `[lo2, hi2]`. */
  predicate Inside(lo: Bound, hi: Bound, lo2: Bound, hi2: Bound) {
    && (lo2.Some? ==> lo.Some? && lo2.value <= lo.value)
    && (hi2.Some? ==> hi.Some? && hi.value <= hi2.value)
  }

  /** The files that overlap the range, in their order. */
  function Select(files: seq<File>, lo: Bound, hi: Bound): seq<File> {
    if files == [] then []
    else Select(files[..|files| - 1], lo, hi) +
         if Overlapping(files[|files| - 1], lo, hi) then [files[|files| - 1]] else []
  }

  lemma {:induction false} SelectIs(files: seq<File>, lo: Bound, hi: Bound)
    ensures forall f :: f in Select(files, lo, hi) <==> f in files && Overlapping(f, lo, hi)
  {
    if files != [] {
      SelectIs(files[..|files| - 1], lo, hi);
      assert files == files[..|files| - 1] + [files[|files| - 1]];
    }
  }

  lemma SelectTwo(f: File, g: File, lo: Bound, hi: Bound)
    ensures Select([f, g], lo, hi) == (if Overlapping(f, lo, hi) then [f] else []) + (if Overlapping(g, lo, hi) then [g] else [])
  {
    assert [f, g][..1] == [f] && [f][..0] == [];
    assert Select([f], lo, hi) == Select([], lo, hi) + if Overlapping(f, lo, hi) then [f] else [];
  }

  /** No file overlaps the range and sticks out of it. */
  ghost predicate Closed(files: seq<File>, lo: Bound, hi: Bound) {
    forall i :: 0 <= i < |files| && Overlapping(files[i], lo, hi) ==> Within(files[i], lo, hi)
  }

  /** How many files stick out below `lo`, and above `hi`. */
  function Below(files: seq<File>, lo: Bound): nat {
    if files == [] || lo == None then 0
    else Below(files[1..], lo) + if files[0].smallest.key < lo.value then 1 else 0
  }

  function Above(files: seq<File>, hi: Bound): nat {
    if files == [] || hi == None then 0
    else Above(files[1..], hi) + if files[0].largest.key > hi.value then 1 else 0
  }

  /** Stretching the range to take in a file leaves strictly fewer files sticking out. */
  lemma {:induction false} FewerBelow(files: seq<File>, lo: Bound, lo2: Bound, i: nat)
    requires lo.Some? && lo2.Some? && lo2.value <= lo.value
    ensures Below(files, lo2) <= Below(files, lo)
    ensures i < |files| && lo2.value == files[i].smallest.key < lo.value ==> Below(files, lo2) < Below(files, lo)
  {
    if files != [] {
      FewerBelow(files[1..], lo, lo2, if i == 0 then 0 else i - 1);
    }
  }

  lemma {:induction false} FewerAbove(files: seq<File>, hi: Bound, hi2: Bound, i: nat)
    requires hi.Some? && hi2.Some? && hi.value <= hi2.value
    ensures Above(files, hi2) <= Above(files, hi)
    ensures i < |files| && hi2.value == files[i].largest.key > hi.value ==> Above(files, hi2) < Above(files, hi)
  {
    if files != [] {
      FewerAbove(files[1..], hi, hi2, if i == 0 then 0 else i - 1);
    }
  }

  function StickingOut(files: seq<File>, lo: Bound, hi: Bound): nat {
    Below(files, lo) + Above(files, hi)
  }

  /** `[lo, hi]` is the least range around `[begin, end]` that no overlapping file sticks out of. */
  ghost predicate LeastClosed(files: seq<File>, begin: Bound, end: Bound, lo: Bound, hi: Bound) {
    && Inside(begin, end, lo, hi) && Closed(files, lo, hi) && InsideEveryClosed(files, begin, end, lo, hi)
  }

  ghost predicate InsideEveryClosed(files: seq<File>, begin: Bound, end: Bound, lo: Bound, hi: Bound) {
    forall lo2, hi2 {:trigger Closed(files, lo2, hi2)} ::
      Inside(begin, end, lo2, hi2) && Closed(files, lo2, hi2) ==> Inside(lo, hi, lo2, hi2)
  }

  /** What the search knows when it has looked at the first `i` files. */
  ghost predicate Searched(files: seq<File>, i: nat, level: nat, begin: Bound, end: Bound, lo: Bound, hi: Bound, inputs: seq<File>)
    requires i <= |files|
  {
    && Inside(begin, end, lo, hi) && InsideEveryClosed(files, begin, end, lo, hi)
    && (if level > 0 then lo == begin && hi == end else Closed(files[..i], lo, hi))
    && inputs == Select(files[..i], lo, hi)
  }

  lemma LookOn(files: seq<File>, i: nat, level: nat, begin: Bound, end: Bound, lo: Bound, hi: Bound, inputs: seq<File>)
    requires i < |files| && Searched(files, i, level, begin, end, lo, hi, inputs)
    requires level == 0 && Overlapping(files[i], lo, hi) ==> Within(files[i], lo, hi)
    ensures Searched(files, i + 1, level, begin, end, lo, hi,
                     inputs + if Overlapping(files[i], lo, hi) then [files[i]] else [])
  {
    assert files[..i + 1][..i] == files[..i];
  }

  /** A file that sticks out belongs in every closed range around the request, and taking
      it in is progress. */
  lemma StartOver(files: seq<File>, i: nat, begin: Bound, end: Bound, lo: Bound, hi: Bound, inputs: seq<File>, lo2: Bound, hi2: Bound)
    requires i < |files| && Searched(files, i, 0, begin, end, lo, hi, inputs) && Overlapping(files[i], lo, hi)
    requires lo2 == lo || (lo.Some? && lo2 == Some(files[i].smallest.key) && lo2.value < lo.value)
    requires hi2 == hi || (hi.Some? && hi2 == Some(files[i].largest.key) && hi2.value > hi.value)
    requires lo2 == lo <==> hi2 != hi
    ensures Searched(files, 0, 0, begin, end, lo2, hi2, [])
    ensures StickingOut(files, lo2, hi2) < StickingOut(files, lo, hi)
  {
    if lo2 != lo {
      FewerBelow(files, lo, lo2, i);
    } else {
      FewerAbove(files, hi, hi2, i);
    }
    forall lo3, hi3 | Inside(begin, end, lo3, hi3) && Closed(files, lo3, hi3)
      ensures Inside(lo2, hi2, lo3, hi3)
    {
      assert Inside(lo, hi, lo3, hi3) && Overlapping(files[i], lo3, hi3);
    }
  }

  /** The files of a level that overlap `[begin, end]`: at level 0 all those in the
      least closed range around it. The loop starts over whenever the range grows. */
  method GetOverlappingInputs(files: seq<File>, level: nat, begin: Bound, end: Bound)
    returns (inputs: seq<File>, ghost lo: Bound, ghost hi: Bound)
    ensures level == 0 ==> LeastClosed(files, begin, end, lo, hi)
    ensures level > 0 ==> lo == begin && hi == end
    ensures inputs == Select(files, lo, hi)
  {
    inputs := [];
    var userBegin, userEnd := begin, end;
    var i: nat := 0;
    while i < |files|
      invariant i <= |files| && Searched(files, i, level, begin, end, userBegin, userEnd, inputs)
      decreases StickingOut(files, userBegin, userEnd), |files| - i
    {
      var f := files[i];
      i := i + 1;
      if userBegin.Some? && f.largest.key < userBegin.value {
        // Completely before the range; skip it
        LookOn(files, i - 1, level, begin, end, userBegin, userEnd, inputs);
      } else if userEnd.Some? && f.smallest.key > userEnd.value {
        // Completely after the range; skip it
        LookOn(files, i - 1, level, begin, end, userBegin, userEnd, inputs);
      } else if level == 0 && userBegin.Some? && f.smallest.key < userBegin.value {
        StartOver(files, i - 1, begin, end, userBegin, userEnd, inputs, Some(f.smallest.key), userEnd);
        userBegin := Some(f.smallest.key);
        inputs, i := [], 0;
      } else if level == 0 && userEnd.Some? && f.largest.key > userEnd.value {
        StartOver(files, i - 1, begin, end, userBegin, userEnd, inputs, userBegin, Some(f.largest.key));
        userEnd := Some(f.largest.key);
        inputs, i := [], 0;
      } else {
        LookOn(files, i - 1, level, begin, end, userBegin, userEnd, inputs);
        inputs := inputs + [f];
      }
    }
    assert files[..i] == files;
    lo, hi := userBegin, userEnd;
  }
}
