/** The list of live snapshots: a circular doubly linked list around a dummy head, oldest
    first. */
module Snapshots {
  class Snapshot {
    const number: nat
    var prev: Snapshot?
    var next: Snapshot?

    constructor (number: nat)
      ensures this.number == number
    {
      this.number := number;
      prev, next := null, null;
    }
  }

  /** Neighbours point at each other. */
  ghost predicate LinkAt(nodes: seq<Snapshot>, i: nat)
    requires i + 1 < |nodes|
    reads nodes
  {
    nodes[i].next == nodes[i + 1] && nodes[i + 1].prev == nodes[i]
  }

  /** A circle: the first node is the last, and the others are all different. */
  ghost predicate Circle(nodes: seq<Snapshot>) {
    && |nodes| >= 2 && nodes[0] == nodes[|nodes| - 1]
    && forall i, j :: 0 <= i < j < |nodes| - 1 ==> nodes[i] != nodes[j]
  }

  /** From the oldest to the newest. */
  ghost predicate Ordered(live: seq<Snapshot>) {
    forall i, j :: 0 <= i < j < |live| ==> live[i].number <= live[j].number
  }

  function Inside(nodes: seq<Snapshot>): seq<Snapshot>
    requires |nodes| >= 2
  {
    nodes[1..|nodes| - 1]
  }

  function Cut(nodes: seq<Snapshot>, k: nat): (r: seq<Snapshot>)
    requires k < |nodes|
    ensures |r| == |nodes| - 1 && forall i :: 0 <= i < |r| ==> r[i] == nodes[if i < k then i else i + 1]
  {
    nodes[..k] + nodes[k + 1..]
  }

  lemma CutOrdered(live: seq<Snapshot>, k: nat)
    requires Ordered(live) && k < |live|
    ensures Ordered(Cut(live, k))
  {
  }

  lemma CutCircle(nodes: seq<Snapshot>, k: nat)
    requires Circle(nodes) && Ordered(Inside(nodes)) && 1 <= k < |nodes| - 1
    ensures Circle(Cut(nodes, k)) && Ordered(Inside(Cut(nodes, k))) && Inside(Cut(nodes, k)) == Cut(Inside(nodes), k - 1)
  {
    CutOrdered(Inside(nodes), k - 1);
    assert Inside(Cut(nodes, k)) == Cut(Inside(nodes), k - 1);
  }

  function Grown(nodes: seq<Snapshot>, s: Snapshot): seq<Snapshot>
    requires |nodes| >= 2
  {
    nodes[..|nodes| - 1] + [s, nodes[0]]
  }

  lemma GrownCircle(nodes: seq<Snapshot>, s: Snapshot)
    requires Circle(nodes) && Ordered(Inside(nodes)) && s !in nodes && forall t :: t in Inside(nodes) ==> t.number <= s.number
    ensures Circle(Grown(nodes, s)) && Ordered(Inside(Grown(nodes, s))) && Inside(Grown(nodes, s)) == Inside(nodes) + [s]
  {
  }

  class SnapshotList {
    const head: Snapshot            // dummy
    ghost var nodes: seq<Snapshot>  // the circle from the head to the head

    ghost predicate Valid()
      reads this, nodes
    {
      && Circle(nodes) && nodes[0] == head && Ordered(Live())
      && forall i {:trigger LinkAt(nodes, i)} :: 0 <= i < |nodes| - 1 ==> LinkAt(nodes, i)
    }

    /** The snapshots in the list. */
    ghost function Live(): seq<Snapshot>
      requires |nodes| >= 2
      reads this
    {
      Inside(nodes)
    }

    constructor ()
      ensures Valid() && fresh(nodes) && Live() == []
    {
      head := new Snapshot(0);
      new;
      head.prev, head.next := head, head;
      nodes := [head, head];
    }

    method Empty() returns (b: bool)
      requires Valid()
      ensures b == (Live() == [])
    {
      assert LinkAt(nodes, 0);
      b := head.next == head;
    }

    /** No snapshot in the list is older. */
    method Oldest() returns (s: Snapshot)
      requires Valid() && Live() != []
      ensures s in Live() && forall t :: t in Live() ==> s.number <= t.number
    {
      assert LinkAt(nodes, 0);
      s := head.next;
      assert s == Live()[0];
    }

    method Newest() returns (s: Snapshot)
      requires Valid() && Live() != []
      ensures s in Live() && forall t :: t in Live() ==> t.number <= s.number
    {
      assert LinkAt(nodes, |nodes| - 2);
      s := head.prev;
      assert s == Live()[|Live()| - 1];
    }

    /** A snapshot at the newest end; sequence numbers never go back. */
    method New(number: nat) returns (s: Snapshot)
      requires Valid() && forall t :: t in Live() ==> t.number <= number
      modifies this, nodes
      ensures Valid() && fresh(s) && s.number == number && Live() == old(Live()) + [s]
    {
      ghost var before := nodes;
      assert LinkAt(nodes, |nodes| - 2);
      s := new Snapshot(number);
      s.next := head;
      s.prev := head.prev;
      head.prev.next := s;
      head.prev := s;
      nodes := Grown(nodes, s);
      GrownCircle(before, s);
      forall i | 0 <= i < |nodes| - 1
        ensures LinkAt(nodes, i)
      {
        if i + 2 < |nodes| - 1 {
          assert old(LinkAt(before, i));
        }
      }
    }

    /** Take the snapshot out of the circle; `k` is its place. */
    method Delete(s: Snapshot) returns (ghost k: nat)
      requires Valid() && s in Live()
      modifies this, nodes
      ensures Valid() && k < |old(Live())| && old(Live())[k] == s && Live() == Cut(old(Live()), k)
    {
      ghost var before := nodes;
      k :| k < |Live()| && Live()[k] == s;
      Unlink(s, k + 1);
      nodes := Cut(nodes, k + 1);
      CutCircle(before, k + 1);
    }

    method Unlink(s: Snapshot, ghost k: nat)
      requires Valid() && 1 <= k < |nodes| - 1 && nodes[k] == s
      modifies nodes
      ensures forall i {:trigger LinkAt(Cut(nodes, k), i)} :: 0 <= i < |nodes| - 2 ==> LinkAt(Cut(nodes, k), i)
    {
      ghost var rest := Cut(nodes, k);
      assert LinkAt(nodes, k - 1) && LinkAt(nodes, k);
      forall i | 0 <= i < |nodes| - 2 && i != k - 1
        ensures LinkAt(rest, i)
      {
        assert LinkAt(nodes, if i < k then i else i + 1);
      }
      label L:
      s.prev.next := s.next;
      s.next.prev := s.prev;
      forall i | 0 <= i < |nodes| - 2
        ensures LinkAt(rest, i)
      {
        if i != k - 1 {
          assert old@L(LinkAt(rest, i));
        }
      }
    }
  }
}
