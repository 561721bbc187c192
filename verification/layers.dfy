/** Layers of entries, newest first, and the search that stops at the first layer that knows
    the key. */
module Layerings {
  import opened Keys
  import opened Entries

  /** Every entry of `upper` is newer than every entry of `lower` with the same user key. */
  ghost predicate NewerThan(upper: set<Entry>, lower: set<Entry>) {
    forall e, f :: e in upper && f in lower && e.key == f.key ==> e.seqno > f.seqno
  }

  /** No entry of `u` at or below `s`. */
  ghost predicate Lacks(es: set<Entry>, u: UserKey, s: nat) {
    forall e :: e in es && e.key == u ==> e.seqno > s
  }

  ghost predicate LayersOrdered(layers: seq<set<Entry>>) {
    forall a, b :: 0 <= a < b < |layers| ==> NewerThan(layers[a], layers[b])
  }

  ghost function Union(layers: seq<set<Entry>>): set<Entry> {
    set l, e | 0 <= l < |layers| && e in layers[l] :: e
  }

  /** What the first layer with a visible entry of the key says. */
  ghost function Search(layers: seq<set<Entry>>, u: UserKey, s: nat): Option<Bytes> {
    if layers == [] then None
    else if Lacks(layers[0], u, s) then Search(layers[1..], u, s)
    else Read(layers[0], u, s)
  }

  /** At every snapshot from `snap` on the search through the layers finds what reading all of
      `es` at once gives. */
  ghost predicate FindsNewest(layers: seq<set<Entry>>, es: set<Entry>, snap: nat) {
    forall u: UserKey, s: nat :: snap <= s ==> Search(layers, u, s) == Read(es, u, s)
  }

  lemma NewestOfLayer(es: set<Entry>, u: UserKey, s: nat) returns (e: Entry)
    requires !Lacks(es, u, s)
    ensures Newest(es, e, u, s)
  {
    var f :| f in es && f.key == u && f.seqno <= s;
    e := NewestExists(es, f, s);
  }

  /** A layer newer than the other, where it says anything at all, decides. */
  lemma UpperDecides(upper: set<Entry>, lower: set<Entry>, u: UserKey, s: nat)
    requires NewerThan(upper, lower) && Distinct(upper + lower)
    ensures Read(upper + lower, u, s) == if Lacks(upper, u, s) then Read(lower, u, s) else Read(upper, u, s)
  {
    if !Lacks(upper, u, s) {
      var e := NewestOfLayer(upper, u, s);
      ReadOfNewest(upper, e, u, s);
      ReadOfNewest(upper + lower, e, u, s);
    } else if !Lacks(lower, u, s) {
      var e := NewestOfLayer(lower, u, s);
      ReadOfNewest(lower, e, u, s);
      ReadOfNewest(upper + lower, e, u, s);
    } else {
      ReadOfNothing(lower, u, s);
      ReadOfNothing(upper + lower, u, s);
    }
  }

  lemma UnionOfFirst(layers: seq<set<Entry>>)
    requires layers != []
    ensures Union(layers) == layers[0] + Union(layers[1..])
  {
    forall e | e in Union(layers)
      ensures e in layers[0] + Union(layers[1..])
    {
      var l :| 0 <= l < |layers| && e in layers[l];
      assert l > 0 ==> layers[1..][l - 1] == layers[l];
    }
    forall e | e in Union(layers[1..])
      ensures e in Union(layers)
    {
      var l :| 0 <= l < |layers[1..]| && e in layers[1..][l];
      assert layers[l + 1] == layers[1..][l];
    }
  }

  /** Layer by layer joined is joined all together. */
  lemma UnionOfSums(a: seq<set<Entry>>, b: seq<set<Entry>>, c: seq<set<Entry>>)
    requires |a| == |b| == |c| && forall l :: 0 <= l < |c| ==> c[l] == a[l] + b[l]
    ensures Union(c) == Union(a) + Union(b)
  {
    forall e | e in Union(a) + Union(b)
      ensures e in Union(c)
    {
      var l :| 0 <= l < |c| && (e in a[l] || e in b[l]);
      assert e in c[l];
    }
  }

  lemma FirstIsNewer(layers: seq<set<Entry>>)
    requires layers != [] && LayersOrdered(layers)
    ensures NewerThan(layers[0], Union(layers[1..])) && LayersOrdered(layers[1..])
  {
    forall e, f | e in layers[0] && f in Union(layers[1..]) && e.key == f.key
      ensures e.seqno > f.seqno
    {
      var l :| 0 <= l < |layers[1..]| && f in layers[1..][l];
      assert NewerThan(layers[0], layers[l + 1]);
    }
  }

  /** The search goes through ordered layers as through one, and then on. */
  lemma {:induction false} SearchPrefix(a: seq<set<Entry>>, b: seq<set<Entry>>, u: UserKey, s: nat)
    requires LayersOrdered(a) && Distinct(Union(a))
    ensures Search(a + b, u, s) == if Lacks(Union(a), u, s) then Search(b, u, s) else Read(Union(a), u, s)
  {
    if a == [] {
      assert a + b == b;
    } else {
      UnionOfFirst(a);
      FirstIsNewer(a);
      SearchPrefix(a[1..], b, u, s);
      assert (a + b)[1..] == a[1..] + b;
      UpperDecides(a[0], Union(a[1..]), u, s);
    }
  }

  /** In ordered layers the search finds the newest entry of all. */
  lemma OrderedSearchReads(layers: seq<set<Entry>>, u: UserKey, s: nat)
    requires LayersOrdered(layers) && Distinct(Union(layers))
    ensures Search(layers, u, s) == Read(Union(layers), u, s)
  {
    SearchPrefix(layers, [], u, s);
    assert layers + [] == layers;
    if Lacks(Union(layers), u, s) {
      ReadOfNothing(Union(layers), u, s);
    }
  }

  lemma SearchNext(layers: seq<set<Entry>>, i: nat, u: UserKey, s: nat)
    requires i < |layers|
    ensures Search(layers[i..], u, s) == if Lacks(layers[i], u, s) then Search(layers[i + 1..], u, s) else Read(layers[i], u, s)
  {
    assert layers[i..][0] == layers[i] && layers[i..][1..] == layers[i + 1..];
  }

  /** A layer newer than all others goes in front. */
  lemma OnTop(layer: set<Entry>, layers: seq<set<Entry>>)
    ensures Union([layer] + layers) == layer + Union(layers)
    ensures LayersOrdered(layers) && NewerThan(layer, Union(layers)) ==> LayersOrdered([layer] + layers)
  {
    UnionOfFirst([layer] + layers);
    assert ([layer] + layers)[1..] == layers;
    forall l | 0 <= l < |layers|
      ensures layers[l] <= Union(layers)
    {
    }
  }
}
