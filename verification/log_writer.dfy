/** `log::Writer`: fragments each record into the file it appends to. */
module LogWriters {
  import opened Keys
  import opened Coding
  import opened LogFormat

  class Writer {
    const codec: Codec
    var dest: Bytes
    var blockOffset: nat
    /** The records the file holds. */
    ghost var records: seq<Bytes>

    /** The block offset is where the file ends in its block; a full block may also count as its end. */
    ghost predicate Aligned()
      reads this
    {
      blockOffset == BLOCK - Gap(|dest|) || (blockOffset == BLOCK && Gap(|dest|) == BLOCK)
    }

    ghost predicate Ok()
      reads this
    {
      dest == Log(codec.frame, records) && Aligned()
    }

    constructor (codec: Codec)
      ensures Ok() && records == [] && this.codec == codec
    {
      this.codec := codec;
      dest := [];
      blockOffset := 0;
      records := [];
    }

    /** A writer opened at the end of a file that holds `records`. */
    constructor Reopen(codec: Codec, dest: Bytes, ghost records: seq<Bytes>)
      requires dest == Log(codec.frame, records)
      ensures Ok() && this.dest == dest && this.records == records && this.codec == codec
    {
      this.codec := codec;
      this.dest := dest;
      blockOffset := |dest| % 32768;
      this.records := records;
      new;
      GapIsRemainder(|dest|);
    }

    method EmitPhysicalRecord(f: Fragment)
      requires blockOffset + HEADER + |f.data| <= BLOCK
      modifies this`dest, this`blockOffset
      ensures dest == old(dest) + codec.frame(f) + f.data
      ensures blockOffset == old(blockOffset) + HEADER + |f.data|
    {
      var buf := Fixed32(Mask(codec.crc([f.kind] + f.data))) + [|f.data| % 256, |f.data| / 256 % 256] + [f.kind];
      dest := dest + buf;
      dest := dest + f.data;
      blockOffset := blockOffset + HEADER + |f.data|;
    }

    /** Fill out a block that has no room for a header and start the next. */
    method StartFragment()
      requires Aligned()
      modifies this`dest, this`blockOffset
      ensures dest == old(dest) + Zeros(Pad(|old(dest)|))
      ensures blockOffset + HEADER <= BLOCK && BLOCK - blockOffset - HEADER == Avail(|old(dest)|)
    {
      var leftover := BLOCK - blockOffset;
      if leftover < HEADER {
        // Switch to a new block
        if leftover > 0 {
          dest := dest + Zeros(leftover);
        }
        blockOffset := 0;
      }
    }

    /** One turn of the fragmenting loop: as much of `rest` as the block takes. */
    method EmitFragment(rest: Bytes, begin: bool) returns (fragmentLength: nat)
      requires Aligned()
      modifies this`dest, this`blockOffset
      ensures fragmentLength == Room(|rest|, |old(dest)|)
      ensures dest == old(dest) + Emitted(codec.frame, Next(rest, begin, |old(dest)|), |old(dest)|)
      ensures Aligned()
    {
      ghost var p := |dest|;
      StartFragment();
      var avail := BLOCK - blockOffset - HEADER;
      fragmentLength := if |rest| < avail then |rest| else avail;
      var end := |rest| == fragmentLength;
      var f := Fragment(Kind(begin, end), rest[..fragmentLength]);
      EmitPhysicalRecord(f);
      assert dest == old(dest) + (Zeros(Pad(p)) + codec.frame(f) + f.data);
      GapAfter(p, fragmentLength);
    }

    /** What is left of the block after a fragment. */
    lemma GapAfter(p: nat, n: nat)
      requires n <= Avail(p)
      ensures Gap(After(n, p)) == if n == Avail(p) then BLOCK else Avail(p) - n
    {
      FullFragment(p);
      if n < Avail(p) { GapShrinks(p + Pad(p), HEADER + n); }
    }

    /** What one turn leaves to be written is what the record still lacks. */
    lemma TurnLeaves(before: Bytes, rest: Bytes, begin: bool, n: nat, after: Bytes)
      requires n == Room(|rest|, |before|) && after == before + Emitted(codec.frame, Next(rest, begin, |before|), |before|)
      ensures n == |rest| ==> after == before + Layout(codec.frame, rest, begin, |before|)
      ensures n < |rest| ==> after + Layout(codec.frame, rest[n..], false, |after|) == before + Layout(codec.frame, rest, begin, |before|)
    {
      var p := |before|;
      var e := Emitted(codec.frame, Next(rest, begin, p), p);
      assert |after| == After(n, p);
      if n < |rest| {
        var more := Layout(codec.frame, rest[n..], false, After(n, p));
        assert Layout(codec.frame, rest, begin, p) == e + more;
        Associate(before, e, more);
      }
    }

    lemma Associate(a: Bytes, b: Bytes, c: Bytes)
      ensures a + (b + c) == (a + b) + c
    {
    }

    /** A fragment that leaves something over fills its block, so either the record or the block shrinks. */
    lemma TurnMakesProgress(rest: Bytes, p: nat)
      ensures var n := Room(|rest|, p); n < |rest| ==> Gap(After(n, p)) == BLOCK && (n > 0 || Gap(p) < BLOCK)
    {
      FullFragment(p);
    }

    method Turn(rest: Bytes, begin: bool) returns (rest': Bytes)
      requires Aligned()
      modifies this`dest, this`blockOffset
      ensures Aligned()
      ensures rest' == [] ==> dest == old(dest) + Layout(codec.frame, rest, begin, |old(dest)|)
      ensures rest' != [] ==> dest + Layout(codec.frame, rest', false, |dest|) == old(dest) + Layout(codec.frame, rest, begin, |old(dest)|)
      ensures rest' != [] ==> |rest'| < |rest| || (|rest'| == |rest| && Gap(|dest|) == BLOCK && Gap(|old(dest)|) < BLOCK)
    {
      TurnMakesProgress(rest, |dest|);
      var n := EmitFragment(rest, begin);
      TurnLeaves(old(dest), rest, begin, n, dest);
      assert |dest| == After(n, |old(dest)|);
      rest' := rest[n..];
    }

    /** The fragmenting loop; an empty record still gets one fragment. */
    method EmitRecord(slice: Bytes)
      requires Aligned()
      modifies this`dest, this`blockOffset
      ensures Aligned() && dest == old(dest) + Layout(codec.frame, slice, true, |old(dest)|)
    {
      ghost var whole := dest + Layout(codec.frame, slice, true, |dest|);
      var rest, begin, more := slice, true, true;
      while more
        invariant Aligned()
        invariant more ==> whole == dest + Layout(codec.frame, rest, begin, |dest|)
        invariant !more ==> whole == dest
        decreases more, |rest|, if more then BLOCK - Gap(|dest|) else 0
      {
        rest := Turn(rest, begin);
        begin := false;
        more := |rest| > 0;
      }
    }

    /** A writer that never stopped and one reopened on its file append the same bytes. */
    method AddRecord(slice: Bytes)
      requires Ok()
      modifies this
      ensures Ok() && records == old(records) + [slice]
      ensures dest == old(dest) + Layout(codec.frame, slice, true, |old(dest)|)
    {
      EmitRecord(slice);
      assert (records + [slice])[..|records|] == records;
      records := records + [slice];
    }
  }
}
