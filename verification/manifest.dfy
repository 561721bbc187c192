/** The manifest from end to end: edits as bytes, bytes as records of a log, and back, when
    the store is opened again. */
module Manifests {
  import opened Keys
  import opened Coding
  import opened Files
  import opened LogFormat
  import LogWriters
  import opened LogReaders
  import opened VersionEdits
  import VersionBuilders

  /** The table behind a record's metadata. */
  type Disk = FileMetaData -> File

  /** What a decoded record says to the version builder. */
  function EditOf(disk: Disk, e: Fields): VersionBuilders.Edit {
    VersionBuilders.Edit(e.logNumber, e.prevLogNumber, e.nextFileNumber, e.lastSequence, e.deleted, Placed(disk, e.added))
  }

  function Placed(disk: Disk, added: seq<(nat, FileMetaData)>): seq<(nat, File)> {
    seq(|added|, i requires 0 <= i < |added| => (added[i].0, disk(added[i].1)))
  }

  function EditsOf(disk: Disk, recs: seq<Fields>): (edits: seq<VersionBuilders.Edit>)
    ensures |edits| == |recs| && forall i :: 0 <= i < |recs| ==> edits[i] == EditOf(disk, recs[i])
  {
    seq(|recs|, i requires 0 <= i < |recs| => EditOf(disk, recs[i]))
  }

  function Encoded(recs: seq<Fields>): (bytes: seq<Bytes>)
    ensures |bytes| == |recs| && forall i :: 0 <= i < |recs| ==> bytes[i] == EncodeItems(Items(recs[i]))
  {
    seq(|recs|, i requires 0 <= i < |recs| => EncodeItems(Items(recs[i])))
  }

  ghost predicate AllOk(recs: seq<Fields>) {
    forall i :: 0 <= i < |recs| ==> FieldsOk(recs[i])
  }

  lemma EncodedPrefix(recs: seq<Fields>, k: nat)
    requires k <= |recs|
    ensures Encoded(recs[..k]) == Encoded(recs)[..k]
  {
  }

  lemma EditsPrefix(disk: Disk, recs: seq<Fields>, k: nat)
    requires k <= |recs|
    ensures EditsOf(disk, recs[..k]) == EditsOf(disk, recs)[..k]
  {
  }

  lemma FreshPrefix(edits: seq<VersionBuilders.Edit>, k: nat)
    requires VersionBuilders.FreshEdits(edits) && k <= |edits|
    ensures VersionBuilders.FreshEdits(edits[..k])
  {
    forall i | 0 <= i < k
      ensures VersionBuilders.FreshAdds(edits[..k][..i], edits[..k][i])
    {
      assert edits[..k][..i] == edits[..i];
      assert VersionBuilders.FreshAdds(edits[..i], edits[i]);
    }
  }

  /** A record decodes to the edit it was made from. */
  method DecodeRecord(record: Bytes, ghost e: Fields) returns (ok: bool, fields: Fields)
    requires FieldsOk(e) && record == EncodeItems(Items(e))
    ensures ok && fields == e
  {
    var edit := new VersionEdit();
    RoundTrip(e, edit.fields);
    ok := edit.DecodeFrom(record);
    fields := edit.fields;
  }

  /** So does every one of them. */
  method DecodeRecords(out: seq<Bytes>, ghost recs: seq<Fields>) returns (ok: bool, fields: seq<Fields>)
    requires AllOk(recs) && out == Encoded(recs)
    ensures ok && fields == recs
  {
    ok, fields := true, [];
    for i := 0 to |out|
      invariant ok && fields == recs[..i]
    {
      var one;
      ok, one := DecodeRecord(out[i], recs[i]);
      fields := fields + [one];
      assert recs[..i + 1] == recs[..i] + [recs[i]];
    }
    assert recs[..|out|] == recs;
  }

  /** Every record is for this comparator, or says nothing of it. */
  predicate ComparatorsMatch(recs: seq<Fields>, name: Bytes) {
    forall i :: 0 <= i < |recs| ==> recs[i].comparator == None || recs[i].comparator == Some(name)
  }

  method CheckComparators(recs: seq<Fields>, name: Bytes) returns (ok: bool)
    ensures ok <==> ComparatorsMatch(recs, name)
  {
    ok := true;
    for i := 0 to |recs|
      invariant ok <==> ComparatorsMatch(recs[..i], name)
    {
      if recs[i].comparator.Some? && recs[i].comparator.value != name {
        ok := false;
      }
      assert recs[..i + 1] == recs[..i] + [recs[i]];
    }
    assert recs[..|recs|] == recs;
  }

  /** The counters are those of the last records that have them. */
  ghost predicate Numbers(vs: VersionBuilders.VersionSet, edits: seq<VersionBuilders.Edit>)
    reads vs
  {
    && VersionBuilders.Latest(edits, VersionBuilders.NEXT_FILE) == Some(vs.nextFileNumber - 1)
    && VersionBuilders.Latest(edits, VersionBuilders.LAST_SEQUENCE) == Some(vs.lastSequence)
    && VersionBuilders.Latest(edits, VersionBuilders.LOG_NUMBER) == Some(vs.logNumber)
    && VersionBuilders.Latest(edits, VersionBuilders.PREV_LOG_NUMBER).GetOr(0) == vs.prevLogNumber
  }

  /** What became of a version set that was to follow the records. */
  ghost predicate Recovered(vs: VersionBuilders.VersionSet, ok: bool, recs: seq<Fields>, comparator: Bytes,
                            edits: seq<VersionBuilders.Edit>)
    reads vs
  {
    && (ok <==> ComparatorsMatch(recs, comparator) && VersionBuilders.Latest(edits, VersionBuilders.NEXT_FILE).Some?
                && VersionBuilders.Latest(edits, VersionBuilders.LOG_NUMBER).Some?
                && VersionBuilders.Latest(edits, VersionBuilders.LAST_SEQUENCE).Some?)
    && (ok ==> VersionBuilders.VersionOk(vs.current) && VersionBuilders.VersionLists(vs.current, edits) && Numbers(vs, edits))
  }

  method Follow(vs: VersionBuilders.VersionSet, recs: seq<Fields>, comparator: Bytes, disk: Disk) returns (ok: bool)
    requires vs.Ok() && (forall level :: 0 <= level < NUM_LEVELS ==> vs.current[level] == [])
    requires VersionBuilders.FreshEdits(EditsOf(disk, recs))
    modifies vs
    ensures Recovered(vs, ok, recs, comparator, EditsOf(disk, recs))
  {
    var same := CheckComparators(recs, comparator);
    ok := false;
    if same {
      ok := vs.Recover(EditsOf(disk, recs));
    }
  }

  /** Opening from a manifest, cut anywhere at its end: the version and the counters are those
      of the records that were written whole. */
  method RecoverManifest(codec: Codec, file: Bytes, comparator: Bytes, disk: Disk, ghost recs: seq<Fields>)
    returns (vs: VersionBuilders.VersionSet, ok: bool, ghost k: nat)
    requires AllOk(recs) && VersionBuilders.FreshEdits(EditsOf(disk, recs)) && file <= Log(codec.frame, Encoded(recs))
    ensures fresh(vs) && k <= |recs| && Ends(Encoded(recs)[..k]) <= |file|
    ensures k < |recs| ==> |file| < Ends(Encoded(recs)[..k + 1])
    ensures Recovered(vs, ok, recs[..k], comparator, EditsOf(disk, recs[..k]))
  {
    vs := new VersionBuilders.VersionSet();
    var out, drops, _, _, _ := RecoverRecords(codec, file, true, Encoded(recs));
    k := |out|;
    EncodedPrefix(recs, k);
    EditsPrefix(disk, recs, k);
    FreshPrefix(EditsOf(disk, recs), k);
    var fields;
    ok, fields := DecodeRecords(out, recs[..k]);
    ok := Follow(vs, fields, comparator, disk);
  }

  // ---- Writing the manifest while the store runs ----

  /** The metadata of a table, and the way back. */
  ghost predicate Inverse(metaOf: File -> FileMetaData, disk: Disk, version: Version) {
    forall level, f :: 0 <= level < NUM_LEVELS && f in version[level] ==> disk(metaOf(f)) == f
  }

  function MetaOf(metaOf: File -> FileMetaData, added: seq<(nat, File)>): seq<(nat, FileMetaData)> {
    seq(|added|, i requires 0 <= i < |added| => (added[i].0, metaOf(added[i].1)))
  }

  /** `WriteSnapshot` */
  function SnapshotFields(metaOf: File -> FileMetaData, comparator: Bytes, pointers: seq<(nat, Bytes)>,
                          version: Version): Fields {
    Fields(Some(comparator), None, None, None, None, pointers, [], MetaOf(metaOf, VersionBuilders.Snapshot(version, NUM_LEVELS)))
  }

  lemma SnapshotSaysFiles(metaOf: File -> FileMetaData, disk: Disk, comparator: Bytes, pointers: seq<(nat, Bytes)>,
                          version: Version)
    requires VersionBuilders.VersionOk(version) && Inverse(metaOf, disk, version)
    ensures EditOf(disk, SnapshotFields(metaOf, comparator, pointers, version)) == VersionBuilders.SnapshotEdit(version)
  {
    var added := VersionBuilders.Snapshot(version, NUM_LEVELS);
    VersionBuilders.SnapshotIs(version, NUM_LEVELS);
    forall i | 0 <= i < |added|
      ensures Placed(disk, MetaOf(metaOf, added))[i] == added[i]
    {
      assert added[i] in added;
    }
    assert Placed(disk, MetaOf(metaOf, added)) == added;
  }

  /** The edit with the counters filled in. */
  function Filled(e: Fields, logNumber: nat, prevLogNumber: nat, nextFile: nat, lastSequence: nat): Fields {
    e.(logNumber := Some(e.logNumber.GetOr(logNumber)), prevLogNumber := Some(e.prevLogNumber.GetOr(prevLogNumber)),
       nextFileNumber := Some(nextFile), lastSequence := Some(lastSequence))
  }

  lemma OneMoreRecord(disk: Disk, recs: seq<Fields>, e: Fields)
    ensures EditsOf(disk, recs + [e]) == EditsOf(disk, recs) + [EditOf(disk, e)]
    ensures Encoded(recs + [e]) == Encoded(recs) + [EncodeItems(Items(e))]
    ensures AllOk(recs) && FieldsOk(e) ==> AllOk(recs + [e])
  {
    var edits := EditsOf(disk, recs + [e]);
    assert forall i :: 0 <= i < |edits| ==> edits[i] == (EditsOf(disk, recs) + [EditOf(disk, e)])[i];
  }

  method Record(e: Fields) returns (record: Bytes)
    ensures record == EncodeItems(Items(e))
  {
    var edit := new VersionEdit();
    edit.fields := e;
    record := edit.EncodeTo();
  }

  /** The version set and the log of its manifest. */
  class DescriptorLog {
    const codec: Codec
    const comparator: Bytes
    const disk: Disk
    const metaOf: File -> FileMetaData
    const vs: VersionBuilders.VersionSet
    var log: LogWriters.Writer?
    /** The records written. */
    ghost var recs: seq<Fields>

    ghost predicate Ok()
      reads this, vs, log
    {
      && vs.Ok() && LogOk() && Describes()
    }

    /** The log, once there is one, holds the records. */
    ghost predicate LogOk()
      reads this, log
    {
      && (log == null ==> recs == []) && AllOk(recs) && ComparatorsMatch(recs, comparator)
      && (log != null ==> log.Ok() && log.codec == codec && log.records == Encoded(recs))
    }

    /** The records say what the version set says it has written. */
    ghost predicate Describes()
      reads this, vs
    {
      vs.descriptor == if log == null then None else Some(EditsOf(disk, recs))
    }

    constructor (codec: Codec, comparator: Bytes, disk: Disk, metaOf: File -> FileMetaData, vs: VersionBuilders.VersionSet)
      requires vs.Ok() && vs.descriptor == None
      ensures Ok() && log == null && this.vs == vs && this.codec == codec && this.disk == disk && this.metaOf == metaOf
      ensures this.comparator == comparator
    {
      this.codec, this.comparator, this.disk, this.metaOf, this.vs := codec, comparator, disk, metaOf, vs;
      log, recs := null, [];
    }

    /** A record at the end of the log. */
    method Append(e: Fields)
      requires log != null && LogOk() && FieldsOk(e) && (e.comparator == None || e.comparator == Some(comparator))
      modifies this`recs, log
      ensures LogOk() && recs == old(recs) + [e]
    {
      var record := Record(e);
      log.AddRecord(record);
      OneMoreRecord(disk, recs, e);
      recs := recs + [e];
    }

    /** A new log begins with a snapshot of the version. */
    method StartLog(pointers: seq<(nat, Bytes)>)
      requires log == null && LogOk() && FieldsOk(SnapshotFields(metaOf, comparator, pointers, vs.current))
      modifies this
      ensures log != null && fresh(log) && LogOk() && recs == [SnapshotFields(metaOf, comparator, pointers, vs.current)]
    {
      log := new LogWriters.Writer(codec);
      assert Encoded([]) == [];
      Append(SnapshotFields(metaOf, comparator, pointers, vs.current));
    }

    /** What the log holds before the next edit: a new one begins with a snapshot. */
    ghost function RecordsBefore(pointers: seq<(nat, Bytes)>): seq<Fields>
      reads this, vs
    {
      if log == null then [SnapshotFields(metaOf, comparator, pointers, vs.current)] else recs
    }

    /** Fits into a record, is for this comparator, and names only new tables. */
    ghost predicate Loggable(edit: Fields, pointers: seq<(nat, Bytes)>)
      requires Ok()
      reads this, vs, log
    {
      && (edit.comparator == None || edit.comparator == Some(comparator))
      && FieldsOk(Filled(edit, vs.logNumber, vs.prevLogNumber, vs.nextFileNumber, vs.lastSequence))
      && (log == null ==> Inverse(metaOf, disk, vs.current) && FieldsOk(SnapshotFields(metaOf, comparator, pointers, vs.current)))
      && VersionBuilders.FreshAdds(vs.Written(), EditOf(disk, edit))
      && (edit.logNumber.Some? ==> vs.logNumber <= edit.logNumber.value < vs.nextFileNumber)
      && forall a :: a in EditOf(disk, edit).added ==> a.1.number < vs.nextFileNumber
    }

    /** Write an edit, and before the first one what there is already. */
    method WriteEdit(full: Fields, pointers: seq<(nat, Bytes)>)
      requires LogOk() && FieldsOk(full) && (full.comparator == None || full.comparator == Some(comparator))
      requires log == null ==> FieldsOk(SnapshotFields(metaOf, comparator, pointers, vs.current))
      modifies this, log
      ensures log != null && (old(log) == null ==> fresh(log)) && (old(log) != null ==> log == old(log))
      ensures LogOk() && recs == old(RecordsBefore(pointers)) + [full]
    {
      if log == null {
        StartLog(pointers);
      }
      Append(full);
    }

    /** What is written before the next edit, in the version set's terms. */
    lemma WrittenBefore(pointers: seq<(nat, Bytes)>)
      requires Describes() && VersionBuilders.VersionOk(vs.current) && (log == null ==> Inverse(metaOf, disk, vs.current))
      ensures EditsOf(disk, RecordsBefore(pointers)) == vs.Written()
    {
      if log == null {
        SnapshotSaysFiles(metaOf, disk, comparator, pointers, vs.current);
      }
    }

    /** Apply an edit that was written. */
    method ApplyWritten(edit: Fields, ghost before: seq<Fields>)
      requires vs.Ok() && VersionBuilders.FreshAdds(vs.Written(), EditOf(disk, edit)) && EditsOf(disk, before) == vs.Written()
      requires edit.logNumber.Some? ==> vs.logNumber <= edit.logNumber.value < vs.nextFileNumber
      requires forall a :: a in EditOf(disk, edit).added ==> a.1.number < vs.nextFileNumber
      requires log != null && recs == before + [Filled(edit, vs.logNumber, vs.prevLogNumber, vs.nextFileNumber, vs.lastSequence)]
      modifies vs
      ensures vs.Ok() && Describes()
    {
      OneMoreRecord(disk, before, Filled(edit, vs.logNumber, vs.prevLogNumber, vs.nextFileNumber, vs.lastSequence));
      vs.LogAndApply(EditOf(disk, edit));
    }

    /** Log the edit, with the counters filled in, and apply it. */
    method LogAndApply(edit: Fields, pointers: seq<(nat, Bytes)>)
      requires Ok() && Loggable(edit, pointers)
      modifies this, vs, log
      ensures Ok() && log != null
      ensures recs == old(RecordsBefore(pointers)) + [Filled(edit, old(vs.logNumber), old(vs.prevLogNumber), old(vs.nextFileNumber), old(vs.lastSequence))]
    {
      ghost var before := RecordsBefore(pointers);
      WrittenBefore(pointers);
      WriteEdit(Filled(edit, vs.logNumber, vs.prevLogNumber, vs.nextFileNumber, vs.lastSequence), pointers);
      ApplyWritten(edit, before);
    }
  }

  lemma OneVersion(a: Version, b: Version, edits: seq<VersionBuilders.Edit>)
    requires VersionBuilders.VersionLists(a, edits) && VersionBuilders.VersionLists(b, edits)
    ensures a == b
  {
    forall level | 0 <= level < NUM_LEVELS
      ensures a[level] == b[level]
    {
      VersionBuilders.OneListing(a[level], b[level]);
    }
  }

  /** Closing the store and opening it again from the bytes of its manifest gives the same files
      on every level, and file numbers beyond every one in use. */
  method ReopenFromBytes(store: DescriptorLog) returns (again: VersionBuilders.VersionSet, ok: bool)
    requires store.Ok() && store.log != null
    ensures fresh(again) && ok && again.current == store.vs.current
    ensures VersionBuilders.NumbersBelow(again.current, again.nextFileNumber)
    ensures again.logNumber == store.vs.logNumber && again.prevLogNumber == store.vs.prevLogNumber
    ensures again.lastSequence <= store.vs.lastSequence
  {
    ghost var k;
    again, ok, k := RecoverManifest(store.codec, store.log.dest, store.comparator, store.disk, store.recs);
    NoneLeftOut(store.codec.frame, Encoded(store.recs), |store.log.dest|, k);
    assert store.recs[..k] == store.recs;
    OneVersion(again.current, store.vs.current, EditsOf(store.disk, store.recs));
  }
}
