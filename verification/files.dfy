/** Table files and versions: the levels of files a store consists of. */
module Files {
  import opened Keys
  import opened Entries

  const NUM_LEVELS: nat := 7

  /** A table: its metadata, as the manifest keeps it, and the entries it holds. */
  datatype File = File(number: nat, size: nat, smallest: Entry, largest: Entry, entries: seq<Entry>)

  /** The metadata brackets the entries. */
  ghost predicate FileOk(f: File) {
    && f.entries != [] && Sorted(f.entries)
    && f.smallest == f.entries[0] && f.largest == f.entries[|f.entries| - 1]
  }

  /** The user key `u` lies in the file's range. */
  predicate Covers(f: File, u: UserKey) {
    f.smallest.key <= u <= f.largest.key
  }

  /** The files of a level above 0: in key order and disjoint as internal-key ranges. */
  ghost predicate LevelOk(files: seq<File>) {
    && (forall i :: 0 <= i < |files| ==> FileOk(files[i]))
    && (forall i, j :: 0 <= i < j < |files| ==> Precedes(files[i].largest, files[j].smallest))
  }

  type Version = v: seq<seq<File>> | |v| == NUM_LEVELS witness [[], [], [], [], [], [], []]

  ghost function FileEntries(files: seq<File>): set<Entry> {
    set i, e | 0 <= i < |files| && e in files[i].entries :: e
  }

  lemma FileRange(f: File, e: Entry)
    requires FileOk(f) && e in f.entries
    ensures Covers(f, e.key)
    ensures e == f.smallest || Precedes(f.smallest, e)
    ensures e == f.largest || Precedes(e, f.largest)
  {
  }

  lemma TwoFiles(f: File, g: File)
    ensures FileEntries([f, g]) == Elements(f.entries) + Elements(g.entries)
  {
    assert [f, g][0] == f && [f, g][1] == g;
  }
}
