/** Parquet files as the catalog records them, and the rows stored in them. */
module ParquetFiles {
  import opened Basics

  type ObjectId = nat
  type FileId = nat
  type Timestamp = int

  /** One field of one row. Deduplication resolves rows with the same tags and time field by field
      (the last non-null value of each field survives), so a cell is the unit that is overwritten. */
  datatype Cell = Cell(tags: map<string, string>, time: Timestamp, field: string)

  type Rows = map<Cell, string>

  datatype CompactionLevel = Initial | FileNonOverlapped

  datatype ParquetFile = ParquetFile(
    id: FileId,
    objectStoreId: ObjectId,
    maxSequenceNumber: int,
    minTime: Timestamp,
    maxTime: Timestamp,
    fileSizeBytes: nat,
    level: CompactionLevel,
    toDelete: Option<Timestamp>)

  /** The `ChunkOrder` of a file: data of a file with a higher order overwrites data of a file with a
      lower one. Level 1 files all have order 0. */
  function Order(f: ParquetFile): int {
    match f.level
    case Initial => f.maxSequenceNumber
    case FileNonOverlapped => 0
  }

  predicate OverlapsInTime(a: ParquetFile, b: ParquetFile) {
    || (a.minTime <= b.minTime && a.maxTime >= b.minTime)
    || (a.minTime > b.minTime && a.minTime <= b.maxTime)
  }

  /** For ranges that are not inverted, the two-case test is exactly "some instant lies in both". */
  lemma OverlapsIffCommonInstant(a: ParquetFile, b: ParquetFile)
    requires a.minTime <= a.maxTime && b.minTime <= b.maxTime
    ensures OverlapsInTime(a, b) <==>
            exists t: Timestamp {:trigger InRange(a, t)} :: InRange(a, t) && InRange(b, t)
    ensures OverlapsInTime(a, b) <==> OverlapsInTime(b, a)
  {
    if OverlapsInTime(a, b) {
      var t := if a.minTime <= b.minTime then b.minTime else a.minTime;
      assert InRange(a, t) && InRange(b, t);
    }
  }

  predicate InRange(f: ParquetFile, t: Timestamp) {
    f.minTime <= t <= f.maxTime
  }

  /** `minTime` and `maxTime` are the smallest and the largest timestamp among the rows (they come from
      the column statistics of a file that has at least one row). */
  ghost predicate Describes(minTime: Timestamp, maxTime: Timestamp, rows: Rows) {
    && (forall c <- rows :: minTime <= c.time <= maxTime)
    && (exists c <- rows :: c.time == minTime)
    && (exists c <- rows :: c.time == maxTime)
  }

  predicate SortedBySequence(fs: seq<ParquetFile>) {
    forall i, j :: 0 <= i < j < |fs| ==> fs[i].maxSequenceNumber <= fs[j].maxSequenceNumber
  }
}
