/** One partition's life as a transition system: ingest, compaction, catalog clean-up and the orphan
    collector, interleaved step by step. */
module Protocol {
  import opened Basics
  import opened ParquetFiles
  import Filtering
  import Splitting

  // ---------------------------------------------------------------------------------------------
  // State
  // ---------------------------------------------------------------------------------------------

  /** What the last component of an object store path says. */
  datatype Location =
    | Parquet(objectId: ObjectId)      // <uuid>.parquet
    | NotUuid(name: string)            // <anything else>.parquet
    | NotParquet(name: string)
    | NoFileName

  datatype Object = Object(rows: Rows, lastModified: Timestamp)

  datatype ObjectMeta = ObjectMeta(location: Location, lastModified: Timestamp)

  /** An output of a compaction that is uploaded and not yet registered in the catalog. */
  datatype Upload = Upload(
    stream: nat,                        // which output stream of the plan it is
    stored: Object,
    minTime: Timestamp,
    maxTime: Timestamp,
    fileSizeBytes: nat)

  /** The compaction in flight: which files it took, the deduplicated rows it read from them, where
      it splits them, and the output streams uploaded so far. */
  datatype Job =
    | Idle
    | Selected(files: seq<ParquetFile>, cold: bool)
    | Running(files: seq<ParquetFile>, merged: Rows, times: seq<Timestamp>, uploads: map<ObjectId, Upload>)

  datatype State = State(
    now: Timestamp,
    store: map<Location, Object>,
    usedIds: set<ObjectId>,             // object ids ever generated
    catalog: map<FileId, ParquetFile>,
    nextFileId: FileId,
    pending: map<ObjectId, Object>,     // uploaded by the ingester, not yet registered
    lastSequence: int,
    history: seq<Rows>,                 // what was ingested, in sequence order
    job: Job,
    doomed: set<ObjectId>,              // records removed, object not yet deleted
    cutoff: Timestamp,                  // of the orphan collector
    toCheck: seq<ObjectMeta>,           // lister -> checker
    toDelete: seq<ObjectMeta>)          // checker -> deleter

  datatype Config = Config(
    grace: nat,                         // how long before its start the collector's cutoff lies
    maxBytes: nat,
    fileCountThreshold: nat,
    coldMaxBytes: nat,
    split: Splitting.SplitConfig)

  datatype Step =
    | Tick(elapsed: nat)
    | PutForeign(location: Location, rows: Rows)
    | IngestUpload(objectId: ObjectId, rows: Rows)
    | IngestRegister(objectId: ObjectId, sequence: int, minTime: Timestamp, maxTime: Timestamp, fileSizeBytes: nat)
    | IngestCrash(objectId: ObjectId)
    | SelectHot(level0: seq<ParquetFile>, level1: seq<ParquetFile>)
    | SelectCold(level0: seq<ParquetFile>, level1: seq<ParquetFile>)
    | Plan(merged: Rows)
    | UploadStream(objectId: ObjectId, upload: Upload)
    | Commit(outputs: seq<ObjectId>)
    | Upgrade
    | Abort
    | CleanupCatalog(olderThan: Timestamp)
    | CleanupObject(objectId: ObjectId, failed: bool)
    | GcStart(cutoff: Timestamp)
    | GcList(location: Location)
    | GcCheck
    | GcDelete(dryRun: bool)

  // ---------------------------------------------------------------------------------------------
  // Live files and their rows
  // ---------------------------------------------------------------------------------------------

  predicate IsLive(s: State, f: ParquetFile) {
    f.id in s.catalog && s.catalog[f.id] == f && f.toDelete.None?
  }

  function RowsOf(store: map<Location, Object>, f: ParquetFile): Rows {
    if Parquet(f.objectStoreId) in store then store[Parquet(f.objectStoreId)].rows else map[]
  }

  /** `list_by_partition_not_to_delete`, split by level and with level 0 sorted. */
  ghost predicate Lists(s: State, level0: seq<ParquetFile>, level1: seq<ParquetFile>) {
    && NoDuplicates(level0) && NoDuplicates(level1) && SortedBySequence(level0)
    && (forall f :: f in level0 <==> IsLive(s, f) && f.level.Initial?)
    && (forall f :: f in level1 <==> IsLive(s, f) && f.level.FileNonOverlapped?)
  }

  /** The query plan's contract: the union of the rows, where a file of higher order overwrites. */
  ghost predicate Deduplicated(store: map<Location, Object>, files: seq<ParquetFile>, merged: Rows) {
    && (forall c :: c in merged <==> SomeHolds(store, files, c))
    && (forall f, c :: Best(store, files, f, c) ==> c in merged && merged[c] == RowsOf(store, f)[c])
  }

  ghost predicate SomeHolds(store: map<Location, Object>, files: seq<ParquetFile>, c: Cell) {
    exists f :: f in files && c in RowsOf(store, f)
  }

  ghost predicate Best(store: map<Location, Object>, files: seq<ParquetFile>, f: ParquetFile, c: Cell) {
    && f in files && c in RowsOf(store, f)
    && forall g :: g in files && c in RowsOf(store, g) ==> Order(g) <= Order(f)
  }

  /** Stream k of a plan split at `times` holds the rows after times[k-1] up to and including times[k]. */
  predicate InStream(times: seq<Timestamp>, k: nat, t: Timestamp) {
    && (0 < k <= |times| ==> times[k - 1] < t)
    && (k < |times| ==> t <= times[k])
  }

  function Stream(merged: Rows, times: seq<Timestamp>, k: nat): Rows {
    map c | c in merged && InStream(times, k, c.time) :: merged[c]
  }

  function Bounds(files: seq<ParquetFile>): (r: (Timestamp, Timestamp))
    requires files != []
  {
    if |files| == 1 then (files[0].minTime, files[0].maxTime)
    else
      var (lo, hi) := Bounds(files[..|files| - 1]);
      var f := files[|files| - 1];
      (if f.minTime < lo then f.minTime else lo, if f.maxTime > hi then f.maxTime else hi)
  }

  function MaxSequence(files: seq<ParquetFile>): int
    requires files != []
  {
    if |files| == 1 then files[0].maxSequenceNumber
    else
      var m := MaxSequence(files[..|files| - 1]);
      var n := files[|files| - 1].maxSequenceNumber;
      if n > m then n else m
  }

  /** The size branches and the split decision of `compact_parquet_files`. */
  function SplitTimesFor(files: seq<ParquetFile>, cfg: Config): seq<Timestamp>
    requires files != [] && cfg.split.Valid()
  {
    var (lo, hi) := Bounds(files);
    if lo <= hi then Splitting.PlanSplit(lo, hi, Filtering.TotalBytes(files), cfg.split) else []
  }

  // ---------------------------------------------------------------------------------------------
  // Catalog updates
  // ---------------------------------------------------------------------------------------------

  function OutputFile(id: FileId, o: ObjectId, u: Upload, maxSequence: int): ParquetFile {
    ParquetFile(id, o, maxSequence, u.minTime, u.maxTime, u.fileSizeBytes, FileNonOverlapped, None)
  }

  function Flag(catalog: map<FileId, ParquetFile>, ids: set<FileId>, now: Timestamp): map<FileId, ParquetFile> {
    map id | id in catalog :: if id in ids then catalog[id].(toDelete := Some(now)) else catalog[id]
  }

  function Ids(files: seq<ParquetFile>): set<FileId> {
    set f | f in files :: f.id
  }

  /** `outputs` names the uploaded object of each stream, in stream order. */
  predicate AllUploaded(outputs: seq<ObjectId>, uploads: map<ObjectId, Upload>) {
    forall k :: 0 <= k < |outputs| ==> outputs[k] in uploads && uploads[outputs[k]].stream == k
  }

  /** The outputs as catalog records with consecutive new ids. */
  function Created(nextFileId: FileId, outputs: seq<ObjectId>, uploads: map<ObjectId, Upload>,
                   maxSequence: int): (r: map<FileId, ParquetFile>)
    requires AllUploaded(outputs, uploads)
    ensures forall id :: id in r <==> nextFileId <= id < nextFileId + |outputs|
    ensures forall id :: id in r ==>
              r[id] == OutputFile(id, outputs[id - nextFileId], uploads[outputs[id - nextFileId]], maxSequence)
  {
    if outputs == [] then map[]
    else
      var k := |outputs| - 1;
      var o := outputs[k];
      var id := nextFileId + k;
      Created(nextFileId, outputs[..k], uploads, maxSequence)[id := OutputFile(id, o, uploads[o], maxSequence)]
  }

  /** The transaction of `update_catalog`: create the outputs, flag the inputs. */
  function CommitCatalog(catalog: map<FileId, ParquetFile>, nextFileId: FileId, files: seq<ParquetFile>,
                         outputs: seq<ObjectId>, uploads: map<ObjectId, Upload>, now: Timestamp)
    : map<FileId, ParquetFile>
    requires files != [] && AllUploaded(outputs, uploads)
  {
    Flag(catalog, Ids(files), now) + Created(nextFileId, outputs, uploads, MaxSequence(files))
  }

  predicate Flagged(f: ParquetFile, olderThan: Timestamp) {
    f.toDelete.Some? && f.toDelete.value < olderThan
  }

  /** `delete_old` removes the records flagged before a given time and returns them. */
  function Kept(catalog: map<FileId, ParquetFile>, olderThan: Timestamp): map<FileId, ParquetFile> {
    map id | id in catalog && !Flagged(catalog[id], olderThan) :: catalog[id]
  }

  function Removed(catalog: map<FileId, ParquetFile>, olderThan: Timestamp): map<FileId, ParquetFile> {
    map id | id in catalog && Flagged(catalog[id], olderThan) :: catalog[id]
  }

  // ---------------------------------------------------------------------------------------------
  // The orphan collector's decision
  // ---------------------------------------------------------------------------------------------

  datatype Decision = Keep | Delete | MissingFileName

  predicate Referenced(catalog: map<FileId, ParquetFile>, objectId: ObjectId) {
    exists id :: id in catalog && catalog[id].objectStoreId == objectId
  }

  function ShouldDelete(item: ObjectMeta, cutoff: Timestamp, catalog: map<FileId, ParquetFile>): Decision {
    if cutoff < item.lastModified then Keep
    else match item.location
      case NoFileName => MissingFileName
      case Parquet(o) => if Referenced(catalog, o) then Keep else Delete
      case NotUuid(_) => Delete
      case NotParquet(_) => Delete
  }

  // ---------------------------------------------------------------------------------------------
  // Transitions
  // ---------------------------------------------------------------------------------------------

  ghost predicate Enabled(cfg: Config, s: State, step: Step) {
    match step
    case Tick(_) => true
    case PutForeign(loc, _) => !loc.Parquet?
    case IngestUpload(o, rows) => o !in s.usedIds && rows != map[]
    case IngestRegister(o, sequence, lo, hi, _) =>
      o in s.pending && sequence > s.lastSequence && Describes(lo, hi, s.pending[o].rows)
    case IngestCrash(o) => o in s.pending
    case SelectHot(l0, l1) =>
      && s.job.Idle? && Lists(s, l0, l1)
      && Filtering.Filter(l0, l1, cfg.maxBytes, Some(cfg.fileCountThreshold)) != []
    case SelectCold(l0, l1) =>
      && s.job.Idle? && Lists(s, l0, l1)
      && Filtering.Filter(l0, l1, cfg.coldMaxBytes, None) != []
    case Plan(merged) =>
      && s.job.Selected? && !IsUpgrade(s.job) && s.job.files != []
      && cfg.split.Valid() && Deduplicated(s.store, s.job.files, merged)
    case UploadStream(o, u) =>
      // An empty stream makes the upload panic, so only a non-empty one gets this far.
      && s.job.Running? && u.stream <= |s.job.times| && o !in s.usedIds
      && (forall p :: p in s.job.uploads ==> s.job.uploads[p].stream != u.stream)
      && u.stored == Object(Stream(s.job.merged, s.job.times, u.stream), s.now)
      && Describes(u.minTime, u.maxTime, u.stored.rows)
    case Commit(outputs) => CanCommit(s, outputs)
    case Upgrade => IsUpgrade(s.job) && s.job.files[0].id in s.catalog
    case Abort => !s.job.Idle?
    case CleanupCatalog(_) => true
    case CleanupObject(o, _) => o in s.doomed
    case GcStart(cutoff) => cutoff + cfg.grace <= s.now
    case GcList(loc) => loc in s.store
    case GcCheck => s.toCheck != []
    case GcDelete(_) => s.toDelete != []
  }

  /** A cold selection of a single level 0 file is upgraded in place instead of rewritten. */
  predicate IsUpgrade(job: Job) {
    job.Selected? && job.cold && |job.files| == 1 && job.files[0].level.Initial?
  }

  /** Every output stream is uploaded. */
  predicate CanCommit(s: State, outputs: seq<ObjectId>) {
    s.job.Running? && s.job.files != [] && |outputs| == |s.job.times| + 1 && AllUploaded(outputs, s.job.uploads)
  }

  function Committed(s: State, outputs: seq<ObjectId>): State
    requires CanCommit(s, outputs)
  {
    s.(catalog := CommitCatalog(s.catalog, s.nextFileId, s.job.files, outputs, s.job.uploads, s.now),
       nextFileId := s.nextFileId + |outputs|,
       job := Idle)
  }

  ghost function Apply(cfg: Config, s: State, step: Step): State
    requires Enabled(cfg, s, step)
  {
    match step
    case Tick(elapsed) => s.(now := s.now + elapsed)
    case PutForeign(loc, rows) => s.(store := s.store[loc := Object(rows, s.now)])
    case IngestUpload(o, rows) =>
      s.(store := s.store[Parquet(o) := Object(rows, s.now)],
         usedIds := s.usedIds + {o},
         pending := s.pending[o := Object(rows, s.now)])
    case IngestRegister(o, sequence, lo, hi, bytes) =>
      s.(catalog := s.catalog[s.nextFileId := ParquetFile(s.nextFileId, o, sequence, lo, hi, bytes, Initial, None)],
         nextFileId := s.nextFileId + 1,
         pending := s.pending - {o},
         lastSequence := sequence,
         history := s.history + [s.pending[o].rows])
    case IngestCrash(o) => s.(pending := s.pending - {o})
    case SelectHot(l0, l1) =>
      s.(job := Selected(Filtering.Filter(l0, l1, cfg.maxBytes, Some(cfg.fileCountThreshold)), false))
    case SelectCold(l0, l1) =>
      s.(job := Selected(Filtering.Filter(l0, l1, cfg.coldMaxBytes, None), true))
    case Plan(merged) =>
      s.(job := Running(s.job.files, merged, SplitTimesFor(s.job.files, cfg), map[]))
    case UploadStream(o, u) =>
      s.(store := s.store[Parquet(o) := u.stored],
         usedIds := s.usedIds + {o},
         job := s.job.(uploads := s.job.uploads[o := u]))
    case Commit(outputs) => Committed(s, outputs)
    case Upgrade =>
      var id := s.job.files[0].id;
      s.(catalog := s.catalog[id := s.catalog[id].(level := FileNonOverlapped)], job := Idle)
    case Abort => s.(job := Idle)
    case CleanupCatalog(olderThan) =>
      s.(catalog := Kept(s.catalog, olderThan),
         doomed := s.doomed + set id | id in Removed(s.catalog, olderThan) :: s.catalog[id].objectStoreId)
    case CleanupObject(o, failed) =>
      s.(doomed := s.doomed - {o}, store := if failed then s.store else s.store - {Parquet(o)})
    case GcStart(cutoff) => s.(cutoff := cutoff, toCheck := [], toDelete := [])
    case GcList(loc) => s.(toCheck := s.toCheck + [ObjectMeta(loc, s.store[loc].lastModified)])
    case GcCheck =>
      var item := s.toCheck[0];
      s.(toCheck := s.toCheck[1..],
         toDelete := if ShouldDelete(item, s.cutoff, s.catalog).Delete? then s.toDelete + [item] else s.toDelete)
    case GcDelete(dryRun) =>
      s.(toDelete := s.toDelete[1..],
         store := if dryRun then s.store else s.store - {s.toDelete[0].location})
  }

  /** The one timing assumption: whoever uploads an object registers it before the grace period is over. */
  ghost predicate Timely(cfg: Config, s: State, step: Step) {
    match step
    case IngestRegister(o, _, _, _, _) => o in s.pending ==> s.now < s.pending[o].lastModified + cfg.grace
    case Commit(_) => OutputsTimely(cfg, s)
    case _ => true
  }

  predicate OutputsTimely(cfg: Config, s: State) {
    s.job.Running? ==> forall o :: o in s.job.uploads ==> s.now < s.job.uploads[o].stored.lastModified + cfg.grace
  }

  ghost predicate Init(cfg: Config, s: State) {
    && s.store == map[] && s.usedIds == {} && s.catalog == map[] && s.pending == map[]
    && s.lastSequence == 0 && s.history == [] && s.job == Idle && s.doomed == {}
    && s.cutoff + cfg.grace <= s.now && s.toCheck == [] && s.toDelete == []
  }

  /** `run` is the sequence of states passed through when `steps` are taken one after the other. */
  ghost predicate IsRun(cfg: Config, run: seq<State>, steps: seq<Step>) {
    && |run| == |steps| + 1 && Init(cfg, run[0])
    && forall i :: 0 <= i < |steps| ==> Enabled(cfg, run[i], steps[i]) && run[i + 1] == Apply(cfg, run[i], steps[i])
  }

  ghost predicate AllTimely(cfg: Config, run: seq<State>, steps: seq<Step>)
    requires |run| == |steps| + 1
  {
    forall i :: 0 <= i < |steps| ==> Timely(cfg, run[i], steps[i])
  }

  // ---------------------------------------------------------------------------------------------
  // What a query sees
  // ---------------------------------------------------------------------------------------------

  function Merge(layers: seq<Rows>): Rows {
    if layers == [] then map[] else Merge(layers[..|layers| - 1]) + layers[|layers| - 1]
  }

  /** Every live file once, in some order in which no file precedes one of lower order. */
  ghost predicate Arranges(s: State, fs: seq<ParquetFile>) {
    && (forall f :: f in fs <==> IsLive(s, f))
    && (forall i, j :: 0 <= i < j < |fs| ==> Order(fs[i]) <= Order(fs[j]))
  }

  function Layers(store: map<Location, Object>, fs: seq<ParquetFile>): seq<Rows> {
    seq(|fs|, i requires 0 <= i < |fs| => RowsOf(store, fs[i]))
  }
}
