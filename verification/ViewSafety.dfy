/** What a query sees never changes because of compaction or garbage collection. */
module ViewSafety {
  import opened Basics
  import opened ParquetFiles
  import opened Protocol
  import opened ObjectSafety
  import Filtering
  import Splitting

  // ---------------------------------------------------------------------------------------------
  // The invariant
  // ---------------------------------------------------------------------------------------------

  ghost predicate Holds(s: State, f: ParquetFile, c: Cell) {
    IsLive(s, f) && c in RowsOf(s.store, f)
  }

  /** No live file that holds the cell has a higher order. */
  ghost predicate Wins(s: State, f: ParquetFile, c: Cell) {
    Holds(s, f, c) && forall g :: Holds(s, g, c) ==> Order(g) <= Order(f)
  }

  ghost predicate Held(s: State, c: Cell) {
    exists f :: Holds(s, f, c)
  }

  /** Exactly the ingested cells are held, and a winning file shows the last ingested value. */
  ghost predicate ViewOk(s: State) {
    var view := Merge(s.history);
    && (forall f, c :: Holds(s, f, c) ==> c in view)
    && (forall f, c :: Wins(s, f, c) ==> c in view && view[c] == RowsOf(s.store, f)[c])
    && (forall c :: c in view ==> Held(s, c))
  }

  ghost predicate SequencesOk(s: State) {
    && s.lastSequence >= 0
    && (forall f :: IsLive(s, f) && f.level.Initial? ==> 0 < f.maxSequenceNumber <= s.lastSequence)
    && (forall f, g :: IsLive(s, f) && IsLive(s, g) && f.level.Initial? && g.level.Initial? && f != g ==>
          f.maxSequenceNumber != g.maxSequenceNumber)
  }

  ghost predicate Apart(store: map<Location, Object>, f: ParquetFile, g: ParquetFile) {
    forall c, d :: c in RowsOf(store, f) && d in RowsOf(store, g) ==> c.time != d.time
  }

  /** No two live level 1 files hold rows with the same timestamp. */
  ghost predicate Level1Apart(s: State) {
    forall f, g :: IsLive(s, f) && IsLive(s, g) && f != g && f.level == g.level == FileNonOverlapped ==>
      Apart(s.store, f, g)
  }

  /** The files a compaction took are still live; every level 0 file it did not take is newer, and
      every level 1 file it did not take overlaps none of the level 0 files it took. */
  ghost predicate SelectionOk(s: State, files: seq<ParquetFile>) {
    && (exists f :: f in files && f.level.Initial?)
    && (forall f :: f in files ==> IsLive(s, f))
    && (forall f, g :: f in files && f.level.Initial? && IsLive(s, g) && g !in files ==> LeavesOut(f, g))
  }

  ghost predicate LeavesOut(f: ParquetFile, g: ParquetFile) {
    if g.level.Initial? then f.maxSequenceNumber < g.maxSequenceNumber else !OverlapsInTime(g, f)
  }

  ghost predicate JobOk(s: State) {
    match s.job
    case Idle => true
    case Selected(files, _) => SelectionOk(s, files)
    case Running(files, merged, times, uploads) =>
      && SelectionOk(s, files) && Deduplicated(s.store, files, merged) && Splitting.StrictlyIncreasing(times)
      && (forall o :: o in uploads ==>
            uploads[o].stream <= |times| && uploads[o].stored.rows == Stream(merged, times, uploads[o].stream))
  }

  ghost predicate DataOk(s: State) {
    SequencesOk(s) && Level1Apart(s) && ViewOk(s) && JobOk(s)
  }

  lemma InitData(cfg: Config, s: State)
    requires Init(cfg, s)
    ensures DataOk(s)
  {
  }

  // ---------------------------------------------------------------------------------------------
  // Steps that leave the live files alone
  // ---------------------------------------------------------------------------------------------

  /** Neither collector deletes a referenced object. */
  lemma ReferencedIsNotDeleted(cfg: Config, s: State, step: Step, o: ObjectId)
    requires IdsUsed(s) && ChannelsOk(cfg, s) && Enabled(cfg, s, step) && Referenced(s.catalog, o)
    ensures step.CleanupObject? ==> step.objectId != o
    ensures step.GcDelete? ==> s.toDelete[0].location != Parquet(o)
  {
    if step.GcDelete? {
      assert s.toDelete[0] in s.toDelete;
      assert DeletionOk(cfg, s, s.toDelete[0]);
    }
  }

  /** The only objects a step adds or removes are not those of live files. */
  lemma RowsKept(cfg: Config, s: State, step: Step, f: ParquetFile)
    requires ObjectsOk(cfg, s) && Enabled(cfg, s, step) && IsLive(s, f)
    ensures RowsOf(Apply(cfg, s, step).store, f) == RowsOf(s.store, f)
  {
    hide Apply, IdsUsed, ChannelsOk, UploadsOk, UnregisteredOk, Referenced;
    var o := f.objectStoreId;
    assert RecordOk(s, f.id, f);
    LiveIsReferenced(s, f);
    ReferencedIsNotDeleted(cfg, s, step, o);
    StoreChanges(cfg, s, step, Parquet(o));
  }

  lemma LiveIsReferenced(s: State, f: ParquetFile)
    requires IsLive(s, f)
    ensures Referenced(s.catalog, f.objectStoreId)
  {
  }

  lemma StoreChanges(cfg: Config, s: State, step: Step, loc: Location)
    requires Enabled(cfg, s, step) && loc in s.store
    requires step.PutForeign? ==> step.location != loc
    requires step.IngestUpload? || step.UploadStream? || step.CleanupObject? ==> Parquet(step.objectId) != loc
    requires step.GcDelete? ==> s.toDelete[0].location != loc
    ensures loc in Apply(cfg, s, step).store && Apply(cfg, s, step).store[loc] == s.store[loc]
  {
  }

  lemma SameView(s: State, s': State)
    requires ViewOk(s) && s'.history == s.history
    requires forall f :: IsLive(s', f) <==> IsLive(s, f)
    requires forall f :: IsLive(s, f) ==> RowsOf(s'.store, f) == RowsOf(s.store, f)
    ensures ViewOk(s')
  {
    assert forall f, c :: Holds(s', f, c) <==> Holds(s, f, c);
    forall f, c | Wins(s', f, c) ensures Wins(s, f, c) {
    }
    forall c | Held(s, c) ensures Held(s', c) {
      var f :| Holds(s, f, c);
      assert Holds(s', f, c);
    }
  }

  lemma SameFiles(s: State, s': State)
    requires SequencesOk(s) && Level1Apart(s) && s'.lastSequence == s.lastSequence
    requires forall f :: IsLive(s', f) <==> IsLive(s, f)
    requires forall f :: IsLive(s, f) ==> RowsOf(s'.store, f) == RowsOf(s.store, f)
    ensures SequencesOk(s') && Level1Apart(s')
  {
    forall f, g | IsLive(s', f) && IsLive(s', g) && f.level.FileNonOverlapped? && g.level.FileNonOverlapped? && f != g
      ensures Apart(s'.store, f, g)
    {
      assert Apart(s.store, f, g);
    }
  }

  lemma SameSelection(s: State, s': State, files: seq<ParquetFile>)
    requires SelectionOk(s, files)
    requires forall f :: IsLive(s', f) <==> IsLive(s, f)
    ensures SelectionOk(s', files)
  {
  }

  lemma SameMerge(s: State, s': State, files: seq<ParquetFile>, merged: Rows)
    requires Deduplicated(s.store, files, merged)
    requires forall f :: f in files ==> RowsOf(s'.store, f) == RowsOf(s.store, f)
    ensures Deduplicated(s'.store, files, merged)
  {
    assert forall f, c :: Best(s'.store, files, f, c) ==> Best(s.store, files, f, c);
    assert forall c :: SomeHolds(s'.store, files, c) <==> SomeHolds(s.store, files, c);
  }

  lemma LiveKept(cfg: Config, s: State, step: Step, f: ParquetFile)
    requires Enabled(cfg, s, step) && !step.IngestRegister? && !step.Commit? && !step.Upgrade?
    ensures IsLive(Apply(cfg, s, step), f) <==> IsLive(s, f)
  {
  }

  // ---------------------------------------------------------------------------------------------
  // Selecting files
  // ---------------------------------------------------------------------------------------------

  lemma SelectionIsOk(s: State, level0: seq<ParquetFile>, level1: seq<ParquetFile>, maxBytes: nat,
                      threshold: Option<nat>)
    requires SequencesOk(s) && Lists(s, level0, level1)
    requires Filtering.Filter(level0, level1, maxBytes, threshold) != []
    ensures SelectionOk(s, Filtering.Filter(level0, level1, maxBytes, threshold))
  {
    var files := Filtering.Filter(level0, level1, maxBytes, threshold);
    var n, overlapping := Filtering.FilterIsExact(level0, level1, maxBytes, threshold);
    forall f | f in overlapping ensures f in level1 {
      assert f in multiset(overlapping);
    }
    assert n > 0;
    assert level0[0] in level0[..n] && level0[0] in level0;
    forall f, g | f in files && f.level.Initial? && IsLive(s, g) && g !in files ensures LeavesOut(f, g) {
      assert f in level0[..n];
      var i :| 0 <= i < n && level0[i] == f;
      if g.level.Initial? {
        assert g in level0;
        var j :| 0 <= j < |level0| && level0[j] == g;
        assert g !in level0[..n];
      } else {
        assert g in level1 && g !in overlapping;
        LeftOutDoesNotOverlap(level0[..n], level1, overlapping, g, f);
      }
    }
  }

  lemma LeftOutDoesNotOverlap(selected: seq<ParquetFile>, level1: seq<ParquetFile>, overlapping: seq<ParquetFile>,
                              g: ParquetFile, f: ParquetFile)
    requires multiset(overlapping)[g] == if Filtering.OverlapsSome(g, selected) then multiset(level1)[g] else 0
    requires g in level1 && g !in overlapping && f in selected
    ensures !OverlapsInTime(g, f)
  {
    assert g in multiset(level1) && g !in multiset(overlapping);
    var i :| 0 <= i < |selected| && selected[i] == f;
  }

  // ---------------------------------------------------------------------------------------------
  // Registering an ingested file
  // ---------------------------------------------------------------------------------------------

  lemma MergeAppend(layers: seq<Rows>, r: Rows)
    ensures Merge(layers + [r]) == Merge(layers) + r
  {
    assert (layers + [r])[..|layers|] == layers;
  }

  /** A new file whose order exceeds that of every live file overwrites what they show. */
  lemma NewestFileShows(s: State, s': State, f: ParquetFile, rows: Rows)
    requires ViewOk(s) && s'.history == s.history + [rows] && RowsOf(s'.store, f) == rows
    requires forall g :: IsLive(s', g) <==> IsLive(s, g) || g == f
    requires forall g :: IsLive(s, g) ==> Order(g) < Order(f) && RowsOf(s'.store, g) == RowsOf(s.store, g)
    ensures ViewOk(s')
  {
    hide Order, RowsOf, IsLive, Merge;
    MergeAppend(s.history, rows);
    assert forall c :: c in rows ==> Holds(s', f, c);
    assert forall g, c :: Holds(s, g, c) ==> Holds(s', g, c);
    assert forall g, c :: Holds(s', g, c) && g != f ==> Holds(s, g, c);
    assert forall g, c :: Wins(s', g, c) && c in rows ==> g == f;
    assert forall g, c :: Wins(s', g, c) && c !in rows ==> g != f && Wins(s, g, c);
  }

  /** The only new live file is the registered one; it holds the pending rows and is the newest. */
  lemma RegisteredFile(cfg: Config, s: State, step: Step)
    requires ObjectsOk(cfg, s) && SequencesOk(s) && Enabled(cfg, s, step) && Timely(cfg, s, step)
             && step.IngestRegister?
    ensures var s' := Apply(cfg, s, step); var f := s'.catalog[s.nextFileId];
            && f.level.Initial? && f.maxSequenceNumber == s'.lastSequence > s.lastSequence
            && RowsOf(s'.store, f) == s.pending[step.objectId].rows
            && (forall g :: IsLive(s', g) <==> IsLive(s, g) || g == f) && !IsLive(s, f)
            && (forall g :: IsLive(s, g) ==> Order(g) < Order(f))
  {
    var s' := Apply(cfg, s, step);
    assert MayRegister(s, step.objectId, s.pending[step.objectId]);
    forall g | IsLive(s, g) ensures g.id < s.nextFileId {
      assert RecordOk(s, g.id, s.catalog[g.id]);
    }
  }

  lemma RegisterKeepsData(cfg: Config, s: State, step: Step)
    requires ObjectsOk(cfg, s) && DataOk(s) && Enabled(cfg, s, step) && Timely(cfg, s, step) && step.IngestRegister?
    ensures DataOk(Apply(cfg, s, step))
  {
    var s' := Apply(cfg, s, step);
    var f := s'.catalog[s.nextFileId];
    RegisteredFile(cfg, s, step);
    assert s'.store == s.store;
    NewestFileShows(s, s', f, s.pending[step.objectId].rows);
    NewestFileFits(s, s', f);
  }

  lemma NewestFileFits(s: State, s': State, f: ParquetFile)
    requires SequencesOk(s) && Level1Apart(s) && JobOk(s) && s'.store == s.store && s'.job == s.job
    requires f.level.Initial? && f.maxSequenceNumber == s'.lastSequence > s.lastSequence
    requires forall g :: IsLive(s', g) <==> IsLive(s, g) || g == f
    ensures SequencesOk(s') && Level1Apart(s') && JobOk(s')
  {
    if !s.job.Idle? {
      forall h, g | h in s.job.files && h.level.Initial? && IsLive(s', g) && g !in s.job.files ensures LeavesOut(h, g) {
        assert IsLive(s, h);
      }
    }
  }

  // ---------------------------------------------------------------------------------------------
  // Upgrading a single cold level 0 file in place
  // ---------------------------------------------------------------------------------------------

  /** Two files that hold a row with the same timestamp overlap in time. */
  lemma SharedTimeOverlaps(cfg: Config, s: State, f: ParquetFile, g: ParquetFile, c: Cell, d: Cell)
    requires ObjectsOk(cfg, s) && Holds(s, f, c) && Holds(s, g, d) && c.time == d.time
    ensures OverlapsInTime(g, f)
  {
    assert RecordOk(s, f.id, s.catalog[f.id]);
    assert RecordOk(s, g.id, s.catalog[g.id]);
  }

  /** A level 1 file that was not taken shares no timestamp with any file that was. */
  lemma LeftOutApart(cfg: Config, s: State, files: seq<ParquetFile>, f: ParquetFile, g: ParquetFile, c: Cell, d: Cell)
    requires ObjectsOk(cfg, s) && Level1Apart(s) && SelectionOk(s, files)
    requires f in files && g !in files && g.level.FileNonOverlapped? && Holds(s, f, c) && Holds(s, g, d)
    ensures c.time != d.time
  {
    assert f.level.Initial? ==> LeavesOut(f, g);
    assert f.level.FileNonOverlapped? ==> Apart(s.store, f, g);
    if c.time == d.time && f.level.Initial? {
      SharedTimeOverlaps(cfg, s, f, g, c, d);
    }
  }

  lemma UpgradedFile(cfg: Config, s: State, step: Step)
    requires ObjectsOk(cfg, s) && JobOk(s) && Enabled(cfg, s, step) && step.Upgrade?
    ensures var s' := Apply(cfg, s, step); var f := s.job.files[0]; var f' := f.(level := FileNonOverlapped);
            && IsLive(s, f) && SelectionOk(s, [f]) && s'.store == s.store
            && RowsOf(s'.store, f') == RowsOf(s.store, f)
            && forall g :: IsLive(s', g) <==> (IsLive(s, g) && g != f) || g == f'
  {
    var f := s.job.files[0];
    assert s.job.files == [f];
    assert f in s.job.files;
    forall g | IsLive(s, g) && g.id == f.id ensures g == f {
    }
  }

  lemma UpgradedApart(cfg: Config, s: State, f: ParquetFile, f': ParquetFile, g: ParquetFile)
    requires ObjectsOk(cfg, s) && Level1Apart(s) && SelectionOk(s, [f]) && RowsOf(s.store, f') == RowsOf(s.store, f)
    requires IsLive(s, f) && IsLive(s, g) && g != f && g.level.FileNonOverlapped?
    ensures Apart(s.store, f', g) && Apart(s.store, g, f')
  {
    hide ObjectsOk, Level1Apart, SelectionOk;
    forall c, d | c in RowsOf(s.store, f) && d in RowsOf(s.store, g) ensures c.time != d.time {
      LeftOutApart(cfg, s, [f], f, g, c, d);
    }
  }

  lemma UpgradeTakesOne(cfg: Config, s: State, step: Step)
    requires Enabled(cfg, s, step) && step.Upgrade?
    ensures s.job.Selected? && |s.job.files| == 1
  {
  }

  lemma UpgradeKeepsApart(cfg: Config, s: State, step: Step)
    requires ObjectsOk(cfg, s) && DataOk(s) && Enabled(cfg, s, step) && step.Upgrade?
    ensures Level1Apart(Apply(cfg, s, step))
  {
    hide Apply, Enabled, ObjectsOk, ViewOk, SequencesOk, JobOk, SelectionOk, Order, Apart, RowsOf, IsLive;
    UpgradeTakesOne(cfg, s, step);
    var f := s.job.files[0];
    var f' := f.(level := FileNonOverlapped);
    UpgradedFile(cfg, s, step);
    forall g | IsLive(s, g) && g != f && g.level.FileNonOverlapped?
      ensures Apart(s.store, f', g) && Apart(s.store, g, f')
    {
      UpgradedApart(cfg, s, f, f', g);
    }
  }

  /** Lowering the order of `f` to 0 changes no winner if every other holder of its cells is newer. */
  lemma DemotedFileShows(s: State, s': State, f: ParquetFile, f': ParquetFile)
    requires ViewOk(s) && s'.history == s.history && IsLive(s, f) && f.level.Initial? && f.maxSequenceNumber > 0
             && Order(f') == 0
    requires RowsOf(s'.store, f') == RowsOf(s.store, f)
    requires forall g :: IsLive(s', g) <==> (IsLive(s, g) && g != f) || g == f'
    requires forall g :: IsLive(s, g) ==> RowsOf(s'.store, g) == RowsOf(s.store, g)
    requires forall g, c :: Holds(s, f, c) && Holds(s, g, c) && g != f ==> Order(f) < Order(g)
    ensures ViewOk(s')
  {
    assert forall c :: Holds(s, f, c) ==> Holds(s', f', c);
    assert forall g, c :: Holds(s, g, c) && g != f ==> Holds(s', g, c);
    forall g, c | Holds(s', g, c) ensures c in Merge(s.history) {
      assert Holds(s, if g == f' then f else g, c);
    }
    forall g, c | Wins(s', g, c) ensures Wins(s, if g == f' && Holds(s, f, c) then f else g, c) {
      var h := if g == f' && Holds(s, f, c) then f else g;
      assert Holds(s, h, c);
      forall k | Holds(s, k, c) ensures Order(k) <= Order(h) {
        assert k != f ==> Holds(s', k, c);
      }
    }
  }

  lemma OnlyOneOlder(cfg: Config, s: State, f: ParquetFile, g: ParquetFile, c: Cell)
    requires ObjectsOk(cfg, s) && SequencesOk(s) && Level1Apart(s) && SelectionOk(s, [f])
    requires Holds(s, f, c) && Holds(s, g, c) && g != f
    ensures Order(f) < Order(g)
  {
    hide ObjectsOk, Level1Apart;
    assert [f][0].level.Initial?;
    assert LeavesOut(f, g);
    if g.level.FileNonOverlapped? {
      LeftOutApart(cfg, s, [f], f, g, c, c);
    }
  }

  lemma UpgradeKeepsView(cfg: Config, s: State, step: Step)
    requires ObjectsOk(cfg, s) && DataOk(s) && Enabled(cfg, s, step) && step.Upgrade?
    ensures ViewOk(Apply(cfg, s, step))
  {
    hide Apply, Enabled, ObjectsOk, ViewOk, Level1Apart, Holds;
    UpgradeTakesOne(cfg, s, step);
    var s' := Apply(cfg, s, step);
    var f := s.job.files[0];
    UpgradedFile(cfg, s, step);
    forall g, c | Holds(s, f, c) && Holds(s, g, c) && g != f ensures Order(f) < Order(g) {
      OnlyOneOlder(cfg, s, f, g, c);
    }
    UpgradeHistory(cfg, s, step);
    DemotedFileShows(s, s', f, f.(level := FileNonOverlapped));
  }

  lemma UpgradeHistory(cfg: Config, s: State, step: Step)
    requires Enabled(cfg, s, step) && step.Upgrade?
    ensures Apply(cfg, s, step).history == s.history
  {
  }

  lemma UpgradeKeepsData(cfg: Config, s: State, step: Step)
    requires ObjectsOk(cfg, s) && DataOk(s) && Enabled(cfg, s, step) && step.Upgrade?
    ensures DataOk(Apply(cfg, s, step))
  {
    UpgradedFile(cfg, s, step);
    UpgradeKeepsApart(cfg, s, step);
    UpgradeKeepsView(cfg, s, step);
  }

  // ---------------------------------------------------------------------------------------------
  // Committing a compaction
  // ---------------------------------------------------------------------------------------------

  /** Among files that hold a cell, one has the highest order. */
  lemma {:induction false} BestExists(store: map<Location, Object>, files: seq<ParquetFile>, c: Cell)
    returns (f: ParquetFile)
    requires SomeHolds(store, files, c)
    ensures Best(store, files, f, c)
  {
    var last := files[|files| - 1];
    var init := files[..|files| - 1];
    assert files == init + [last];
    if SomeHolds(store, init, c) {
      f := BestExists(store, init, c);
      if c in RowsOf(store, last) && Order(last) > Order(f) {
        f := last;
      }
    } else {
      f := last;
    }
  }

  /** Every timestamp falls into one stream of a plan ... */
  lemma {:induction false} StreamExists(times: seq<Timestamp>, t: Timestamp) returns (k: nat)
    ensures k <= |times| && InStream(times, k, t)
  {
    k := 0;
    while k < |times| && times[k] < t
      invariant k <= |times| && (k > 0 ==> times[k - 1] < t)
    {
      k := k + 1;
    }
  }

  /** ... and, the split times being strictly increasing, into only one. */
  lemma StreamUnique(times: seq<Timestamp>, k: nat, l: nat, t: Timestamp)
    requires Splitting.StrictlyIncreasing(times) && k <= |times| && l <= |times|
    requires InStream(times, k, t) && InStream(times, l, t)
    ensures k == l
  {
  }

  /** `s'` is `s` with the live `files` replaced by the streams of their deduplicated rows. */
  ghost predicate Replaces(s: State, s': State, files: seq<ParquetFile>, merged: Rows, times: seq<Timestamp>,
                           outs: seq<ParquetFile>) {
    && (forall f :: f in files ==> IsLive(s, f))
    && Deduplicated(s.store, files, merged) && Splitting.StrictlyIncreasing(times) && |outs| == |times| + 1
    && (forall k :: 0 <= k < |outs| ==>
          outs[k].level.FileNonOverlapped? && RowsOf(s'.store, outs[k]) == Stream(merged, times, k))
    && (forall g :: IsLive(s', g) <==> (IsLive(s, g) && g !in files) || g in outs)
    && (forall g :: IsLive(s, g) ==> RowsOf(s'.store, g) == RowsOf(s.store, g))
  }

  lemma OutputHolds(s: State, s': State, files: seq<ParquetFile>, merged: Rows, times: seq<Timestamp>,
                    outs: seq<ParquetFile>, c: Cell)
    requires Replaces(s, s', files, merged, times, outs)
    ensures c in merged <==> exists g :: g in outs && Holds(s', g, c)
    ensures c in merged <==> exists f :: f in files && Holds(s, f, c)
    ensures forall g :: g in outs && Holds(s', g, c) ==> RowsOf(s'.store, g)[c] == merged[c]
  {
    if c in merged {
      var k := StreamExists(times, c.time);
      assert outs[k] in outs && Holds(s', outs[k], c);
      var f :| f in files && c in RowsOf(s.store, f);
      assert Holds(s, f, c);
    }
  }

  ghost predicate OnlyNewerLeftOut(s: State, files: seq<ParquetFile>) {
    forall f, g, c :: f in files && g !in files && Holds(s, f, c) && Holds(s, g, c) ==>
      g.level.Initial? && Order(f) < Order(g)
  }

  /** The view survives if every file left out that shares a cell with a replaced file is a newer level 0 file. */
  lemma ReplacementShows(s: State, s': State, files: seq<ParquetFile>, merged: Rows, times: seq<Timestamp>,
                         outs: seq<ParquetFile>)
    requires Replaces(s, s', files, merged, times, outs) && ViewOk(s) && SequencesOk(s) && s'.history == s.history
    requires OnlyNewerLeftOut(s, files)
    ensures ViewOk(s')
  {
    var view := Merge(s.history);
    forall g, c | Holds(s', g, c) ensures c in view {
      OutputHolds(s, s', files, merged, times, outs, c);
      assert g !in outs ==> Holds(s, g, c);
    }
    forall g, c | Wins(s', g, c) ensures c in view && view[c] == RowsOf(s'.store, g)[c] {
      ReplacementWinner(s, s', files, merged, times, outs, g, c);
    }
    forall c | c in view ensures Held(s', c) {
      var f :| Holds(s, f, c);
      OutputHolds(s, s', files, merged, times, outs, c);
      assert f !in files ==> Holds(s', f, c);
    }
  }

  lemma ReplacementWinner(s: State, s': State, files: seq<ParquetFile>, merged: Rows, times: seq<Timestamp>,
                          outs: seq<ParquetFile>,
                          g: ParquetFile, c: Cell)
    requires Replaces(s, s', files, merged, times, outs) && ViewOk(s) && SequencesOk(s) && s'.history == s.history
    requires OnlyNewerLeftOut(s, files)
    requires Wins(s', g, c)
    ensures c in Merge(s.history) && Merge(s.history)[c] == RowsOf(s'.store, g)[c]
  {
    OutputHolds(s, s', files, merged, times, outs, c);
    if g in outs {
      var f := BestExists(s.store, files, c);
      assert Holds(s, f, c);
      forall h | Holds(s, h, c) ensures Order(h) <= Order(f) {
        assert h !in files ==> Holds(s', h, c);
      }
      assert Wins(s, f, c);
    } else {
      assert Holds(s, g, c);
      forall h | Holds(s, h, c) ensures Order(h) <= Order(g) {
        assert h !in files ==> Holds(s', h, c);
      }
      assert Wins(s, g, c);
    }
  }

  /** `files` share no timestamp with a level 1 file that was left out. */
  ghost predicate SelectedApart(s: State, files: seq<ParquetFile>) {
    forall f, g, c, d :: f in files && g !in files && g.level.FileNonOverlapped? && Holds(s, f, c) && Holds(s, g, d) ==>
      c.time != d.time
  }

  lemma OutputsApart(s: State, s': State, files: seq<ParquetFile>, merged: Rows, times: seq<Timestamp>,
                     outs: seq<ParquetFile>, f: ParquetFile, g: ParquetFile, c: Cell, d: Cell)
    requires Replaces(s, s', files, merged, times, outs) && f in outs && g in outs && f != g
    requires Holds(s', f, c) && Holds(s', g, d)
    ensures c.time != d.time
  {
    var k :| 0 <= k < |outs| && outs[k] == f;
    var l :| 0 <= l < |outs| && outs[l] == g;
    if c.time == d.time {
      StreamUnique(times, k, l, c.time);
    }
  }

  lemma OutputApartFromOthers(s: State, s': State, files: seq<ParquetFile>, merged: Rows, times: seq<Timestamp>,
                              outs: seq<ParquetFile>, f: ParquetFile, g: ParquetFile, c: Cell, d: Cell)
    requires Replaces(s, s', files, merged, times, outs) && SelectedApart(s, files)
    requires f in outs && g !in outs && g.level.FileNonOverlapped? && Holds(s', f, c) && Holds(s', g, d)
    ensures c.time != d.time
  {
    OutputHolds(s, s', files, merged, times, outs, c);
    assert Holds(s, g, d);
  }

  lemma ReplacementApart(s: State, s': State, files: seq<ParquetFile>, merged: Rows, times: seq<Timestamp>,
                         outs: seq<ParquetFile>)
    requires Replaces(s, s', files, merged, times, outs) && Level1Apart(s) && SelectedApart(s, files)
    ensures Level1Apart(s')
  {
    forall f, g, c, d | IsLive(s', f) && IsLive(s', g) && f != g && f.level == g.level == FileNonOverlapped
                        && c in RowsOf(s'.store, f) && d in RowsOf(s'.store, g)
      ensures c.time != d.time
    {
      assert Holds(s', f, c) && Holds(s', g, d);
      if f in outs && g in outs {
        OutputsApart(s, s', files, merged, times, outs, f, g, c, d);
      } else if f in outs {
        OutputApartFromOthers(s, s', files, merged, times, outs, f, g, c, d);
      } else if g in outs {
        OutputApartFromOthers(s, s', files, merged, times, outs, g, f, d, c);
      } else {
        assert Apart(s.store, f, g);
      }
    }
  }

  function Outputs(s: State, outputs: seq<ObjectId>): (outs: seq<ParquetFile>)
    requires s.job.Running? && s.job.files != [] && AllUploaded(outputs, s.job.uploads)
    ensures |outs| == |outputs|
    ensures forall k :: 0 <= k < |outs| ==> outs[k].level.FileNonOverlapped?
    ensures forall k :: 0 <= k < |outs| ==>
      outs[k] == OutputFile(s.nextFileId + k, outputs[k], s.job.uploads[outputs[k]], MaxSequence(s.job.files))
  {
    seq(|outputs|, k requires 0 <= k < |outputs| =>
      OutputFile(s.nextFileId + k, outputs[k], s.job.uploads[outputs[k]], MaxSequence(s.job.files)))
  }

  lemma OutputIsRecorded(s: State, outputs: seq<ObjectId>, k: nat)
    requires CanCommit(s, outputs) && k < |outputs|
    ensures s.nextFileId + k in CommitCatalog(s.catalog, s.nextFileId, s.job.files, outputs, s.job.uploads, s.now)
  {
    hide Flag;
  }

  lemma OutputIsLive(s: State, outputs: seq<ObjectId>, k: nat)
    requires RecordsHaveObjects(s) && CanCommit(s, outputs) && k < |outputs|
    ensures IsLive(Committed(s, outputs), Outputs(s, outputs)[k])
  {
    hide Flag, Created, MaxSequence, RecordsHaveObjects, CommitCatalog;
    OutputIsRecorded(s, outputs, k);
    CommittedRecord(s, outputs, s.nextFileId + k);
  }

  lemma OutputRows(cfg: Config, s: State, outputs: seq<ObjectId>, k: nat)
    requires UnregisteredOk(cfg, s) && JobOk(s) && CanCommit(s, outputs) && OutputsTimely(cfg, s)
    requires k < |outputs|
    ensures RowsOf(Committed(s, outputs).store, Outputs(s, outputs)[k]) == Stream(s.job.merged, s.job.times, k)
  {
    var o := outputs[k];
    assert MayRegister(s, o, s.job.uploads[o].stored);
  }

  lemma LiveAfterCommit(s: State, outputs: seq<ObjectId>, g: ParquetFile)
    requires RecordsHaveObjects(s) && CanCommit(s, outputs)
    requires IsLive(Committed(s, outputs), g)
    ensures (IsLive(s, g) && g !in s.job.files) || g in Outputs(s, outputs)
  {
    CommittedRecord(s, outputs, g.id);
    if g.id in s.catalog {
      assert g.id !in Ids(s.job.files);
    } else {
      assert Outputs(s, outputs)[g.id - s.nextFileId] == g;
    }
  }

  lemma LeftOutStaysLive(s: State, outputs: seq<ObjectId>, g: ParquetFile)
    requires RecordsHaveObjects(s) && JobOk(s) && CanCommit(s, outputs)
    requires IsLive(s, g) && g !in s.job.files
    ensures IsLive(Committed(s, outputs), g)
  {
    assert g.id !in Ids(s.job.files) by {
      assert forall f :: f in s.job.files ==> IsLive(s, f);
    }
    assert g.id in Committed(s, outputs).catalog;
    CommittedRecord(s, outputs, g.id);
  }

  lemma CommitLiveFiles(s: State, outputs: seq<ObjectId>, g: ParquetFile)
    requires RecordsHaveObjects(s) && JobOk(s) && CanCommit(s, outputs)
    ensures IsLive(Committed(s, outputs), g) <==> (IsLive(s, g) && g !in s.job.files) || g in Outputs(s, outputs)
  {
    var outs := Outputs(s, outputs);
    if IsLive(Committed(s, outputs), g) {
      LiveAfterCommit(s, outputs, g);
    } else if IsLive(s, g) && g !in s.job.files {
      LeftOutStaysLive(s, outputs, g);
    } else if g in outs {
      var k :| 0 <= k < |outs| && outs[k] == g;
      OutputIsLive(s, outputs, k);
    }
  }

  lemma CommitReplaces(cfg: Config, s: State, outputs: seq<ObjectId>)
    requires RecordsHaveObjects(s) && UnregisteredOk(cfg, s) && JobOk(s) && CanCommit(s, outputs)
             && OutputsTimely(cfg, s)
    ensures Replaces(s, Committed(s, outputs), s.job.files, s.job.merged, s.job.times, Outputs(s, outputs))
  {
    var s' := Committed(s, outputs);
    var outs := Outputs(s, outputs);
    assert s'.store == s.store;
    assert forall g :: IsLive(s', g) <==> (IsLive(s, g) && g !in s.job.files) || g in outs by {
      forall g ensures IsLive(s', g) <==> (IsLive(s, g) && g !in s.job.files) || g in outs {
        CommitLiveFiles(s, outputs, g);
      }
    }
    assert forall k :: 0 <= k < |outs| ==> RowsOf(s'.store, outs[k]) == Stream(s.job.merged, s.job.times, k) by {
      forall k | 0 <= k < |outs| ensures RowsOf(s'.store, outs[k]) == Stream(s.job.merged, s.job.times, k) {
        OutputRows(cfg, s, outputs, k);
      }
    }
  }

  /** A file left out that shares a cell with a selected file is a newer level 0 file. */
  lemma LeftOutIsNewer(cfg: Config, s: State, files: seq<ParquetFile>, f: ParquetFile, g: ParquetFile, c: Cell)
    requires ObjectsOk(cfg, s) && SequencesOk(s) && Level1Apart(s) && SelectionOk(s, files)
    requires f in files && g !in files && Holds(s, f, c) && Holds(s, g, c)
    ensures g.level.Initial? && Order(f) < Order(g)
  {
    if g.level.FileNonOverlapped? {
      LeftOutApart(cfg, s, files, f, g, c, c);
    }
    assert f.level.Initial? ==> LeavesOut(f, g);
  }

  lemma ReplacementSequences(s: State, s': State, files: seq<ParquetFile>, merged: Rows, times: seq<Timestamp>,
                             outs: seq<ParquetFile>)
    requires Replaces(s, s', files, merged, times, outs) && SequencesOk(s) && s'.lastSequence == s.lastSequence
    ensures SequencesOk(s')
  {
    assert forall g :: IsLive(s', g) && g.level.Initial? ==> IsLive(s, g);
  }

  lemma CommitKeepsApart(cfg: Config, s: State, outputs: seq<ObjectId>)
    requires ObjectsOk(cfg, s) && DataOk(s) && CanCommit(s, outputs) && OutputsTimely(cfg, s)
    ensures Level1Apart(Committed(s, outputs))
  {
    CommitReplaces(cfg, s, outputs);
    forall f, g, c, d | f in s.job.files && g !in s.job.files && g.level.FileNonOverlapped? && Holds(s, f, c)
        && Holds(s, g, d)
      ensures c.time != d.time
    {
      LeftOutApart(cfg, s, s.job.files, f, g, c, d);
    }
    ReplacementApart(s, Committed(s, outputs), s.job.files, s.job.merged, s.job.times, Outputs(s, outputs));
  }

  lemma SelectionLeavesOutNewer(cfg: Config, s: State, files: seq<ParquetFile>)
    requires ObjectsOk(cfg, s) && SequencesOk(s) && Level1Apart(s) && SelectionOk(s, files)
    ensures OnlyNewerLeftOut(s, files)
  {
    hide ObjectsOk, SequencesOk, Level1Apart, SelectionOk, Order;
    forall f, g, c | f in files && g !in files && Holds(s, f, c) && Holds(s, g, c)
      ensures g.level.Initial? && Order(f) < Order(g)
    {
      LeftOutIsNewer(cfg, s, files, f, g, c);
    }
  }

  lemma CommitKeepsView(cfg: Config, s: State, outputs: seq<ObjectId>)
    requires ObjectsOk(cfg, s) && DataOk(s) && CanCommit(s, outputs) && OutputsTimely(cfg, s)
    ensures ViewOk(Committed(s, outputs))
  {
    CommitReplaces(cfg, s, outputs);
    SelectionLeavesOutNewer(cfg, s, s.job.files);
    ReplacementShows(s, Committed(s, outputs), s.job.files, s.job.merged, s.job.times, Outputs(s, outputs));
  }

  lemma CommitKeepsData(cfg: Config, s: State, outputs: seq<ObjectId>)
    requires ObjectsOk(cfg, s) && DataOk(s) && CanCommit(s, outputs) && OutputsTimely(cfg, s)
    ensures DataOk(Committed(s, outputs))
  {
    CommitKeepsView(cfg, s, outputs);
    CommitKeepsApart(cfg, s, outputs);
    CommitReplaces(cfg, s, outputs);
    ReplacementSequences(s, Committed(s, outputs), s.job.files, s.job.merged, s.job.times, Outputs(s, outputs));
  }

  // ---------------------------------------------------------------------------------------------
  // Every step, every run
  // ---------------------------------------------------------------------------------------------

  lemma QuietStepKeepsData(cfg: Config, s: State, step: Step)
    requires ObjectsOk(cfg, s) && DataOk(s) && Enabled(cfg, s, step)
    requires !step.IngestRegister? && !step.Commit? && !step.Upgrade?
    ensures SequencesOk(Apply(cfg, s, step)) && Level1Apart(Apply(cfg, s, step)) && ViewOk(Apply(cfg, s, step))
  {
    var s' := Apply(cfg, s, step);
    forall f ensures IsLive(s', f) <==> IsLive(s, f) {
      LiveKept(cfg, s, step, f);
    }
    forall f | IsLive(s, f) ensures RowsOf(s'.store, f) == RowsOf(s.store, f) {
      RowsKept(cfg, s, step, f);
    }
    SameFiles(s, s');
    SameView(s, s');
  }

  lemma StartKeepsJob(cfg: Config, s: State, step: Step)
    requires DataOk(s) && Enabled(cfg, s, step)
    requires step.SelectHot? || step.SelectCold? || step.Plan? || step.Abort?
    ensures JobOk(Apply(cfg, s, step))
  {
    var s' := Apply(cfg, s, step);
    if step.Plan? {
      PlanIsProper(cfg, s.job.files);
    } else if step.SelectHot? {
      SelectionIsOk(s, step.level0, step.level1, cfg.maxBytes, Some(cfg.fileCountThreshold));
      SameSelection(s, s', s'.job.files);
    } else if step.SelectCold? {
      SelectionIsOk(s, step.level0, step.level1, cfg.coldMaxBytes, None);
      SameSelection(s, s', s'.job.files);
    }
  }

  lemma QuietStepKeepsJob(cfg: Config, s: State, step: Step)
    requires ObjectsOk(cfg, s) && DataOk(s) && Enabled(cfg, s, step)
    requires !step.IngestRegister? && !step.Commit? && !step.Upgrade?
    ensures JobOk(Apply(cfg, s, step))
  {
    if step.SelectHot? || step.SelectCold? || step.Plan? || step.Abort? {
      StartKeepsJob(cfg, s, step);
    } else {
      var s' := Apply(cfg, s, step);
      forall f ensures IsLive(s', f) <==> IsLive(s, f) {
        LiveKept(cfg, s, step, f);
      }
      forall f | IsLive(s, f) ensures RowsOf(s'.store, f) == RowsOf(s.store, f) {
        RowsKept(cfg, s, step, f);
      }
      SameJob(s, s'.(job := s.job));
      if step.UploadStream? {
        assert s'.job.uploads == s.job.uploads[step.objectId := step.upload];
        MoreUploads(s'.(job := s.job), s', step.objectId, step.upload);
      } else {
        assert s' == s'.(job := s.job);
      }
    }
  }

  lemma SameJob(s: State, s': State)
    requires JobOk(s) && s'.job == s.job
    requires forall f :: IsLive(s', f) <==> IsLive(s, f)
    requires forall f :: IsLive(s, f) ==> RowsOf(s'.store, f) == RowsOf(s.store, f)
    ensures JobOk(s')
  {
    if !s.job.Idle? {
      SameSelection(s, s', s.job.files);
    }
    if s.job.Running? {
      SameMerge(s, s', s.job.files, s.job.merged);
    }
  }

  lemma MoreUploads(s: State, s': State, o: ObjectId, u: Upload)
    requires JobOk(s) && s.job.Running? && s' == s.(job := s.job.(uploads := s.job.uploads[o := u]))
    requires u.stream <= |s.job.times| && u.stored.rows == Stream(s.job.merged, s.job.times, u.stream)
    ensures JobOk(s')
  {
    SameSelection(s, s', s.job.files);
  }

  lemma PlanIsProper(cfg: Config, files: seq<ParquetFile>)
    requires files != [] && cfg.split.Valid()
    ensures Splitting.StrictlyIncreasing(SplitTimesFor(files, cfg))
  {
    var (lo, hi) := Bounds(files);
    if lo <= hi {
      Splitting.SplitTimesAreProper(lo, hi, Filtering.TotalBytes(files), cfg.split);
    }
  }

  lemma CommitStep(cfg: Config, s: State, outputs: seq<ObjectId>)
    requires Enabled(cfg, s, Commit(outputs)) && Timely(cfg, s, Commit(outputs))
    ensures CanCommit(s, outputs) && OutputsTimely(cfg, s) && Apply(cfg, s, Commit(outputs)) == Committed(s, outputs)
  {
  }

  lemma StepKeepsData(cfg: Config, s: State, step: Step)
    requires ObjectsOk(cfg, s) && DataOk(s) && Enabled(cfg, s, step) && Timely(cfg, s, step)
    ensures DataOk(Apply(cfg, s, step))
  {
    if step.Commit? {
      CommitStep(cfg, s, step.outputs);
    }
    hide Apply, Enabled, Timely, ObjectsOk, SequencesOk, Level1Apart, ViewOk, JobOk;
    if step.IngestRegister? {
      RegisterKeepsData(cfg, s, step);
    } else if step.Commit? {
      CommitKeepsData(cfg, s, step.outputs);
    } else if step.Upgrade? {
      UpgradeKeepsData(cfg, s, step);
    } else {
      QuietStepKeepsData(cfg, s, step);
      QuietStepKeepsJob(cfg, s, step);
    }
  }

  lemma {:induction false} RunIsSafe(cfg: Config, run: seq<State>, steps: seq<Step>, i: nat)
    requires IsRun(cfg, run, steps) && AllTimely(cfg, run, steps) && i < |run|
    ensures ObjectsOk(cfg, run[i]) && DataOk(run[i])
  {
    if i == 0 {
      InitObjects(cfg, run[0]);
      InitData(cfg, run[0]);
    } else {
      RunIsSafe(cfg, run, steps, i - 1);
      assert Enabled(cfg, run[i - 1], steps[i - 1]) && Timely(cfg, run[i - 1], steps[i - 1]);
      StepKeepsObjects(cfg, run[i - 1], steps[i - 1]);
      StepKeepsData(cfg, run[i - 1], steps[i - 1]);
    }
  }

  /** Main theorem, objects: in every state of every timely run, the object of every catalog record exists. */
  lemma EveryRecordHasItsObject(cfg: Config, run: seq<State>, steps: seq<Step>, i: nat, id: FileId)
    requires IsRun(cfg, run, steps) && AllTimely(cfg, run, steps) && i < |run| && id in run[i].catalog
    ensures Parquet(run[i].catalog[id].objectStoreId) in run[i].store
  {
    RunIsSafe(cfg, run, steps, i);
    assert RecordOk(run[i], id, run[i].catalog[id]);
  }

  /** Main theorem, level 1: in every state of every timely run, no two live level 1 files hold a row
      with the same timestamp. */
  lemma Level1TimestampsApart(cfg: Config, run: seq<State>, steps: seq<Step>, i: nat, f: ParquetFile, g: ParquetFile,
                              c: Cell, d: Cell)
    requires IsRun(cfg, run, steps) && AllTimely(cfg, run, steps) && i < |run|
    requires IsLive(run[i], f) && IsLive(run[i], g) && f.level == g.level == FileNonOverlapped && f != g
    requires c in RowsOf(run[i].store, f) && d in RowsOf(run[i].store, g)
    ensures c.time != d.time
  {
    RunIsSafe(cfg, run, steps, i);
    assert Apart(run[i].store, f, g);
  }

  /** The last layer that has a cell decides its value. */
  lemma {:induction false} MergeShowsLast(layers: seq<Rows>, c: Cell) returns (k: nat)
    requires c in Merge(layers)
    ensures k < |layers| && c in layers[k] && Merge(layers)[c] == layers[k][c]
    ensures forall l :: k < l < |layers| ==> c !in layers[l]
  {
    var last := |layers| - 1;
    if c in layers[last] {
      k := last;
    } else {
      k := MergeShowsLast(layers[..last], c);
    }
  }

  lemma {:induction false} MergeHolds(layers: seq<Rows>, c: Cell, k: nat)
    requires k < |layers| && c in layers[k]
    ensures c in Merge(layers)
  {
    if k < |layers| - 1 {
      MergeHolds(layers[..|layers| - 1], c, k);
    }
  }

  /** Main theorem, view: in every state of every timely run, reading the live files in any arrangement
      by chunk order (ties broken either way) gives the upsert of everything ingested, in sequence order. */
  lemma ViewIsUpsert(cfg: Config, run: seq<State>, steps: seq<Step>, i: nat, fs: seq<ParquetFile>)
    requires IsRun(cfg, run, steps) && AllTimely(cfg, run, steps) && i < |run| && Arranges(run[i], fs)
    ensures Merge(Layers(run[i].store, fs)) == Merge(run[i].history)
  {
    RunIsSafe(cfg, run, steps, i);
    ArrangementShows(run[i], fs);
  }

  lemma ArrangementShows(s: State, fs: seq<ParquetFile>)
    requires ViewOk(s) && Arranges(s, fs)
    ensures Merge(Layers(s.store, fs)) == Merge(s.history)
  {
    hide Merge, Order;
    var layers, view := Layers(s.store, fs), Merge(s.history);
    forall c | c in view ensures c in Merge(layers) {
      assert Held(s, c);
      var f :| Holds(s, f, c);
      var k :| 0 <= k < |fs| && fs[k] == f;
      MergeHolds(layers, c, k);
    }
    forall c | c in Merge(layers) ensures c in view && Merge(layers)[c] == view[c] {
      var k := MergeShowsLast(layers, c);
      assert fs[k] in fs && Holds(s, fs[k], c);
      forall g | Holds(s, g, c) ensures Order(g) <= Order(fs[k]) {
        var l :| 0 <= l < |fs| && fs[l] == g;
        assert c in layers[l];
      }
      assert Wins(s, fs[k], c);
    }
  }
}
