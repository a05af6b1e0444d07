/** When a selected compaction can be carried through to its commit. */
module Finishing {
  import opened ParquetFiles
  import opened Protocol
  import opened ObjectSafety
  import opened ViewSafety
  import opened Runs
  import CatalogUpdates
  import Filtering
  import Splitting

  // ---------------------------------------------------------------------------------------------
  // The first and the last output
  // ---------------------------------------------------------------------------------------------

  /** The hull of the time ranges is attained by selected files. */
  lemma {:induction false} BoundsAttained(files: seq<ParquetFile>) returns (f: ParquetFile, g: ParquetFile)
    requires files != []
    ensures f in files && g in files && Bounds(files) == (f.minTime, g.maxTime)
  {
    if |files| == 1 {
      f, g := files[0], files[0];
    } else {
      f, g := BoundsAttained(files[..|files| - 1]);
      var last := files[|files| - 1];
      if last.minTime < f.minTime {
        f := last;
      }
      if last.maxTime > g.maxTime {
        g := last;
      }
    }
  }

  /** Selected rows at both ends of the hull. */
  lemma RowsAtBounds(s: State, files: seq<ParquetFile>)
    returns (f: ParquetFile, c: Cell, g: ParquetFile, d: Cell)
    requires RecordsHaveObjects(s) && files != [] && forall h <- files :: IsLive(s, h)
    ensures f in files && c in RowsOf(s.store, f) && g in files && d in RowsOf(s.store, g)
    ensures Bounds(files) == (c.time, d.time) && c.time <= d.time
  {
    f, g := BoundsAttained(files);
    assert RecordOk(s, f.id, f) && RecordOk(s, g.id, g);
    c :| c in RowsOf(s.store, f) && c.time == f.minTime;
    d :| d in RowsOf(s.store, g) && d.time == g.maxTime;
    BoundsCover(files, f);
  }

  lemma {:induction false} BoundsCover(files: seq<ParquetFile>, f: ParquetFile)
    requires f in files
    ensures Bounds(files).0 <= f.minTime && f.maxTime <= Bounds(files).1
  {
    if |files| > 1 && f in files[..|files| - 1] {
      BoundsCover(files[..|files| - 1], f);
    }
  }

  /** The split times of selected files cut off neither end of their hull. */
  lemma EndsAreOutside(s: State, files: seq<ParquetFile>, cfg: Config)
    requires RecordsHaveObjects(s) && files != [] && (forall h <- files :: IsLive(s, h)) && cfg.split.Valid()
    ensures var times := SplitTimesFor(files, cfg);
            InStream(times, 0, Bounds(files).0) && InStream(times, |times|, Bounds(files).1)
  {
    var times := SplitTimesFor(files, cfg);
    var (lo, hi) := Bounds(files);
    var f, c, g, d := RowsAtBounds(s, files);
    Splitting.SplitTimesAreProper(lo, hi, Filtering.TotalBytes(files), cfg.split);
    if times != [] {
      assert times[0] in times && times[|times| - 1] in times;
    }
  }

  /** Whatever the plan, its first and its last output hold rows. */
  lemma FirstAndLastHoldRows(s: State, files: seq<ParquetFile>, merged: Rows, cfg: Config)
    requires RecordsHaveObjects(s) && files != [] && (forall h <- files :: IsLive(s, h)) && cfg.split.Valid()
    requires Deduplicated(s.store, files, merged)
    ensures var times := SplitTimesFor(files, cfg);
            Stream(merged, times, 0) != map[] && Stream(merged, times, |times|) != map[]
  {
    hide SplitTimesFor;
    var times := SplitTimesFor(files, cfg);
    var f, c, g, d := RowsAtBounds(s, files);
    EndsAreOutside(s, files, cfg);
    assert SomeHolds(s.store, files, c) && SomeHolds(s.store, files, d);
    assert c in Stream(merged, times, 0) && d in Stream(merged, times, |times|);
  }

  // ---------------------------------------------------------------------------------------------
  // The transaction
  // ---------------------------------------------------------------------------------------------

  /** The catalog transaction of a compaction that is ready to commit meets no recorded output and no missing
      input, and its result is the state after the commit. */
  lemma TransactionSucceeds(cfg: Config, s: State, outputs: seq<ObjectId>)
    requires ObjectsOk(cfg, s) && JobOk(s) && CanCommit(s, outputs)
    ensures CatalogUpdates.Succeeds(s.catalog, s.job.files, outputs)
    ensures forall id :: id in Ids(s.job.files) || id in s.catalog ==> id < s.nextFileId
    ensures Committed(s, outputs).catalog ==
            CommitCatalog(s.catalog, s.nextFileId, s.job.files, outputs, s.job.uploads, s.now)
  {
    forall k | 0 <= k < |outputs| ensures !Referenced(s.catalog, outputs[k]) {
      assert MayRegister(s, outputs[k], s.job.uploads[outputs[k]].stored);
    }
    forall id | id in s.catalog ensures id < s.nextFileId {
      assert RecordOk(s, id, s.catalog[id]);
    }
  }

  // ---------------------------------------------------------------------------------------------
  // Finishing
  // ---------------------------------------------------------------------------------------------

  ghost predicate RowInStream(store: map<Location, Object>, files: seq<ParquetFile>, times: seq<Timestamp>, k: nat,
                              f: ParquetFile, c: Cell) {
    f in files && c in RowsOf(store, f) && InStream(times, k, c.time)
  }

  ghost predicate OutputHasRows(store: map<Location, Object>, files: seq<ParquetFile>, times: seq<Timestamp>, k: nat) {
    exists f, c :: RowInStream(store, files, times, k, f, c)
  }

  /** Every output stream of a plan gets a row of the selected files. */
  ghost predicate EveryOutputHasRows(store: map<Location, Object>, files: seq<ParquetFile>, times: seq<Timestamp>) {
    forall k: nat :: k <= |times| ==> OutputHasRows(store, files, times, k)
  }

  /** From `s` on: the plan, uploads and nothing else, and a timely commit. */
  ghost predicate Finishes(cfg: Config, s: State, run: seq<State>, steps: seq<Step>) {
    && TimelyPath(cfg, run, steps) && run[0] == s && |steps| >= 2
    && steps[0].Plan? && steps[|steps| - 1].Commit?
    && forall i :: 0 < i < |steps| - 1 ==> steps[i].UploadStream?
  }

  ghost predicate CanFinish(cfg: Config, s: State) {
    exists run, steps :: Finishes(cfg, s, run, steps)
  }

  lemma {:induction false} PathIsSafe(cfg: Config, run: seq<State>, steps: seq<Step>, i: nat)
    requires TimelyPath(cfg, run, steps) && i < |run| && ObjectsOk(cfg, run[0]) && DataOk(run[0])
    ensures ObjectsOk(cfg, run[i]) && DataOk(run[i])
  {
    hide ObjectsOk, DataOk, Enabled, Apply, Timely;
    if i > 0 {
      PathIsSafe(cfg, run, steps, i - 1);
      assert Takes(cfg, run[i - 1], steps[i - 1], run[i - 1 + 1]);
      StepKeepsObjects(cfg, run[i - 1], steps[i - 1]);
      StepKeepsData(cfg, run[i - 1], steps[i - 1]);
    }
  }

  /** The plan of a running compaction stays until it commits or is given up. */
  lemma StepKeepsPlan(cfg: Config, s: State, step: Step)
    requires Enabled(cfg, s, step) && s.job.Running? && !step.Commit? && !step.Abort?
    ensures var job := Apply(cfg, s, step).job;
            job.Running? && job.files == s.job.files && job.merged == s.job.merged && job.times == s.job.times
  {
  }

  lemma PlanStep(cfg: Config, s: State, step: Step)
    requires Enabled(cfg, s, step) && step.Plan?
    ensures Deduplicated(s.store, s.job.files, step.merged)
    ensures Apply(cfg, s, step).job == Running(s.job.files, step.merged, SplitTimesFor(s.job.files, cfg), map[])
  {
  }

  lemma {:induction false} PlanStays(cfg: Config, run: seq<State>, steps: seq<Step>, i: nat)
    requires TimelyPath(cfg, run, steps) && 0 < i < |run| && steps[0].Plan?
    requires forall j :: 0 < j < i ==> !steps[j].Commit? && !steps[j].Abort?
    ensures run[0].job.Selected? && run[0].job.files != [] && cfg.split.Valid()
    ensures var job := run[i].job; var files := run[0].job.files;
            && job.Running? && job.files == files && job.merged == steps[0].merged
            && job.times == SplitTimesFor(files, cfg)
  {
    assert Takes(cfg, run[0], steps[0], run[0 + 1]);
    assert Enabled(cfg, run[0], steps[0]);
    hide Enabled, Apply, Timely, SplitTimesFor;
    if i == 1 {
      PlanStep(cfg, run[0], steps[0]);
    } else {
      PlanStays(cfg, run, steps, i - 1);
      assert Takes(cfg, run[i - 1], steps[i - 1], run[i - 1 + 1]);
      StepKeepsPlan(cfg, run[i - 1], steps[i - 1]);
    }
  }

  /** A compaction that commits had a row for every output. */
  lemma CommittedHasRows(cfg: Config, s: State, outputs: seq<ObjectId>, k: nat) returns (c: Cell)
    requires UploadsOk(s) && JobOk(s) && CanCommit(s, outputs) && k <= |s.job.times|
    ensures c in s.job.merged && InStream(s.job.times, k, c.time)
  {
    var u := s.job.uploads[outputs[k]];
    assert Describes(u.minTime, u.maxTime, u.stored.rows);
    c :| c in u.stored.rows;
    assert u.stored.rows == Stream(s.job.merged, s.job.times, k);
  }

  /** Whatever other steps come between the plan and the commit: a commit needs rows for every output. */
  lemma CommitNeedsRows(cfg: Config, run: seq<State>, steps: seq<Step>, i: nat)
    requires TimelyPath(cfg, run, steps) && 0 < i < |steps| && ObjectsOk(cfg, run[0]) && DataOk(run[0])
    requires steps[0].Plan? && steps[i].Commit? && forall j :: 0 < j < i ==> !steps[j].Commit? && !steps[j].Abort?
    ensures run[0].job.Selected? && run[0].job.files != [] && cfg.split.Valid()
    ensures EveryOutputHasRows(run[0].store, run[0].job.files, SplitTimesFor(run[0].job.files, cfg))
  {
    PlanStays(cfg, run, steps, i);
    PathIsSafe(cfg, run, steps, i);
    assert Takes(cfg, run[0], steps[0], run[0 + 1]) && Takes(cfg, run[i], steps[i], run[i + 1]);
    PlanStep(cfg, run[0], steps[0]);
    CommitStep(cfg, run[i], steps[i].outputs);
    hide Enabled, Apply, Timely, SplitTimesFor, Takes;
    var files, times := run[0].job.files, SplitTimesFor(run[0].job.files, cfg);
    forall k: nat | k <= |times| ensures OutputHasRows(run[0].store, files, times, k) {
      var c := CommittedHasRows(cfg, run[i], steps[i].outputs, k);
      assert SomeHolds(run[0].store, files, c);
      var f :| f in files && c in RowsOf(run[0].store, f);
      assert RowInStream(run[0].store, files, times, k, f, c);
    }
  }

  // ---------------------------------------------------------------------------------------------
  // The other direction: making the steps
  // ---------------------------------------------------------------------------------------------

  /** Among selected files, no two of the same order hold the same cell. */
  lemma BestIsUnique(s: State, files: seq<ParquetFile>, f: ParquetFile, g: ParquetFile, c: Cell)
    requires SequencesOk(s) && Level1Apart(s) && (forall h <- files :: IsLive(s, h))
    requires Best(s.store, files, f, c) && Best(s.store, files, g, c)
    ensures f == g
  {
    assert IsLive(s, f) && IsLive(s, g) && Order(f) == Order(g);
    assert f != g && f.level == g.level == FileNonOverlapped ==> Apart(s.store, f, g);
  }

  ghost function BestValue(store: map<Location, Object>, files: seq<ParquetFile>, c: Cell): string
    requires SomeHolds(store, files, c)
  {
    var f := BestOf(store, files, c);
    RowsOf(store, f)[c]
  }

  ghost function BestOf(store: map<Location, Object>, files: seq<ParquetFile>, c: Cell): (f: ParquetFile)
    requires SomeHolds(store, files, c)
    ensures Best(store, files, f, c)
  {
    BestCanBeFound(store, files, c);
    var f :| Best(store, files, f, c);
    f
  }

  lemma BestCanBeFound(store: map<Location, Object>, files: seq<ParquetFile>, c: Cell)
    requires SomeHolds(store, files, c)
    ensures exists f :: Best(store, files, f, c)
  {
    var f := BestExists(store, files, c);
  }

  ghost function Cells(store: map<Location, Object>, files: seq<ParquetFile>): (r: set<Cell>)
    ensures forall c :: c in r <==> SomeHolds(store, files, c)
  {
    set f, c | f in files && c in RowsOf(store, f) :: c
  }

  /** The rows of the selected files can be deduplicated. */
  lemma MergedExists(s: State, files: seq<ParquetFile>) returns (merged: Rows)
    requires SequencesOk(s) && Level1Apart(s) && (forall h <- files :: IsLive(s, h))
    ensures Deduplicated(s.store, files, merged)
  {
    var cells := Cells(s.store, files);
    merged := map c | c in cells :: BestValue(s.store, files, c);
    forall f, c | Best(s.store, files, f, c) ensures c in merged && merged[c] == RowsOf(s.store, f)[c] {
      assert SomeHolds(s.store, files, c);
      BestIsUnique(s, files, f, BestOf(s.store, files, c), c);
    }
  }

  lemma {:induction false} FreshId(used: set<ObjectId>) returns (o: ObjectId)
    ensures o !in used && forall p <- used :: p < o
  {
    if used == {} {
      o := 0;
    } else {
      var p :| p in used;
      var q := FreshId(used - {p});
      o := if q <= p then p + 1 else q;
      assert forall r <- used :: r == p || r in used - {p};
    }
  }

  lemma {:induction false} EarliestAndLatest(cells: set<Cell>) returns (c: Cell, d: Cell)
    requires cells != {}
    ensures c in cells && d in cells && forall e <- cells :: c.time <= e.time <= d.time
  {
    var e :| e in cells;
    c, d := e, e;
    if cells != {e} {
      assert cells - {e} != {};
      c, d := EarliestAndLatest(cells - {e});
      c, d := if e.time < c.time then e else c, if e.time > d.time then e else d;
    }
  }

  /** Rows that are not empty can be described. */
  lemma BoundsExist(rows: Rows) returns (lo: Timestamp, hi: Timestamp)
    requires rows != map[]
    ensures Describes(lo, hi, rows)
  {
    var c, d := EarliestAndLatest(rows.Keys);
    lo, hi := c.time, d.time;
    assert c in rows && d in rows;
  }

  /** The uploads of the first `n` streams are there, made just now, and no others. */
  ghost predicate UploadedUpTo(s: State, n: nat, outputs: seq<ObjectId>) {
    && s.job.Running? && |outputs| == n <= |s.job.times| + 1 && AllUploaded(outputs, s.job.uploads)
    && forall o :: o in s.job.uploads ==> s.job.uploads[o].stream < n && s.job.uploads[o].stored.lastModified == s.now
  }

  lemma NextUpload(cfg: Config, s: State, n: nat, outputs: seq<ObjectId>) returns (step: Step, s': State)
    requires UploadedUpTo(s, n, outputs) && n <= |s.job.times| && Stream(s.job.merged, s.job.times, n) != map[]
    ensures step.UploadStream? && Takes(cfg, s, step, s') && UploadedUpTo(s', n + 1, outputs + [step.objectId])
    ensures s'.job.merged == s.job.merged && s'.job.times == s.job.times && s'.job.files == s.job.files
  {
    var rows := Stream(s.job.merged, s.job.times, n);
    var lo, hi := BoundsExist(rows);
    var o := FreshId(s.usedIds + s.job.uploads.Keys);
    var u := Upload(n, Object(rows, s.now), lo, hi, 0);
    step := UploadStream(o, u);
    hide Describes, Stream;
    s' := Apply(cfg, s, step);
    assert s'.job.uploads == s.job.uploads[o := u];
    var outputs' := outputs + [o];
    forall k | 0 <= k < |outputs'| ensures outputs'[k] in s'.job.uploads && s'.job.uploads[outputs'[k]].stream == k {
      if k < n {
        assert outputs'[k] == outputs[k];
      }
    }
  }

  /** Uploads one after the other, until every stream has one. */
  lemma {:induction false} UploadAll(cfg: Config, run: seq<State>, steps: seq<Step>, n: nat, outputs: seq<ObjectId>)
    returns (run': seq<State>, steps': seq<Step>, outputs': seq<ObjectId>)
    requires TimelyPath(cfg, run, steps) && UploadedUpTo(run[|run| - 1], n, outputs) && |steps| > 0
    requires forall i :: 0 < i < |steps| ==> steps[i].UploadStream?
    requires var job := run[|run| - 1].job;
             forall k: nat :: k <= |job.times| ==> Stream(job.merged, job.times, k) != map[]
    ensures TimelyPath(cfg, run', steps') && |steps'| > 0 && run'[0] == run[0] && steps'[0] == steps[0]
    ensures forall i :: 0 < i < |steps'| ==> steps'[i].UploadStream?
    ensures var s := run'[|run'| - 1]; s.job.Running? && UploadedUpTo(s, |s.job.times| + 1, outputs')
    ensures run'[|run'| - 1].job.files == run[|run| - 1].job.files
    decreases |run[|run| - 1].job.times| + 1 - n
  {
    hide Takes, Stream, AllUploaded;
    var s := run[|run| - 1];
    if n == |s.job.times| + 1 {
      run', steps', outputs' := run, steps, outputs;
    } else {
      var step, s' := NextUpload(cfg, s, n, outputs);
      var r, t := Then(cfg, run, steps, step, s');
      run', steps', outputs' := UploadAll(cfg, r, t, n + 1, outputs + [step.objectId]);
    }
  }

  lemma RowsMakeStream(store: map<Location, Object>, files: seq<ParquetFile>, merged: Rows, times: seq<Timestamp>,
                       k: nat)
    requires Deduplicated(store, files, merged) && OutputHasRows(store, files, times, k)
    ensures Stream(merged, times, k) != map[]
  {
    var f, c :| RowInStream(store, files, times, k, f, c);
    assert SomeHolds(store, files, c);
    assert c in Stream(merged, times, k);
  }

  lemma PlanIsTaken(cfg: Config, s: State, merged: Rows) returns (s': State)
    requires s.job.Selected? && !IsUpgrade(s.job) && s.job.files != [] && cfg.split.Valid()
    requires Deduplicated(s.store, s.job.files, merged)
    ensures Takes(cfg, s, Plan(merged), s')
    ensures s'.job == Running(s.job.files, merged, SplitTimesFor(s.job.files, cfg), map[])
  {
    hide Deduplicated, SplitTimesFor;
    s' := Apply(cfg, s, Plan(merged));
  }

  lemma CommitIsTaken(cfg: Config, s: State, outputs: seq<ObjectId>) returns (s': State)
    requires s.job.Running? && s.job.files != [] && UploadedUpTo(s, |s.job.times| + 1, outputs) && cfg.grace > 0
    ensures Takes(cfg, s, Commit(outputs), s')
  {
    s' := Committed(s, outputs);
  }

  lemma FinishesWithRows(cfg: Config, s: State)
    requires SequencesOk(s) && Level1Apart(s) && JobOk(s) && s.job.Selected? && !IsUpgrade(s.job)
    requires cfg.split.Valid() && cfg.grace > 0 && s.job.files != []
    requires EveryOutputHasRows(s.store, s.job.files, SplitTimesFor(s.job.files, cfg))
    ensures CanFinish(cfg, s)
  {
    hide Takes, SplitTimesFor, Stream, Deduplicated, OutputHasRows;
    var files, times := s.job.files, SplitTimesFor(s.job.files, cfg);
    var merged := MergedExists(s, files);
    var s1 := PlanIsTaken(cfg, s, merged);
    NoSteps(cfg, s);
    var run, steps := Then(cfg, [s], [], Plan(merged), s1);
    forall k: nat | k <= |times| ensures Stream(merged, times, k) != map[] {
      RowsMakeStream(s.store, files, merged, times, k);
    }
    var outputs: seq<ObjectId>;
    run, steps, outputs := UploadAll(cfg, run, steps, 0, []);
    var s2 := CommitIsTaken(cfg, run[|run| - 1], outputs);
    run, steps := Then(cfg, run, steps, Commit(outputs), s2);
    assert Finishes(cfg, s, run, steps);
  }

  /** A selected compaction can be planned, uploaded and committed in time if and only if some selected row falls
      into each of its output streams: an output without rows makes the upload panic. */
  lemma CanFinishIff(cfg: Config, s: State)
    requires ObjectsOk(cfg, s) && DataOk(s) && s.job.Selected? && !IsUpgrade(s.job) && cfg.split.Valid()
             && cfg.grace > 0
    ensures s.job.files != []
    ensures CanFinish(cfg, s) <==> EveryOutputHasRows(s.store, s.job.files, SplitTimesFor(s.job.files, cfg))
  {
    hide SplitTimesFor, EveryOutputHasRows, ObjectsOk, SequencesOk, Level1Apart, ViewOk, TimelyPath;
    if CanFinish(cfg, s) {
      var run, steps :| Finishes(cfg, s, run, steps);
      CommitNeedsRows(cfg, run, steps, |steps| - 1);
    }
    if EveryOutputHasRows(s.store, s.job.files, SplitTimesFor(s.job.files, cfg)) {
      FinishesWithRows(cfg, s);
    }
  }

  lemma EndsHaveRows(s: State, files: seq<ParquetFile>, cfg: Config)
    requires RecordsHaveObjects(s) && files != [] && (forall h <- files :: IsLive(s, h)) && cfg.split.Valid()
    ensures var times := SplitTimesFor(files, cfg);
            OutputHasRows(s.store, files, times, 0) && OutputHasRows(s.store, files, times, |times|)
  {
    hide SplitTimesFor;
    var times := SplitTimesFor(files, cfg);
    var f, c, g, d := RowsAtBounds(s, files);
    EndsAreOutside(s, files, cfg);
    assert RowInStream(s.store, files, times, 0, f, c) && RowInStream(s.store, files, times, |times|, g, d);
  }

  lemma EndsAreAll(store: map<Location, Object>, files: seq<ParquetFile>, times: seq<Timestamp>)
    requires |times| <= 1 && OutputHasRows(store, files, times, 0) && OutputHasRows(store, files, times, |times|)
    ensures EveryOutputHasRows(store, files, times)
  {
    hide OutputHasRows;
  }

  lemma SelectedIsLive(cfg: Config, s: State)
    requires ObjectsOk(cfg, s) && JobOk(s) && s.job.Selected?
    ensures RecordsHaveObjects(s) && s.job.files != [] && forall h <- s.job.files :: IsLive(s, h)
  {
  }

  /** A plan that does not split, or splits once, can always finish. */
  lemma AtMostOneSplitCanFinish(cfg: Config, s: State)
    requires ObjectsOk(cfg, s) && DataOk(s) && s.job.Selected? && !IsUpgrade(s.job) && cfg.split.Valid()
             && cfg.grace > 0
    requires s.job.files != [] && |SplitTimesFor(s.job.files, cfg)| <= 1
    ensures CanFinish(cfg, s)
  {
    hide SplitTimesFor, CanFinish, EveryOutputHasRows, OutputHasRows, ObjectsOk, JobOk, SequencesOk, ViewOk;
    hide Level1Apart;
    hide RecordsHaveObjects;
    SelectedIsLive(cfg, s);
    EndsHaveRows(s, s.job.files, cfg);
    EndsAreAll(s.store, s.job.files, SplitTimesFor(s.job.files, cfg));
    CanFinishIff(cfg, s);
  }
}
