/** How compaction makes progress, and why the timing assumption of the safety theorems is there. */
module Progress {
  import opened Basics
  import opened ParquetFiles
  import opened Protocol
  import opened ObjectSafety
  import opened ViewSafety
  import opened Finishing
  import Filtering

  /** The ids of the live level 0 files. */
  function Level0(s: State): set<FileId> {
    set id | id in s.catalog && s.catalog[id].toDelete.None? && s.catalog[id].level.Initial?
  }

  predicate Compacts(step: Step) {
    step.Commit? || step.Upgrade?
  }

  lemma OnlyIngestAddsLevel0(cfg: Config, s: State, step: Step)
    requires ObjectsOk(cfg, s) && Enabled(cfg, s, step) && !step.IngestRegister?
    ensures Level0(Apply(cfg, s, step)) <= Level0(s)
  {
    if step.Commit? {
      CommitAddsNoLevel0(s, step.outputs);
    } else {
      hide ObjectsOk;
    }
  }

  lemma CommitAddsNoLevel0(s: State, outputs: seq<ObjectId>)
    requires RecordsHaveObjects(s) && CanCommit(s, outputs)
    ensures Level0(Committed(s, outputs)) <= Level0(s)
  {
    hide RecordsHaveObjects, CommitCatalog;
    forall id | id in Level0(Committed(s, outputs)) ensures id in Level0(s) {
      CommittedRecord(s, outputs, id);
    }
  }

  lemma CommitRemovesFile(s: State, outputs: seq<ObjectId>, f: ParquetFile)
    requires RecordsHaveObjects(s) && CanCommit(s, outputs) && f in s.job.files && IsLive(s, f)
    ensures f.id !in Level0(Committed(s, outputs))
  {
    assert f.id in Committed(s, outputs).catalog;
    CommittedRecord(s, outputs, f.id);
    assert f.id in Ids(s.job.files);
  }

  lemma UpgradeRemovesFile(cfg: Config, s: State, step: Step)
    requires Enabled(cfg, s, step) && step.Upgrade?
    ensures forall f :: f in s.job.files ==> f.id !in Level0(Apply(cfg, s, step))
  {
    assert s.job.files == [s.job.files[0]];
  }

  /** A finished compaction removes at least one level 0 file. */
  lemma CompactionRemovesLevel0(cfg: Config, s: State, step: Step)
    requires ObjectsOk(cfg, s) && JobOk(s) && Enabled(cfg, s, step) && Compacts(step)
    ensures Level0(Apply(cfg, s, step)) < Level0(s)
  {
    OnlyIngestAddsLevel0(cfg, s, step);
    assert SelectionOk(s, s.job.files);
    var f :| f in s.job.files && f.level.Initial?;
    assert f.id in Level0(s);
    if step.Commit? {
      CommitRemovesFile(s, step.outputs, f);
    } else {
      UpgradeRemovesFile(cfg, s, step);
    }
  }

  function CountCompactions(steps: seq<Step>): nat {
    if steps == [] then 0
    else CountCompactions(steps[..|steps| - 1]) + if Compacts(steps[|steps| - 1]) then 1 else 0
  }

  /** From any point of a timely run on, as long as nothing new is registered, every finished compaction
      uses up a level 0 file. */
  lemma {:induction false} CompactionsAreBounded(cfg: Config, run: seq<State>, steps: seq<Step>, i: nat, j: nat)
    requires IsRun(cfg, run, steps) && AllTimely(cfg, run, steps) && i <= j < |run|
    requires forall k :: i <= k < j ==> !steps[k].IngestRegister?
    ensures |Level0(run[j])| + CountCompactions(steps[i..j]) <= |Level0(run[i])|
    decreases j - i
  {
    if i < j {
      var k := j - 1;
      CompactionsAreBounded(cfg, run, steps, i, k);
      assert steps[i..j][..|steps[i..j]| - 1] == steps[i..k];
      assert steps[i..j][|steps[i..j]| - 1] == steps[k];
      RunIsSafe(cfg, run, steps, k);
      assert Enabled(cfg, run[k], steps[k]) && run[k + 1] == Apply(cfg, run[k], steps[k]);
      OnlyIngestAddsLevel0(cfg, run[k], steps[k]);
      if Compacts(steps[k]) {
        CompactionRemovesLevel0(cfg, run[k], steps[k]);
      }
      SmallerSet(Level0(run[j]), Level0(run[k]));
    }
  }

  /** A partition with n level 0 files has none left after n finished compactions. */
  lemma AllLevel1AfterEnoughRounds(cfg: Config, run: seq<State>, steps: seq<Step>, i: nat, j: nat)
    requires IsRun(cfg, run, steps) && AllTimely(cfg, run, steps) && i <= j < |run|
    requires forall k :: i <= k < j ==> !steps[k].IngestRegister?
    requires CountCompactions(steps[i..j]) >= |Level0(run[i])|
    ensures Level0(run[j]) == {}
  {
    CompactionsAreBounded(cfg, run, steps, i, j);
  }

  /** While a level 0 file is left, an idle partition can select files, by the cold filter under any byte limit and
      by the hot one if its count threshold is not 0. */
  lemma SelectionPossible(cfg: Config, s: State, level0: seq<ParquetFile>, level1: seq<ParquetFile>)
    requires ObjectsOk(cfg, s) && s.job.Idle? && Lists(s, level0, level1) && Level0(s) != {}
    ensures Enabled(cfg, s, SelectCold(level0, level1))
    ensures cfg.fileCountThreshold > 0 ==> Enabled(cfg, s, SelectHot(level0, level1))
  {
    var id :| id in Level0(s);
    assert RecordOk(s, id, s.catalog[id]);
    assert s.catalog[id] in level0;
    Filtering.LimitsNotReachedBeforeLast(level0, level1, cfg.coldMaxBytes, None);
    Filtering.LimitsNotReachedBeforeLast(level0, level1, cfg.maxBytes, Some(cfg.fileCountThreshold));
  }

  /** What a cold round selects can be upgraded, or planned, uploaded and committed. */
  ghost predicate RoundCanFinish(cfg: Config, s: State) {
    Enabled(cfg, s, Upgrade) || CanFinish(cfg, s)
  }

  /** A cold round can be carried through if and only if it selects a single file or every output of its plan gets a
      row; then it leaves fewer level 0 files (`CompactionRemovesLevel0`). */
  lemma ColdRoundCanFinishIff(cfg: Config, s: State, level0: seq<ParquetFile>, level1: seq<ParquetFile>)
    requires ObjectsOk(cfg, s) && DataOk(s) && s.job.Idle? && Lists(s, level0, level1) && Level0(s) != {}
    requires cfg.split.Valid() && cfg.grace > 0
    ensures Enabled(cfg, s, SelectCold(level0, level1))
    ensures var files := Filtering.Filter(level0, level1, cfg.coldMaxBytes, None);
            && files != []
            && (RoundCanFinish(cfg, Apply(cfg, s, SelectCold(level0, level1))) <==>
                |files| == 1 || EveryOutputHasRows(s.store, files, SplitTimesFor(files, cfg)))
  {
    SelectionPossible(cfg, s, level0, level1);
    var step := SelectCold(level0, level1);
    StepKeepsObjects(cfg, s, step);
    StepKeepsData(cfg, s, step);
    var files := Filtering.Filter(level0, level1, cfg.coldMaxBytes, None);
    var s' := Apply(cfg, s, step);
    assert s' == s.(job := Selected(files, true));
    hide Filtering.Filter, Apply, Lists;
    SelectedRoundCanFinishIff(cfg, s', files);
  }

  lemma SelectedRoundCanFinishIff(cfg: Config, s: State, files: seq<ParquetFile>)
    requires ObjectsOk(cfg, s) && DataOk(s) && s.job == Selected(files, true) && files != []
    requires cfg.split.Valid() && cfg.grace > 0
    ensures RoundCanFinish(cfg, s) <==> |files| == 1 || EveryOutputHasRows(s.store, files, SplitTimesFor(files, cfg))
  {
    hide SplitTimesFor, EveryOutputHasRows, CanFinish, ObjectsOk, DataOk, Enabled;
    if |files| == 1 {
      SingleFileIsUpgraded(cfg, s, files);
    } else {
      SeveralFilesAreNot(cfg, s);
      CanFinishIff(cfg, s);
    }
  }

  lemma SingleFileIsUpgraded(cfg: Config, s: State, files: seq<ParquetFile>)
    requires DataOk(s) && s.job == Selected(files, true) && |files| == 1
    ensures Enabled(cfg, s, Upgrade)
  {
    assert SelectionOk(s, files);
    assert files == [files[0]];
  }

  lemma SeveralFilesAreNot(cfg: Config, s: State)
    requires s.job.Selected? && |s.job.files| != 1
    ensures !IsUpgrade(s.job) && !Enabled(cfg, s, Upgrade)
  {
  }

  // ---------------------------------------------------------------------------------------------
  // Without the timing assumption
  // ---------------------------------------------------------------------------------------------

  const ROWS: Rows := map[Cell(map[], 0, "f") := "1"]

  /** The object was uploaded at time 0; the grace period has passed since and the collector has started. */
  function Late(cfg: Config, k: nat): State
    requires k < 8
  {
    var now := if k < 2 then 0 else cfg.grace;
    var stored := Object(ROWS, 0);
    var item := ObjectMeta(Parquet(0), 0);
    State(now,
          if k == 0 || k == 7 then map[] else map[Parquet(0) := stored],
          if k == 0 then {} else {0},
          if k < 6 then map[] else map[0 := ParquetFile(0, 0, 1, 0, 0, 1, Initial, None)],
          if k < 6 then 0 else 1,
          if k == 0 || k >= 6 then map[] else map[0 := stored],
          if k < 6 then 0 else 1,
          if k < 6 then [] else [ROWS],
          Idle, {},
          if k < 3 then 0 - cfg.grace else 0,
          if k == 4 then [item] else [],
          if k == 5 || k == 6 then [item] else [])
  }

  function LateStep(cfg: Config, k: nat): Step
    requires k < 7
  {
    match k
    case 0 => IngestUpload(0, ROWS)
    case 1 => Tick(cfg.grace)
    case 2 => GcStart(0)
    case 3 => GcList(Parquet(0))
    case 4 => GcCheck
    case 5 => IngestRegister(0, 1, 0, 0, 1)
    case 6 => GcDelete(false)
  }

  lemma LateStepIsTaken(cfg: Config, k: nat)
    requires k < 7
    ensures Enabled(cfg, Late(cfg, k), LateStep(cfg, k))
            && Apply(cfg, Late(cfg, k), LateStep(cfg, k)) == Late(cfg, k + 1)
  {
    assert Cell(map[], 0, "f") in ROWS;
    assert [] + [ObjectMeta(Parquet(0), 0)] == [ObjectMeta(Parquet(0), 0)];
    assert [ObjectMeta(Parquet(0), 0)][1..] == [];
    assert k == 5 ==> Describes(0, 0, ROWS);
  }

  /** A run of seven steps, whatever the grace period, in which an ingester registers its object only
      after the orphan collector has judged it: the record ends up without an object. */
  lemma LateRegistrationLosesObject(cfg: Config) returns (run: seq<State>, steps: seq<Step>)
    ensures IsRun(cfg, run, steps) && !AllTimely(cfg, run, steps)
    ensures |run| == 8 && 0 in run[7].catalog && Parquet(run[7].catalog[0].objectStoreId) !in run[7].store
  {
    run := seq(8, k requires 0 <= k < 8 => Late(cfg, k));
    steps := seq(7, k requires 0 <= k < 7 => LateStep(cfg, k));
    forall k | 0 <= k < 7 ensures Enabled(cfg, run[k], steps[k]) && run[k + 1] == Apply(cfg, run[k], steps[k]) {
      LateStepIsTaken(cfg, k);
    }
    assert !Timely(cfg, run[5], steps[5]);
  }
}
