/** A partition that is never compacted: two files far apart, and a plan with outputs for the time between them. */
module StuckRun {
  import opened Basics
  import opened ParquetFiles
  import opened Protocol
  import opened ObjectSafety
  import opened ViewSafety
  import opened Runs
  import opened Finishing
  import Filtering
  import Splitting

  const CONFIG := Config(1, 1000, 10, 1000, Splitting.SplitConfig(100, 30, 80))

  const EARLY := ParquetFile(0, 0, 1, 0, 0, 200, Initial, None)
  const LATE := ParquetFile(1, 1, 2, 100, 100, 200, Initial, None)
  const FILES := [EARLY, LATE]
  const TIMES: seq<Timestamp> := [25, 50, 75]

  // ---------------------------------------------------------------------------------------------
  // The plan
  // ---------------------------------------------------------------------------------------------

  /** 400 bytes at 100 a file: three cuts. */
  lemma ThreeCuts()
    ensures SplitTimesFor(FILES, CONFIG) == TIMES
  {
    assert FILES[1..] == [LATE] && [LATE][1..] == [] && FILES[..1] == [EARLY];
    assert Filtering.TotalBytes([LATE]) == 200;
    assert Filtering.TotalBytes(FILES) == 400;
    assert Bounds(FILES) == (0, 100);
    assert Splitting.Step(100, 400, 100) == 25;
    assert Splitting.Steps(75, 100, 25) == [];
    assert Splitting.Steps(50, 100, 25) == [75];
    assert Splitting.Steps(25, 100, 25) == [50, 75];
    assert Splitting.Steps(0, 100, 25) == [25, 50, 75];
  }

  ghost predicate HoldsRows(store: map<Location, Object>) {
    RowsOf(store, EARLY) == Row(0) && RowsOf(store, LATE) == Row(100)
  }

  /** No row falls into the second output. */
  lemma SecondOutputIsEmpty(store: map<Location, Object>)
    requires HoldsRows(store)
    ensures !OutputHasRows(store, FILES, TIMES, 1)
  {
    forall f, c ensures !RowInStream(store, FILES, TIMES, 1, f, c) {
    }
  }

  // ---------------------------------------------------------------------------------------------
  // Every continuation
  // ---------------------------------------------------------------------------------------------

  /** Both files are live, and a compaction, if there is one, has taken both. */
  ghost predicate Stuck(s: State) {
    && s.catalog == map[0 := EARLY, 1 := LATE] && HoldsRows(s.store)
    && match s.job
      case Idle => true
      case Selected(files, _) => files == FILES
      case Running(files, _, times, _) => files == FILES && times == TIMES
  }

  lemma ListingIsBoth(s: State, level0: seq<ParquetFile>, level1: seq<ParquetFile>)
    requires Stuck(s) && Lists(s, level0, level1)
    ensures level0 == FILES && level1 == []
  {
    assert IsLive(s, EARLY) && IsLive(s, LATE);
    assert forall f :: IsLive(s, f) ==> f == EARLY || f == LATE;
    NoLongerThan(level1, {});
    NoLongerThan(level0, {EARLY, LATE});
    var i :| 0 <= i < |level0| && level0[i] == EARLY;
    var j :| 0 <= j < |level0| && level0[j] == LATE;
    assert i < j < |level0| <= 2;
  }

  lemma FilterTakesBoth(threshold: Option<nat>)
    requires threshold.None? || threshold.value >= 2
    ensures Filtering.Filter(FILES, [], 1000, threshold) == FILES
  {
    var l0, l1: seq<ParquetFile> := FILES, [];
    assert Filtering.Take(l0, l1, 0) == ([], l1);
    assert Filtering.Partition(l1, EARLY) == ([], []) && Filtering.Partition(l1, LATE) == ([], []);
    assert Filtering.Take(l0, l1, 1).0 == [] && Filtering.Take(l0, l1, 1).1 == [];
    assert Filtering.Take(l0, l1, 2).0 == [];
    assert l0[..1] == [EARLY] && [EARLY][1..] == [];
    assert Filtering.TotalBytes([EARLY]) == 200;
    assert !Filtering.StopsAt(l0, l1, 1000, threshold, 0) && !Filtering.StopsAt(l0, l1, 1000, threshold, 1);
    assert Filtering.Cut(l0, l1, 1000, threshold) == 2;
    assert [] + l0[..2] == l0;
  }

  lemma CannotCommit(s: State, outputs: seq<ObjectId>)
    requires Stuck(s) && UploadsOk(s) && JobOk(s)
    ensures !CanCommit(s, outputs)
  {
    if CanCommit(s, outputs) {
      var c := CommittedHasRows(CONFIG, s, outputs, 1);
      assert SomeHolds(s.store, FILES, c);
      var f :| f in FILES && c in RowsOf(s.store, f);
      assert RowInStream(s.store, FILES, TIMES, 1, f, c);
      SecondOutputIsEmpty(s.store);
    }
  }

  lemma SelectsBoth(s: State, step: Step)
    requires Stuck(s) && Enabled(CONFIG, s, step) && (step.SelectHot? || step.SelectCold?)
    ensures Stuck(Apply(CONFIG, s, step))
  {
    ListingIsBoth(s, step.level0, step.level1);
    FilterTakesBoth(Some(10));
    FilterTakesBoth(None);
    hide Filtering.Filter, HoldsRows;
  }

  lemma OtherStepKeepsStuck(s: State, step: Step)
    requires Stuck(s) && Enabled(CONFIG, s, step)
    requires !step.IngestRegister? && !step.Commit? && !step.Upgrade? && !step.SelectHot? && !step.SelectCold?
    requires HoldsRows(Apply(CONFIG, s, step).store)
    ensures Stuck(Apply(CONFIG, s, step))
  {
    ThreeCuts();
    hide HoldsRows, SplitTimesFor;
    if step.CleanupCatalog? {
      assert Kept(s.catalog, step.olderThan) == s.catalog;
    }
  }

  lemma StepKeepsStuck(s: State, step: Step)
    requires ObjectsOk(CONFIG, s) && DataOk(s) && Stuck(s) && Enabled(CONFIG, s, step) && !step.IngestRegister?
    ensures !step.Commit? && !step.Upgrade? && Stuck(Apply(CONFIG, s, step))
  {
    if step.Commit? {
      CannotCommit(s, step.outputs);
    } else if step.SelectHot? || step.SelectCold? {
      SelectsBoth(s, step);
    } else {
      RowsKept(CONFIG, s, step, EARLY);
      RowsKept(CONFIG, s, step, LATE);
      hide ObjectsOk, DataOk;
      OtherStepKeepsStuck(s, step);
    }
  }

  lemma {:induction false} StaysStuck(run: seq<State>, steps: seq<Step>, i: nat)
    requires TimelyPath(CONFIG, run, steps) && i < |run|
    requires ObjectsOk(CONFIG, run[0]) && DataOk(run[0]) && Stuck(run[0])
    requires forall j :: 0 <= j < |steps| ==> !steps[j].IngestRegister?
    ensures Stuck(run[i]) && forall j :: 0 <= j < i ==> !steps[j].Commit? && !steps[j].Upgrade?
  {
    hide ObjectsOk, DataOk, Stuck, Enabled, Apply, Timely;
    if i > 0 {
      StaysStuck(run, steps, i - 1);
      PathIsSafe(CONFIG, run, steps, i - 1);
      assert Takes(CONFIG, run[i - 1], steps[i - 1], run[i - 1 + 1]);
      StepKeepsStuck(run[i - 1], steps[i - 1]);
    }
  }

  // ---------------------------------------------------------------------------------------------
  // How it comes about
  // ---------------------------------------------------------------------------------------------

  function S0(): State {
    State(0, map[], {}, map[], 0, map[], 0, [], Idle, {}, -1, [], [])
  }

  function S1(): State {
    S0().(store := map[Parquet(0) := Object(Row(0), 0)], usedIds := {0}, pending := map[0 := Object(Row(0), 0)])
  }

  function S2(): State {
    S1().(catalog := map[0 := EARLY], nextFileId := 1, pending := map[], lastSequence := 1, history := [Row(0)])
  }

  function S3(): State {
    S2().(store := S2().store[Parquet(1) := Object(Row(100), 0)], usedIds := {0, 1},
          pending := map[1 := Object(Row(100), 0)])
  }

  function S4(): State {
    S3().(catalog := map[0 := EARLY, 1 := LATE], nextFileId := 2, pending := map[], lastSequence := 2,
          history := [Row(0), Row(100)])
  }

  function S5(): State {
    S4().(job := Selected(FILES, true))
  }

  lemma IngestsEarly()
    ensures Takes(CONFIG, S0(), IngestUpload(0, Row(0)), S1())
    ensures Takes(CONFIG, S1(), IngestRegister(0, 1, 0, 0, 200), S2())
  {
    assert At(0) in Row(0);
    assert [] + [Row(0)] == [Row(0)];
  }

  lemma IngestsLate()
    ensures Takes(CONFIG, S2(), IngestUpload(1, Row(100)), S3())
    ensures Takes(CONFIG, S3(), IngestRegister(1, 2, 100, 100, 200), S4())
  {
    assert At(100) in Row(100);
    assert [Row(0)] + [Row(100)] == [Row(0), Row(100)];
  }

  lemma Selects()
    ensures Takes(CONFIG, S4(), SelectCold(FILES, []), S5())
  {
    FilterTakesBoth(None);
    hide Filtering.Filter;
    assert EARLY in FILES && LATE in FILES;
    assert Lists(S4(), FILES, []);
  }

  /** A timely run from an empty catalog to a selection of both files. */
  lemma RunToSelection() returns (run: seq<State>, steps: seq<Step>)
    ensures IsRun(CONFIG, run, steps) && AllTimely(CONFIG, run, steps) && |run| == 6 && run[4] == S4() && run[5] == S5()
  {
    hide Takes, TimelyPath, IsRun, AllTimely, S0, S1, S2, S3, S4, S5;
    NoSteps(CONFIG, S0());
    run, steps := [S0()], [];
    IngestsEarly();
    run, steps := Then(CONFIG, run, steps, IngestUpload(0, Row(0)), S1());
    run, steps := Then(CONFIG, run, steps, IngestRegister(0, 1, 0, 0, 200), S2());
    IngestsLate();
    run, steps := Then(CONFIG, run, steps, IngestUpload(1, Row(100)), S3());
    run, steps := Then(CONFIG, run, steps, IngestRegister(1, 2, 100, 100, 200), S4());
    Selects();
    run, steps := Then(CONFIG, run, steps, SelectCold(FILES, []), S5());
    PathIsRun(CONFIG, run, steps);
    StartIsInitial();
  }

  lemma StartIsInitial()
    ensures Init(CONFIG, S0())
  {
  }

  lemma SelectionIsStuck()
    ensures Stuck(S5()) && Stuck(S4())
  {
  }

  /** The selection cannot be carried through: its plan has two outputs without rows. */
  lemma CannotFinish()
    ensures !CanFinish(CONFIG, S5())
  {
    var run, start := RunToSelection();
    RunIsSafe(CONFIG, run, start, 5);
    ThreeCuts();
    SelectionIsStuck();
    SecondOutputIsEmpty(S5().store);
    hide ObjectsOk, DataOk, CanFinish, IsRun, AllTimely, SplitTimesFor, OutputHasRows;
    CanFinishIff(CONFIG, S5());
  }

  /** From there on, as long as nothing is ingested, no compaction ever finishes, whatever steps are taken: after
      every failure the filters take the same two files again. */
  lemma NeverCompacted(more: seq<State>, steps: seq<Step>, i: nat)
    requires TimelyPath(CONFIG, more, steps) && more[0] == S5() && i < |steps|
    requires forall j :: 0 <= j < |steps| ==> !steps[j].IngestRegister?
    ensures !steps[i].Commit? && !steps[i].Upgrade? && more[i + 1].catalog == map[0 := EARLY, 1 := LATE]
  {
    var run, start := RunToSelection();
    RunIsSafe(CONFIG, run, start, 5);
    SelectionIsStuck();
    hide ObjectsOk, DataOk, IsRun, AllTimely;
    StaysStuck(more, steps, i + 1);
  }
}
