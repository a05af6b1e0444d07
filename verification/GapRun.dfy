/** A run in which the time ranges of level 1 files come to overlap. */
module GapRun {
  import opened Basics
  import opened ParquetFiles
  import opened Protocol
  import opened Level1Ranges
  import opened Runs
  import Filtering
  import Splitting

  const CONFIG := Config(1, 100, 10, 100, Splitting.SplitConfig(100, 100, 80))

  const MERGED: Rows := map[At(280) := "1", At(350) := "1"]

  const GAP0 := ParquetFile(0, 0, 1, 315, 315, 10, Initial, None)
  const GAP := ParquetFile(0, 0, 1, 315, 315, 10, FileNonOverlapped, None)
  const BEFORE := ParquetFile(1, 1, 2, 280, 280, 10, Initial, None)
  const AFTER := ParquetFile(2, 2, 3, 350, 350, 10, Initial, None)
  const FLAGGED: map<FileId, ParquetFile> :=
    map[0 := GAP, 1 := BEFORE.(toDelete := Some(0)), 2 := AFTER.(toDelete := Some(0))]
  const OUTPUT := ParquetFile(3, 3, 3, 280, 350, 20, FileNonOverlapped, None)
  const UPLOAD := Upload(0, Object(MERGED, 0), 280, 350, 20)

  // One level 1 file between two level 0 files: it is ingested and upgraded, then they are ingested and compacted.
  function S0(): State {
    State(0, map[], {}, map[], 0, map[], 0, [], Idle, {}, -1, [], [])
  }

  function S1(): State {
    S0().(store := map[Parquet(0) := Object(Row(315), 0)], usedIds := {0}, pending := map[0 := Object(Row(315), 0)])
  }

  function S2(): State {
    S1().(catalog := map[0 := GAP0], nextFileId := 1, pending := map[], lastSequence := 1, history := [Row(315)])
  }

  function S3(): State {
    S2().(job := Selected([GAP0], true))
  }

  function S4(): State {
    S2().(catalog := map[0 := GAP])
  }

  function S5(): State {
    S4().(store := S4().store[Parquet(1) := Object(Row(280), 0)], usedIds := {0, 1},
        pending := map[1 := Object(Row(280), 0)])
  }

  function S6(): State {
    S5().(catalog := map[0 := GAP, 1 := BEFORE], nextFileId := 2, pending := map[], lastSequence := 2,
        history := [Row(315), Row(280)])
  }

  function S7(): State {
    S6().(store := S6().store[Parquet(2) := Object(Row(350), 0)], usedIds := {0, 1, 2},
        pending := map[2 := Object(Row(350), 0)])
  }

  function S8(): State {
    S7().(catalog := map[0 := GAP, 1 := BEFORE, 2 := AFTER], nextFileId := 3, pending := map[], lastSequence := 3,
        history := [Row(315), Row(280), Row(350)])
  }

  function S9(): State {
    S8().(job := Selected([BEFORE, AFTER], true))
  }

  function S10(): State {
    S8().(job := Running([BEFORE, AFTER], MERGED, [], map[]))
  }

  function S11(): State {
    S8().(store := S8().store[Parquet(3) := Object(MERGED, 0)], usedIds := {0, 1, 2, 3},
        job := Running([BEFORE, AFTER], MERGED, [], map[3 := UPLOAD]))
  }

  function S12(): State {
    S11().(catalog := FLAGGED[3 := OUTPUT], nextFileId := 4, job := Idle)
  }

  lemma Ingests()
    ensures Takes(CONFIG, S0(), IngestUpload(0, Row(315)), S1())
            && Takes(CONFIG, S1(), IngestRegister(0, 1, 315, 315, 10), S2())
  {
    assert At(315) in Row(315);
    assert [] + [Row(315)] == [Row(315)];
  }

  lemma IngestsBefore()
    ensures Takes(CONFIG, S4(), IngestUpload(1, Row(280)), S5())
            && Takes(CONFIG, S5(), IngestRegister(1, 2, 280, 280, 10), S6())
  {
    assert At(280) in Row(280);
    assert [Row(315)] + [Row(280)] == [Row(315), Row(280)];
  }

  lemma IngestsAfter()
    ensures Takes(CONFIG, S6(), IngestUpload(2, Row(350)), S7())
            && Takes(CONFIG, S7(), IngestRegister(2, 3, 350, 350, 10), S8())
  {
    assert At(350) in Row(350);
    assert [Row(315), Row(280)] + [Row(350)] == [Row(315), Row(280), Row(350)];
  }

  lemma Upgrades()
    ensures Takes(CONFIG, S2(), SelectCold([GAP0], []), S3()) && Takes(CONFIG, S3(), Upgrade, S4())
  {
    var l0: seq<ParquetFile>, l1: seq<ParquetFile> := [GAP0], [];
    assert GAP0 in l0;
    assert Filtering.Take(l0, l1, 0) == ([], l1);
    assert Filtering.Partition(l1, GAP0) == ([], []);
    assert Filtering.Take(l0, l1, 1).0 == [] && Filtering.Take(l0, l1, 1).1 == [];
    assert !Filtering.StopsAt(l0, l1, 100, None, 0);
    assert Filtering.Cut(l0, l1, 100, None) == 1;
    assert [] + l0[..1] == l0;
  }

  lemma Selects()
    ensures Takes(CONFIG, S8(), SelectCold([BEFORE, AFTER], [GAP]), S9())
  {
    var l0, l1 := [BEFORE, AFTER], [GAP];
    assert BEFORE in l0 && AFTER in l0 && GAP in l1;
    GapIsLeftOut();
    assert Lists(S8(), l0, l1);
  }

  /** Neither level 0 file overlaps the level 1 file, so the filter leaves it out. */
  lemma GapIsLeftOut()
    ensures Filtering.Filter([BEFORE, AFTER], [GAP], 100, None) == [BEFORE, AFTER]
  {
    var l0, l1 := [BEFORE, AFTER], [GAP];
    forall f | f == BEFORE || f == AFTER ensures Filtering.Partition(l1, f) == ([], l1) {
      assert l1[1..] == [] && Filtering.Partition([], f) == ([], []);
      assert [GAP] + [] == l1;
    }
    assert Filtering.Take(l0, l1, 0) == ([], l1);
    assert Filtering.Take(l0, l1, 1).0 == [] && Filtering.Take(l0, l1, 1).1 == l1;
    assert Filtering.Take(l0, l1, 2).0 == [];
    assert l0[..1] == [BEFORE] && [BEFORE][1..] == [];
    assert Filtering.TotalBytes([BEFORE]) == 10;
    assert !Filtering.StopsAt(l0, l1, 100, None, 0) && !Filtering.StopsAt(l0, l1, 100, None, 1);
    assert Filtering.Cut(l0, l1, 100, None) == 2;
    assert [] + l0[..2] == l0;
  }

  /** The two files are small enough not to be split. */
  lemma NoSplit()
    ensures SplitTimesFor([BEFORE, AFTER], CONFIG) == []
  {
    var files := [BEFORE, AFTER];
    assert files[1..] == [AFTER] && [AFTER][1..] == [] && files[..1] == [BEFORE];
    assert Filtering.TotalBytes([AFTER]) == 10;
    assert Filtering.TotalBytes(files) == 20;
  }

  lemma MergedRows(store: map<Location, Object>)
    requires Parquet(1) in store && store[Parquet(1)].rows == Row(280)
    requires Parquet(2) in store && store[Parquet(2)].rows == Row(350)
    ensures Deduplicated(store, [BEFORE, AFTER], MERGED)
  {
    var files := [BEFORE, AFTER];
    assert BEFORE in files && AFTER in files;
    forall c ensures c in MERGED <==> SomeHolds(store, files, c) {
      assert c in RowsOf(store, BEFORE) <==> c == At(280);
      assert c in RowsOf(store, AFTER) <==> c == At(350);
    }
  }

  lemma Plans()
    ensures Takes(CONFIG, S9(), Plan(MERGED), S10())
  {
    NoSplit();
    MergedRows(S9().store);
    hide SplitTimesFor, Deduplicated;
  }

  lemma Uploads()
    ensures Takes(CONFIG, S10(), UploadStream(3, UPLOAD), S11())
  {
    assert Stream(MERGED, [], 0) == MERGED;
    assert At(280) in MERGED && At(350) in MERGED;
  }

  lemma CreatedOutput()
    ensures AllUploaded([3], S11().job.uploads)
    ensures Created(3, [3], S11().job.uploads, 3) == map[3 := OUTPUT]
  {
    assert [3][..0] == [];
  }

  lemma LargestSequence()
    ensures MaxSequence([BEFORE, AFTER]) == 3
  {
    assert [BEFORE, AFTER][..1] == [BEFORE];
  }

  lemma FlaggedInputs()
    ensures Flag(map[0 := GAP, 1 := BEFORE, 2 := AFTER], Ids([BEFORE, AFTER]), 0) == FLAGGED
  {
    var files := [BEFORE, AFTER];
    assert BEFORE in files && AFTER in files;
    assert Ids(files) == {1, 2};
  }

  lemma CommittedCatalog()
    ensures AllUploaded([3], S11().job.uploads)
    ensures CommitCatalog(S11().catalog, 3, [BEFORE, AFTER], [3], S11().job.uploads, 0) == FLAGGED[3 := OUTPUT]
  {
    CreatedOutput();
    LargestSequence();
    FlaggedInputs();
    assert S11().catalog == map[0 := GAP, 1 := BEFORE, 2 := AFTER];
    hide Created, AllUploaded, Flag, Ids, MaxSequence, S11;
    assert FLAGGED + map[3 := OUTPUT] == FLAGGED[3 := OUTPUT];
  }

  lemma Commits()
    ensures Takes(CONFIG, S11(), Commit([3]), S12())
  {
    CommittedCatalog();
    hide CommitCatalog, AllUploaded;
    assert S11().now == 0 && S11().nextFileId == 3;
  }

  lemma StartIsInitial()
    ensures Init(CONFIG, S0())
  {
  }

  lemma Overlaps()
    ensures RangesDisjoint(S11()) && !RangesDisjoint(S12())
  {
    assert IsLive(S12(), GAP) && IsLive(S12(), OUTPUT) && OverlapsInTime(GAP, OUTPUT);
  }

  /** Ranges do not stay disjoint: a timely run from an empty catalog after whose last step, a commit, and not
      before, two live level 1 files have overlapping ranges. */
  lemma RangesComeToOverlap() returns (run: seq<State>, steps: seq<Step>)
    ensures IsRun(CONFIG, run, steps) && AllTimely(CONFIG, run, steps) && |run| == 13 && steps[11].Commit?
    ensures RangesDisjoint(run[11]) && !RangesDisjoint(run[12])
  {
    hide TimelyPath, Takes, IsRun, AllTimely, RangesDisjoint, S0, S1, S2, S3, S4, S5, S6, S7, S8, S9, S10, S11, S12;
    NoSteps(CONFIG, S0());
    run, steps := [S0()], [];
    Ingests();
    run, steps := Then(CONFIG, run, steps, IngestUpload(0, Row(315)), S1());
    run, steps := Then(CONFIG, run, steps, IngestRegister(0, 1, 315, 315, 10), S2());
    Upgrades();
    run, steps := Then(CONFIG, run, steps, SelectCold([GAP0], []), S3());
    run, steps := Then(CONFIG, run, steps, Upgrade, S4());
    IngestsBefore();
    run, steps := Then(CONFIG, run, steps, IngestUpload(1, Row(280)), S5());
    run, steps := Then(CONFIG, run, steps, IngestRegister(1, 2, 280, 280, 10), S6());
    IngestsAfter();
    run, steps := Then(CONFIG, run, steps, IngestUpload(2, Row(350)), S7());
    run, steps := Then(CONFIG, run, steps, IngestRegister(2, 3, 350, 350, 10), S8());
    Selects();
    run, steps := Then(CONFIG, run, steps, SelectCold([BEFORE, AFTER], [GAP]), S9());
    Plans();
    run, steps := Then(CONFIG, run, steps, Plan(MERGED), S10());
    Uploads();
    run, steps := Then(CONFIG, run, steps, UploadStream(3, UPLOAD), S11());
    Commits();
    run, steps := Then(CONFIG, run, steps, Commit([3]), S12());
    PathIsRun(CONFIG, run, steps);
    StartIsInitial();
    Overlaps();
  }
}
