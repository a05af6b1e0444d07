/** Level 1 files share no timestamp, but their time ranges can come to overlap: exactly when. */
module Level1Ranges {
  import opened ParquetFiles
  import opened Protocol
  import opened ObjectSafety
  import opened ViewSafety
  import opened Finishing
  import Splitting

  ghost predicate RangesDisjoint(s: State) {
    forall f, g :: IsLive(s, f) && IsLive(s, g) && f != g && f.level == g.level == FileNonOverlapped ==>
      !OverlapsInTime(f, g)
  }

  /** Some output stream will hold selected rows on both sides of `g`, or inside it. */
  ghost predicate Straddled(s: State, files: seq<ParquetFile>, times: seq<Timestamp>, g: ParquetFile) {
    exists e, f, c, d :: Straddles(s, files, times, g, e, f, c, d)
  }

  ghost predicate Straddles(s: State, files: seq<ParquetFile>, times: seq<Timestamp>, g: ParquetFile,
                            e: ParquetFile, f: ParquetFile, c: Cell, d: Cell) {
    && e in files && f in files && c in RowsOf(s.store, e) && d in RowsOf(s.store, f)
    && c.time <= g.maxTime && g.minTime <= d.time
    && SameStream(times, c.time, d.time)
  }

  ghost predicate SameStream(times: seq<Timestamp>, t: Timestamp, u: Timestamp) {
    exists k: nat :: k <= |times| && InStream(times, k, t) && InStream(times, k, u)
  }

  /** The rows of stream k, seen from the selected files. */
  lemma StreamRows(s: State, files: seq<ParquetFile>, merged: Rows, times: seq<Timestamp>, k: nat, c: Cell)
    requires Deduplicated(s.store, files, merged)
    ensures c in Stream(merged, times, k) <==>
            InStream(times, k, c.time) && exists f :: f in files && c in RowsOf(s.store, f)
  {
    assert c in merged <==> SomeHolds(s.store, files, c);
  }

  lemma StreamsInOrder(s: State, s': State, files: seq<ParquetFile>, merged: Rows, times: seq<Timestamp>,
                       outs: seq<ParquetFile>, k: nat, l: nat)
    requires Replaces(s, s', files, merged, times, outs) && k < l < |outs|
    requires Describes(outs[k].minTime, outs[k].maxTime, RowsOf(s'.store, outs[k]))
    requires Describes(outs[l].minTime, outs[l].maxTime, RowsOf(s'.store, outs[l]))
    ensures outs[k].maxTime < outs[l].minTime
  {
    var c :| c in RowsOf(s'.store, outs[k]) && c.time == outs[k].maxTime;
    var d :| d in RowsOf(s'.store, outs[l]) && d.time == outs[l].minTime;
    assert c in Stream(merged, times, k) && d in Stream(merged, times, l);
    StreamsApart(times, k, l, c.time, d.time);
  }

  lemma StreamsApart(times: seq<Timestamp>, k: nat, l: nat, t: Timestamp, u: Timestamp)
    requires Splitting.StrictlyIncreasing(times) && k < l <= |times| && InStream(times, k, t) && InStream(times, l, u)
    ensures t < u
  {
  }

  /** An output overlaps a level 1 file left out exactly when its stream straddles it. */
  lemma OutputOverlaps(s: State, s': State, files: seq<ParquetFile>, merged: Rows, times: seq<Timestamp>,
                       outs: seq<ParquetFile>,
                       k: nat, g: ParquetFile)
    requires Replaces(s, s', files, merged, times, outs) && k < |outs| && g.minTime <= g.maxTime
    requires Describes(outs[k].minTime, outs[k].maxTime, RowsOf(s'.store, outs[k]))
    requires OverlapsInTime(outs[k], g)
    ensures Straddled(s, files, times, g)
  {
    var c :| c in RowsOf(s'.store, outs[k]) && c.time == outs[k].minTime;
    var d :| d in RowsOf(s'.store, outs[k]) && d.time == outs[k].maxTime;
    StreamRows(s, files, merged, times, k, c);
    StreamRows(s, files, merged, times, k, d);
    var e :| e in files && c in RowsOf(s.store, e);
    var f :| f in files && d in RowsOf(s.store, f);
    assert SameStream(times, c.time, d.time);
    assert Straddles(s, files, times, g, e, f, c, d);
  }

  lemma StraddledIsOverlapped(s: State, s': State, files: seq<ParquetFile>, merged: Rows, times: seq<Timestamp>,
                              outs: seq<ParquetFile>,
                              g: ParquetFile) returns (k: nat)
    requires Replaces(s, s', files, merged, times, outs) && Straddled(s, files, times, g)
    requires forall k :: 0 <= k < |outs| ==> Describes(outs[k].minTime, outs[k].maxTime, RowsOf(s'.store, outs[k]))
    ensures k < |outs| && OverlapsInTime(outs[k], g)
  {
    var e, f, c, d :| Straddles(s, files, times, g, e, f, c, d);
    var m: nat :| m <= |times| && InStream(times, m, c.time) && InStream(times, m, d.time);
    k := m;
    StreamRows(s, files, merged, times, k, c);
    StreamRows(s, files, merged, times, k, d);
    assert Describes(outs[k].minTime, outs[k].maxTime, RowsOf(s'.store, outs[k]));
  }

  /** Level 1 ranges that are disjoint stay so over a commit if and only if no level 1 file that was left
      out is straddled by the rows of one output stream. */
  lemma RangesStayDisjointIff(cfg: Config, s: State, outputs: seq<ObjectId>)
    requires ObjectsOk(cfg, s) && DataOk(s) && CanCommit(s, outputs) && OutputsTimely(cfg, s) && RangesDisjoint(s)
    ensures RangesDisjoint(Committed(s, outputs)) <==>
            forall g :: IsLive(s, g) && g.level.FileNonOverlapped? && g !in s.job.files ==>
                !Straddled(s, s.job.files, s.job.times, g)
  {
    var s' := Committed(s, outputs);
    var files, merged, times, outs := s.job.files, s.job.merged, s.job.times, Outputs(s, outputs);
    CommitReplaces(cfg, s, outputs);
    OutputsDescribed(cfg, s, outputs);
    if RangesDisjoint(s') {
      forall g | IsLive(s, g) && g.level.FileNonOverlapped? && g !in files ensures !Straddled(s, files, times, g) {
        if Straddled(s, files, times, g) {
          var k := StraddledIsOverlapped(s, s', files, merged, times, outs, g);
          assert outs[k] in outs && IsLive(s', outs[k]) && IsLive(s', g);
          OutputIsNew(s, outputs, k);
        }
      }
    }
    if forall g :: IsLive(s, g) && g.level.FileNonOverlapped? && g !in files ==> !Straddled(s, files, times, g) {
      forall f, g | IsLive(s', f) && IsLive(s', g) && f.level.FileNonOverlapped? && g.level.FileNonOverlapped? && f != g
        ensures !OverlapsInTime(f, g)
      {
        PairStaysDisjoint(cfg, s, outputs, f, g);
      }
    }
  }

  lemma OutputDescribed(cfg: Config, s: State, outputs: seq<ObjectId>, k: nat)
    requires UploadsOk(s) && UnregisteredOk(cfg, s) && CanCommit(s, outputs) && OutputsTimely(cfg, s) && k < |outputs|
    ensures var f := Outputs(s, outputs)[k]; Describes(f.minTime, f.maxTime, RowsOf(s.store, f))
  {
    hide Describes, Referenced;
    var o := outputs[k];
    assert MayRegister(s, o, s.job.uploads[o].stored);
  }

  lemma OutputsDescribed(cfg: Config, s: State, outputs: seq<ObjectId>)
    requires ObjectsOk(cfg, s) && JobOk(s) && CanCommit(s, outputs) && OutputsTimely(cfg, s)
    ensures var outs := Outputs(s, outputs); var s' := Committed(s, outputs);
            forall k :: 0 <= k < |outs| ==> Describes(outs[k].minTime, outs[k].maxTime, RowsOf(s'.store, outs[k]))
  {
    assert UploadsOk(s) && UnregisteredOk(cfg, s);
    hide ObjectsOk, JobOk, UploadsOk, UnregisteredOk, Describes, CommitCatalog, OutputsTimely, RowsOf;
    var outs := Outputs(s, outputs);
    forall k | 0 <= k < |outs| ensures Describes(outs[k].minTime, outs[k].maxTime, RowsOf(s.store, outs[k])) {
      OutputDescribed(cfg, s, outputs, k);
    }
  }

  lemma OutputIsNew(s: State, outputs: seq<ObjectId>, k: nat)
    requires RecordsHaveObjects(s) && CanCommit(s, outputs) && k < |outputs|
    ensures !IsLive(s, Outputs(s, outputs)[k])
  {
    var f := Outputs(s, outputs)[k];
    assert f.id in s.catalog ==> RecordOk(s, f.id, s.catalog[f.id]);
  }

  lemma OutputsStayDisjoint(s: State, s': State, files: seq<ParquetFile>, merged: Rows, times: seq<Timestamp>,
                            outs: seq<ParquetFile>, f: ParquetFile, g: ParquetFile)
    requires Replaces(s, s', files, merged, times, outs) && f in outs && g in outs && f != g
    requires forall k :: 0 <= k < |outs| ==> Describes(outs[k].minTime, outs[k].maxTime, RowsOf(s'.store, outs[k]))
    requires f.minTime <= f.maxTime && g.minTime <= g.maxTime
    ensures !OverlapsInTime(f, g)
  {
    hide Replaces, Describes;
    var k :| 0 <= k < |outs| && outs[k] == f;
    var l :| 0 <= l < |outs| && outs[l] == g;
    if k < l {
      StreamsInOrder(s, s', files, merged, times, outs, k, l);
    } else {
      StreamsInOrder(s, s', files, merged, times, outs, l, k);
    }
  }

  lemma OutputStaysDisjoint(s: State, s': State, files: seq<ParquetFile>, merged: Rows, times: seq<Timestamp>,
                            outs: seq<ParquetFile>, f: ParquetFile, g: ParquetFile)
    requires Replaces(s, s', files, merged, times, outs) && f in outs && !Straddled(s, files, times, g)
    requires forall k :: 0 <= k < |outs| ==> Describes(outs[k].minTime, outs[k].maxTime, RowsOf(s'.store, outs[k]))
    requires g.minTime <= g.maxTime
    ensures !OverlapsInTime(f, g)
  {
    hide Replaces, Describes, Straddled;
    var k :| 0 <= k < |outs| && outs[k] == f;
    if OverlapsInTime(f, g) {
      OutputOverlaps(s, s', files, merged, times, outs, k, g);
    }
  }

  lemma PairStaysDisjoint(cfg: Config, s: State, outputs: seq<ObjectId>, f: ParquetFile, g: ParquetFile)
    requires ObjectsOk(cfg, s) && DataOk(s) && CanCommit(s, outputs) && OutputsTimely(cfg, s) && RangesDisjoint(s)
    requires forall g :: IsLive(s, g) && g.level.FileNonOverlapped? && g !in s.job.files ==>
               !Straddled(s, s.job.files, s.job.times, g)
    requires IsLive(Committed(s, outputs), f) && IsLive(Committed(s, outputs), g)
             && f.level == g.level == FileNonOverlapped && f != g
    ensures !OverlapsInTime(f, g)
  {
    var s' := Committed(s, outputs);
    var files, merged, times, outs := s.job.files, s.job.merged, s.job.times, Outputs(s, outputs);
    CommitReplaces(cfg, s, outputs);
    OutputsDescribed(cfg, s, outputs);
    CommitLiveFiles(s, outputs, f);
    CommitLiveFiles(s, outputs, g);
    NotInverted(cfg, s, outputs, f);
    NotInverted(cfg, s, outputs, g);
    OverlapsIffCommonInstant(f, g);
    hide Replaces, Describes, Straddled, Committed, ObjectsOk, DataOk, CanCommit, Outputs;
    if f in outs && g in outs {
      OutputsStayDisjoint(s, s', files, merged, times, outs, f, g);
    } else if f in outs {
      OutputStaysDisjoint(s, s', files, merged, times, outs, f, g);
    } else if g in outs {
      OutputStaysDisjoint(s, s', files, merged, times, outs, g, f);
    }
  }

  lemma NotInverted(cfg: Config, s: State, outputs: seq<ObjectId>, f: ParquetFile)
    requires ObjectsOk(cfg, s) && CanCommit(s, outputs) && OutputsTimely(cfg, s) && IsLive(Committed(s, outputs), f)
    ensures f.minTime <= f.maxTime
  {
    CommitKeepsRecord(cfg, s, outputs, f.id);
  }

  /** `g` meets the hull of the selected files. */
  ghost predicate MeetsHull(files: seq<ParquetFile>, g: ParquetFile)
    requires files != []
  {
    Bounds(files).0 <= g.maxTime && g.minTime <= Bounds(files).1
  }

  /** A level 1 file outside the hull of the selected files is not straddled. */
  lemma HullIsEnough(cfg: Config, s: State, g: ParquetFile)
    requires ObjectsOk(cfg, s) && JobOk(s) && s.job.Running? && s.job.files != [] && !MeetsHull(s.job.files, g)
    ensures !Straddled(s, s.job.files, s.job.times, g)
  {
    forall f, c | f in s.job.files && c in RowsOf(s.store, f)
      ensures Bounds(s.job.files).0 <= c.time <= Bounds(s.job.files).1
    {
      assert RecordOk(s, f.id, f);
      BoundsCover(s.job.files, f);
    }
  }

  /** Level 1 ranges stay disjoint over a commit when no level 1 file left out meets the hull. */
  lemma RangesStayDisjointOutsideHull(cfg: Config, s: State, outputs: seq<ObjectId>)
    requires ObjectsOk(cfg, s) && DataOk(s) && CanCommit(s, outputs) && OutputsTimely(cfg, s) && RangesDisjoint(s)
    requires forall g :: IsLive(s, g) && g.level.FileNonOverlapped? && g !in s.job.files ==> !MeetsHull(s.job.files, g)
    ensures RangesDisjoint(Committed(s, outputs))
  {
    forall g | IsLive(s, g) && g.level.FileNonOverlapped? && g !in s.job.files
      ensures !Straddled(s, s.job.files, s.job.times, g)
    {
      HullIsEnough(cfg, s, g);
    }
    hide ObjectsOk, DataOk, RangesDisjoint, Straddled, Committed;
    RangesStayDisjointIff(cfg, s, outputs);
  }

  /** Without a split the hull is one output, so a file that meets it is straddled. */
  lemma UnsplitHullStraddles(cfg: Config, s: State, g: ParquetFile)
    requires ObjectsOk(cfg, s) && JobOk(s) && s.job.Running? && s.job.files != [] && s.job.times == []
    requires MeetsHull(s.job.files, g)
    ensures Straddled(s, s.job.files, s.job.times, g)
  {
    var f, c, e, d := RowsAtBounds(s, s.job.files);
    assert InStream([], 0, c.time) && InStream([], 0, d.time);
    assert SameStream(s.job.times, c.time, d.time);
    assert Straddles(s, s.job.files, s.job.times, g, f, e, c, d);
  }

  /** For a plan that does not split, the files' recorded ranges decide: level 1 ranges stay disjoint if and only
      if no level 1 file left out meets the hull of the selected files. */
  lemma UnsplitRangesStayDisjointIff(cfg: Config, s: State, outputs: seq<ObjectId>)
    requires ObjectsOk(cfg, s) && DataOk(s) && CanCommit(s, outputs) && OutputsTimely(cfg, s) && RangesDisjoint(s)
    requires s.job.times == []
    ensures RangesDisjoint(Committed(s, outputs)) <==>
            forall g :: IsLive(s, g) && g.level.FileNonOverlapped? && g !in s.job.files ==> !MeetsHull(s.job.files, g)
  {
    forall g | IsLive(s, g) && g.level.FileNonOverlapped? && g !in s.job.files
      ensures Straddled(s, s.job.files, s.job.times, g) <==> MeetsHull(s.job.files, g)
    {
      if MeetsHull(s.job.files, g) {
        UnsplitHullStraddles(cfg, s, g);
      } else {
        HullIsEnough(cfg, s, g);
      }
    }
    hide ObjectsOk, DataOk, RangesDisjoint, Straddled, Committed, MeetsHull;
    RangesStayDisjointIff(cfg, s, outputs);
  }
}
