/** Which files one compaction takes: the greedy filters over the files of a partition. */
module Filtering {
  import opened Basics
  import opened ParquetFiles

  // ---------------------------------------------------------------------------------------------
  // Looking up the files of a partition
  // ---------------------------------------------------------------------------------------------

  function OfLevel(files: seq<ParquetFile>, level: CompactionLevel): (r: seq<ParquetFile>)
    ensures forall f :: f in r <==> f in files && f.level == level
  {
    if files == [] then []
    else (if files[0].level == level then [files[0]] else []) + OfLevel(files[1..], level)
  }

  lemma {:induction false} OfLevelAppend(files: seq<ParquetFile>, f: ParquetFile, level: CompactionLevel)
    ensures OfLevel(files + [f], level) == OfLevel(files, level) + if f.level == level then [f] else []
  {
    if files == [] {
      assert files + [f] == [f] && [f][1..] == [];
    } else {
      assert (files + [f])[0] == files[0] && (files + [f])[1..] == files[1..] + [f];
      OfLevelAppend(files[1..], f, level);
    }
  }

  /** Places `f` after every file whose sequence number is not larger: a stable insertion. */
  function InsertBySequence(fs: seq<ParquetFile>, f: ParquetFile): seq<ParquetFile> {
    if fs == [] || fs[|fs| - 1].maxSequenceNumber <= f.maxSequenceNumber then fs + [f]
    else InsertBySequence(fs[..|fs| - 1], f) + [fs[|fs| - 1]]
  }

  lemma {:induction false} InsertKeepsFiles(fs: seq<ParquetFile>, f: ParquetFile)
    ensures multiset(InsertBySequence(fs, f)) == multiset(fs) + multiset{f}
  {
    if fs != [] {
      assert fs == fs[..|fs| - 1] + [fs[|fs| - 1]];
      InsertKeepsFiles(fs[..|fs| - 1], f);
    }
  }

  lemma {:induction false} InsertKeepsSorted(fs: seq<ParquetFile>, f: ParquetFile)
    requires SortedBySequence(fs)
    ensures SortedBySequence(InsertBySequence(fs, f))
  {
    if !(fs == [] || fs[|fs| - 1].maxSequenceNumber <= f.maxSequenceNumber) {
      var init := fs[..|fs| - 1];
      InsertKeepsSorted(init, f);
      InsertKeepsFiles(init, f);
      forall g | g in InsertBySequence(init, f) ensures g.maxSequenceNumber <= fs[|fs| - 1].maxSequenceNumber {
        assert g in multiset(InsertBySequence(init, f));
        assert g in init || g == f;
      }
    }
  }

  method SortBySequence(files: seq<ParquetFile>) returns (sorted: seq<ParquetFile>)
    ensures SortedBySequence(sorted) && multiset(sorted) == multiset(files)
  {
    hide SortedBySequence, InsertBySequence;
    sorted := [];
    assert SortedBySequence(sorted) by { NothingIsSorted(); }
    for i := 0 to |files|
      invariant SortedBySequence(sorted) && multiset(sorted) == multiset(files[..i])
    {
      assert files[..i + 1] == files[..i] + [files[i]];
      InsertKeepsFiles(sorted, files[i]);
      InsertKeepsSorted(sorted, files[i]);
      sorted := InsertBySequence(sorted, files[i]);
    }
    assert files[..|files|] == files;
  }

  lemma NothingIsSorted()
    ensures SortedBySequence([])
  {
  }

  /** Splits the listed files by level and sorts level 0 by max sequence number. */
  method ForPartition(files: seq<ParquetFile>) returns (level0: seq<ParquetFile>, level1: seq<ParquetFile>)
    ensures level1 == OfLevel(files, FileNonOverlapped)
    ensures SortedBySequence(level0) && multiset(level0) == multiset(OfLevel(files, Initial))
  {
    hide SortedBySequence;
    level0, level1 := [], [];
    for i := 0 to |files|
      invariant level0 == OfLevel(files[..i], Initial)
      invariant level1 == OfLevel(files[..i], FileNonOverlapped)
    {
      hide OfLevel;
      assert files[..i + 1] == files[..i] + [files[i]];
      OfLevelAppend(files[..i], files[i], Initial);
      OfLevelAppend(files[..i], files[i], FileNonOverlapped);
      match files[i].level
      case Initial => level0 := level0 + [files[i]];
      case FileNonOverlapped => level1 := level1 + [files[i]];
    }
    assert files[..|files|] == files;
    level0 := SortBySequence(level0);
  }

  // ---------------------------------------------------------------------------------------------
  // The greedy filters
  // ---------------------------------------------------------------------------------------------

  /** Splits `fs` into the files that overlap `f` and the ones that do not, keeping their order. */
  function Partition(fs: seq<ParquetFile>, f: ParquetFile): (seq<ParquetFile>, seq<ParquetFile>) {
    if fs == [] then ([], [])
    else
      var (overlaps, rest) := Partition(fs[1..], f);
      if OverlapsInTime(fs[0], f) then ([fs[0]] + overlaps, rest) else (overlaps, [fs[0]] + rest)
  }

  lemma {:induction false} PartitionSplits(fs: seq<ParquetFile>, f: ParquetFile)
    ensures multiset(Partition(fs, f).0) + multiset(Partition(fs, f).1) == multiset(fs)
    ensures forall g :: g in Partition(fs, f).0 ==> OverlapsInTime(g, f)
    ensures forall g :: g in Partition(fs, f).1 ==> !OverlapsInTime(g, f)
  {
    if fs != [] {
      assert fs == [fs[0]] + fs[1..];
      PartitionSplits(fs[1..], f);
    }
  }

  /** Level 1 files taken, and level 1 files left, once the first `n` level 0 files are taken. */
  function Take(level0: seq<ParquetFile>, level1: seq<ParquetFile>, n: nat): (seq<ParquetFile>, seq<ParquetFile>)
    requires n <= |level0|
  {
    if n == 0 then ([], level1)
    else
      var (taken, left) := Take(level0, level1, n - 1);
      var (overlaps, rest) := Partition(left, level0[n - 1]);
      (taken + overlaps, rest)
  }

  function TotalBytes(fs: seq<ParquetFile>): nat {
    if fs == [] then 0 else fs[0].fileSizeBytes + TotalBytes(fs[1..])
  }

  lemma TotalBytesAppend(a: seq<ParquetFile>, b: seq<ParquetFile>)
    ensures TotalBytes(a + b) == TotalBytes(a) + TotalBytes(b)
  {
    if a == [] {
      assert a + b == b;
    } else {
      assert (a + b)[1..] == a[1..] + b;
      TotalBytesAppend(a[1..], b);
    }
  }

  /** Number of files, and their bytes, when the first `n` level 0 files are taken. */
  function Count(level0: seq<ParquetFile>, level1: seq<ParquetFile>, n: nat): nat
    requires n <= |level0|
  {
    n + |Take(level0, level1, n).0|
  }

  function Bytes(level0: seq<ParquetFile>, level1: seq<ParquetFile>, n: nat): nat
    requires n <= |level0|
  {
    TotalBytes(level0[..n]) + TotalBytes(Take(level0, level1, n).0)
  }

  /** Does the filter stop once exactly `n` level 0 files are taken? A threshold of None is the cold
      filter, which has no limit on the number of files. */
  predicate StopsAt(level0: seq<ParquetFile>, level1: seq<ParquetFile>, maxBytes: nat, threshold: Option<nat>, n: nat)
    requires n <= |level0|
  {
    || n == |level0|
    || (threshold.Some? && Count(level0, level1, n) >= threshold.value)
    || (n > 0 && Bytes(level0, level1, n) >= maxBytes)
  }

  /** The number of level 0 files taken: the first count at which the filter stops. */
  function Cut(level0: seq<ParquetFile>, level1: seq<ParquetFile>, maxBytes: nat, threshold: Option<nat>,
               from: nat := 0): (n: nat)
    requires from <= |level0|
    ensures from <= n <= |level0|
    ensures StopsAt(level0, level1, maxBytes, threshold, n)
    ensures forall m :: from <= m < n ==> !StopsAt(level0, level1, maxBytes, threshold, m)
    decreases |level0| - from
  {
    if StopsAt(level0, level1, maxBytes, threshold, from) then from
    else Cut(level0, level1, maxBytes, threshold, from + 1)
  }

  function Filter(level0: seq<ParquetFile>, level1: seq<ParquetFile>, maxBytes: nat,
                  threshold: Option<nat>): seq<ParquetFile> {
    var n := Cut(level0, level1, maxBytes, threshold);
    Take(level0, level1, n).0 + level0[..n]
  }

  method FilterHotParquetFiles(level0: seq<ParquetFile>, level1: seq<ParquetFile>, maxBytes: nat,
                               inputFileCountThreshold: nat)
    returns (filesToReturn: seq<ParquetFile>)
    ensures filesToReturn == Filter(level0, level1, maxBytes, Some(inputFileCountThreshold))
  {
    hide Partition;
    if |level0| == 0 {
      return [];
    }
    var remainingLevel1 := level1;
    filesToReturn := [];
    var level0ToReturn: seq<ParquetFile> := [];
    var totalLevel0Bytes, totalLevel1Bytes := 0, 0;
    var i := 0;
    while i < |level0|
      invariant i <= |level0| && level0ToReturn == level0[..i]
      invariant (filesToReturn, remainingLevel1) == Take(level0, level1, i)
      invariant totalLevel0Bytes == TotalBytes(level0[..i]) && totalLevel1Bytes == TotalBytes(filesToReturn)
      invariant i < |level0| ==> (i > 0 ==> totalLevel0Bytes + totalLevel1Bytes < maxBytes)
      invariant forall m :: 0 <= m < i ==> !StopsAt(level0, level1, maxBytes, Some(inputFileCountThreshold), m)
    {
      if |level0ToReturn| + |filesToReturn| >= inputFileCountThreshold {
        break;
      }
      assert !StopsAt(level0, level1, maxBytes, Some(inputFileCountThreshold), i);
      assert level0[..i + 1] == level0[..i] + [level0[i]];
      TotalBytesAppend(level0[..i], [level0[i]]);
      totalLevel0Bytes := totalLevel0Bytes + level0[i].fileSizeBytes;
      var (overlaps, nonOverlaps) := Partition(remainingLevel1, level0[i]);
      TotalBytesAppend(filesToReturn, overlaps);
      totalLevel1Bytes := totalLevel1Bytes + TotalBytes(overlaps);
      filesToReturn := filesToReturn + overlaps;
      remainingLevel1 := nonOverlaps;
      level0ToReturn := level0ToReturn + [level0[i]];
      i := i + 1;
      if totalLevel0Bytes + totalLevel1Bytes >= maxBytes {
        break;
      }
    }
    assert StopsAt(level0, level1, maxBytes, Some(inputFileCountThreshold), i);
    assert Cut(level0, level1, maxBytes, Some(inputFileCountThreshold)) == i;
    filesToReturn := filesToReturn + level0ToReturn;
  }

  method FilterColdParquetFiles(level0: seq<ParquetFile>, level1: seq<ParquetFile>, maxBytes: nat)
    returns (filesToReturn: seq<ParquetFile>)
    ensures filesToReturn == Filter(level0, level1, maxBytes, None)
  {
    hide Partition;
    if |level0| == 0 {
      return [];
    }
    var remainingLevel1 := level1;
    filesToReturn := [];
    var level0ToReturn: seq<ParquetFile> := [];
    var totalLevel0Bytes, totalLevel1Bytes := 0, 0;
    var i := 0;
    while i < |level0|
      invariant i <= |level0| && level0ToReturn == level0[..i]
      invariant (filesToReturn, remainingLevel1) == Take(level0, level1, i)
      invariant totalLevel0Bytes == TotalBytes(level0[..i]) && totalLevel1Bytes == TotalBytes(filesToReturn)
      invariant i < |level0| ==> (i > 0 ==> totalLevel0Bytes + totalLevel1Bytes < maxBytes)
      invariant forall m :: 0 <= m < i ==> !StopsAt(level0, level1, maxBytes, None, m)
    {
      assert !StopsAt(level0, level1, maxBytes, None, i);
      assert level0[..i + 1] == level0[..i] + [level0[i]];
      TotalBytesAppend(level0[..i], [level0[i]]);
      totalLevel0Bytes := totalLevel0Bytes + level0[i].fileSizeBytes;
      var (overlaps, nonOverlaps) := Partition(remainingLevel1, level0[i]);
      TotalBytesAppend(filesToReturn, overlaps);
      totalLevel1Bytes := totalLevel1Bytes + TotalBytes(overlaps);
      filesToReturn := filesToReturn + overlaps;
      remainingLevel1 := nonOverlaps;
      level0ToReturn := level0ToReturn + [level0[i]];
      i := i + 1;
      if totalLevel0Bytes + totalLevel1Bytes >= maxBytes {
        break;
      }
    }
    assert StopsAt(level0, level1, maxBytes, None, i);
    assert Cut(level0, level1, maxBytes, None) == i;
    filesToReturn := filesToReturn + level0ToReturn;
  }

  // ---------------------------------------------------------------------------------------------
  // What the filters select
  // ---------------------------------------------------------------------------------------------

  /** Every listed level 1 file is either taken or left, as often as it was listed. */
  lemma {:induction false} TakeSplits(level0: seq<ParquetFile>, level1: seq<ParquetFile>, n: nat)
    requires n <= |level0|
    ensures multiset(Take(level0, level1, n).0) + multiset(Take(level0, level1, n).1) == multiset(level1)
  {
    if n > 0 {
      TakeSplits(level0, level1, n - 1);
      PartitionSplits(Take(level0, level1, n - 1).1, level0[n - 1]);
    }
  }

  /** A level 1 file is taken exactly when it overlaps one of the first `n` level 0 files. */
  lemma {:induction false} TakenIffOverlaps(level0: seq<ParquetFile>, level1: seq<ParquetFile>, n: nat, g: ParquetFile)
    requires n <= |level0| && g in level1
    ensures g in Take(level0, level1, n).0 <==> exists i :: 0 <= i < n && OverlapsInTime(g, level0[i])
    ensures g in Take(level0, level1, n).0 <==> g !in Take(level0, level1, n).1
  {
    hide OverlapsInTime, Partition;
    if n > 0 {
      var left := Take(level0, level1, n - 1).1;
      var (overlaps, rest) := Partition(left, level0[n - 1]);
      TakenIffOverlaps(level0, level1, n - 1, g);
      PartitionSplits(left, level0[n - 1]);
      assert g in left <==> g in overlaps || g in rest by {
        assert g in multiset(left) <==> g in multiset(overlaps) || g in multiset(rest);
      }
    }
  }

  predicate OverlapsSome(g: ParquetFile, files: seq<ParquetFile>) {
    exists i :: 0 <= i < |files| && OverlapsInTime(g, files[i])
  }

  /** Main result on both filters: the answer is the level 1 files that overlap some selected level 0
      file, each as often as it is listed, followed by a prefix of the level 0 list. */
  lemma FilterIsExact(level0: seq<ParquetFile>, level1: seq<ParquetFile>, maxBytes: nat, threshold: Option<nat>)
    returns (n: nat, overlapping: seq<ParquetFile>)
    ensures n == Cut(level0, level1, maxBytes, threshold)
    ensures Filter(level0, level1, maxBytes, threshold) == overlapping + level0[..n]
    ensures forall g :: multiset(overlapping)[g] == if OverlapsSome(g, level0[..n]) then multiset(level1)[g] else 0
  {
    n := Cut(level0, level1, maxBytes, threshold);
    overlapping := Take(level0, level1, n).0;
    TakeSplits(level0, level1, n);
    forall g ensures multiset(overlapping)[g] == if OverlapsSome(g, level0[..n]) then multiset(level1)[g] else 0 {
      TakenAsListed(level0, level1, n, g);
    }
  }

  lemma TakenAsListed(level0: seq<ParquetFile>, level1: seq<ParquetFile>, n: nat, g: ParquetFile)
    requires n <= |level0|
    ensures multiset(Take(level0, level1, n).0)[g] == if OverlapsSome(g, level0[..n]) then multiset(level1)[g] else 0
  {
    hide Take, OverlapsInTime;
    var (taken, left) := Take(level0, level1, n);
    TakeSplits(level0, level1, n);
    assert multiset(taken)[g] + multiset(left)[g] == multiset(level1)[g];
    if g in multiset(level1) {
      TakenIffOverlaps(level0, level1, n, g);
      assert g in taken <==> g in multiset(taken);
      assert g in left <==> g in multiset(left);
      assert forall i :: 0 <= i < n ==> level0[..n][i] == level0[i];
    }
  }

  /** Before the last level 0 file was taken, neither limit had been reached; with a count threshold of
      at least 1 (or none) and some level 0 file, at least one is taken. */
  lemma LimitsNotReachedBeforeLast(level0: seq<ParquetFile>, level1: seq<ParquetFile>, maxBytes: nat,
                                   threshold: Option<nat>)
    ensures var n := Cut(level0, level1, maxBytes, threshold);
            && (n > 0 && threshold.Some? ==> Count(level0, level1, n - 1) < threshold.value)
            && (n > 1 ==> Bytes(level0, level1, n - 1) < maxBytes)
            && (n == 0 <==> level0 == [] || threshold == Some(0))
  {
    var n := Cut(level0, level1, maxBytes, threshold);
    if n > 0 {
      assert !StopsAt(level0, level1, maxBytes, threshold, n - 1);
      assert !StopsAt(level0, level1, maxBytes, threshold, 0);
    }
    assert StopsAt(level0, level1, maxBytes, threshold, n);
  }

  /** Raising a limit (None is no limit) only extends the selected prefix. */
  lemma LargerLimitsExtend(level0: seq<ParquetFile>, level1: seq<ParquetFile>,
                           maxBytes: nat, threshold: Option<nat>, maxBytes': nat, threshold': Option<nat>)
    requires maxBytes <= maxBytes'
    requires threshold'.None? || (threshold.Some? && threshold.value <= threshold'.value)
    ensures Cut(level0, level1, maxBytes, threshold) <= Cut(level0, level1, maxBytes', threshold')
  {
    var n' := Cut(level0, level1, maxBytes', threshold');
    assert StopsAt(level0, level1, maxBytes', threshold', n');
    assert StopsAt(level0, level1, maxBytes, threshold, n');
  }

  /** The cold filter is the hot filter with a threshold no selection can reach. */
  lemma ColdIsHotWithoutThreshold(level0: seq<ParquetFile>, level1: seq<ParquetFile>, maxBytes: nat, threshold: nat)
    requires threshold >= |level0| + |level1|
    ensures Filter(level0, level1, maxBytes, None) == Filter(level0, level1, maxBytes, Some(threshold))
  {
    forall n: nat | n <= |level0|
      ensures StopsAt(level0, level1, maxBytes, None, n) <==> StopsAt(level0, level1, maxBytes, Some(threshold), n)
    {
      TakeSplits(level0, level1, n);
      assert |multiset(Take(level0, level1, n).0)| <= |multiset(level1)|;
    }
    LargerLimitsExtend(level0, level1, maxBytes, Some(threshold), maxBytes, None);
    var n := Cut(level0, level1, maxBytes, Some(threshold));
    assert StopsAt(level0, level1, maxBytes, Some(threshold), n);
    assert StopsAt(level0, level1, maxBytes, None, n);
  }

  /** The cold filter takes all level 0 files exactly when no shorter non-empty prefix, with the level 1
      files it pulls in, reaches the byte limit. */
  lemma ColdTakesAllIff(level0: seq<ParquetFile>, level1: seq<ParquetFile>, maxBytes: nat)
    ensures Cut(level0, level1, maxBytes, None) == |level0| <==>
            forall m :: 0 < m < |level0| ==> Bytes(level0, level1, m) < maxBytes
  {
    var n := Cut(level0, level1, maxBytes, None);
    assert StopsAt(level0, level1, maxBytes, None, n);
    forall m | 0 < m < |level0| && n == |level0| ensures Bytes(level0, level1, m) < maxBytes {
      assert !StopsAt(level0, level1, maxBytes, None, m);
    }
    if n == 0 && |level0| > 0 {
      assert false;
    }
  }
}
