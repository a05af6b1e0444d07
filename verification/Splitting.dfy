/** Where one compaction splits its output in time. */
module Splitting {
  datatype SplitConfig = SplitConfig(
    maxDesiredFileSizeBytes: nat,
    percentageMaxFileSize: nat,
    splitPercentage: nat)
  {
    /** The assertion made when a configuration is built, and a positive desired size. */
    predicate Valid() {
      0 < splitPercentage <= 100 && maxDesiredFileSizeBytes > 0
    }
  }

  function CutoffBytes(maxDesired: nat, percentage: nat): (nat, nat) {
    ((maxDesired * percentage) / 100, (maxDesired * (100 + percentage)) / 100)
  }

  /** ceil(range * maxDesired / totalSize): the distance between two split times. */
  function Step(range: nat, totalSize: nat, maxDesired: nat): nat
    requires totalSize > 0
  {
    (range * maxDesired + totalSize - 1) / totalSize
  }

  /** from + step, from + 2 * step, ... as long as they are before `maxTime`. */
  function Steps(from: int, maxTime: int, step: nat): seq<int>
    requires step > 0
    decreases maxTime - from
  {
    if from + step < maxTime then [from + step] + Steps(from + step, maxTime, step) else []
  }

  function SplitTime(minTime: int, maxTime: int, totalSize: nat, maxDesired: nat): seq<int>
    requires maxDesired > 0 && minTime <= maxTime
  {
    if totalSize <= maxDesired || minTime == maxTime then [maxTime]
    else
      StepIsPositive(maxTime - minTime, totalSize, maxDesired);
      Steps(minTime, maxTime, Step(maxTime - minTime, totalSize, maxDesired))
  }

  lemma StepIsPositive(range: nat, totalSize: nat, maxDesired: nat)
    requires totalSize > 0 && range > 0 && maxDesired > 0
    ensures Step(range, totalSize, maxDesired) >= 1
  {
    assert range * maxDesired >= 1;
  }

  method ComputeSplitTime(minTime: int, maxTime: int, totalSize: nat, maxDesired: nat) returns (splitTimes: seq<int>)
    requires maxDesired > 0 && minTime <= maxTime
    ensures splitTimes == SplitTime(minTime, maxTime, totalSize, maxDesired)
  {
    if totalSize <= maxDesired {
      return [maxTime];
    }
    if minTime == maxTime {
      return [maxTime];
    }
    splitTimes := [];
    StepIsPositive(maxTime - minTime, totalSize, maxDesired);
    var step := Step(maxTime - minTime, totalSize, maxDesired);
    var min := minTime;
    while true
      invariant min == minTime || min < maxTime
      invariant Steps(minTime, maxTime, step) == splitTimes + Steps(min, maxTime, step)
      decreases maxTime - min
    {
      var splitTime := min + step;
      if splitTime < maxTime {
        assert Steps(min, maxTime, step) == [splitTime] + Steps(splitTime, maxTime, step);
        splitTimes := splitTimes + [splitTime];
        min := splitTime;
      } else {
        break;
      }
    }
  }

  /** The split times of one compaction; the empty sequence is the plan that does not split. */
  function PlanSplit(minTime: int, maxTime: int, totalSize: nat, cfg: SplitConfig): seq<int>
    requires minTime <= maxTime && cfg.Valid()
  {
    var (small, large) := CutoffBytes(cfg.maxDesiredFileSizeBytes, cfg.percentageMaxFileSize);
    if totalSize <= small then []
    else
      var times :=
        if small < totalSize && totalSize <= large
        then [minTime + ((maxTime - minTime) * cfg.splitPercentage) / 100]
        else SplitTime(minTime, maxTime, totalSize, cfg.maxDesiredFileSizeBytes);
      if times == [] || (|times| == 1 && times[0] == maxTime) then [] else times
  }

  // ---------------------------------------------------------------------------------------------
  // Properties of the split times
  // ---------------------------------------------------------------------------------------------

  ghost predicate StrictlyIncreasing(s: seq<int>) {
    forall i, j :: 0 <= i < j < |s| ==> s[i] < s[j]
  }

  lemma NextMultiple(k: int, step: int)
    ensures (k + 1) * step == k * step + step
  {
  }

  /** The k-th split time is k + 1 steps after the start. */
  lemma {:induction false} StepIs(from: int, maxTime: int, step: nat, k: nat)
    requires step > 0 && k < |Steps(from, maxTime, step)|
    ensures Steps(from, maxTime, step)[k] == from + (k + 1) * step
    decreases k
  {
    if k > 0 {
      StepIs(from + step, maxTime, step, k - 1);
      NextMultiple(k, step);
    }
  }

  /** One more step than there are split times would reach the end. */
  lemma {:induction false} StepsReach(from: int, maxTime: int, step: nat)
    requires step > 0
    ensures maxTime <= from + (|Steps(from, maxTime, step)| + 1) * step
    decreases maxTime - from
  {
    if from + step < maxTime {
      StepsReach(from + step, maxTime, step);
      NextMultiple(|Steps(from, maxTime, step)|, step);
    }
  }

  /** The split times lie between the start and the end. */
  lemma {:induction false} StepsInRange(from: int, maxTime: int, step: nat, t: int)
    requires step > 0 && t in Steps(from, maxTime, step)
    ensures from < t < maxTime
    decreases maxTime - from
  {
    if t != from + step {
      StepsInRange(from + step, maxTime, step, t);
    }
  }

  /** The k-th split time is k + 1 steps after the start and before the end; one more step than there are times
      would reach the end. */
  lemma StepsAre(from: int, maxTime: int, step: nat, k: nat)
    requires step > 0
    ensures var s := Steps(from, maxTime, step);
            && (k < |s| ==> s[k] == from + (k + 1) * step && s[k] < maxTime)
            && maxTime <= from + (|s| + 1) * step
  {
    hide Steps;
    var s := Steps(from, maxTime, step);
    if k < |s| {
      StepIs(from, maxTime, step, k);
      StepsInRange(from, maxTime, step, s[k]);
    }
    StepsReach(from, maxTime, step);
  }

  lemma {:induction false} StepsIncrease(from: int, maxTime: int, step: nat)
    requires step > 0
    ensures StrictlyIncreasing(Steps(from, maxTime, step))
    decreases maxTime - from
  {
    if from + step < maxTime {
      var s, t := Steps(from, maxTime, step), Steps(from + step, maxTime, step);
      StepsIncrease(from + step, maxTime, step);
      forall i, j | 0 <= i < j < |s| ensures s[i] < s[j] {
        assert s[j] == t[j - 1];
        if i == 0 {
          StepsInRange(from + step, maxTime, step, t[j - 1]);
        } else {
          assert s[i] == t[i - 1];
        }
      }
    }
  }

  lemma PercentageInRange(d: nat, p: nat)
    requires p <= 100
    ensures 0 <= (d * p) / 100 <= d
  {
    MulMono(p, 100, d);
  }

  /** Whenever a compaction splits, its split times are strictly increasing and lie in [minTime, maxTime). */
  lemma SplitTimesAreProper(minTime: int, maxTime: int, totalSize: nat, cfg: SplitConfig)
    requires minTime <= maxTime && cfg.Valid()
    ensures var times := PlanSplit(minTime, maxTime, totalSize, cfg);
            && StrictlyIncreasing(times)
            && forall t <- times :: minTime <= t < maxTime
  {
    var times := PlanSplit(minTime, maxTime, totalSize, cfg);
    var maxDesired := cfg.maxDesiredFileSizeBytes;
    var (small, large) := CutoffBytes(maxDesired, cfg.percentageMaxFileSize);
    if times != [] {
      if totalSize <= large {
        PercentageInRange(maxTime - minTime, cfg.splitPercentage);
      } else if minTime < maxTime && totalSize > maxDesired {
        StepIsPositive(maxTime - minTime, totalSize, maxDesired);
        var step := Step(maxTime - minTime, totalSize, maxDesired);
        StepsIncrease(minTime, maxTime, step);
        forall t | t in times ensures minTime <= t < maxTime {
          StepsInRange(minTime, maxTime, step, t);
        }
      }
    }
  }

  function CeilDiv(a: nat, b: nat): nat
    requires b > 0
  {
    (a + b - 1) / b
  }

  lemma CeilDivBounds(a: nat, b: nat, q: nat)
    requires b > 0 && q == CeilDiv(a, b)
    ensures q * b >= a && (q > 0 ==> (q - 1) * b < a)
  {
    assert q * b <= a + b - 1 < q * b + b;
    assert (q - 1) * b == q * b - b;
  }

  /** In the large branch no output spans more than one step, and there are at most
      ceil(totalSize / maxDesired) outputs. */
  lemma LargeSplitIsBounded(minTime: int, maxTime: int, totalSize: nat, maxDesired: nat)
    requires minTime < maxTime && totalSize > maxDesired > 0
    ensures var times := SplitTime(minTime, maxTime, totalSize, maxDesired);
            var step := Step(maxTime - minTime, totalSize, maxDesired);
            && (forall k :: 0 <= k < |times| ==>
                  times[k] - (if k == 0 then minTime else times[k - 1]) == step)
            && maxTime - (if times == [] then minTime else times[|times| - 1]) <= step
            && |times| + 1 <= CeilDiv(totalSize, maxDesired)
  {
    var d := maxTime - minTime;
    StepIsPositive(d, totalSize, maxDesired);
    var step := Step(d, totalSize, maxDesired);
    var times := Steps(minTime, maxTime, step);
    EvenlySpaced(minTime, maxTime, step);
    var q := CeilDiv(totalSize, maxDesired);
    CeilDivBounds(totalSize, maxDesired, q);
    StepCovers(d, totalSize, maxDesired, q);
    FewSteps(minTime, maxTime, step, q);
  }

  /** The outputs by total size: small data is one file; medium data is cut once, at the configured share of
      its time range, unless that is its end; large data is cut into pieces no wider than a step, at most
      ceil(totalSize / maxDesired) of them. */
  lemma PlanBySize(minTime: int, maxTime: int, totalSize: nat, cfg: SplitConfig)
    requires minTime <= maxTime && cfg.Valid()
    ensures var times := PlanSplit(minTime, maxTime, totalSize, cfg);
            var d, desired, p := maxTime - minTime, cfg.maxDesiredFileSizeBytes, cfg.percentageMaxFileSize;
            var small, large := (desired * p) / 100, (desired * (100 + p)) / 100;
            && (totalSize <= small ==> times == [])
            && (small < totalSize <= large ==>
                  var cut := (d * cfg.splitPercentage) / 100;
                  times == if cut == d then [] else [minTime + cut])
            && (large < totalSize ==>
                  && |times| + 1 <= CeilDiv(totalSize, desired)
                  && (forall k :: 0 <= k < |times| ==>
                        times[k] - (if k == 0 then minTime else times[k - 1]) == Step(d, totalSize, desired))
                  && (d > 0 ==>
                        maxTime - (if times == [] then minTime else times[|times| - 1]) <= Step(d, totalSize, desired)))
  {
    var desired, p := cfg.maxDesiredFileSizeBytes, cfg.percentageMaxFileSize;
    if (desired * (100 + p)) / 100 < totalSize {
      LargeCutoff(desired, p);
      CeilDivBounds(totalSize, desired, CeilDiv(totalSize, desired));
      if minTime < maxTime {
        LargeSplitIsBounded(minTime, maxTime, totalSize, desired);
        StepIsPositive(maxTime - minTime, totalSize, desired);
        forall t | t in SplitTime(minTime, maxTime, totalSize, desired) ensures t < maxTime {
          StepsInRange(minTime, maxTime, Step(maxTime - minTime, totalSize, desired), t);
        }
      }
    }
  }

  lemma LargeCutoff(desired: nat, p: nat)
    ensures (desired * (100 + p)) / 100 >= desired
  {
    assert desired * (100 + p) == desired * 100 + desired * p;
    MulMono(0, p, desired);
  }

  lemma EvenlySpaced(from: int, maxTime: int, step: nat)
    requires step > 0 && from < maxTime
    ensures var times := Steps(from, maxTime, step);
            && (forall k :: 0 <= k < |times| ==> times[k] - (if k == 0 then from else times[k - 1]) == step)
            && maxTime - (if times == [] then from else times[|times| - 1]) <= step
    decreases maxTime - from
  {
    if from + step < maxTime {
      EvenlySpaced(from + step, maxTime, step);
    }
  }

  /** If `q` steps cover the whole range there are fewer than `q` split times. */
  lemma FewSteps(from: int, maxTime: int, step: nat, q: nat)
    requires step > 0 && from < maxTime && q * step >= maxTime - from
    ensures |Steps(from, maxTime, step)| + 1 <= q
  {
    hide Steps;
    var n := |Steps(from, maxTime, step)|;
    assert n * step < maxTime - from by {
      if n > 0 {
        StepIs(from, maxTime, step, n - 1);
        StepsInRange(from, maxTime, step, Steps(from, maxTime, step)[n - 1]);
      }
    }
    if n >= q {
      MulMono(q, n, step);
    }
  }

  lemma StepCovers(d: nat, totalSize: nat, maxDesired: nat, q: nat)
    requires totalSize > 0 && q * maxDesired >= totalSize
    ensures q * Step(d, totalSize, maxDesired) >= d
  {
    var step := Step(d, totalSize, maxDesired);
    CeilDivBounds(d * maxDesired, totalSize, step);
    calc {
      (q * step) * totalSize;
      q * (step * totalSize);
    >= { MulMono(d * maxDesired, step * totalSize, q); }
      q * (d * maxDesired);
      d * (q * maxDesired);
    >= { MulMono(totalSize, q * maxDesired, d); }
      d * totalSize;
    }
    MulCancel(d, q * step, totalSize);
  }

  lemma MulCancel(a: int, b: int, k: int)
    requires k > 0 && a * k <= b * k
    ensures a <= b
  {
  }

  lemma MulMono(a: int, b: int, k: nat)
    requires a <= b
    ensures k * a <= k * b && a * k <= b * k
  {
  }
}
