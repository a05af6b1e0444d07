/** Paths through the protocol: steps taken one after the other from any state. */
module Runs {
  import opened ParquetFiles
  import opened Protocol

  ghost predicate Takes(cfg: Config, s: State, step: Step, s': State) {
    Enabled(cfg, s, step) && Apply(cfg, s, step) == s' && Timely(cfg, s, step)
  }

  /** `run` is passed through when `steps` are taken, each in time. */
  ghost predicate TimelyPath(cfg: Config, run: seq<State>, steps: seq<Step>) {
    |run| == |steps| + 1 && forall i :: 0 <= i < |steps| ==> Takes(cfg, run[i], steps[i], run[i + 1])
  }

  lemma NoSteps(cfg: Config, s: State)
    ensures TimelyPath(cfg, [s], [])
  {
  }

  /** One more step at the end. */
  lemma Then(cfg: Config, run: seq<State>, steps: seq<Step>, step: Step, s': State)
    returns (run': seq<State>, steps': seq<Step>)
    requires TimelyPath(cfg, run, steps) && Takes(cfg, run[|run| - 1], step, s')
    ensures run' == run + [s'] && steps' == steps + [step]
    ensures TimelyPath(cfg, run', steps') && run'[|run'| - 1] == s'
  {
    hide Takes;
    run', steps' := run + [s'], steps + [step];
    forall i | 0 <= i < |steps'| ensures Takes(cfg, run'[i], steps'[i], run'[i + 1]) {
      if i < |steps| {
        assert run'[i] == run[i] && run'[i + 1] == run[i + 1] && steps'[i] == steps[i];
      }
    }
  }

  /** A timely run of the protocol is a timely path from an initial state. */
  lemma PathIsRun(cfg: Config, run: seq<State>, steps: seq<Step>)
    requires |run| == |steps| + 1
    ensures IsRun(cfg, run, steps) && AllTimely(cfg, run, steps) <==> TimelyPath(cfg, run, steps) && Init(cfg, run[0])
  {
    hide Enabled, Apply, Timely, Init;
    if IsRun(cfg, run, steps) && AllTimely(cfg, run, steps) {
      forall i | 0 <= i < |steps| ensures Takes(cfg, run[i], steps[i], run[i + 1]) {
        assert Timely(cfg, run[i], steps[i]);
      }
    }
    if TimelyPath(cfg, run, steps) && Init(cfg, run[0]) {
      forall i | 0 <= i < |steps|
        ensures Enabled(cfg, run[i], steps[i]) && run[i + 1] == Apply(cfg, run[i], steps[i])
                && Timely(cfg, run[i], steps[i])
      {
        assert Takes(cfg, run[i], steps[i], run[i + 1]);
      }
    }
  }

  /** Rows for runs that are written out. */
  function At(t: Timestamp): Cell {
    Cell(map[], t, "f")
  }

  function Row(t: Timestamp): Rows {
    map[At(t) := "1"]
  }
}
