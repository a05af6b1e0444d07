/** The dedicated executor: a queue behind a sender that can be dropped, a read guard per task, and a write
    lock before shutdown is signalled. Every atomic action of spawners, job holders, the worker thread and the
    tasks is one step. */
module Executor {
  import opened Basics

  type TaskId = nat

  /** A payload runs to its end, panics, or is cancelled. */
  datatype Outcome = Finished | Panicked | Cancelled

  /** How far a task has come. The worker takes the read guard before it spawns it; the guard is dropped
      only after it is over. */
  datatype Phase = Queued | Received | Guarded | Spawned | Running | Over(outcome: Outcome) | Released(outcome: Outcome)

  datatype Job = Held | Detached | Dropped

  datatype Worker = Receiving | Holding(task: TaskId) | Waiting | Locked | Signalled

  datatype State = State(
    requests: bool,
    queue: seq<TaskId>,
    worker: Worker,
    tasks: map<TaskId, Phase>,
    jobs: map<TaskId, Job>,
    accepted: seq<TaskId>,
    received: seq<TaskId>)

  const INIT := State(true, [], Receiving, map[], map[], [], [])

  datatype Step =
    | Spawn(t: TaskId)
    | Shutdown
    | DropJob(t: TaskId)
    | Detach(t: TaskId)
    | Recv
    | TakeGuard
    | SpawnTask
    | Start(t: TaskId)
    | Finish(t: TaskId)
    | Panic(t: TaskId)
    | Cancel(t: TaskId)
    | Release(t: TaskId)
    | HangUp
    | Lock
    | Signal

  predicate HasGuard(p: Phase) {
    p.Guarded? || p.Spawned? || p.Running? || p.Over?
  }

  predicate InPhase(s: State, t: TaskId, p: Phase) {
    t in s.tasks && s.tasks[t] == p
  }

  predicate HasJob(s: State, t: TaskId, j: Job) {
    t in s.jobs && s.jobs[t] == j
  }

  predicate Enabled(s: State, step: Step) {
    match step
    case Spawn(t) => t !in s.jobs
    case Shutdown => true
    case DropJob(t) => HasJob(s, t, Held)
    case Detach(t) => HasJob(s, t, Held)
    case Recv => s.worker.Receiving? && s.queue != []
    case TakeGuard => s.worker.Holding? && InPhase(s, s.worker.task, Received)
    case SpawnTask => s.worker.Holding? && InPhase(s, s.worker.task, Guarded)
    case Start(t) => InPhase(s, t, Spawned)
    case Finish(t) => InPhase(s, t, Running)
    case Panic(t) => InPhase(s, t, Running)
    case Cancel(t) => (InPhase(s, t, Spawned) || InPhase(s, t, Running)) && HasJob(s, t, Dropped)
    case Release(t) => t in s.tasks && s.tasks[t].Over?
    case HangUp => s.worker.Receiving? && s.queue == [] && !s.requests
    case Lock => s.worker.Waiting? && forall t <- s.tasks :: !HasGuard(s.tasks[t])
    case Signal => s.worker.Locked?
  }

  function SetPhase(s: State, t: TaskId, p: Phase): State {
    s.(tasks := s.tasks[t := p])
  }

  function Apply(s: State, step: Step): State
    requires Enabled(s, step)
  {
    match step
    case Spawn(t) =>
      var s' := s.(jobs := s.jobs[t := Held]);
      if s.requests then SetPhase(s', t, Queued).(queue := s.queue + [t], accepted := s.accepted + [t]) else s'
    case Shutdown => s.(requests := false)
    case DropJob(t) => s.(jobs := s.jobs[t := Dropped])
    case Detach(t) => s.(jobs := s.jobs[t := Detached])
    case Recv =>
      var t := s.queue[0];
      SetPhase(s, t, Received).(queue := s.queue[1..], worker := Holding(t), received := s.received + [t])
    case TakeGuard => SetPhase(s, s.worker.task, Guarded)
    case SpawnTask => SetPhase(s, s.worker.task, Spawned).(worker := Receiving)
    case Start(t) => SetPhase(s, t, Running)
    case Finish(t) => SetPhase(s, t, Over(Finished))
    case Panic(t) => SetPhase(s, t, Over(Panicked))
    case Cancel(t) => SetPhase(s, t, Over(Cancelled))
    case Release(t) => SetPhase(s, t, Released(s.tasks[t].outcome))
    case HangUp => s.(worker := Waiting)
    case Lock => s.(worker := Locked)
    case Signal => s.(worker := Signalled)
  }

  predicate IsRun(run: seq<State>, steps: seq<Step>) {
    && |run| == |steps| + 1 && run[0] == INIT
    && forall i :: 0 <= i < |steps| ==> Enabled(run[i], steps[i]) && run[i + 1] == Apply(run[i], steps[i])
  }

  // ---------------------------------------------------------------------------------------------
  // The invariant
  // ---------------------------------------------------------------------------------------------

  /** Tasks are received in the order they were accepted, and none is lost. */
  ghost predicate QueueOk(s: State) {
    && NoDuplicates(s.accepted) && s.accepted == s.received + s.queue
    && (forall t :: t in s.tasks <==> t in s.accepted)
    && (forall t :: t in s.tasks ==> t in s.jobs)
    && forall t :: t in s.tasks ==> (s.tasks[t].Queued? <==> t in s.queue)
  }

  ghost predicate WorkerOk(s: State) {
    && (forall t :: t in s.tasks && (s.tasks[t].Received? || s.tasks[t].Guarded?) ==> s.worker == Holding(t))
    && (s.worker.Holding? ==> InPhase(s, s.worker.task, Received) || InPhase(s, s.worker.task, Guarded))
    && (s.worker.Waiting? || s.worker.Locked? || s.worker.Signalled? ==> !s.requests && s.queue == [])
    && (s.worker.Locked? || s.worker.Signalled? ==> forall t :: t in s.tasks ==> s.tasks[t].Released?)
  }

  /** Only a task whose job was dropped is cancelled. */
  ghost predicate CancelOk(s: State) {
    forall t :: t in s.tasks && (s.tasks[t].Over? || s.tasks[t].Released?) && s.tasks[t].outcome.Cancelled? ==>
      HasJob(s, t, Dropped)
  }

  ghost predicate Inv(s: State) {
    QueueOk(s) && WorkerOk(s) && CancelOk(s)
  }

  lemma StepKeepsCancel(s: State, step: Step)
    requires CancelOk(s) && Enabled(s, step) && QueueOk(s)
    ensures CancelOk(Apply(s, step))
  {
  }

  lemma LockKeepsWorker(s: State)
    requires QueueOk(s) && WorkerOk(s) && Enabled(s, Lock)
    ensures WorkerOk(Apply(s, Lock))
  {
    forall t | t in s.tasks ensures s.tasks[t].Released? {
      assert !HasGuard(s.tasks[t]);
    }
  }

  lemma UserStepKeepsWorker(s: State, step: Step)
    requires QueueOk(s) && WorkerOk(s) && Enabled(s, step)
    requires step.Spawn? || step.Shutdown? || step.DropJob? || step.Detach?
    ensures WorkerOk(Apply(s, step))
  {
    hide NoDuplicates;
  }

  lemma TaskStepKeepsWorker(s: State, step: Step)
    requires QueueOk(s) && WorkerOk(s) && Enabled(s, step)
    requires step.Start? || step.Finish? || step.Panic? || step.Cancel? || step.Release?
    ensures WorkerOk(Apply(s, step))
  {
    hide NoDuplicates;
  }

  lemma WorkerStepKeepsWorker(s: State, step: Step)
    requires QueueOk(s) && WorkerOk(s) && Enabled(s, step)
    requires step.Recv? || step.TakeGuard? || step.SpawnTask? || step.HangUp? || step.Signal?
    ensures WorkerOk(Apply(s, step))
  {
    hide NoDuplicates;
  }

  lemma StepKeepsWorker(s: State, step: Step)
    requires QueueOk(s) && WorkerOk(s) && Enabled(s, step)
    ensures WorkerOk(Apply(s, step))
  {
    hide Apply, Enabled, QueueOk, WorkerOk;
    if step.Lock? {
      LockKeepsWorker(s);
    } else if step.Spawn? || step.Shutdown? || step.DropJob? || step.Detach? {
      UserStepKeepsWorker(s, step);
    } else if step.Start? || step.Finish? || step.Panic? || step.Cancel? || step.Release? {
      TaskStepKeepsWorker(s, step);
    } else {
      WorkerStepKeepsWorker(s, step);
    }
  }

  lemma DistinctAppend(ts: seq<TaskId>, t: TaskId)
    requires NoDuplicates(ts) && t !in ts
    ensures NoDuplicates(ts + [t])
  {
  }

  lemma SpawnKeepsQueue(s: State, t: TaskId)
    requires QueueOk(s) && t !in s.jobs
    ensures QueueOk(Apply(s, Spawn(t)))
  {
    hide NoDuplicates;
    if s.requests {
      DistinctAppend(s.accepted, t);
      assert s.accepted + [t] == s.received + (s.queue + [t]);
    }
  }

  /** A step that only moves one task on, past the queue. */
  lemma MoveKeepsQueue(s: State, s': State, t: TaskId, p: Phase)
    requires QueueOk(s) && t in s.tasks && !s.tasks[t].Queued? && !p.Queued?
    requires s'.tasks == s.tasks[t := p] && s'.queue == s.queue && s'.jobs == s.jobs
    requires s'.accepted == s.accepted && s'.received == s.received
    ensures QueueOk(s')
  {
    hide NoDuplicates;
  }

  lemma JobStepKeepsQueue(s: State, step: Step)
    requires QueueOk(s) && Enabled(s, step)
    requires step.Shutdown? || step.DropJob? || step.Detach? || step.HangUp? || step.Lock? || step.Signal?
    ensures QueueOk(Apply(s, step))
  {
    hide NoDuplicates;
  }

  /** Which task a step moves on. */
  function Moved(s: State, step: Step): TaskId
    requires Enabled(s, step) && MovesTask(step)
  {
    if step.Recv? then s.queue[0] else if step.TakeGuard? || step.SpawnTask? then s.worker.task else step.t
  }

  predicate MovesTask(step: Step) {
    IsProgress(step) && !step.HangUp? && !step.Lock? && !step.Signal?
  }

  lemma MoveStep(s: State, step: Step)
    requires Enabled(s, step) && MovesTask(step) && !step.Recv?
    ensures var t, s' := Moved(s, step), Apply(s, step);
            && t in s.tasks && t in s'.tasks && s'.tasks == s.tasks[t := s'.tasks[t]]
            && Left(s'.tasks[t]) < Left(s.tasks[t])
            && !s.tasks[t].Queued? && !s'.tasks[t].Queued? && s'.queue == s.queue && s'.jobs == s.jobs
            && s'.accepted == s.accepted && s'.received == s.received
            && WorkerLeft(s'.worker) <= WorkerLeft(s.worker)
  {
  }

  lemma StepKeepsQueue(s: State, step: Step)
    requires QueueOk(s) && WorkerOk(s) && Enabled(s, step)
    ensures QueueOk(Apply(s, step))
  {
    if step.Spawn? {
      SpawnKeepsQueue(s, step.t);
    } else if step.Recv? {
      RecvKeepsQueue(s);
    } else if MovesTask(step) {
      MoveStep(s, step);
      hide Apply, Enabled, QueueOk;
      MoveKeepsQueue(s, Apply(s, step), Moved(s, step), Apply(s, step).tasks[Moved(s, step)]);
    } else {
      JobStepKeepsQueue(s, step);
    }
  }

  lemma RecvKeepsQueue(s: State)
    requires QueueOk(s) && s.worker.Receiving? && s.queue != []
    ensures QueueOk(Apply(s, Recv))
  {
    var t, s' := s.queue[0], Apply(s, Recv);
    assert s.received + s.queue == (s.received + [t]) + s.queue[1..];
    assert s.accepted[|s.received|] == t;
    forall k | 1 <= k < |s.queue| ensures s.queue[k] != t {
      assert s.accepted[|s.received| + k] == s.queue[k];
    }
  }

  lemma StepKeepsInv(s: State, step: Step)
    requires Inv(s) && Enabled(s, step)
    ensures Inv(Apply(s, step))
  {
    hide Apply, Enabled, QueueOk, WorkerOk, CancelOk;
    StepKeepsQueue(s, step);
    StepKeepsWorker(s, step);
    StepKeepsCancel(s, step);
  }

  lemma {:induction false} RunKeepsInv(run: seq<State>, steps: seq<Step>, i: nat)
    requires IsRun(run, steps) && i < |run|
    ensures Inv(run[i])
  {
    if i > 0 {
      RunKeepsInv(run, steps, i - 1);
      StepKeepsInv(run[i - 1], steps[i - 1]);
    }
  }

  // ---------------------------------------------------------------------------------------------
  // Safety
  // ---------------------------------------------------------------------------------------------

  /** In every state of every interleaving: once shutdown is signalled, every accepted task was received, in
      order, and is over with its guard released; it was cancelled only if its job was dropped. */
  lemma SignalledMeansDone(run: seq<State>, steps: seq<Step>, i: nat)
    requires IsRun(run, steps) && i < |run| && run[i].worker.Signalled?
    ensures var s := run[i];
            && !s.requests && s.received == s.accepted
            && forall t <- s.accepted ::
                 t in s.tasks && s.tasks[t].Released? && (s.tasks[t].outcome.Cancelled? ==> HasJob(s, t, Dropped))
  {
    RunKeepsInv(run, steps, i);
    assert run[i].received + [] == run[i].received;
  }

  /** A task whose job was detached is never cancelled. */
  lemma DetachedIsNotCancelled(run: seq<State>, steps: seq<Step>, i: nat, t: TaskId)
    requires IsRun(run, steps) && i < |run| && HasJob(run[i], t, Detached) && t in run[i].tasks
    ensures run[i].tasks[t].Over? || run[i].tasks[t].Released? ==> !run[i].tasks[t].outcome.Cancelled?
  {
    RunKeepsInv(run, steps, i);
  }

  lemma StepAfterShutdown(s: State, step: Step)
    requires Inv(s) && Enabled(s, step) && !s.requests
    ensures var s' := Apply(s, step); !s'.requests && s'.accepted == s.accepted && s'.tasks.Keys == s.tasks.Keys
    ensures s.worker.Signalled? ==> Apply(s, step).worker.Signalled? && Apply(s, step).tasks == s.tasks
  {
  }

  /** After shutdown nothing is accepted; after the signal no task changes, so none starts. */
  lemma {:induction false} NothingAfterShutdown(run: seq<State>, steps: seq<Step>, i: nat, j: nat)
    requires IsRun(run, steps) && i <= j < |run| && !run[i].requests
    ensures !run[j].requests && run[j].accepted == run[i].accepted
    ensures run[i].worker.Signalled? ==> run[j].worker.Signalled? && run[j].tasks == run[i].tasks
  {
    if i < j {
      NothingAfterShutdown(run, steps, i, j - 1);
      RunKeepsInv(run, steps, j - 1);
      StepAfterShutdown(run[j - 1], steps[j - 1]);
    }
  }

  // ---------------------------------------------------------------------------------------------
  // Joining
  // ---------------------------------------------------------------------------------------------

  /** The steps of the worker and of its tasks. */
  predicate IsProgress(step: Step) {
    !step.Spawn? && !step.Shutdown? && !step.DropJob? && !step.Detach?
  }

  function Left(p: Phase): nat {
    match p
    case Queued => 6
    case Received => 5
    case Guarded => 4
    case Spawned => 3
    case Running => 2
    case Over(_) => 1
    case Released(_) => 0
  }

  function TasksLeft(tasks: map<TaskId, Phase>, ts: seq<TaskId>): nat
    requires forall t <- ts :: t in tasks
  {
    if ts == [] then 0 else Left(tasks[ts[0]]) + TasksLeft(tasks, ts[1..])
  }

  function WorkerLeft(w: Worker): nat {
    match w
    case Receiving => 3
    case Holding(_) => 3
    case Waiting => 2
    case Locked => 1
    case Signalled => 0
  }

  /** A bound on the steps until shutdown is signalled. */
  ghost function Remaining(s: State): nat
    requires QueueOk(s)
  {
    TasksLeft(s.tasks, s.accepted) + WorkerLeft(s.worker)
  }

  lemma {:induction false} SameTasksLeft(a: map<TaskId, Phase>, b: map<TaskId, Phase>, ts: seq<TaskId>)
    requires forall t <- ts :: t in a && t in b && a[t] == b[t]
    ensures TasksLeft(a, ts) == TasksLeft(b, ts)
  {
    if ts != [] {
      SameTasksLeft(a, b, ts[1..]);
    }
  }

  lemma {:induction false} LessLeft(tasks: map<TaskId, Phase>, ts: seq<TaskId>, t: TaskId, p: Phase)
    requires (forall u <- ts :: u in tasks) && NoDuplicates(ts) && t in ts && Left(p) < Left(tasks[t])
    ensures TasksLeft(tasks[t := p], ts) < TasksLeft(tasks, ts)
  {
    assert NoDuplicates(ts[1..]);
    if ts[0] == t {
      assert t !in ts[1..];
      SameTasksLeft(tasks, tasks[t := p], ts[1..]);
    } else {
      assert t in ts[1..];
      LessLeft(tasks, ts[1..], t, p);
    }
  }

  /** Every step of the worker or of a task brings the signal closer. */
  lemma ProgressDecreases(s: State, step: Step)
    requires Inv(s) && Enabled(s, step) && IsProgress(step)
    ensures QueueOk(Apply(s, step)) && Remaining(Apply(s, step)) < Remaining(s)
  {
    StepKeepsQueue(s, step);
    var s' := Apply(s, step);
    if step.HangUp? || step.Lock? || step.Signal? {
      SameTasksLeft(s.tasks, s'.tasks, s.accepted);
    } else {
      TaskProgress(s, step);
    }
  }

  lemma TaskProgress(s: State, step: Step)
    requires Inv(s) && Enabled(s, step) && MovesTask(step) && QueueOk(Apply(s, step))
    ensures Remaining(Apply(s, step)) < Remaining(s)
  {
    var t, s' := Moved(s, step), Apply(s, step);
    if step.Recv? {
      assert t in s.tasks && s.tasks[t].Queued?;
      assert s'.tasks == s.tasks[t := Received];
    } else {
      MoveStep(s, step);
    }
    assert s'.tasks == s.tasks[t := s'.tasks[t]] && s'.accepted == s.accepted;
    hide Apply, Enabled, WorkerOk, CancelOk;
    LessLeft(s.tasks, s.accepted, t, s'.tasks[t]);
  }

  /** Steps of job holders, and a shutdown, leave the bound alone. */
  lemma OthersKeepRemaining(s: State, step: Step)
    requires Inv(s) && Enabled(s, step) && !IsProgress(step) && !s.requests
    ensures QueueOk(Apply(s, step)) && Remaining(Apply(s, step)) == Remaining(s)
  {
    StepKeepsQueue(s, step);
  }

  /** The worker never gets stuck: after shutdown, short of the signal, some step of it or of a task can happen. */
  lemma NoDeadlock(s: State) returns (step: Step)
    requires Inv(s) && !s.requests && !s.worker.Signalled?
    ensures IsProgress(step) && Enabled(s, step)
  {
    match s.worker
    case Receiving => step := if s.queue == [] then HangUp else Recv;
    case Holding(t) => step := if s.tasks[t].Received? then TakeGuard else SpawnTask;
    case Waiting =>
      if t :| t in s.tasks && HasGuard(s.tasks[t]) {
        assert s.tasks[t].Spawned? || s.tasks[t].Running? || s.tasks[t].Over?;
        step := if s.tasks[t].Spawned? then Start(t) else if s.tasks[t].Running? then Finish(t) else Release(t);
      } else {
        step := Lock;
      }
    case Locked => step := Signal;
    case Signalled =>
  }

  function ProgressSteps(steps: seq<Step>): nat {
    if steps == [] then 0 else ProgressSteps(steps[..|steps| - 1]) + if IsProgress(steps[|steps| - 1]) then 1 else 0
  }

  /** After shutdown at most `Remaining` steps of the worker and its tasks are left, whatever else happens in
      between; when they are used up, shutdown is signalled. */
  lemma {:induction false} JoinIsBounded(run: seq<State>, steps: seq<Step>, i: nat, j: nat)
    requires IsRun(run, steps) && i <= j < |run| && !run[i].requests
    ensures QueueOk(run[i]) && QueueOk(run[j]) && ProgressSteps(steps[i..j]) + Remaining(run[j]) <= Remaining(run[i])
    ensures ProgressSteps(steps[i..j]) == Remaining(run[i]) ==> run[j].worker.Signalled?
  {
    hide Inv, Enabled, Apply, QueueOk, Remaining;
    RunKeepsInv(run, steps, i);
    RunKeepsInv(run, steps, j);
    InvQueue(run[i]);
    InvQueue(run[j]);
    if i < j {
      JoinIsBounded(run, steps, i, j - 1);
      NothingAfterShutdown(run, steps, i, j - 1);
      RunKeepsInv(run, steps, j - 1);
      var s, step := run[j - 1], steps[j - 1];
      assert steps[i..j][..|steps[i..j]| - 1] == steps[i..j - 1];
      if IsProgress(step) {
        ProgressDecreases(s, step);
      } else {
        OthersKeepRemaining(s, step);
      }
    } else {
      assert steps[i..j] == [];
    }
    SignalledAtZero(run[j]);
  }

  lemma InvQueue(s: State)
    requires Inv(s)
    ensures QueueOk(s)
  {
  }

  lemma SignalledAtZero(s: State)
    requires QueueOk(s)
    ensures Remaining(s) == 0 ==> s.worker.Signalled?
  {
  }
}
