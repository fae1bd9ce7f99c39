/** `cancel()` always comes to an end: a measure bounds the steps of the dumper and its tasks. */
module StateDumpCancel {
  import opened StateDump
  import opened StateDumpSafety
  import opened Sums

  ghost predicate Cancelling(s: State) {
    s.phase.Resetting? || s.phase.Draining?
  }

  /** Steps that are not the dumper's own: other nodes, and the end of the process. */
  predicate Foreign(step: Step) {
    step.PeerHeader? || step.PeerPart? || step.Restart?
  }

  /** How many more steps a task can take once the cancel flag is up. */
  ghost function TaskWork(t: Task): nat {
    match t
    case NotStarted => 2
    case CheckObtain => 1
    case Obtaining => 2
    case CheckPut => 1
    case Putting => 2
    case Counting => 1
    case Finished(_) => 0
  }

  /** The steps left for all tasks, when `w` counts those of one. */
  ghost function TasksWork(tasks: seq<Task>, w: Task -> nat): nat {
    if tasks == [] then 0 else TasksWork(tasks[..|tasks| - 1], w) + w(tasks[|tasks| - 1])
  }

  lemma {:induction false} TasksWorkUpdate(tasks: seq<Task>, p: nat, t: Task, w: Task -> nat)
    requires p < |tasks|
    ensures TasksWork(tasks[p := t], w) == TasksWork(tasks, w) - w(tasks[p]) + w(t)
  {
    var tasks' := tasks[p := t];
    var last := |tasks| - 1;
    if p < last {
      TasksWorkUpdate(tasks[..last], p, t, w);
      assert tasks'[..last] == tasks[..last][p := t];
    } else {
      assert tasks'[..last] == tasks[..last];
    }
  }

  /** A shard: its tasks, the report, and its removal from the map. */
  ghost function ShardWork(d: ShardDump, w: Task -> nat): nat {
    TasksWork(d.tasks, w) + (if d.upload.Open? then 1 else 0) + 1
  }

  ghost function Works(shards: map<ShardId, ShardDump>, w: Task -> nat): map<ShardId, nat> {
    map h | h in shards :: ShardWork(shards[h], w)
  }

  /** The whole of `cancel()`: counters still to reset, the switch to draining, and the shards. */
  ghost function Work(s: State): nat
    requires Cancelling(s) && s.current.InProgress?
  {
    Sum(Works(s.current.dump.shards, TaskWork)) + (if s.phase.Resetting? then |s.phase.left| + 1 else 0)
  }

  lemma WorksUpdate(shards: map<ShardId, ShardDump>, h: ShardId, d: ShardDump, w: Task -> nat)
    requires h in shards
    ensures Sum(Works(shards[h := d], w)) == Sum(Works(shards, w)) - ShardWork(shards[h], w) + ShardWork(d, w)
  {
    hide Sum;
    assert Works(shards[h := d], w) == Works(shards, w)[h := ShardWork(d, w)];
    SumUpdate(Works(shards, w), h, ShardWork(d, w));
    SumAtLeast(Works(shards, w), h);
  }

  lemma WorksRemove(shards: map<ShardId, ShardDump>, h: ShardId, w: Task -> nat)
    requires h in shards
    ensures Sum(Works(shards - {h}, w)) < Sum(Works(shards, w))
  {
    hide Sum;
    assert Works(shards - {h}, w) == Works(shards, w) - {h};
    SumRemove(Works(shards, w), h);
  }

  /** A task step touches only its own shard. */
  lemma TaskStepFrame(n: PartCounts, s: State, step: Step)
    requires Enabled(s, step) && TaskStep(step)
    ensures var s' := Apply(n, s, step);
            && s'.phase == s.phase && HasShard(s', step.shard)
            && s'.current.dump.shards == s.current.dump.shards[step.shard := s'.current.dump.shards[step.shard]]
  {
  }

  /** A step that leaves its task less to do leaves less to do in all. */
  lemma TaskStepWorks(n: PartCounts, s: State, step: Step, w: Task -> nat)
    requires Enabled(s, step) && TaskStep(step)
    requires !step.Report? ==>
               var s' := Apply(n, s, step);
               w(s'.current.dump.shards[step.shard].tasks[step.part]) < w(TaskOf(s, step.shard, step.part))
    ensures Sum(Works(Apply(n, s, step).current.dump.shards, w)) < Sum(Works(s.current.dump.shards, w))
  {
    hide Sum;
    var s' := Apply(n, s, step);
    TaskStepFrame(n, s, step);
    var d, d' := s.current.dump.shards[step.shard], s'.current.dump.shards[step.shard];
    if !step.Report? {
      var t := d'.tasks[step.part];
      TasksWorkUpdate(d.tasks, step.part, t, w);
      assert d'.tasks == d.tasks[step.part := t] && d'.upload == d.upload;
    }
    WorksUpdate(s.current.dump.shards, step.shard, d', w);
  }

  lemma CancelFlagged(n: PartCounts, s: State)
    requires Inv(n, s) && Cancelling(s)
    ensures s.current.InProgress? && s.current.dump.canceled
  {
  }

  /** Every step of the dumper itself brings `cancel()` closer to its end, other nodes' steps do not delay it. */
  lemma CancelAdvances(n: PartCounts, s: State, step: Step)
    requires Inv(n, s) && Cancelling(s) && Enabled(s, step) && !step.Restart?
    ensures var s' := Apply(n, s, step);
            Cancelling(s') ==> s'.current.InProgress? && Work(s') <= Work(s) && (!Foreign(step) ==> Work(s') < Work(s))
  {
    hide Sum, Inv;
    CancelFlagged(n, s);
    if TaskStep(step) {
      CancelledTask(n, s, step);
    } else {
      MainAdvances(n, s, step);
    }
  }

  /** With the cancel flag up every task step leaves less to do. */
  lemma CancelledTask(n: PartCounts, s: State, step: Step)
    requires Enabled(s, step) && TaskStep(step) && s.current.dump.canceled && Cancelling(s)
    ensures var s' := Apply(n, s, step); Cancelling(s') && s'.current.InProgress? && Work(s') < Work(s)
  {
    hide Sum;
    TaskStepFrame(n, s, step);
    TaskStepWorks(n, s, step, TaskWork);
  }

  lemma MainAdvances(n: PartCounts, s: State, step: Step)
    requires Enabled(s, step) && !TaskStep(step) && !step.Restart? && Cancelling(s) && s.current.InProgress?
    ensures var s' := Apply(n, s, step);
            Cancelling(s') ==> s'.current.InProgress? && Work(s') <= Work(s) && (!Foreign(step) ==> Work(s') < Work(s))
  {
    hide Sum;
    if step.ResetCounter? {
      WorksUpdate(s.current.dump.shards, step.shard, s.current.dump.shards[step.shard].(dumped := -1), TaskWork);
    } else if step.Drain? {
      WorksRemove(s.current.dump.shards, step.shard, TaskWork);
    }
  }

  ghost predicate CancellingThroughout(n: PartCounts, s: State, steps: seq<Step>)
    requires ValidRun(n, s, steps)
    decreases |steps|
  {
    Cancelling(s) && (steps != [] ==> !steps[0].Restart? && CancellingThroughout(n, Apply(n, s, steps[0]), steps[1..]))
  }

  ghost function OwnSteps(steps: seq<Step>): nat {
    if steps == [] then 0 else (if Foreign(steps[0]) then 0 else 1) + OwnSteps(steps[1..])
  }

  lemma {:induction false} CancelIsBounded(n: PartCounts, s: State, steps: seq<Step>)
    requires Inv(n, s) && ValidRun(n, s, steps) && CancellingThroughout(n, s, steps)
    ensures OwnSteps(steps) <= Work(s)
    decreases |steps|
  {
    if steps != [] {
      StepKeeps(n, s, steps[0]);
      CancelAdvances(n, s, steps[0]);
      CancelIsBounded(n, Apply(n, s, steps[0]), steps[1..]);
    }
  }

  /** Until it is over there is always a step to take. */
  lemma CancelNotStuck(n: PartCounts, s: State) returns (step: Step)
    requires Inv(n, s) && Cancelling(s)
    ensures Enabled(s, step) && !Foreign(step)
  {
    if s.phase.Resetting? {
      if h :| h in s.phase.left {
        step := ResetCounter(h);
      } else {
        step := CountersReset;
      }
    } else if h :| h in s.current.dump.shards {
      if s.current.dump.shards[h].upload.Sent? {
        step := Drain(h);
      } else {
        step := MovableStep(n, s, h);
      }
    } else {
      step := Drained({});
    }
  }

  /**
   * From any reachable point inside `cancel()`: there is always a step of the dumper to take, and
   * whatever is taken, in whatever order and with whatever other nodes do in between, no more than
   * `Work` of them happen before `cancel()` is over.
   */
  lemma CancelEnds(n: PartCounts, s0: State, steps: seq<Step>, more: seq<Step>) returns (next: Step)
    requires Init(s0) && ValidRun(n, s0, steps)
    requires var s := After(n, s0, steps);
             ValidRun(n, s, more) && CancellingThroughout(n, s, more)
    ensures var s := After(n, s0, steps);
            s.current.InProgress? && OwnSteps(more) <= Work(s)
    ensures Enabled(After(n, After(n, s0, steps), more), next) && !Foreign(next)
  {
    var s := After(n, s0, steps);
    RunKeeps(n, s0, steps);
    CancelIsBounded(n, s, more);
    RunKeeps(n, s, more);
    StillCancelling(n, s, more);
    next := CancelNotStuck(n, After(n, s, more));
  }

  lemma {:induction false} StillCancelling(n: PartCounts, s: State, steps: seq<Step>)
    requires ValidRun(n, s, steps) && CancellingThroughout(n, s, steps)
    ensures Cancelling(After(n, s, steps))
    decreases |steps|
  {
    if steps != [] {
      StillCancelling(n, Apply(n, s, steps[0]), steps[1..]);
    }
  }
}
