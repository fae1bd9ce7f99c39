/** Whatever has happened, every epoch can still be dumped to its end. */
module StateDumpFinish {
  import opened StateDump
  import opened StateDumpSafety
  import opened StateDumpCancel
  import opened StateDumpDisk
  import opened Sums

  /** How many more steps a task needs when nothing fails. */
  ghost function StepsLeft(t: Task): nat {
    match t
    case NotStarted => 6
    case CheckObtain => 5
    case Obtaining => 4
    case CheckPut => 3
    case Putting => 2
    case Counting => 1
    case Finished(_) => 0
  }

  ghost function Remaining(s: State): nat
    requires s.current.InProgress?
  {
    Sum(Works(s.current.dump.shards, StepsLeft))
  }

  /** The main task is in its loop and a dump is under way. */
  ghost predicate Dumps(s: State) {
    s.phase.Looping? && s.current.InProgress?
  }

  /** Some step of the dumper leaves less to do, or was the last one. */
  lemma StepForward(n: PartCounts, s: State) returns (step: Step)
    requires Inv(n, s) && Dumps(s)
    ensures Enabled(s, step) && !Foreign(step)
    ensures var d, s' := s.current.dump, Apply(n, s, step);
            && s'.phase.Looping?
            && (s'.current == Done(d.epoch, d.tracked)
                || (s'.current.InProgress? && s'.current.dump.epoch == d.epoch
                    && s'.current.dump.tracked == d.tracked && Remaining(s') < Remaining(s)))
  {
    hide Sum;
    var shards := s.current.dump.shards;
    var h :| h in shards;
    if shards[h].upload.Sent? {
      step := PartsUploaded(h);
      WorksRemove(shards, h, StepsLeft);
    } else {
      step := MovableStep(n, s, h);
      TaskForward(n, s, step);
    }
  }

  lemma TaskForward(n: PartCounts, s: State, step: Step)
    requires Enabled(s, step) && TaskStep(step) && !s.current.dump.canceled
    requires (step.ObtainResult? ==> step.ok) && (step.PutResult? ==> step.ok)
    ensures var d, s' := s.current.dump, Apply(n, s, step);
            && s'.phase == s.phase && s'.current.InProgress?
            && s'.current.dump.epoch == d.epoch && s'.current.dump.tracked == d.tracked && Remaining(s') < Remaining(s)
  {
    hide Sum;
    TaskStepFrame(n, s, step);
    TaskStepWorks(n, s, step, StepsLeft);
  }

  lemma {:induction false} FinishFrom(n: PartCounts, s: State) returns (more: seq<Step>)
    requires Inv(n, s) && Dumps(s)
    ensures ValidRun(n, s, more) && OwnSteps(more) == |more|
    ensures After(n, s, more).current == Done(s.current.dump.epoch, s.current.dump.tracked)
    decreases Remaining(s)
  {
    hide Sum, Inv, Enabled, Apply;
    var step := StepForward(n, s);
    StepKeeps(n, s, step);
    var s' := Apply(n, s, step);
    var rest: seq<Step> := [];
    if s'.current.InProgress? {
      rest := FinishFrom(n, s');
    }
    more := [step] + rest;
    assert more[1..] == rest;
  }

  /**
   * From every reachable head of the loop, the dumper's own steps can finish the epoch it is
   * dumping, and then every tracked shard is completely in the external storage.
   */
  lemma DumpCanFinish(n: PartCounts, s0: State, steps: seq<Step>) returns (more: seq<Step>)
    requires Init(s0) && ValidRun(n, s0, steps) && Dumps(After(n, s0, steps))
    ensures var s := After(n, s0, steps);
            && ValidRun(n, s, more) && OwnSteps(more) == |more|
            && var end := After(n, s, more);
               && end.current == Done(s.current.dump.epoch, s.current.dump.tracked)
               && forall h :: h in end.current.tracked ==> Stored(n, end.store, h, end.current.epoch)
  {
    RunKeeps(n, s0, steps);
    var s := After(n, s0, steps);
    more := FinishFrom(n, s);
    RunKeeps(n, s, more);
  }

  // ---------------------------------------------------------------------------
  // From one phase to the next
  // ---------------------------------------------------------------------------

  /** One run after another. */
  lemma {:induction false} Then(n: PartCounts, s: State, a: seq<Step>, b: seq<Step>)
    requires ValidRun(n, s, a) && ValidRun(n, After(n, s, a), b)
    ensures ValidRun(n, s, a + b) && After(n, s, a + b) == After(n, After(n, s, a), b)
    ensures OwnSteps(a + b) == OwnSteps(a) + OwnSteps(b)
    decreases |a|
  {
    hide Enabled, Apply;
    if a == [] {
      assert a + b == b;
    } else {
      Then(n, Apply(n, s, a[0]), a[1..], b);
      assert (a + b)[1..] == a[1..] + b;
    }
  }

  lemma Single(n: PartCounts, s: State, step: Step)
    requires Enabled(s, step)
    ensures ValidRun(n, s, [step]) && After(n, s, [step]) == Apply(n, s, step)
    ensures OwnSteps([step]) == if Foreign(step) then 0 else 1
  {
    hide Enabled, Apply;
    var t := Apply(n, s, step);
    assert [step][1..] == [];
    assert ValidRun(n, t, []) && After(n, t, []) == t;
  }

  /** A run of own steps that takes `s` to `end`. */
  ghost predicate Leads(n: PartCounts, s: State, more: seq<Step>, end: State) {
    ValidRun(n, s, more) && After(n, s, more) == end && OwnSteps(more) == |more|
  }

  lemma LeadsOn(n: PartCounts, s: State, a: seq<Step>, t: State, b: seq<Step>, end: State)
    requires Leads(n, s, a, t) && Leads(n, t, b, end)
    ensures Leads(n, s, a + b, end)
  {
    hide Enabled, Apply, After, ValidRun;
    Then(n, s, a, b);
  }

  lemma LeadsBy(n: PartCounts, s: State, step: Step)
    requires Enabled(s, step) && !Foreign(step)
    ensures Leads(n, s, [step], Apply(n, s, step))
  {
    hide Enabled, Apply, After, ValidRun;
    Single(n, s, step);
  }

  lemma LeadsNowhere(n: PartCounts, s: State)
    ensures Leads(n, s, [], s)
  {
  }

  // ---------------------------------------------------------------------------
  // Cancelling
  // ---------------------------------------------------------------------------

  ghost predicate Cancels(s: State, epoch: EpochId) {
    Cancelling(s) && s.phase.reason == NewEpoch(epoch)
  }

  ghost predicate Emptied(s: State) {
    s.phase.Draining? && s.current.InProgress? && s.current.dump.shards == map[]
  }

  /** Until the map is empty a cancellation can go on, for the reason it was begun. */
  lemma CancelForward(n: PartCounts, s: State) returns (step: Step)
    requires Inv(n, s) && Cancelling(s) && !Emptied(s)
    ensures Enabled(s, step) && !Foreign(step)
    ensures Cancelling(Apply(n, s, step)) && Apply(n, s, step).phase.reason == s.phase.reason
  {
    if s.phase.Resetting? {
      if h :| h in s.phase.left {
        step := ResetCounter(h);
      } else {
        step := CountersReset;
      }
    } else {
      var h :| h in s.current.dump.shards;
      if s.current.dump.shards[h].upload.Sent? {
        step := Drain(h);
      } else {
        step := MovableStep(n, s, h);
        TaskStepFrame(n, s, step);
      }
    }
  }

  lemma {:induction false} FinishCancel(n: PartCounts, s: State, epoch: EpochId) returns (more: seq<Step>, end: State)
    requires Inv(n, s) && Cancels(s, epoch) && s.current.InProgress?
    ensures Leads(n, s, more, end) && Inv(n, end) && Cancels(end, epoch) && Emptied(end)
    decreases Work(s)
  {
    hide Inv, Enabled, Apply, Leads, Sum;
    if Emptied(s) {
      more, end := [], s;
      LeadsNowhere(n, s);
    } else {
      var step := CancelForward(n, s);
      StepKeeps(n, s, step);
      CancelAdvances(n, s, step);
      LeadsBy(n, s, step);
      var rest;
      rest, end := FinishCancel(n, Apply(n, s, step), epoch);
      LeadsOn(n, s, [step], Apply(n, s, step), rest, end);
      more := [step] + rest;
    }
  }

  // ---------------------------------------------------------------------------
  // Preparing
  // ---------------------------------------------------------------------------

  /** A dump of these shards of this epoch is being prepared. */
  ghost predicate Prepares(s: State, epoch: EpochId, tracked: set<ShardId>) {
    s.phase.UploadingHeaders? && s.phase.plan.epoch == epoch && s.phase.plan.tracked == tracked
  }

  lemma {:induction false} FinishHeaders(n: PartCounts, s: State, epoch: EpochId, tracked: set<ShardId>)
    returns (more: seq<Step>, end: State)
    requires Inv(n, s) && Prepares(s, epoch, tracked)
    ensures Leads(n, s, more, end) && Inv(n, end) && Prepares(end, epoch, tracked) && end.phase.headers == {}
    decreases |s.phase.headers|
  {
    hide Inv, Leads;
    if s.phase.headers == {} {
      more, end := [], s;
      LeadsNowhere(n, s);
    } else {
      var h :| h in s.phase.headers;
      var step, t := PutHeader(h), Apply(n, s, PutHeader(h));
      assert t.phase.headers == s.phase.headers - {h};
      StepKeeps(n, s, step);
      LeadsBy(n, s, step);
      var rest;
      rest, end := FinishHeaders(n, t, epoch, tracked);
      LeadsOn(n, s, [step], t, rest, end);
      more := [step] + rest;
    }
  }

  ghost predicate Records(s: State, epoch: EpochId, tracked: set<ShardId>) {
    s.phase.Recording? && s.current.InProgress? && s.current.dump.epoch == epoch && s.current.dump.tracked == tracked
  }

  lemma {:induction false} FinishRecording(n: PartCounts, s: State, epoch: EpochId, tracked: set<ShardId>)
    returns (more: seq<Step>, end: State)
    requires Inv(n, s) && Records(s, epoch, tracked)
    ensures Leads(n, s, more, end) && Inv(n, end) && Dumps(end)
    ensures end.current.dump.epoch == epoch && end.current.dump.tracked == tracked
    decreases |s.phase.left|
  {
    hide Inv, Leads;
    if s.phase.left == {} {
      var t := Apply(n, s, EnterLoop);
      StepKeeps(n, s, EnterLoop);
      LeadsBy(n, s, EnterLoop);
      more, end := [EnterLoop], t;
    } else {
      var h :| h in s.phase.left;
      var step, t := RecordProgress(h), Apply(n, s, RecordProgress(h));
      assert t.phase.left == s.phase.left - {h};
      StepKeeps(n, s, step);
      LeadsBy(n, s, step);
      var rest;
      rest, end := FinishRecording(n, t, epoch, tracked);
      LeadsOn(n, s, [step], t, rest, end);
      more := [step] + rest;
    }
  }

  lemma FinishPrepared(n: PartCounts, s: State, epoch: EpochId, tracked: set<ShardId>)
    returns (more: seq<Step>, end: State)
    requires Inv(n, s) && Prepares(s, epoch, tracked)
    ensures Leads(n, s, more, end) && end.current == Done(epoch, tracked)
  {
    hide Inv, Leads;
    var a, s1 := FinishHeaders(n, s, epoch, tracked);
    var s2 := Apply(n, s1, StartUploads);
    StepKeeps(n, s1, StartUploads);
    LeadsBy(n, s1, StartUploads);
    assert Records(s2, epoch, tracked);
    var b, s3 := FinishRecording(n, s2, epoch, tracked);
    var c := FinishFrom(n, s3);
    end := After(n, s3, c);
    Finished3(n, s3, c, end);
    LeadsOn(n, s, a, s1, [StartUploads], s2);
    LeadsOn(n, s, a + [StartUploads], s2, b, s3);
    LeadsOn(n, s, a + [StartUploads] + b, s3, c, end);
    more := a + [StartUploads] + b + c;
  }

  lemma Finished3(n: PartCounts, s: State, more: seq<Step>, end: State)
    requires ValidRun(n, s, more) && OwnSteps(more) == |more| && end == After(n, s, more)
    ensures Leads(n, s, more, end)
  {
  }

  /** From the start of a new dump: at once if there is nothing to track, through all phases otherwise. */
  lemma FinishBegun(n: PartCounts, s: State, step: Step, epoch: EpochId, tracked: set<ShardId>)
    returns (more: seq<Step>, end: State)
    requires Inv(n, s) && Enabled(s, step) && !Foreign(step)
    requires Apply(n, s, step) == BeginDump(n, s, epoch, tracked)
    ensures Leads(n, s, more, end) && end.current == Done(epoch, tracked)
  {
    hide Inv, Enabled, Apply, Leads;
    var t := BeginDump(n, s, epoch, tracked);
    StepKeeps(n, s, step);
    LeadsBy(n, s, step);
    if tracked == {} {
      more, end := [step], t;
    } else {
      var rest;
      rest, end := FinishPrepared(n, t, epoch, tracked);
      LeadsOn(n, s, [step], t, rest, end);
      more := [step] + rest;
    }
  }

  // ---------------------------------------------------------------------------
  // Any epoch
  // ---------------------------------------------------------------------------

  /** The epoch that the dumper is at. */
  function EpochOf(c: CurrentDump): EpochId
    requires !c.NoDump?
  {
    if c.InProgress? then c.dump.epoch else c.epoch
  }

  lemma CancelStarts(n: PartCounts, s: State, epoch: EpochId)
    requires s.phase.Looping? && s.current.InProgress? && EpochOf(s.current) != epoch
    ensures Enabled(s, CancelForEpoch(epoch))
    ensures var t := Apply(n, s, CancelForEpoch(epoch)); Cancels(t, epoch) && t.current.InProgress?
  {
  }

  lemma DrainedBegins(n: PartCounts, s: State, epoch: EpochId, tracked: set<ShardId>)
    requires Cancels(s, epoch) && Emptied(s)
    ensures Enabled(s, Drained(tracked)) && Apply(n, s, Drained(tracked)) == BeginDump(n, s, epoch, tracked)
  {
  }

  lemma NewEpochBegins(n: PartCounts, s: State, epoch: EpochId, tracked: set<ShardId>)
    requires s.phase.Looping? && s.current.Done? && EpochOf(s.current) != epoch
    ensures Enabled(s, NewEpochDump(epoch, tracked))
    ensures Apply(n, s, NewEpochDump(epoch, tracked)) == BeginDump(n, s, epoch, tracked)
  {
  }

  lemma FinishNewEpoch(n: PartCounts, s: State, epoch: EpochId, tracked: set<ShardId>)
    returns (more: seq<Step>, end: State)
    requires Inv(n, s) && s.phase.Looping? && !s.current.NoDump? && EpochOf(s.current) != epoch
    ensures Leads(n, s, more, end) && end.current == Done(epoch, tracked)
  {
    hide Inv, Enabled, Apply, Leads, BeginDump, Cancels, Emptied;
    if s.current.Done? {
      NewEpochBegins(n, s, epoch, tracked);
      more, end := FinishBegun(n, s, NewEpochDump(epoch, tracked), epoch, tracked);
    } else {
      var cancel := CancelForEpoch(epoch);
      CancelStarts(n, s, epoch);
      var t := Apply(n, s, cancel);
      StepKeeps(n, s, cancel);
      LeadsBy(n, s, cancel);
      var a, u := FinishCancel(n, t, epoch);
      DrainedBegins(n, u, epoch, tracked);
      var b;
      b, end := FinishBegun(n, u, Drained(tracked), epoch, tracked);
      LeadsOn(n, s, [cancel], t, a, u);
      LeadsOn(n, s, [cancel] + a, u, b, end);
      more := [cancel] + a + b;
    }
  }

  /**
   * From every reachable head of the loop, any epoch that the dumper is not at can be dumped by its
   * own steps, whatever it is doing: cancelling, header uploads, bookkeeping, parts. Then everything
   * is in the external storage and the disk says so.
   */
  lemma EpochCanBeDumped(n: PartCounts, s0: State, steps: seq<Step>, epoch: EpochId, tracked: set<ShardId>)
    returns (more: seq<Step>)
    requires Init(s0) && ValidRun(n, s0, steps) && After(n, s0, steps).phase.Looping?
    requires After(n, s0, steps).current.NoDump? || EpochOf(After(n, s0, steps).current) != epoch
    ensures var s := After(n, s0, steps);
            && ValidRun(n, s, more) && OwnSteps(more) == |more|
            && var end := After(n, s, more);
               && end.current == Done(epoch, tracked)
               && forall h :: h in tracked ==>
                    Stored(n, end.store, h, epoch) && h in end.progress && end.progress[h] == AllDumped(epoch)
  {
    hide Enabled, Apply;
    var s := After(n, s0, steps);
    RunKeeps(n, s0, steps);
    LoopHead(n, s0, steps);
    RunKeepsDisk(n, s0, steps);
    var end;
    more, end := FinishNewEpoch(n, s, epoch, tracked);
    RunKeeps(n, s, more);
    RunKeepsDisk(n, s, more);
    assert forall h :: h in tracked ==> Says(end.progress, h, AllDumped(epoch));
  }

  /** The same from the start of the process, whatever the disk says. */
  lemma BootCanFinish(n: PartCounts, s0: State, steps: seq<Step>, epoch: EpochId, tracked: set<ShardId>)
    returns (more: seq<Step>)
    requires Init(s0) && ValidRun(n, s0, steps) && After(n, s0, steps).phase.Booting?
    ensures var s := After(n, s0, steps);
            && ValidRun(n, s, more) && OwnSteps(more) == |more|
            && var end := After(n, s, more);
               && end.current == Done(epoch, tracked)
               && forall h :: h in tracked ==>
                    Stored(n, end.store, h, epoch) && h in end.progress && end.progress[h] == AllDumped(epoch)
  {
    var s := After(n, s0, steps);
    RunKeeps(n, s0, steps);
    RunKeepsDisk(n, s0, steps);
    var end;
    more, end := FinishBoot(n, s, epoch, tracked);
    RunKeeps(n, s, more);
    RunKeepsDisk(n, s, more);
    assert forall h :: h in tracked ==> Says(end.progress, h, AllDumped(epoch));
  }

  lemma FinishBoot(n: PartCounts, s: State, epoch: EpochId, tracked: set<ShardId>) returns (more: seq<Step>, end: State)
    requires Inv(n, s) && s.phase.Booting?
    ensures Leads(n, s, more, end) && end.current == Done(epoch, tracked)
  {
    hide Inv, Leads;
    var boot := Boot(epoch, tracked);
    var t := Apply(n, s, boot);
    StepKeeps(n, s, boot);
    LeadsBy(n, s, boot);
    if t.current == Done(epoch, tracked) {
      more, end := [boot], t;
    } else {
      var u := Apply(n, t, HeadersChecked);
      StepKeeps(n, t, HeadersChecked);
      LeadsBy(n, t, HeadersChecked);
      var rest;
      rest, end := FinishPrepared(n, u, epoch, tracked);
      LeadsOn(n, s, [boot], t, [HeadersChecked], u);
      LeadsOn(n, s, [boot] + [HeadersChecked], u, rest, end);
      more := [boot] + [HeadersChecked] + rest;
    }
  }

  /** The epoch that the dumper is at is left alone. */
  lemma NewEpochOnly(s: State, epoch: EpochId, tracked: set<ShardId>)
    ensures (Enabled(s, NewEpochDump(epoch, tracked)) || Enabled(s, CancelForEpoch(epoch))) && !s.current.NoDump? ==>
              EpochOf(s.current) != epoch
  {
  }

  // ---------------------------------------------------------------------------
  // Stopping
  // ---------------------------------------------------------------------------

  lemma {:induction false} FinishStop(n: PartCounts, s: State) returns (more: seq<Step>, end: State)
    requires Inv(n, s) && Cancelling(s) && s.phase.reason.Shutdown? && s.current.InProgress?
    ensures Leads(n, s, more, end) && end.phase.Stopped? && end.current.InProgress? && end.current.dump.shards == map[]
    decreases Work(s)
  {
    hide Inv, Leads, Sum;
    if Emptied(s) {
      LeadsBy(n, s, Drained({}));
      more, end := [Drained({})], Apply(n, s, Drained({}));
    } else {
      var step := CancelForward(n, s);
      StepKeeps(n, s, step);
      CancelAdvances(n, s, step);
      LeadsBy(n, s, step);
      var rest;
      rest, end := FinishStop(n, Apply(n, s, step));
      LeadsOn(n, s, [step], Apply(n, s, step), rest, end);
      more := [step] + rest;
    }
  }

  lemma StopStarts(n: PartCounts, s: State)
    requires s.phase.Looping?
    ensures Enabled(s, StopRequested)
    ensures var t := Apply(n, s, StopRequested);
            if s.current.InProgress? then Cancelling(t) && t.phase.reason.Shutdown? && t.current.InProgress?
            else t.phase.Stopped? && t.current == s.current
  {
  }

  /** From every reachable head of the loop a request to stop can be carried out, and no upload is then left. */
  lemma StopCanFinish(n: PartCounts, s0: State, steps: seq<Step>) returns (more: seq<Step>)
    requires Init(s0) && ValidRun(n, s0, steps) && After(n, s0, steps).phase.Looping?
    ensures var s := After(n, s0, steps);
            && ValidRun(n, s, [StopRequested] + more) && OwnSteps([StopRequested] + more) == 1 + |more|
            && var end := After(n, s, [StopRequested] + more);
               end.phase.Stopped? && (end.current.InProgress? ==> end.current.dump.shards == map[])
  {
    hide Inv, Enabled, Apply;
    var s := After(n, s0, steps);
    RunKeeps(n, s0, steps);
    StopStarts(n, s);
    var t := Apply(n, s, StopRequested);
    StepKeeps(n, s, StopRequested);
    LeadsBy(n, s, StopRequested);
    if s.current.InProgress? {
      var end;
      more, end := FinishStop(n, t);
      LeadsOn(n, s, [StopRequested], t, more, end);
    } else {
      more := [];
      LeadsNowhere(n, t);
      LeadsOn(n, s, [StopRequested], t, [], t);
    }
  }
}
