/** What every run of the dumper keeps, whatever the interleaving. */
module StateDumpSafety {
  import opened StateDump

  /** The header and every part of the shard are in the external storage. */
  ghost predicate Stored(n: PartCounts, store: Store, shard: ShardId, epoch: EpochId) {
    && (shard, epoch) in store.headers
    && PartsStored(n, store, shard, epoch)
  }

  ghost predicate PartsStored(n: PartCounts, store: Store, shard: ShardId, epoch: EpochId) {
    forall p :: 0 <= p < n(shard, epoch) ==> (shard, epoch, p) in store.parts
  }

  ghost function CountFinished(tasks: seq<Task>): nat {
    if tasks == [] then 0 else CountFinished(tasks[..|tasks| - 1]) + (if tasks[|tasks| - 1].Finished? then 1 else 0)
  }

  lemma {:induction false} CountBounds(tasks: seq<Task>)
    ensures CountFinished(tasks) <= |tasks|
    ensures (forall p :: 0 <= p < |tasks| ==> tasks[p].Finished?) ==> CountFinished(tasks) == |tasks|
    ensures (forall p :: 0 <= p < |tasks| ==> !tasks[p].Finished?) ==> CountFinished(tasks) == 0
  {
    if tasks != [] {
      CountBounds(tasks[..|tasks| - 1]);
    }
  }

  lemma {:induction false} CountUpdate(tasks: seq<Task>, p: nat, t: Task)
    requires p < |tasks| && !tasks[p].Finished?
    ensures CountFinished(tasks[p := t]) == CountFinished(tasks) + (if t.Finished? then 1 else 0)
  {
    var tasks' := tasks[p := t];
    var last := |tasks| - 1;
    if p < last {
      CountUpdate(tasks[..last], p, t);
      assert tasks'[..last] == tasks[..last][p := t];
    } else {
      assert tasks'[..last] == tasks[..last];
    }
  }

  // ---------------------------------------------------------------------------
  // Invariant
  // ---------------------------------------------------------------------------

  /** A part that is not listed as missing is stored. */
  ghost predicate MissingOk(n: PartCounts, store: Store, epoch: EpochId, shard: ShardId, d: ShardDump) {
    && d.numParts == n(shard, epoch) == |d.tasks|
    && forall p :: 0 <= p < d.numParts && p !in d.missing ==> (shard, epoch, p) in store.parts
  }

  ghost predicate TaskOk(store: Store, epoch: EpochId, canceled: bool, shard: ShardId, p: nat, t: Task) {
    && (t.Counting? ==> (shard, epoch, p) in store.parts)
    && (t.Finished? ==> t.result.Ok? && (canceled || (shard, epoch, p) in store.parts))
  }

  ghost predicate CounterOk(canceled: bool, d: ShardDump) {
    && -1 <= d.dumped <= CountFinished(d.tasks)
    && (!canceled ==> d.dumped == CountFinished(d.tasks))
  }

  ghost predicate ShardOk(n: PartCounts, store: Store, epoch: EpochId, canceled: bool, shard: ShardId, d: ShardDump) {
    && (shard, epoch) in store.headers
    && MissingOk(n, store, epoch, shard, d)
    && (forall p :: 0 <= p < |d.tasks| ==> TaskOk(store, epoch, canceled, shard, p, d.tasks[p]))
    && CounterOk(canceled, d)
    && (d.upload.Sent? ==> d.upload.result.Ok? && forall p :: 0 <= p < |d.tasks| ==> d.tasks[p].Finished?)
    && (d.numParts == 0 ==> d.upload.Sent?)
  }

  ghost predicate DumpOk(n: PartCounts, store: Store, d: DumpState) {
    && d.shards.Keys <= d.tracked
    && (forall h :: h in d.shards ==> ShardOk(n, store, d.epoch, d.canceled, h, d.shards[h]))
    && (!d.canceled ==> forall h :: h in d.tracked && h !in d.shards ==> Stored(n, store, h, d.epoch))
  }

  ghost predicate CurrentOk(n: PartCounts, store: Store, c: CurrentDump) {
    match c
    case NoDump => true
    case InProgress(d) => DumpOk(n, store, d)
    case Done(e, tracked) => forall h :: h in tracked ==> Stored(n, store, h, e)
  }

  ghost predicate ProgressOk(n: PartCounts, store: Store, progress: map<ShardId, Progress>) {
    forall h :: h in progress && progress[h].AllDumped? ==> Stored(n, store, h, progress[h].epoch)
  }

  /** A shard whose tasks have not been spawned yet. */
  ghost predicate Untouched(d: ShardDump) {
    d.dumped == 0 && d.upload.Open? && forall p :: 0 <= p < |d.tasks| ==> d.tasks[p].NotStarted?
  }

  /** The dump being prepared: `headers` is what still has to be uploaded. */
  ghost predicate PlanOk(n: PartCounts, store: Store, d: DumpState, senders: set<ShardId>, headers: set<ShardId>) {
    && d.shards != map[] && !d.canceled
    && senders == d.shards.Keys <= d.tracked
    && headers <= d.shards.Keys
    && (forall h :: h in d.shards ==> Untouched(d.shards[h]) && MissingOk(n, store, d.epoch, h, d.shards[h]))
    && (forall h :: h in d.shards && h !in headers ==> (h, d.epoch) in store.headers)
    && (forall h :: h in d.tracked && h !in d.shards ==> Stored(n, store, h, d.epoch))
  }

  ghost predicate NoLiveDump(c: CurrentDump) {
    c.InProgress? ==> c.dump.canceled && c.dump.shards == map[]
  }

  ghost predicate PhaseOk(n: PartCounts, s: State) {
    match s.phase
    case Booting => s.current.NoDump?
    case CheckingHeaders(d, senders, headers) => PlanOk(n, s.store, d, senders, headers) && NoLiveDump(s.current)
    case UploadingHeaders(d, senders, headers, _) => PlanOk(n, s.store, d, senders, headers) && NoLiveDump(s.current)
    case Recording(left) => s.current.InProgress? && !s.current.dump.canceled && s.current.dump.shards != map[]
        && left <= s.current.dump.shards.Keys
    case Looping => !s.current.NoDump? && (s.current.InProgress? ==>
        !s.current.dump.canceled && s.current.dump.shards != map[])
    case Resetting(left, _) =>
      && s.current.InProgress? && s.current.dump.canceled && left <= s.current.dump.shards.Keys
      && forall h :: h in s.current.dump.shards && h !in left ==> s.current.dump.shards[h].dumped == -1
    case Draining(_) =>
      && s.current.InProgress? && s.current.dump.canceled
      && forall h :: h in s.current.dump.shards ==> s.current.dump.shards[h].dumped == -1
    case Stopped => true
  }

  ghost predicate Inv(n: PartCounts, s: State) {
    && ProgressOk(n, s.store, s.progress)
    && CurrentOk(n, s.store, s.current)
    && PhaseOk(n, s)
  }

  // ---------------------------------------------------------------------------
  // Preservation
  // ---------------------------------------------------------------------------

  /** Files are only ever added, so every fact about stored files survives. */
  lemma StoreGrows(n: PartCounts, s: State, store': Store)
    requires Inv(n, s)
    requires s.store.headers <= store'.headers && s.store.parts <= store'.parts
    ensures Inv(n, s.(store := store'))
  {
    if s.current.InProgress? {
      var d := s.current.dump;
      forall h | h in d.shards
        ensures ShardOk(n, store', d.epoch, d.canceled, h, d.shards[h])
      {
        assert ShardOk(n, s.store, d.epoch, d.canceled, h, d.shards[h]);
      }
    }
  }

  lemma FreshDumpOk(n: PartCounts, store: Store, epoch: EpochId, todo: set<ShardId>, tracked: set<ShardId>)
    requires {} < todo <= tracked
    requires forall h :: h in tracked && h !in todo ==> Stored(n, store, h, epoch)
    ensures PlanOk(n, store, FreshDump(n, epoch, todo, tracked), todo, todo)
  {
    var d := FreshDump(n, epoch, todo, tracked);
    assert d.shards.Keys == todo;
    var h :| h in todo;
    assert h in d.shards;
  }

  lemma BootKeeps(n: PartCounts, s: State, step: Step)
    requires Inv(n, s) && Enabled(s, step) && step.Boot?
    ensures Inv(n, Apply(n, s, step))
  {
    var todo := StillToDump(s.progress, step.epoch, step.tracked);
    forall h | h in step.tracked && h !in todo ensures Stored(n, s.store, h, step.epoch) {
      assert s.progress[h] == AllDumped(step.epoch);
    }
    if step.tracked != {} && todo != {} {
      FreshDumpOk(n, s.store, step.epoch, todo, step.tracked);
    }
  }

  lemma BeginDumpKeeps(n: PartCounts, s: State, epoch: EpochId, tracked: set<ShardId>)
    requires Inv(n, s) && NoLiveDump(s.current)
    ensures Inv(n, BeginDump(n, s, epoch, tracked))
  {
    if tracked != {} {
      FreshDumpOk(n, s.store, epoch, tracked, tracked);
    }
  }

  lemma PrepareKeeps(n: PartCounts, s: State, step: Step)
    requires Inv(n, s) && Enabled(s, step)
    requires step.HeaderFound? || step.HeadersChecked? || step.PutHeader? || step.ListAtInit?
    ensures Inv(n, Apply(n, s, step))
  {
    var s' := Apply(n, s, step);
    if step.PutHeader? {
      StoreGrows(n, s, s'.store);
    }
  }

  lemma StartUploadsKeeps(n: PartCounts, s: State)
    requires Inv(n, s) && Enabled(s, StartUploads)
    ensures Inv(n, Apply(n, s, StartUploads))
  {
    var d := s.phase.plan;
    var d' := StartedDump(d);
    assert d'.shards.Keys == d.shards.Keys;
    forall h | h in d'.shards
      ensures ShardOk(n, s.store, d'.epoch, d'.canceled, h, d'.shards[h])
    {
      CountBounds(d.shards[h].tasks);
    }
  }

  /** Replacing one shard's entry by one that is still in order keeps the dump in order. */
  lemma SetShardKeeps(n: PartCounts, s: State, shard: ShardId, d: ShardDump)
    requires Inv(n, s) && HasShard(s, shard)
    requires ShardOk(n, s.store, s.current.dump.epoch, s.current.dump.canceled, shard, d)
    requires s.current.dump.shards[shard].dumped == -1 ==> d.dumped == -1
    ensures Inv(n, SetShard(s, shard, d))
  {
    var old' := s.current.dump.shards;
    assert old'[shard := d].Keys == old'.Keys;
  }

  lemma PartsUploadedKeeps(n: PartCounts, s: State, shard: ShardId)
    requires Inv(n, s) && Enabled(s, PartsUploaded(shard))
    ensures Inv(n, Apply(n, s, PartsUploaded(shard)))
  {
    var d := s.current.dump;
    assert ShardOk(n, s.store, d.epoch, d.canceled, shard, d.shards[shard]);
    forall p | 0 <= p < n(shard, d.epoch) ensures (shard, d.epoch, p) in s.store.parts {
      assert TaskOk(s.store, d.epoch, d.canceled, shard, p, d.shards[shard].tasks[p]);
    }
    assert Stored(n, s.store, shard, d.epoch);
    var left := d.shards - {shard};
    forall h | h in d.tracked && h !in left ensures Stored(n, s.store, h, d.epoch) {
      assert h == shard || h !in d.shards;
    }
  }

  lemma CancelKeeps(n: PartCounts, s: State, step: Step)
    requires Inv(n, s) && Enabled(s, step)
    requires step.CancelForEpoch? || step.StopRequested?
    ensures Inv(n, Apply(n, s, step))
  {
    if s.current.InProgress? {
      var d := s.current.dump;
      forall h | h in d.shards
        ensures ShardOk(n, s.store, d.epoch, true, h, d.shards[h])
      {
        assert ShardOk(n, s.store, d.epoch, d.canceled, h, d.shards[h]);
      }
    }
  }

  /** A task may move to any program point that is in order for the files stored by then. */
  lemma MoveTask(n: PartCounts, store: Store, epoch: EpochId, canceled: bool, shard: ShardId, d: ShardDump, p: nat,
                 t: Task, dumped: int)
    requires ShardOk(n, store, epoch, canceled, shard, d)
    requires p < |d.tasks| && !d.tasks[p].Finished?
    requires TaskOk(store, epoch, canceled, shard, p, t)
    requires dumped == d.dumped || (t.Finished? && dumped == Increment(d.dumped))
    requires t.Finished? && !canceled ==> dumped == d.dumped + 1
    ensures ShardOk(n, store, epoch, canceled, shard, d.(tasks := d.tasks[p := t], dumped := dumped))
  {
    CountUpdate(d.tasks, p, t);
  }

  lemma TaskKeeps(n: PartCounts, s: State, step: Step)
    requires Inv(n, s) && Enabled(s, step) && TaskStep(step)
    ensures Inv(n, Apply(n, s, step))
  {
    var dump := s.current.dump;
    var d := dump.shards[step.shard];
    assert ShardOk(n, s.store, dump.epoch, dump.canceled, step.shard, d);
    if step.Report? {
      forall p | 0 <= p < |d.tasks| ensures d.tasks[p] != Finished(Err) {
        assert TaskOk(s.store, dump.epoch, dump.canceled, step.shard, p, d.tasks[p]);
      }
      SetShardKeeps(n, s, step.shard, d.(upload := Sent(Ok)));
    } else {
      PartTaskKeeps(n, s, step);
    }
  }

  lemma PartTaskKeeps(n: PartCounts, s: State, step: Step)
    requires Inv(n, s) && Enabled(s, step) && TaskStep(step) && !step.Report?
    ensures Inv(n, Apply(n, s, step))
  {
    var s' := Apply(n, s, step);
    var s1 := s.(store := s'.store);
    StoreGrows(n, s, s1.store);
    var dump, dump' := s.current.dump, s'.current.dump;
    var d, d' := dump.shards[step.shard], dump'.shards[step.shard];
    var t := d'.tasks[step.part];
    assert ShardOk(n, s1.store, dump.epoch, dump.canceled, step.shard, d);
    assert TaskOk(s1.store, dump.epoch, dump.canceled, step.shard, step.part, d.tasks[step.part]);
    MoveTask(n, s1.store, dump.epoch, dump.canceled, step.shard, d, step.part, t, d'.dumped);
    assert d' == d.(tasks := d.tasks[step.part := t], dumped := d'.dumped);
    SetShardKeeps(n, s1, step.shard, d');
    assert s' == SetShard(s1, step.shard, d');
  }

  lemma StepKeeps(n: PartCounts, s: State, step: Step)
    requires Inv(n, s) && Enabled(s, step)
    ensures Inv(n, Apply(n, s, step))
  {
    hide Inv, Enabled, Apply;
    if TaskStep(step) {
      TaskKeeps(n, s, step);
      return;
    }
    if step.PeerHeader? || step.PeerPart? {
      PeerKeeps(n, s, step);
    } else if step.Boot? {
      BootKeeps(n, s, step);
    } else if step.HeaderFound? || step.HeadersChecked? || step.PutHeader? || step.ListAtInit? {
      PrepareKeeps(n, s, step);
    } else if step.StartUploads? {
      StartUploadsKeeps(n, s);
    } else if step.ListStored? || step.ResetCounter? {
      ShardStepKeeps(n, s, step);
    } else if step.PartsUploaded? {
      PartsUploadedKeeps(n, s, step.shard);
    } else if step.NewEpochDump? || step.Drained? {
      EpochStepKeeps(n, s, step);
    } else if step.CancelForEpoch? || step.StopRequested? {
      CancelKeeps(n, s, step);
    } else {
      PlainStepKeeps(n, s, step);
    }
  }

  lemma PeerKeeps(n: PartCounts, s: State, step: Step)
    requires Inv(n, s) && (step.PeerHeader? || step.PeerPart?)
    ensures Inv(n, Apply(n, s, step))
  {
    StoreGrows(n, s, Apply(n, s, step).store);
  }

  lemma EpochStepKeeps(n: PartCounts, s: State, step: Step)
    requires Inv(n, s) && Enabled(s, step) && (step.NewEpochDump? || step.Drained?)
    ensures Inv(n, Apply(n, s, step))
  {
    if step.NewEpochDump? {
      BeginDumpKeeps(n, s, step.epoch, step.tracked);
    } else if s.phase.reason.NewEpoch? {
      BeginDumpKeeps(n, s, s.phase.reason.epoch, step.tracked);
    }
  }

  lemma ShardStepKeeps(n: PartCounts, s: State, step: Step)
    requires Inv(n, s) && Enabled(s, step) && (step.ListStored? || step.ResetCounter?)
    ensures Inv(n, Apply(n, s, step))
  {
    SetShardKeeps(n, s, step.shard, Apply(n, s, step).current.dump.shards[step.shard]);
  }

  lemma PlainStepKeeps(n: PartCounts, s: State, step: Step)
    requires Inv(n, s) && Enabled(s, step)
    requires step.Restart? || step.Fail? || step.RecordProgress? || step.EnterLoop? || step.CountersReset?
            || step.Drain?
    ensures Inv(n, Apply(n, s, step))
  {
  }

  lemma {:induction false} RunKeeps(n: PartCounts, s: State, steps: seq<Step>)
    requires Inv(n, s) && ValidRun(n, s, steps)
    ensures Inv(n, After(n, s, steps))
    decreases |steps|
  {
    if steps != [] {
      StepKeeps(n, s, steps[0]);
      RunKeeps(n, Apply(n, s, steps[0]), steps[1..]);
    }
  }

  // ---------------------------------------------------------------------------
  // Main results
  // ---------------------------------------------------------------------------

  /**
   * In every run: what the disk or memory calls finished is completely in the external storage.
   */
  lemma DumpedMeansStored(n: PartCounts, s0: State, steps: seq<Step>, shard: ShardId)
    requires Init(s0) && ValidRun(n, s0, steps)
    ensures var s := After(n, s0, steps);
            && (shard in s.progress && s.progress[shard].AllDumped? ==>
                Stored(n, s.store, shard, s.progress[shard].epoch))
            && (s.current.Done? && shard in s.current.tracked ==> Stored(n, s.store, shard, s.current.epoch))
  {
    RunKeeps(n, s0, steps);
  }

  /**
   * At every head of the select loop a dump in progress has a shard to wait for and is not
   * cancelled, and whenever uploads start each shard has its sender, so that neither `select_all`
   * nor the unwraps can fail.
   */
  lemma LoopHead(n: PartCounts, s0: State, steps: seq<Step>)
    requires Init(s0) && ValidRun(n, s0, steps)
    ensures var s := After(n, s0, steps);
            && (s.phase.Looping? && s.current.InProgress? ==>
                s.current.dump.shards != map[] && !s.current.dump.canceled)
            && (Enabled(s, StartUploads) ==> s.phase.senders == s.phase.plan.shards.Keys)
            && (s.phase.Looping? ==> !s.current.NoDump?)
  {
    RunKeeps(n, s0, steps);
  }

  /**
   * The part counter: never above the number of parts, equal to it whenever the loop can take a
   * shard's completion, and that completion is never an error.
   */
  lemma CounterInRange(n: PartCounts, s0: State, steps: seq<Step>, shard: ShardId)
    requires Init(s0) && ValidRun(n, s0, steps)
    ensures var s := After(n, s0, steps);
            HasShard(s, shard) ==>
              var d := s.current.dump.shards[shard];
              && -1 <= d.dumped <= n(shard, s.current.dump.epoch)
              && (d.dumped == -1 ==> s.current.dump.canceled)
              && (s.phase.Draining? ==> d.dumped == -1)
              && (Enabled(s, PartsUploaded(shard)) ==>
                  d.dumped == n(shard, s.current.dump.epoch) && d.upload == Sent(Ok))
  {
    RunKeeps(n, s0, steps);
    var s := After(n, s0, steps);
    if HasShard(s, shard) {
      var d := s.current.dump.shards[shard];
      assert ShardOk(n, s.store, s.current.dump.epoch, s.current.dump.canceled, shard, d);
      CountBounds(d.tasks);
    }
  }

  /** Nothing moves a counter that was set to -1, or takes back a message that was sent. */
  lemma SettledStep(n: PartCounts, s: State, step: Step, shard: ShardId)
    requires Inv(n, s) && Enabled(s, step)
    requires HasShard(s, shard) && HasShard(Apply(n, s, step), shard)
    ensures var d, d' := s.current.dump.shards[shard], Apply(n, s, step).current.dump.shards[shard];
            && (d.dumped == -1 ==> d'.dumped == -1)
            && (d.upload.Sent? ==> d'.upload == d.upload)
  {
  }

  /** The shard is on the map from the first state to the last. */
  ghost predicate OnTheMap(n: PartCounts, s: State, steps: seq<Step>, shard: ShardId)
    requires ValidRun(n, s, steps)
    decreases |steps|
  {
    HasShard(s, shard) && (steps != [] ==> OnTheMap(n, Apply(n, s, steps[0]), steps[1..], shard))
  }

  lemma {:induction false} SettledRun(n: PartCounts, s: State, steps: seq<Step>, shard: ShardId)
    requires Inv(n, s) && ValidRun(n, s, steps) && OnTheMap(n, s, steps, shard)
    ensures HasShard(After(n, s, steps), shard)
    ensures var d, d' := s.current.dump.shards[shard], After(n, s, steps).current.dump.shards[shard];
            && (d.dumped == -1 ==> d'.dumped == -1)
            && (d.upload.Sent? ==> d'.upload == d.upload)
    decreases |steps|
  {
    hide Inv, Enabled, Apply;
    if steps != [] {
      var s' := Apply(n, s, steps[0]);
      StepKeeps(n, s, steps[0]);
      assert HasShard(s', shard);
      SettledStep(n, s, steps[0], shard);
      SettledRun(n, s', steps[1..], shard);
    }
  }

  /**
   * Once cancellation has set a counter to -1 it stays there, and a shard's channel carries one
   * message only, through every continuation of every run in which the shard is being dumped.
   */
  lemma SettledForever(n: PartCounts, s0: State, steps: seq<Step>, more: seq<Step>, shard: ShardId)
    requires Init(s0) && ValidRun(n, s0, steps)
    requires ValidRun(n, After(n, s0, steps), more) && OnTheMap(n, After(n, s0, steps), more, shard)
    ensures HasShard(After(n, After(n, s0, steps), more), shard)
    ensures var d, d' := After(n, s0, steps).current.dump.shards[shard],
            After(n, After(n, s0, steps), more).current.dump.shards[shard];
            && (d.dumped == -1 ==> d'.dumped == -1)
            && (d.upload.Sent? ==> d'.upload == d.upload)
  {
    RunKeeps(n, s0, steps);
    SettledRun(n, After(n, s0, steps), more, shard);
  }

  /**
   * A shard waits on its channel only while one of its own futures can move: no receiver is left
   * waiting on a dropped sender.
   */
  lemma ShardCanMove(n: PartCounts, s0: State, steps: seq<Step>, shard: ShardId) returns (step: Step)
    requires Init(s0) && ValidRun(n, s0, steps)
    requires var s := After(n, s0, steps); HasShard(s, shard) && s.current.dump.shards[shard].upload.Open?
    ensures TaskStep(step) && step.shard == shard && Enabled(After(n, s0, steps), step)
  {
    RunKeeps(n, s0, steps);
    step := MovableStep(n, After(n, s0, steps), shard);
  }

  lemma MovableStep(n: PartCounts, s: State, shard: ShardId) returns (step: Step)
    requires Inv(n, s) && HasShard(s, shard) && s.current.dump.shards[shard].upload.Open?
    ensures TaskStep(step) && step.shard == shard && Enabled(s, step)
    ensures (step.ObtainResult? ==> step.ok) && (step.PutResult? ==> step.ok)
  {
    var d := s.current.dump.shards[shard];
    assert ShardOk(n, s.store, s.current.dump.epoch, s.current.dump.canceled, shard, d);
    if p :| 0 <= p < |d.tasks| && !d.tasks[p].Finished? {
      match d.tasks[p]
      case NotStarted => step := StartTask(shard, p);
      case CheckObtain => step := CheckFlag(shard, p);
      case Obtaining => step := ObtainResult(shard, p, true);
      case CheckPut => step := CheckFlag(shard, p);
      case Putting => step := PutResult(shard, p, true);
      case Counting => step := CountPart(shard, p);
    } else {
      forall p | 0 <= p < |d.tasks| ensures d.tasks[p] == Finished(Ok) {
        assert TaskOk(s.store, s.current.dump.epoch, s.current.dump.canceled, shard, p, d.tasks[p]);
      }
      step := Report(shard);
    }
  }
}
