/** What the disk says, in every run: exactly how far the dump has come. */
module StateDumpDisk {
  import opened StateDump
  import opened StateDumpSafety

  ghost predicate Says(progress: map<ShardId, Progress>, shard: ShardId, p: Progress) {
    shard in progress && progress[shard] == p
  }

  /** The shards that the dump is through with are recorded as dumped. */
  ghost predicate OffMapRecorded(progress: map<ShardId, Progress>, d: DumpState) {
    forall h :: h in d.tracked && h !in d.shards ==> Says(progress, h, AllDumped(d.epoch))
  }

  ghost predicate OnMapRecorded(progress: map<ShardId, Progress>, d: DumpState, left: set<ShardId>) {
    forall h :: h in d.shards && h !in left ==> Says(progress, h, Dumping(d.epoch))
  }

  ghost predicate DoneRecorded(progress: map<ShardId, Progress>, epoch: EpochId, tracked: set<ShardId>) {
    forall h :: h in tracked ==> Says(progress, h, AllDumped(epoch))
  }

  ghost predicate DiskOk(s: State) {
    && (s.current.InProgress? && !s.current.dump.canceled ==> OffMapRecorded(s.progress, s.current.dump))
    && (s.current.Done? ==> DoneRecorded(s.progress, s.current.epoch, s.current.tracked))
    && (s.phase.Looping? && s.current.InProgress? ==> OnMapRecorded(s.progress, s.current.dump, {}))
    && (s.phase.Recording? && s.current.InProgress? ==> OnMapRecorded(s.progress, s.current.dump, s.phase.left))
    && (s.phase.CheckingHeaders? ==> OffMapRecorded(s.progress, s.phase.plan))
    && (s.phase.UploadingHeaders? ==> OffMapRecorded(s.progress, s.phase.plan))
  }

  // ---------------------------------------------------------------------------
  // Preservation
  // ---------------------------------------------------------------------------

  lemma TaskKeepsDisk(n: PartCounts, s: State, step: Step)
    requires DiskOk(s) && Enabled(s, step) && TaskStep(step)
    ensures DiskOk(Apply(n, s, step))
  {
    var s' := Apply(n, s, step);
    assert s'.progress == s.progress && s'.phase == s.phase;
    assert s'.current.dump.shards.Keys == s.current.dump.shards.Keys;
  }

  lemma PartsUploadedKeepsDisk(n: PartCounts, s: State, h: ShardId)
    requires Inv(n, s) && DiskOk(s) && Enabled(s, PartsUploaded(h))
    ensures DiskOk(Apply(n, s, PartsUploaded(h)))
  {
    var d := s.current.dump;
    var left := Remove(s, h);
    var progress := s.progress[h := AllDumped(d.epoch)];
    forall k | k in left.tracked && k !in left.shards
      ensures Says(progress, k, AllDumped(left.epoch))
    {
      assert k == h || k !in d.shards;
    }
  }

  lemma RecordingKeepsDisk(n: PartCounts, s: State, step: Step)
    requires Inv(n, s) && DiskOk(s) && Enabled(s, step) && (step.RecordProgress? || step.EnterLoop?)
    ensures DiskOk(Apply(n, s, step))
  {
  }

  lemma BeginKeepsDisk(n: PartCounts, s: State, step: Step)
    requires Inv(n, s) && DiskOk(s) && Enabled(s, step) && (step.NewEpochDump? || step.Drained? || step.StartUploads?)
    ensures DiskOk(Apply(n, s, step))
  {
  }

  lemma BootKeepsDisk(n: PartCounts, s: State, step: Step)
    requires Inv(n, s) && DiskOk(s) && Enabled(s, step) && step.Boot?
    ensures DiskOk(Apply(n, s, step))
  {
    var todo := StillToDump(s.progress, step.epoch, step.tracked);
    var kept := KeepEpoch(s.progress, step.epoch);
    forall h | h in step.tracked && h !in todo
      ensures Says(kept, h, AllDumped(step.epoch))
    {
      assert s.progress[h] == AllDumped(step.epoch);
    }
  }

  lemma RestKeepsDisk(n: PartCounts, s: State, step: Step)
    requires Inv(n, s) && DiskOk(s) && Enabled(s, step) && !TaskStep(step) && !step.PartsUploaded?
    requires !step.RecordProgress? && !step.EnterLoop? && !step.NewEpochDump? && !step.Drained? && !step.StartUploads?
    requires !step.Boot?
    ensures DiskOk(Apply(n, s, step))
  {
  }

  lemma StepKeepsDisk(n: PartCounts, s: State, step: Step)
    requires Inv(n, s) && DiskOk(s) && Enabled(s, step)
    ensures DiskOk(Apply(n, s, step))
  {
    hide Inv, DiskOk, Enabled, Apply;
    if TaskStep(step) {
      TaskKeepsDisk(n, s, step);
      return;
    }
    if step.PartsUploaded? {
      PartsUploadedKeepsDisk(n, s, step.shard);
    } else if step.RecordProgress? || step.EnterLoop? {
      RecordingKeepsDisk(n, s, step);
    } else if step.NewEpochDump? || step.Drained? || step.StartUploads? {
      BeginKeepsDisk(n, s, step);
    } else if step.Boot? {
      BootKeepsDisk(n, s, step);
    } else {
      RestKeepsDisk(n, s, step);
    }
  }

  lemma {:induction false} RunKeepsDisk(n: PartCounts, s: State, steps: seq<Step>)
    requires Inv(n, s) && DiskOk(s) && ValidRun(n, s, steps)
    ensures DiskOk(After(n, s, steps))
    decreases |steps|
  {
    hide Inv, DiskOk, Enabled, Apply;
    if steps != [] {
      StepKeeps(n, s, steps[0]);
      StepKeepsDisk(n, s, steps[0]);
      RunKeepsDisk(n, Apply(n, s, steps[0]), steps[1..]);
    }
  }

  // ---------------------------------------------------------------------------
  // Main results
  // ---------------------------------------------------------------------------

  /**
   * In every run: an epoch that is done is recorded as dumped for every tracked shard; at the head of
   * the loop the shards still on the map are recorded as being dumped and all others as dumped.
   */
  lemma DiskAgrees(n: PartCounts, s0: State, steps: seq<Step>)
    requires Init(s0) && ValidRun(n, s0, steps)
    ensures var s := After(n, s0, steps);
            && (s.current.Done? ==>
                  forall h :: h in s.current.tracked ==> h in s.progress && s.progress[h] == AllDumped(s.current.epoch))
            && (s.phase.Looping? && s.current.InProgress? ==>
                  forall h :: h in s.current.dump.tracked ==>
                    && h in s.progress
                    && s.progress[h] == (if h in s.current.dump.shards then Dumping(s.current.dump.epoch)
                                         else AllDumped(s.current.dump.epoch)))
  {
    RunKeeps(n, s0, steps);
    RunKeepsDisk(n, s0, steps);
    var s := After(n, s0, steps);
    if s.phase.Looping? && s.current.InProgress? {
      var d := s.current.dump;
      forall h | h in d.tracked
        ensures Says(s.progress, h, if h in d.shards then Dumping(d.epoch) else AllDumped(d.epoch))
      {
      }
    }
  }

  lemma TwoSteps(n: PartCounts, s: State, a: Step, b: Step)
    requires Enabled(s, a) && Enabled(Apply(n, s, a), b)
    ensures ValidRun(n, s, [a, b]) && After(n, s, [a, b]) == Apply(n, Apply(n, s, a), b)
  {
    hide Enabled, Apply;
    var t := Apply(n, s, a);
    assert [b][1..] == [];
    var u := Apply(n, t, b);
    assert ValidRun(n, u, []) && After(n, u, []) == u;
    assert ValidRun(n, t, [b]) && After(n, t, [b]) == u;
    assert [a, b][1..] == [b];
  }

  /** Restarting, with the entries of some shards lost, and starting up. */
  lemma RestartAndBoot(n: PartCounts, s: State, dropped: set<ShardId>, epoch: EpochId, tracked: set<ShardId>)
    ensures ValidRun(n, s, [Restart(dropped), Boot(epoch, tracked)])
    ensures var s' := After(n, s, [Restart(dropped), Boot(epoch, tracked)]);
            var todo := StillToDump(s.progress - dropped, epoch, tracked);
            && s'.store == s.store
            && (todo == {} ==> s'.phase.Looping? && s'.current == Done(epoch, tracked))
            && (todo != {} ==>
                  && s'.phase.CheckingHeaders? && s'.phase.headers == todo
                  && s'.phase.plan == FreshDump(n, epoch, todo, tracked))
  {
    var s1 := Apply(n, s, Restart(dropped));
    assert s1 == State(s.store, s.progress - dropped, NoDump, Booting);
    TwoSteps(n, s, Restart(dropped), Boot(epoch, tracked));
    assert tracked == {} ==> StillToDump(s.progress - dropped, epoch, tracked) == {};
  }

  /** A restart after the epoch was done finds it done, without touching the external storage. */
  lemma RestartAfterDone(n: PartCounts, s0: State, steps: seq<Step>)
    requires Init(s0) && ValidRun(n, s0, steps) && After(n, s0, steps).current.Done?
    ensures var s := After(n, s0, steps);
            var run := [Restart({}), Boot(s.current.epoch, s.current.tracked)];
            && ValidRun(n, s, run)
            && var s' := After(n, s, run);
               s'.current == s.current && s'.phase.Looping? && s'.store == s.store
  {
    hide Apply, Enabled, ValidRun, After, FreshDump;
    var s := After(n, s0, steps);
    DiskAgrees(n, s0, steps);
    assert s.progress - {} == s.progress;
    assert StillToDump(s.progress, s.current.epoch, s.current.tracked) == {};
    RestartAndBoot(n, s, {}, s.current.epoch, s.current.tracked);
  }

  /**
   * A restart in the middle of a dump takes up exactly the shards that were not finished and those
   * whose entry was lost.
   */
  lemma RestartResumes(n: PartCounts, s0: State, steps: seq<Step>, dropped: set<ShardId>)
    requires Init(s0) && ValidRun(n, s0, steps)
    requires After(n, s0, steps).phase.Looping? && After(n, s0, steps).current.InProgress?
    ensures var s := After(n, s0, steps);
            var d := s.current.dump;
            var run := [Restart(dropped), Boot(d.epoch, d.tracked)];
            && ValidRun(n, s, run)
            && var s' := After(n, s, run);
               && s'.phase.CheckingHeaders? && s'.phase.plan.epoch == d.epoch && s'.phase.plan.tracked == d.tracked
               && s'.phase.plan.shards.Keys == s'.phase.headers == d.shards.Keys + d.tracked * dropped
  {
    hide Apply, Enabled, ValidRun, After, FreshDump;
    var s := After(n, s0, steps);
    var d := s.current.dump;
    LoopHead(n, s0, steps);
    OnlyTracked(n, s0, steps);
    DiskAgrees(n, s0, steps);
    var todo := StillToDump(s.progress - dropped, d.epoch, d.tracked);
    assert todo == d.shards.Keys + d.tracked * dropped;
    var h :| h in d.shards;
    assert h in todo;
    RestartAndBoot(n, s, dropped, d.epoch, d.tracked);
    FreshKeys(n, d.epoch, todo, d.tracked);
  }

  lemma OnlyTracked(n: PartCounts, s0: State, steps: seq<Step>)
    requires Init(s0) && ValidRun(n, s0, steps) && After(n, s0, steps).current.InProgress?
    ensures After(n, s0, steps).current.dump.shards.Keys <= After(n, s0, steps).current.dump.tracked
  {
    RunKeeps(n, s0, steps);
  }

  lemma FreshKeys(n: PartCounts, epoch: EpochId, todo: set<ShardId>, tracked: set<ShardId>)
    ensures var d := FreshDump(n, epoch, todo, tracked);
            d.shards.Keys == todo && d.epoch == epoch && d.tracked == tracked
  {
  }

  /** Starting up clears the entries of other epochs off the disk, and only those. */
  lemma BootClears(n: PartCounts, s: State, epoch: EpochId, tracked: set<ShardId>)
    requires Enabled(s, Boot(epoch, tracked)) && tracked != {}
    ensures var after := Apply(n, s, Boot(epoch, tracked)).progress;
            && (forall h :: h in after <==> h in s.progress && s.progress[h].epoch == epoch)
            && (forall h :: h in after ==> after[h] == s.progress[h])
  {
  }

  // ---------------------------------------------------------------------------
  // Work that is not done twice
  // ---------------------------------------------------------------------------

  /** A listing leaves exactly the parts without a file to be uploaded. */
  lemma ListingCounts(n: PartCounts, s: State, shard: ShardId, listed: set<nat>)
    requires Enabled(s, ListStored(shard, listed))
    ensures var d := s.current.dump.shards[shard];
            var d' := Apply(n, s, ListStored(shard, listed)).current.dump.shards[shard];
            forall p :: p in d'.missing <==> 0 <= p < d.numParts && p !in listed
  {
  }

  lemma InitListingCounts(n: PartCounts, s: State, shard: ShardId, listed: set<nat>)
    requires Enabled(s, ListAtInit(shard, listed))
    ensures var d := s.phase.plan.shards[shard];
            var d' := Apply(n, s, ListAtInit(shard, listed)).phase.plan.shards[shard];
            forall p :: p in d'.missing <==> 0 <= p < d.numParts && p !in listed
  {
  }

  ghost predicate Spared(s: State, shard: ShardId, part: nat) {
    && HasTask(s, shard, part)
    && var d := s.current.dump.shards[shard];
       (d.tasks[part].NotStarted? && part !in d.missing) || d.tasks[part].Counting? || d.tasks[part].Finished?
  }

  /** The parts listed at start-up are spared once the uploads start. */
  lemma ListedAtInitIsSpared(n: PartCounts, s: State, shard: ShardId, listed: set<nat>, part: nat)
    requires Inv(n, s) && Enabled(s, ListAtInit(shard, listed))
    requires part in listed && part < s.phase.plan.shards[shard].numParts
    ensures var s' := Apply(n, s, ListAtInit(shard, listed));
            Enabled(s', StartUploads) && Spared(Apply(n, s', StartUploads), shard, part)
  {
    assert Untouched(s.phase.plan.shards[shard]);
  }

  lemma SparedStep(n: PartCounts, s: State, step: Step, shard: ShardId, part: nat)
    requires Inv(n, s) && Enabled(s, step) && Spared(s, shard, part) && HasShard(Apply(n, s, step), shard)
    requires step.ListStored? && step.shard == shard ==> part in step.listed
    ensures Spared(Apply(n, s, step), shard, part)
    ensures !(step.ObtainResult? && step.shard == shard && step.part == part)
    ensures !(step.PutResult? && step.shard == shard && step.part == part)
  {
    hide Inv, Enabled, Apply, Spared;
    if TaskStep(step) {
      SparedTask(n, s, step, shard, part);
    } else {
      SparedMain(n, s, step, shard, part);
    }
  }

  lemma SparedTask(n: PartCounts, s: State, step: Step, shard: ShardId, part: nat)
    requires Enabled(s, step) && TaskStep(step) && Spared(s, shard, part)
    ensures Spared(Apply(n, s, step), shard, part)
    ensures !(step.ObtainResult? && step.shard == shard && step.part == part)
    ensures !(step.PutResult? && step.shard == shard && step.part == part)
  {
  }

  lemma SparedMain(n: PartCounts, s: State, step: Step, shard: ShardId, part: nat)
    requires Inv(n, s) && Enabled(s, step) && !TaskStep(step)
    requires Spared(s, shard, part) && HasShard(Apply(n, s, step), shard)
    requires step.ListStored? && step.shard == shard ==> part in step.listed
    ensures Spared(Apply(n, s, step), shard, part)
  {
  }

  /** No listing in between says that the part is missing after all. */
  ghost predicate StaysListed(steps: seq<Step>, shard: ShardId, part: nat) {
    forall i :: 0 <= i < |steps| && steps[i].ListStored? && steps[i].shard == shard ==> part in steps[i].listed
  }

  /** A part that somebody has uploaded before its task starts is neither generated nor uploaded again. */
  lemma {:induction false} SparedRun(n: PartCounts, s: State, steps: seq<Step>, shard: ShardId, part: nat)
    requires Inv(n, s) && ValidRun(n, s, steps) && OnTheMap(n, s, steps, shard)
    requires Spared(s, shard, part) && StaysListed(steps, shard, part)
    ensures forall i :: 0 <= i < |steps| ==>
              !(steps[i].ObtainResult? && steps[i].shard == shard && steps[i].part == part)
    ensures forall i :: 0 <= i < |steps| ==>
              !(steps[i].PutResult? && steps[i].shard == shard && steps[i].part == part)
    decreases |steps|
  {
    hide Inv, Enabled, Apply, Spared;
    if steps != [] {
      var s' := Apply(n, s, steps[0]);
      StepKeeps(n, s, steps[0]);
      assert HasShard(s', shard);
      SparedStep(n, s, steps[0], shard, part);
      assert StaysListed(steps[1..], shard, part);
      SparedRun(n, s', steps[1..], shard, part);
    }
  }

  ghost predicate Preparing(s: State) {
    s.phase.CheckingHeaders? || s.phase.UploadingHeaders?
  }

  ghost predicate PreparingThroughout(n: PartCounts, s: State, steps: seq<Step>)
    requires ValidRun(n, s, steps)
    decreases |steps|
  {
    Preparing(s) && (steps != [] ==> PreparingThroughout(n, Apply(n, s, steps[0]), steps[1..]))
  }

  /** A header that was found in the external storage is not uploaded again while the dump is prepared. */
  lemma {:induction false} FoundHeaderStays(n: PartCounts, s: State, steps: seq<Step>, shard: ShardId)
    requires ValidRun(n, s, steps) && PreparingThroughout(n, s, steps) && shard !in s.phase.headers
    ensures forall i :: 0 <= i < |steps| ==> steps[i] != PutHeader(shard)
    decreases |steps|
  {
    if steps != [] {
      var s' := Apply(n, s, steps[0]);
      assert Preparing(s');
      FoundHeaderStays(n, s', steps[1..], shard);
    }
  }

  /** Finding a header takes it, and nothing else, off what is to be uploaded. */
  lemma HeaderFoundCounts(n: PartCounts, s: State, shard: ShardId)
    requires Enabled(s, HeaderFound(shard))
    ensures Apply(n, s, HeaderFound(shard)).phase.headers == s.phase.headers - {shard}
  {
  }
}
