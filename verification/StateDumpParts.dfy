/** The life of one part, in every run: generated, then uploaded, and generated once only. */
module StateDumpParts {
  import opened StateDump
  import opened StateDumpSafety
  import opened StateDumpDisk

  // ---------------------------------------------------------------------------
  // Nothing is uploaded that was not generated
  // ---------------------------------------------------------------------------

  ghost predicate NotGenerated(s: State, shard: ShardId, part: nat) {
    HasTask(s, shard, part) ==> !TaskOf(s, shard, part).CheckPut? && !TaskOf(s, shard, part).Putting?
  }

  predicate IsPut(step: Step, shard: ShardId, part: nat) {
    step.PutResult? && step.shard == shard && step.part == part
  }

  predicate IsObtain(step: Step, shard: ShardId, part: nat) {
    step.ObtainResult? && step.shard == shard && step.part == part
  }

  lemma NotGeneratedTask(n: PartCounts, s: State, step: Step, shard: ShardId, part: nat)
    requires Enabled(s, step) && TaskStep(step) && NotGenerated(s, shard, part)
    requires step != ObtainResult(shard, part, true)
    ensures NotGenerated(Apply(n, s, step), shard, part) && !IsPut(step, shard, part)
  {
  }

  lemma NotGeneratedMain(n: PartCounts, s: State, step: Step, shard: ShardId, part: nat)
    requires Inv(n, s) && Enabled(s, step) && !TaskStep(step) && NotGenerated(s, shard, part)
    ensures NotGenerated(Apply(n, s, step), shard, part)
  {
    if step.StartUploads? {
      assert forall h :: h in s.phase.plan.shards ==> Untouched(s.phase.plan.shards[h]);
    }
  }

  /** A result of an upload follows a successful generation of the same part. */
  lemma {:induction false} PutNeedsPart(n: PartCounts, s: State, steps: seq<Step>, shard: ShardId, part: nat, i: nat)
    requires Inv(n, s) && ValidRun(n, s, steps) && NotGenerated(s, shard, part)
    requires i < |steps| && IsPut(steps[i], shard, part)
    ensures exists j :: 0 <= j < i && steps[j] == ObtainResult(shard, part, true)
    decreases |steps|
  {
    hide Inv, Enabled, Apply, NotGenerated;
    if steps[0] != ObtainResult(shard, part, true) {
      if TaskStep(steps[0]) {
        NotGeneratedTask(n, s, steps[0], shard, part);
      } else {
        NotGeneratedMain(n, s, steps[0], shard, part);
      }
      StepKeeps(n, s, steps[0]);
      PutNeedsPart(n, Apply(n, s, steps[0]), steps[1..], shard, part, i - 1);
      var j :| 0 <= j < i - 1 && steps[1..][j] == ObtainResult(shard, part, true);
      assert steps[j + 1] == ObtainResult(shard, part, true);
    } else {
      ResultKinds(steps[i], shard, part);
      assert i != 0;
      assert 0 <= 0 < i && steps[0] == ObtainResult(shard, part, true);
    }
  }

  lemma ResultKinds(step: Step, shard: ShardId, part: nat)
    requires IsPut(step, shard, part)
    ensures step != ObtainResult(shard, part, true)
  {
  }

  // ---------------------------------------------------------------------------
  // Nothing is generated twice
  // ---------------------------------------------------------------------------

  ghost predicate Generated(s: State, shard: ShardId, part: nat) {
    && HasTask(s, shard, part)
    && var t := TaskOf(s, shard, part);
       t.CheckPut? || t.Putting? || t.Counting? || t.Finished?
  }

  lemma GeneratedTask(n: PartCounts, s: State, step: Step, shard: ShardId, part: nat)
    requires Enabled(s, step) && TaskStep(step) && Generated(s, shard, part)
    ensures Generated(Apply(n, s, step), shard, part) && !IsObtain(step, shard, part)
  {
  }

  lemma GeneratedMain(n: PartCounts, s: State, step: Step, shard: ShardId, part: nat)
    requires Inv(n, s) && Enabled(s, step) && !TaskStep(step) && Generated(s, shard, part)
    requires HasShard(Apply(n, s, step), shard)
    ensures Generated(Apply(n, s, step), shard, part)
  {
  }

  /** A failed upload is tried again with the part at hand: it is not generated again. */
  lemma {:induction false} GeneratedOnce(n: PartCounts, s: State, steps: seq<Step>, shard: ShardId, part: nat)
    requires Inv(n, s) && ValidRun(n, s, steps) && OnTheMap(n, s, steps, shard) && Generated(s, shard, part)
    ensures forall i :: 0 <= i < |steps| ==> !IsObtain(steps[i], shard, part)
    decreases |steps|
  {
    hide Inv, Enabled, Apply, Generated, IsObtain;
    if steps != [] {
      var s' := Apply(n, s, steps[0]);
      assert HasShard(s', shard);
      if TaskStep(steps[0]) {
        GeneratedTask(n, s, steps[0], shard, part);
      } else {
        GeneratedMain(n, s, steps[0], shard, part);
        OtherSteps(steps[0], shard, part);
      }
      StepKeeps(n, s, steps[0]);
      GeneratedOnce(n, s', steps[1..], shard, part);
    }
  }

  lemma OtherSteps(step: Step, shard: ShardId, part: nat)
    requires !TaskStep(step)
    ensures !IsObtain(step, shard, part)
  {
  }

  // ---------------------------------------------------------------------------
  // When the storage is listed before the uploads start
  // ---------------------------------------------------------------------------

  /** Start-up with every header found goes on to list the storage, and what is listed is spared. */
  lemma StartUpLists(n: PartCounts, s: State, shard: ShardId, listed: set<nat>, part: nat)
    requires Inv(n, s) && Enabled(s, HeadersChecked) && s.phase.headers == {} && shard in s.phase.plan.shards
    requires forall p :: p in listed ==> (shard, s.phase.plan.epoch, p) in s.store.parts
    requires part in listed && part < s.phase.plan.shards[shard].numParts
    ensures var s1 := Apply(n, s, HeadersChecked);
            && Enabled(s1, ListAtInit(shard, listed))
            && var s2 := Apply(n, s1, ListAtInit(shard, listed));
               Enabled(s2, StartUploads) && Spared(Apply(n, s2, StartUploads), shard, part)
  {
    StepKeeps(n, s, HeadersChecked);
    ListedAtInitIsSpared(n, Apply(n, s, HeadersChecked), shard, listed, part);
  }

  ghost predicate WithoutListing(s: State) {
    !s.phase.CheckingHeaders? && (s.phase.UploadingHeaders? ==> !s.phase.atInit)
  }

  lemma {:induction false} NoListing(n: PartCounts, s: State, steps: seq<Step>)
    requires ValidRun(n, s, steps) && PreparingThroughout(n, s, steps) && WithoutListing(s)
    ensures forall i :: 0 <= i < |steps| ==> !steps[i].ListAtInit?
    decreases |steps|
  {
    if steps != [] {
      var s' := Apply(n, s, steps[0]);
      assert Preparing(s');
      NoListing(n, s', steps[1..]);
    }
  }

  /** While a dump for a new epoch is prepared, the storage is not listed. */
  lemma NewEpochDoesNotList(n: PartCounts, s: State, epoch: EpochId, tracked: set<ShardId>, steps: seq<Step>)
    requires Enabled(s, NewEpochDump(epoch, tracked))
    requires var s' := Apply(n, s, NewEpochDump(epoch, tracked));
             ValidRun(n, s', steps) && PreparingThroughout(n, s', steps)
    ensures forall i :: 0 <= i < |steps| ==> !steps[i].ListAtInit?
  {
    NoListing(n, Apply(n, s, NewEpochDump(epoch, tracked)), steps);
  }
}
