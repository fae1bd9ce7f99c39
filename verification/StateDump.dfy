/**
 * The state-sync dumper as a transition system.
 *
 * One step is one atomic action of the main loop, of a part-upload task, of the per-shard
 * coordinator that reports on the oneshot channel, of another node writing to the shared external
 * storage, or a restart of the process. Everything between two awaits of the source that touches
 * shared cells is a step of its own; delays, the semaphore and metrics are not represented.
 */
module StateDump {

  type ShardId = nat
  type EpochId = nat

  /** How many parts the state of a shard has at the sync point of an epoch. */
  type PartCounts = (ShardId, EpochId) -> nat

  datatype Outcome = Ok | Err

  /** Program counter of one `upload_state_part` future. */
  datatype Task =
    | NotStarted
    | CheckObtain      // about to read the cancel flag in the first retry loop
    | Obtaining        // waiting for the part to be generated
    | CheckPut         // about to read the cancel flag in the second retry loop
    | Putting          // waiting for the upload
    | Counting         // about to bump the counter and return
    | Finished(result: Outcome)

  /** The channel on which a shard reports that all its parts are dealt with. */
  datatype Oneshot = Open | Sent(result: Outcome)

  datatype ShardDump = ShardDump(
    numParts: nat,
    missing: set<nat>,
    dumped: int,
    tasks: seq<Task>,
    upload: Oneshot
  )

  /** `tracked` records the shards the dump was created for; `shards` shrinks as they finish. */
  datatype DumpState = DumpState(
    epoch: EpochId,
    shards: map<ShardId, ShardDump>,
    canceled: bool,
    tracked: set<ShardId>
  )

  datatype CurrentDump =
    | NoDump
    | InProgress(dump: DumpState)
    | Done(epoch: EpochId, tracked: set<ShardId>)

  /** The per-shard entry on disk. */
  datatype Progress = Dumping(epoch: EpochId) | AllDumped(epoch: EpochId)

  datatype Reason = Shutdown | NewEpoch(epoch: EpochId)

  /** Where the main task is. `headers` is the set of shards whose header is still to be uploaded. */
  datatype Phase =
    | Booting
    | CheckingHeaders(plan: DumpState, senders: set<ShardId>, headers: set<ShardId>)
    | UploadingHeaders(plan: DumpState, senders: set<ShardId>, headers: set<ShardId>, atInit: bool)
    | Recording(left: set<ShardId>)
    | Looping
    | Resetting(left: set<ShardId>, reason: Reason)
    | Draining(reason: Reason)
    | Stopped

  datatype Store = Store(headers: set<(ShardId, EpochId)>, parts: set<(ShardId, EpochId, nat)>)

  datatype State = State(store: Store, progress: map<ShardId, Progress>, current: CurrentDump, phase: Phase)

  datatype Step =
    // other nodes and the process itself
    | PeerHeader(shard: ShardId, epoch: EpochId)
    | PeerPart(shard: ShardId, epoch: EpochId, part: nat)
    | Restart(dropped: set<ShardId>)
    | Fail
    // init
    | Boot(epoch: EpochId, tracked: set<ShardId>)
    | HeaderFound(shard: ShardId)
    | HeadersChecked
    | PutHeader(shard: ShardId)
    | ListAtInit(shard: ShardId, listed: set<nat>)
    | StartUploads
    | RecordProgress(shard: ShardId)
    | EnterLoop
    // the select loop
    | ListStored(shard: ShardId, listed: set<nat>)
    | PartsUploaded(shard: ShardId)
    | NewEpochDump(epoch: EpochId, tracked: set<ShardId>)
    | CancelForEpoch(epoch: EpochId)
    | StopRequested
    // cancel()
    | ResetCounter(shard: ShardId)
    | CountersReset
    | Drain(shard: ShardId)
    | Drained(tracked: set<ShardId>)
    // upload tasks and coordinators
    | StartTask(shard: ShardId, part: nat)
    | CheckFlag(shard: ShardId, part: nat)
    | ObtainResult(shard: ShardId, part: nat, ok: bool)
    | PutResult(shard: ShardId, part: nat, ok: bool)
    | CountPart(shard: ShardId, part: nat)
    | Report(shard: ShardId)

  // ---------------------------------------------------------------------------
  // Sequential pieces
  // ---------------------------------------------------------------------------

  function MissingParts(total: nat, listed: set<nat>): set<nat> {
    set p | 0 <= p < total && p !in listed
  }

  /** Entries of other epochs are dropped. */
  function KeepEpoch(progress: map<ShardId, Progress>, epoch: EpochId): map<ShardId, Progress> {
    map s | s in progress && progress[s].epoch == epoch :: progress[s]
  }

  /** The shards of `tracked` that the entries on disk do not show as fully dumped. */
  function StillToDump(progress: map<ShardId, Progress>, epoch: EpochId, tracked: set<ShardId>): set<ShardId> {
    set s | s in tracked && !(s in progress && progress[s] == AllDumped(epoch))
  }

  function FreshShard(total: nat): ShardDump {
    ShardDump(total, MissingParts(total, {}), 0, seq(total, _ => NotStarted), Open)
  }

  function FreshDump(n: PartCounts, epoch: EpochId, todo: set<ShardId>, tracked: set<ShardId>): DumpState {
    DumpState(epoch, map s | s in todo :: FreshShard(n(s, epoch)), false, tracked)
  }

  /** The scan over the progress entries, as the source runs it: one entry at a time, in any order. */
  method CheckOldProgress<D>(entries: seq<(ShardId, Progress)>, progress: map<ShardId, Progress>, epoch: EpochId,
                             shards: map<ShardId, D>, senders: set<ShardId>)
    returns (progress': map<ShardId, Progress>, shards': map<ShardId, D>, senders': set<ShardId>)
    requires forall i, j :: 0 <= i < j < |entries| ==> entries[i].0 != entries[j].0
    requires forall i :: 0 <= i < |entries| ==> entries[i].0 in progress && progress[entries[i].0] == entries[i].1
    requires forall s :: s in progress ==> exists i :: 0 <= i < |entries| && entries[i].0 == s
    requires senders == shards.Keys
    ensures progress' == KeepEpoch(progress, epoch)
    ensures shards'.Keys == senders' == StillToDump(progress, epoch, shards.Keys)
    ensures forall s :: s in shards' ==> shards'[s] == shards[s]
  {
    progress', shards', senders' := progress, shards, senders;
    for i := 0 to |entries|
      invariant forall s :: s in progress' <==>
                              && s in progress
                              && forall j :: 0 <= j < i && entries[j].0 == s ==> entries[j].1.epoch == epoch
      invariant forall s :: s in progress' ==> progress'[s] == progress[s]
      invariant forall s :: s in shards' <==>
                              && s in shards
                              && forall j :: 0 <= j < i && entries[j].0 == s ==> entries[j].1 != AllDumped(epoch)
      invariant forall s :: s in shards' ==> shards'[s] == shards[s]
      invariant senders' == shards'.Keys
    {
      var (s, p) := entries[i];
      if p.epoch != epoch {
        progress' := progress' - {s};
      } else if p.AllDumped? {
        shards' := shards' - {s};
        senders' := senders' - {s};
      }
    }
  }

  /** The parts without a file in the listing; an empty state has none to miss. */
  method MissingPartIds(total: nat, listed: seq<nat>) returns (missing: set<nat>)
    ensures missing == MissingParts(total, set p | p in listed)
  {
    missing := {};
    for i := 0 to total
      invariant missing == MissingParts(i, set p | p in listed)
    {
      if i !in listed {
        missing := missing + {i};
      }
    }
  }

  // ---------------------------------------------------------------------------
  // Steps
  // ---------------------------------------------------------------------------

  predicate HasTask(s: State, shard: ShardId, part: nat) {
    && s.current.InProgress?
    && shard in s.current.dump.shards
    && part < |s.current.dump.shards[shard].tasks|
  }

  function TaskOf(s: State, shard: ShardId, part: nat): Task
    requires HasTask(s, shard, part)
  {
    s.current.dump.shards[shard].tasks[part]
  }

  predicate HasShard(s: State, shard: ShardId) {
    s.current.InProgress? && shard in s.current.dump.shards
  }

  predicate OtherEpoch(c: CurrentDump, epoch: EpochId) {
    match c
    case NoDump => true
    case InProgress(d) => d.epoch != epoch
    case Done(e, _) => e != epoch
  }

  predicate Enabled(s: State, step: Step) {
    match step
    case PeerHeader(_, _) => true
    case PeerPart(_, _, _) => true
    case Restart(_) => true
    case Fail =>
      || s.phase.Booting?
      || s.phase.Looping?
      || (s.phase.Draining? && s.current.InProgress? && s.current.dump.shards == map[])
    case Boot(_, _) => s.phase.Booting?
    case HeaderFound(h) =>
      s.phase.CheckingHeaders? && h in s.phase.headers && (h, s.phase.plan.epoch) in s.store.headers
    case HeadersChecked => s.phase.CheckingHeaders?
    case PutHeader(h) => s.phase.UploadingHeaders? && h in s.phase.headers
    case ListAtInit(h, listed) =>
      && s.phase.UploadingHeaders? && s.phase.atInit && s.phase.headers == {} && h in s.phase.plan.shards
      && forall p :: p in listed ==> (h, s.phase.plan.epoch, p) in s.store.parts
    case StartUploads => s.phase.UploadingHeaders? && s.phase.headers == {}
    case RecordProgress(h) => s.phase.Recording? && h in s.phase.left && s.current.InProgress?
    case EnterLoop => s.phase == Recording({})
    case ListStored(h, listed) =>
      && s.phase.Looping? && HasShard(s, h)
      && forall p :: p in listed ==> (h, s.current.dump.epoch, p) in s.store.parts
    case PartsUploaded(h) => s.phase.Looping? && HasShard(s, h) && s.current.dump.shards[h].upload.Sent?
    case NewEpochDump(e, _) => s.phase.Looping? && !s.current.InProgress? && OtherEpoch(s.current, e)
    case CancelForEpoch(e) => s.phase.Looping? && s.current.InProgress? && OtherEpoch(s.current, e)
    case StopRequested => s.phase.Looping?
    case ResetCounter(h) => s.phase.Resetting? && h in s.phase.left && HasShard(s, h)
    case CountersReset => s.phase.Resetting? && s.phase.left == {}
    case Drain(h) => s.phase.Draining? && HasShard(s, h) && s.current.dump.shards[h].upload.Sent?
    case Drained(_) => s.phase.Draining? && s.current.InProgress? && s.current.dump.shards == map[]
    case StartTask(h, p) => HasTask(s, h, p) && TaskOf(s, h, p).NotStarted?
    case CheckFlag(h, p) => HasTask(s, h, p) && (TaskOf(s, h, p).CheckObtain? || TaskOf(s, h, p).CheckPut?)
    case ObtainResult(h, p, _) => HasTask(s, h, p) && TaskOf(s, h, p).Obtaining?
    case PutResult(h, p, _) => HasTask(s, h, p) && TaskOf(s, h, p).Putting?
    case CountPart(h, p) => HasTask(s, h, p) && TaskOf(s, h, p).Counting?
    case Report(h) =>
      && HasShard(s, h)
      && var d := s.current.dump.shards[h];
      && d.upload.Open?
      && ((forall p :: 0 <= p < |d.tasks| ==> d.tasks[p] == Finished(Ok))
          || (exists p :: 0 <= p < |d.tasks| && d.tasks[p] == Finished(Err)))
  }

  function SetShard(s: State, shard: ShardId, d: ShardDump): State
    requires s.current.InProgress?
  {
    s.(current := InProgress(s.current.dump.(shards := s.current.dump.shards[shard := d])))
  }

  function SetTask(s: State, shard: ShardId, part: nat, t: Task): State
    requires HasTask(s, shard, part)
  {
    var d := s.current.dump.shards[shard];
    SetShard(s, shard, d.(tasks := d.tasks[part := t]))
  }

  /** `get_dump_state` for a new epoch, followed by the header uploads without a presence check. */
  function BeginDump(n: PartCounts, s: State, epoch: EpochId, tracked: set<ShardId>): State {
    if tracked == {} then s.(current := Done(epoch, {}), phase := Looping)
    else s.(phase := UploadingHeaders(FreshDump(n, epoch, tracked, tracked), tracked, tracked, false))
  }

  /** `start_upload_parts`: a shard without parts reports at once, the others get their tasks. */
  function Started(d: ShardDump): ShardDump {
    if d.numParts == 0 then d.(upload := Sent(Ok)) else d
  }

  function StartedDump(d: DumpState): DumpState {
    d.(shards := map h | h in d.shards :: Started(d.shards[h]))
  }

  function Remove(s: State, shard: ShardId): DumpState
    requires s.current.InProgress?
  {
    s.current.dump.(shards := s.current.dump.shards - {shard})
  }

  /** `inc_parts_dumped`: a counter set to -1 stays there. */
  function Increment(dumped: int): int {
    if dumped >= 0 then dumped + 1 else dumped
  }

  function ApplyMain(n: PartCounts, s: State, step: Step): State
    requires Enabled(s, step)
  {
    match step
    case PeerHeader(h, e) => s.(store := s.store.(headers := s.store.headers + {(h, e)}))
    case PeerPart(h, e, p) => s.(store := s.store.(parts := s.store.parts + {(h, e, p)}))
    case Restart(dropped) => s.(progress := s.progress - dropped, current := NoDump, phase := Booting)
    case Fail => s.(phase := Stopped)
    case Boot(e, tracked) =>
      if tracked == {} then s.(current := Done(e, {}), phase := Looping)
      else
        var todo := StillToDump(s.progress, e, tracked);
        var s1 := s.(progress := KeepEpoch(s.progress, e));
        if todo == {} then s1.(current := Done(e, tracked), phase := Looping)
        else s1.(phase := CheckingHeaders(FreshDump(n, e, todo, tracked), todo, todo))
    case HeaderFound(h) => s.(phase := CheckingHeaders(s.phase.plan, s.phase.senders, s.phase.headers - {h}))
    case HeadersChecked => s.(phase := UploadingHeaders(s.phase.plan, s.phase.senders, s.phase.headers, true))
    case PutHeader(h) =>
      s.(store := s.store.(headers := s.store.headers + {(h, s.phase.plan.epoch)}),
         phase := UploadingHeaders(s.phase.plan, s.phase.senders, s.phase.headers - {h}, s.phase.atInit))
    case ListAtInit(h, listed) =>
      var d := s.phase.plan.shards[h];
      var d' := d.(missing := MissingParts(d.numParts, listed));
      s.(phase := s.phase.(plan := s.phase.plan.(shards := s.phase.plan.shards[h := d'])))
    case StartUploads =>
      s.(current := InProgress(StartedDump(s.phase.plan)), phase := Recording(s.phase.plan.shards.Keys))
    case RecordProgress(h) =>
      s.(progress := s.progress[h := Dumping(s.current.dump.epoch)], phase := Recording(s.phase.left - {h}))
    case EnterLoop => s.(phase := Looping)
    case ListStored(h, listed) =>
      var d := s.current.dump.shards[h];
      SetShard(s, h, d.(missing := MissingParts(d.numParts, listed)))
    case PartsUploaded(h) =>
      // both arms of the result match fall through to the same write
      var left := Remove(s, h);
      var s1 := s.(progress := s.progress[h := AllDumped(left.epoch)]);
      s1.(current := if left.shards == map[] then Done(left.epoch, left.tracked) else InProgress(left))
    case NewEpochDump(e, tracked) => BeginDump(n, s, e, tracked)
    case CancelForEpoch(e) =>
      s.(current := InProgress(s.current.dump.(canceled := true)),
          phase := Resetting(s.current.dump.shards.Keys, NewEpoch(e)))
    case StopRequested =>
      if s.current.InProgress? then
        s.(current := InProgress(s.current.dump.(canceled := true)),
            phase := Resetting(s.current.dump.shards.Keys, Shutdown))
      else s.(phase := Stopped)
    case ResetCounter(h) =>
      SetShard(s, h, s.current.dump.shards[h].(dumped := -1)).(phase := s.phase.(left := s.phase.left - {h}))
    case CountersReset => s.(phase := Draining(s.phase.reason))
    case Drain(h) => s.(current := InProgress(Remove(s, h)))
    case Drained(tracked) =>
      if s.phase.reason.Shutdown? then s.(phase := Stopped)
      else BeginDump(n, s, s.phase.reason.epoch, tracked)
    case _ => s
  }

  function ApplyTask(s: State, step: Step): State
    requires Enabled(s, step)
  {
    match step
    case StartTask(h, p) =>
      SetTask(s, h, p, if p in s.current.dump.shards[h].missing then CheckObtain else Counting)
    case CheckFlag(h, p) =>
      SetTask(s, h, p,
              if s.current.dump.canceled then Finished(Ok)
              else if TaskOf(s, h, p).CheckObtain? then Obtaining else Putting)
    case ObtainResult(h, p, ok) => SetTask(s, h, p, if ok then CheckPut else CheckObtain)
    case PutResult(h, p, ok) =>
      if ok then
        SetTask(s, h, p, Counting).(store := s.store.(parts := s.store.parts + {(h, s.current.dump.epoch, p)}))
      else SetTask(s, h, p, CheckPut)
    case CountPart(h, p) =>
      var d := s.current.dump.shards[h];
      SetShard(s, h, d.(tasks := d.tasks[p := Finished(Ok)], dumped := Increment(d.dumped)))
    case Report(h) =>
      var d := s.current.dump.shards[h];
      SetShard(s, h, d.(upload := Sent(if exists p :: 0 <= p < |d.tasks| && d.tasks[p] == Finished(Err) then Err
          else Ok)))
    case _ => s
  }

  predicate TaskStep(step: Step) {
    step.StartTask? || step.CheckFlag? || step.ObtainResult? || step.PutResult? || step.CountPart? || step.Report?
  }

  function Apply(n: PartCounts, s: State, step: Step): State
    requires Enabled(s, step)
  {
    if TaskStep(step) then ApplyTask(s, step) else ApplyMain(n, s, step)
  }

  // ---------------------------------------------------------------------------
  // Runs
  // ---------------------------------------------------------------------------

  /** A node that has never dumped anything, in front of an arbitrary external storage. */
  ghost predicate Init(s: State) {
    s.progress == map[] && s.current.NoDump? && s.phase.Booting?
  }

  ghost predicate ValidRun(n: PartCounts, s: State, steps: seq<Step>)
    decreases |steps|
  {
    steps == [] || (Enabled(s, steps[0]) && ValidRun(n, Apply(n, s, steps[0]), steps[1..]))
  }

  ghost function After(n: PartCounts, s: State, steps: seq<Step>): State
    requires ValidRun(n, s, steps)
    decreases |steps|
  {
    if steps == [] then s else After(n, Apply(n, s, steps[0]), steps[1..])
  }
}
