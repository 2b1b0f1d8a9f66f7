/**
 The rows of the generation database and what one committed call does to them
 (backend/app/models.py, generator/repository.py, services/results.py, api/routes/jobs.py).

 Rows are kept in insertion order and a row's id is its position, so ids are unique and
 `created_at` order is position order.
 */
module JobStore {
  import opened Common

  type JobId = nat
  type ShardId = nat
  type Gpu = string

  datatype JobStatus =
    Queued | Searching | Verifying | Ready | OwnershipVerified | Failed | Canceled | TimedOut
  {
    predicate Terminal() { Ready? || OwnershipVerified? || Failed? || Canceled? || TimedOut? }
    predicate Active() { Searching? || Verifying? }
    predicate Accepting() { Queued? || Searching? || Verifying? }
  }

  datatype ShardStatus = Assigned | Running | Exhausted | Found | Canceled | Failed
  datatype GpuStatus = Starting | SelfTesting | Ready | Searching | Unhealthy | Offline

  datatype Winner = Winner(address: string, offset: string)

  datatype Job = Job(
    user: nat, key: Option<string>, status: JobStatus, priority: int, attempts: nat,
    searchOrigin: Option<nat>, nextOffset: Option<nat>, deadline: Option<int>,
    result: Option<Winner>)

  datatype Shard = Shard(
    job: JobId, gpu: Gpu, lease: nat, start: nat, count: nat, processed: nat, status: ShardStatus)

  datatype Device = Device(status: GpuStatus, rate: int, currentJob: Option<JobId>)

  datatype Store = Store(jobs: seq<Job>, shards: seq<Shard>, devices: map<Gpu, Device>)

  datatype EventKind =
    STARTING | SELF_TESTING | READY | STARTED | PROGRESS | EXHAUSTED | FOUND | CANCELED | FAILED | STOPPED

  datatype WorkerEvent = WorkerEvent(
    kind: EventKind, gpu: Gpu, job: Option<JobId>, shard: Option<ShardId>, lease: Option<nat>,
    processed: nat, rate: int, address: Option<string>, offset: Option<string>)

  datatype WorkAssignment = WorkAssignment(
    job: JobId, shard: ShardId, lease: nat, gpu: Gpu, start: nat, count: nat, batch: nat, rate: nat)

  // ---- Jobs: creation, cancellation, result --------------------------------------------------

  function FindKey(jobs: seq<Job>, user: nat, key: string): (r: Option<JobId>)
    ensures r.Some? ==> r.value < |jobs| && jobs[r.value].user == user && jobs[r.value].key == Some(key)
    ensures r.None? ==> forall j | 0 <= j < |jobs| :: !(jobs[j].user == user && jobs[j].key == Some(key))
  {
    if jobs == [] then None else
      var last := |jobs| - 1;
      var earlier := FindKey(jobs[..last], user, key);
      if earlier.Some? then earlier
      else if jobs[last].user == user && jobs[last].key == Some(key) then Some(last)
      else None
  }

  function NewJob(user: nat, key: Option<string>, priority: int): Job {
    Job(user, key, JobStatus.Queued, priority, 0, None, None, None, None)
  }

  predicate SafeCharacter(c: char) {
    'A' <= c <= 'Z' || 'a' <= c <= 'z' || '0' <= c <= '9' || c in "_.:-"
  }

  predicate WellFormedKey(key: string) {
    1 <= |key| <= 128 && forall i | 0 <= i < |key| :: SafeCharacter(key[i])
  }

  /** `create_job`: a malformed idempotency key is refused, a known one answers with the row it already made. */
  function CreateJob(st: Store, user: nat, key: Option<string>, priority: int): (Store, Option<JobId>) {
    if key.Some? && !WellFormedKey(key.value) then (st, None)
    else
      var existing := if key.Some? then FindKey(st.jobs, user, key.value) else None;
      if existing.Some? then (st, existing)
      else (st.(jobs := st.jobs + [NewJob(user, key, priority)]), Some(|st.jobs|))
  }

  datatype CancelOutcome = CancelNotFound | AlreadyCanceled | CancelConflict | CancelDone

  /** `cancel_job`: somebody else's job is as good as none. */
  function CancelJob(st: Store, user: nat, j: JobId): (Store, CancelOutcome) {
    if j >= |st.jobs| || st.jobs[j].user != user then (st, CancelNotFound)
    else if st.jobs[j].status.Canceled? then (st, AlreadyCanceled)
    else if st.jobs[j].status.Terminal() then (st, CancelConflict)
    else (SetStatus(st, j, JobStatus.Canceled), CancelDone)
  }

  function SetStatus(st: Store, j: JobId, status: JobStatus): Store
    requires j < |st.jobs|
  {
    st.(jobs := st.jobs[j := st.jobs[j].(status := status)])
  }

  datatype FinalizeOutcome = Accepted | AlreadyDone | JobNotFound | StateConflict | VerificationFailed

  /** `finalize_candidate`; `verified` is the verdict of the key and address checks. */
  function Finalize(st: Store, j: JobId, w: Winner, verified: bool): (Store, FinalizeOutcome) {
    if j >= |st.jobs| then (st, JobNotFound)
    else if st.jobs[j].result.Some? then (st, AlreadyDone)
    else if !st.jobs[j].status.Accepting() then (st, StateConflict)
    else if !verified then (st, VerificationFailed)
    else (st.(jobs := st.jobs[j := st.jobs[j].(status := JobStatus.Ready, result := Some(w))]), Accepted)
  }

  // ---- Scheduler calls -----------------------------------------------------------------------

  function RecoverJob(job: Job): Job {
    if job.status.Active()
    then job.(status := JobStatus.Queued, nextOffset := job.searchOrigin, deadline := None)
    else job
  }

  function RecoverShard(shard: Shard): Shard {
    if shard.status.Assigned? || shard.status.Running?
    then shard.(status := ShardStatus.Failed) else shard
  }

  function Recover(st: Store): Store {
    st.(jobs := seq(|st.jobs|, i requires 0 <= i < |st.jobs| => RecoverJob(st.jobs[i])),
        shards := seq(|st.shards|, i requires 0 <= i < |st.shards| => RecoverShard(st.shards[i])))
  }

  /** `initialize`: every known device goes offline, every discovered one is starting. */
  function Initialize(st: Store, rates: map<Gpu, nat>): Store {
    st.(devices :=
      map g | g in st.devices.Keys + rates.Keys ::
        if g in rates then Device(GpuStatus.Starting, rates[g], None)
        else st.devices[g].(status := GpuStatus.Offline, currentJob := None))
  }

  function FirstActive(jobs: seq<Job>): (r: Option<JobId>)
    ensures r.Some? ==> r.value < |jobs| && jobs[r.value].status.Active()
    ensures r.None? ==> forall j | 0 <= j < |jobs| :: !jobs[j].status.Active()
  {
    if jobs == [] then None else
      var last := |jobs| - 1;
      var earlier := FirstActive(jobs[..last]);
      if earlier.Some? then earlier
      else if jobs[last].status.Active() then Some(last) else None
  }

  /** Highest priority first, then oldest first. */
  function NextQueued(jobs: seq<Job>): (r: Option<JobId>)
    ensures r.Some? ==> r.value < |jobs| && jobs[r.value].status.Queued?
    ensures r.Some? ==> forall k | 0 <= k < |jobs| && jobs[k].status.Queued? ::
      jobs[k].priority < jobs[r.value].priority || (jobs[k].priority == jobs[r.value].priority && r.value <= k)
    ensures r.None? ==> forall k | 0 <= k < |jobs| :: !jobs[k].status.Queued?
  {
    if jobs == [] then None else
      var last := |jobs| - 1;
      var best := NextQueued(jobs[..last]);
      if !jobs[last].status.Queued? then best
      else if best.None? || jobs[best.value].priority < jobs[last].priority then Some(last)
      else best
  }

  /** `claim_next_job`; `drawn` is the random origin drawn when the job has none. */
  function Claim(st: Store, drawn: nat, now: int, timeout: int): (Store, Option<JobId>) {
    var existing := FirstActive(st.jobs);
    if existing.Some? then (st, existing)
    else
      var next := NextQueued(st.jobs);
      if next.None? then (st, None)
      else
        var job := st.jobs[next.value];
        var origin := if job.searchOrigin.None? then drawn else job.searchOrigin.value;
        (st.(jobs := st.jobs[next.value := job.(
          searchOrigin := Some(origin), nextOffset := Some(origin), status := JobStatus.Searching,
          deadline := Some(now + timeout))]), next)
  }

  datatype Allocation = Allocated(assignment: WorkAssignment) | Refused | UniqueViolation

  /** The (job_id, range_start) uniqueness constraint of the shard table. */
  predicate StartTaken(shards: seq<Shard>, j: JobId, start: nat) {
    exists i | 0 <= i < |shards| :: shards[i].job == j && shards[i].start == start
  }

  /** `allocate_shard`; a constraint violation rolls the whole call back and raises. */
  function Allocate(st: Store, j: JobId, g: Gpu, lease: nat, shardSeconds: int, batchMs: nat)
    : (Store, Allocation)
  {
    if j >= |st.jobs| || g !in st.devices || !st.jobs[j].status.Searching? ||
       !st.devices[g].status.Ready? || st.jobs[j].nextOffset.None?
    then (st, Refused)
    else
      var rate := Max(1, st.devices[g].rate);
      var count := Max(1, rate * shardSeconds);
      var start := st.jobs[j].nextOffset.value;
      if start + count >= SECP256K1_ORDER then (SetStatus(st, j, JobStatus.Failed), Refused)
      else if StartTaken(st.shards, j, start) then (st, UniqueViolation)
      else
        (Store(st.jobs[j := st.jobs[j].(nextOffset := Some(start + count))],
               st.shards + [Shard(j, g, lease, start, count, 0, ShardStatus.Assigned)],
               st.devices[g := st.devices[g].(status := GpuStatus.Searching, currentJob := Some(j))]),
         Allocated(WorkAssignment(j, |st.shards|, lease, g, start, count,
                                  Max(1, rate * batchMs / 1000), rate)))
  }

  /** `active_job_status`: reading an overdue job times it out. */
  function CheckDeadline(st: Store, j: JobId, now: int): (Store, Option<JobStatus>) {
    if j >= |st.jobs| then (st, None)
    else
      var job := st.jobs[j];
      if job.status.Searching? && job.deadline.Some? && job.deadline.value <= now
      then (SetStatus(st, j, JobStatus.TimedOut), Some(JobStatus.TimedOut))
      else (st, Some(job.status))
  }

  // ---- Recording worker events ---------------------------------------------------------------

  function SmoothedRate(current: int, observed: int): int {
    if observed <= 0 then current
    else if Max(0, current) == 0 then observed
    else Max(1, (current * 3 + observed) / 4)
  }

  function DeviceAfter(d: Device, e: WorkerEvent): Device {
    var d := d.(rate := SmoothedRate(d.rate, e.rate));
    match e.kind
    case STARTING => d.(status := GpuStatus.Starting)
    case SELF_TESTING => d.(status := GpuStatus.SelfTesting)
    case READY => d.(status := GpuStatus.Ready, currentJob := None)
    case STOPPED => d.(status := GpuStatus.Offline, currentJob := None)
    case FAILED => d.(status := GpuStatus.Unhealthy, currentJob := None)
    case _ => d
  }

  /** An event speaks about a shard only when it carries that shard's lease. */
  function MatchingShard(shards: seq<Shard>, e: WorkerEvent): (r: Option<ShardId>)
    ensures r.Some? ==> r.value < |shards| && e.shard == r && e.lease == Some(shards[r.value].lease)
    ensures r.None? ==> forall i | 0 <= i < |shards| :: !(e.shard == Some(i) && e.lease == Some(shards[i].lease))
  {
    if e.shard.Some? && e.lease.Some? && e.shard.value < |shards|
       && shards[e.shard.value].lease == e.lease.value
    then Some(e.shard.value) else None
  }

  function SetShard(st: Store, i: ShardId, status: ShardStatus, processed: nat): Store
    requires i < |st.shards|
  {
    st.(shards := st.shards[i := st.shards[i].(status := status, processed := processed)])
  }

  function AddAttempts(st: Store, j: JobId, delta: nat): Store {
    if j < |st.jobs| then st.(jobs := st.jobs[j := st.jobs[j].(attempts := st.jobs[j].attempts + delta)])
    else st
  }

  /** Raises `processed` to the reported total and credits the job with the difference. */
  function Credit(st: Store, i: ShardId, status: ShardStatus, total: nat): Store
    requires i < |st.shards|
  {
    var previous := st.shards[i].processed;
    var raised := Max(previous, total);
    AddAttempts(SetShard(st, i, status, raised), st.shards[i].job, raised - previous)
  }

  /** What a rejected winner does: the shard fails, the device is unhealthy, the job is failed. */
  function RejectWinner(st: Store, i: ShardId, g: Gpu): Store
    requires i < |st.shards| && g in st.devices
  {
    var st := SetShard(st, i, ShardStatus.Failed, st.shards[i].processed);
    var st := st.(devices := st.devices[g := st.devices[g].(status := GpuStatus.Unhealthy)]);
    var j := st.shards[i].job;
    if j < |st.jobs| then SetStatus(st, j, JobStatus.Failed) else st
  }

  function RecordFound(st: Store, i: ShardId, e: WorkerEvent, verified: bool): Store
    requires i < |st.shards| && e.gpu in st.devices
  {
    var st := Credit(st, i, ShardStatus.Found, e.processed);
    if e.address.None? || e.offset.None? then RejectWinner(st, i, e.gpu)
    else
      var (st', outcome) := Finalize(st, st.shards[i].job, Winner(e.address.value, e.offset.value), verified);
      match outcome
      case StateConflict => SetShard(st, i, ShardStatus.Canceled, st.shards[i].processed)
      case JobNotFound => RejectWinner(st, i, e.gpu)
      case VerificationFailed => RejectWinner(st, i, e.gpu)
      case _ => st'
  }

  function RecordShard(st: Store, i: ShardId, e: WorkerEvent, verified: bool): Store
    requires i < |st.shards| && e.gpu in st.devices
  {
    var shard := st.shards[i];
    match e.kind
    case STARTED => SetShard(st, i, ShardStatus.Running, shard.processed)
    case PROGRESS => Credit(st, i, shard.status, e.processed)
    case EXHAUSTED => SetShard(st, i, ShardStatus.Exhausted, Max(shard.processed, e.processed))
    case FOUND => RecordFound(st, i, e, verified)
    case CANCELED => SetShard(st, i, ShardStatus.Canceled, Max(shard.processed, e.processed))
    case FAILED => SetShard(st, i, ShardStatus.Failed, shard.processed)
    case _ => st
  }

  function RecordEvent(st: Store, e: WorkerEvent, verified: bool): Store {
    if e.gpu !in st.devices then st
    else
      var st := st.(devices := st.devices[e.gpu := DeviceAfter(st.devices[e.gpu], e)]);
      var shard := MatchingShard(st.shards, e);
      if shard.None? then st else RecordShard(st, shard.value, e, verified)
  }
}
