/** The database calls of the scheduler and the job API, updating the tables in place. */
module SchedulerRepository {
  import opened Common
  import opened JobStore

  class Database {
    var jobs: seq<Job>
    var shards: seq<Shard>
    var devices: map<Gpu, Device>

    ghost function Rows(): Store
      reads this
    {
      Store(jobs, shards, devices)
    }

    constructor ()
      ensures Rows() == Store([], [], map[])
    {
      jobs, shards, devices := [], [], map[];
    }

    method Initialize(rates: map<Gpu, nat>)
      modifies this
      ensures Rows() == JobStore.Initialize(old(Rows()), rates)
    {
      devices := map g | g in devices :: devices[g].(status := GpuStatus.Offline, currentJob := None);
      ghost var offline := devices;
      var todo := rates.Keys;
      while todo != {}
        invariant todo <= rates.Keys
        invariant jobs == old(jobs) && shards == old(shards)
        invariant devices.Keys == offline.Keys + (rates.Keys - todo)
        invariant forall g | g in devices ::
          devices[g] == if g in rates && g !in todo then Device(GpuStatus.Starting, rates[g], None) else offline[g]
        decreases todo
      {
        var g :| g in todo;
        devices := devices[g := Device(GpuStatus.Starting, rates[g], None)];
        todo := todo - {g};
      }
      assert devices == JobStore.Initialize(old(Rows()), rates).devices;
    }

    method RecoverInterruptedWork()
      modifies this
      ensures Rows() == Recover(old(Rows()))
    {
      for i := 0 to |shards|
        invariant |shards| == |old(shards)| && jobs == old(jobs) && devices == old(devices)
        invariant forall k | 0 <= k < |shards| ::
          shards[k] == if k < i then RecoverShard(old(shards)[k]) else old(shards)[k]
      {
        if shards[i].status.Assigned? || shards[i].status.Running? {
          shards := shards[i := shards[i].(status := ShardStatus.Failed)];
        }
      }
      for j := 0 to |jobs|
        invariant |jobs| == |old(jobs)| && devices == old(devices)
        invariant shards == Recover(old(Rows())).shards
        invariant forall k | 0 <= k < |jobs| ::
          jobs[k] == if k < j then RecoverJob(old(jobs)[k]) else old(jobs)[k]
      {
        if jobs[j].status.Active() {
          jobs := jobs[j := jobs[j].(status := JobStatus.Queued)];
          jobs := jobs[j := jobs[j].(nextOffset := jobs[j].searchOrigin, deadline := None)];
        }
      }
    }

    method ClaimNextJob(drawn: nat, now: int, timeout: int) returns (claimed: Option<JobId>)
      modifies this
      ensures (Rows(), claimed) == Claim(old(Rows()), drawn, now, timeout)
    {
      claimed := FirstActive(jobs);
      if claimed.Some? { return; }
      claimed := NextQueued(jobs);
      if claimed.None? { return; }
      var j := claimed.value;
      if jobs[j].searchOrigin.None? {
        jobs := jobs[j := jobs[j].(searchOrigin := Some(drawn))];
      }
      jobs := jobs[j := jobs[j].(nextOffset := jobs[j].searchOrigin)];
      jobs := jobs[j := jobs[j].(status := JobStatus.Searching)];
      jobs := jobs[j := jobs[j].(deadline := Some(now + timeout))];
      assert jobs == old(jobs)[j := jobs[j]];
    }

    method AllocateShard(j: JobId, g: Gpu, lease: nat, shardSeconds: int, batchMs: nat)
      returns (r: Allocation)
      modifies this
      ensures (Rows(), r) == Allocate(old(Rows()), j, g, lease, shardSeconds, batchMs)
    {
      if j >= |jobs| || g !in devices || !jobs[j].status.Searching? || !devices[g].status.Ready?
         || jobs[j].nextOffset.None? {
        return Refused;
      }
      var rate := Max(1, devices[g].rate);
      var count := Max(1, rate * shardSeconds);
      var start := jobs[j].nextOffset.value;
      if start + count >= SECP256K1_ORDER {
        jobs := jobs[j := jobs[j].(status := JobStatus.Failed)];
        return Refused;
      }
      if exists i | 0 <= i < |shards| :: shards[i].job == j && shards[i].start == start {
        return UniqueViolation;  // flush raises and the transaction is rolled back
      }
      var id := |shards|;
      shards := shards + [Shard(j, g, lease, start, count, 0, ShardStatus.Assigned)];
      jobs := jobs[j := jobs[j].(nextOffset := Some(start + count))];
      devices := devices[g := devices[g].(status := GpuStatus.Searching)];
      devices := devices[g := devices[g].(currentJob := Some(j))];
      assert devices == old(devices)[g := devices[g]];
      r := Allocated(WorkAssignment(j, id, lease, g, start, count, Max(1, rate * batchMs / 1000), rate));
    }

    method ActiveJobStatus(j: JobId, now: int) returns (status: Option<JobStatus>)
      modifies this
      ensures (Rows(), status) == CheckDeadline(old(Rows()), j, now)
    {
      if j >= |jobs| { return None; }
      if jobs[j].status.Searching? && jobs[j].deadline.Some? && jobs[j].deadline.value <= now {
        jobs := jobs[j := jobs[j].(status := JobStatus.TimedOut)];
      }
      status := Some(jobs[j].status);
    }

    /** `finalize_candidate`, the only writer of results. */
    method FinalizeCandidate(j: JobId, w: Winner, verified: bool) returns (r: FinalizeOutcome)
      modifies this
      ensures (Rows(), r) == Finalize(old(Rows()), j, w, verified)
    {
      if j >= |jobs| { return JobNotFound; }
      if jobs[j].result.Some? { return AlreadyDone; }
      if !jobs[j].status.Accepting() { return StateConflict; }
      if !verified { return VerificationFailed; }
      jobs := jobs[j := jobs[j].(result := Some(w))];
      jobs := jobs[j := jobs[j].(status := JobStatus.Ready)];
      assert jobs == old(jobs)[j := jobs[j]];
      r := Accepted;
    }

    method AddAttempts(j: JobId, delta: nat)
      modifies this
      ensures Rows() == JobStore.AddAttempts(old(Rows()), j, delta)
    {
      if j < |jobs| {
        jobs := jobs[j := jobs[j].(attempts := jobs[j].attempts + delta)];
      }
    }

    method FailShardAndJob(i: ShardId, g: Gpu)
      requires i < |shards| && g in devices
      modifies this
      ensures Rows() == RejectWinner(old(Rows()), i, g)
    {
      shards := shards[i := shards[i].(status := ShardStatus.Failed)];
      devices := devices[g := devices[g].(status := GpuStatus.Unhealthy)];
      var j := shards[i].job;
      if j < |jobs| {
        jobs := jobs[j := jobs[j].(status := JobStatus.Failed)];
      }
    }

    method RecordWinner(i: ShardId, e: WorkerEvent, verified: bool)
      requires i < |shards| && e.gpu in devices
      modifies this
      ensures Rows() == RecordFound(old(Rows()), i, e, verified)
    {
      shards := shards[i := shards[i].(status := ShardStatus.Found)];
      var previous := shards[i].processed;
      shards := shards[i := shards[i].(processed := Max(previous, e.processed))];
      assert shards == old(shards)[i := shards[i]];
      AddAttempts(shards[i].job, shards[i].processed - previous);
      assert Rows() == Credit(old(Rows()), i, ShardStatus.Found, e.processed);
      if e.address.None? || e.offset.None? {
        FailShardAndJob(i, e.gpu);
        return;
      }
      var outcome := FinalizeCandidate(shards[i].job, Winner(e.address.value, e.offset.value), verified);
      match outcome {
        case StateConflict => shards := shards[i := shards[i].(status := ShardStatus.Canceled)];
        case JobNotFound => FailShardAndJob(i, e.gpu);
        case VerificationFailed => FailShardAndJob(i, e.gpu);
        case _ =>
      }
    }

    method UpdateDevice(e: WorkerEvent)
      requires e.gpu in devices
      modifies this
      ensures Rows() == old(Rows()).(devices := old(devices)[e.gpu := DeviceAfter(old(devices)[e.gpu], e)])
    {
      var d := devices[e.gpu];
      if e.rate > 0 {
        var current := Max(0, d.rate);
        d := d.(rate := if current == 0 then e.rate else Max(1, (current * 3 + e.rate) / 4));
      }
      match e.kind {
        case STARTING => d := d.(status := GpuStatus.Starting);
        case SELF_TESTING => d := d.(status := GpuStatus.SelfTesting);
        case READY => d := d.(status := GpuStatus.Ready, currentJob := None);
        case STOPPED => d := d.(status := GpuStatus.Offline, currentJob := None);
        case FAILED => d := d.(status := GpuStatus.Unhealthy, currentJob := None);
        case _ =>
      }
      devices := devices[e.gpu := d];
    }

    method RecordEvent(e: WorkerEvent, verified: bool)
      modifies this
      ensures Rows() == JobStore.RecordEvent(old(Rows()), e, verified)
    {
      if e.gpu !in devices { return; }
      UpdateDevice(e);
      var shard := MatchingShard(shards, e);
      if shard.None? { return; }
      var i := shard.value;
      match e.kind {
        case STARTED => shards := shards[i := shards[i].(status := ShardStatus.Running)];
        case PROGRESS =>
          var previous := shards[i].processed;
          shards := shards[i := shards[i].(processed := Max(previous, e.processed))];
          AddAttempts(shards[i].job, shards[i].processed - previous);
        case EXHAUSTED =>
          shards := shards[i := shards[i].(status := ShardStatus.Exhausted)];
          shards := shards[i := shards[i].(processed := Max(shards[i].processed, e.processed))];
        case FOUND => RecordWinner(i, e, verified);
        case CANCELED =>
          shards := shards[i := shards[i].(status := ShardStatus.Canceled)];
          shards := shards[i := shards[i].(processed := Max(shards[i].processed, e.processed))];
        case FAILED => shards := shards[i := shards[i].(status := ShardStatus.Failed)];
        case _ =>
      }
    }

    // ---- Job routes ---------------------------------------------------------------------------

    method CreateJob(user: nat, key: Option<string>, priority: int) returns (id: Option<JobId>)
      modifies this
      ensures (Rows(), id) == JobStore.CreateJob(old(Rows()), user, key, priority)
    {
      if key.Some? && !WellFormedKey(key.value) { return None; }
      if key.Some? {
        var existing := FindKey(jobs, user, key.value);
        if existing.Some? { return existing; }
      }
      id := Some(|jobs|);
      jobs := jobs + [NewJob(user, key, priority)];
    }

    method CancelJob(user: nat, j: JobId) returns (r: CancelOutcome)
      modifies this
      ensures (Rows(), r) == JobStore.CancelJob(old(Rows()), user, j)
    {
      if j >= |jobs| || jobs[j].user != user { return CancelNotFound; }
      if jobs[j].status.Canceled? { return AlreadyCanceled; }
      if jobs[j].status.Terminal() { return CancelConflict; }
      jobs := jobs[j := jobs[j].(status := JobStatus.Canceled)];
      r := CancelDone;
    }
  }
}
