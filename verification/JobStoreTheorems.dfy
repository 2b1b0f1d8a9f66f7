/** Exact statements about single calls on the generation tables. */
module JobStoreTheorems {
  import opened Common
  import opened JobStore
  import opened JobStoreProofs

  /** When `allocate_shard` gets as far as inserting a row. */
  predicate WouldAllocate(st: Store, j: JobId, g: Gpu, shardSeconds: int) {
    && j < |st.jobs| && g in st.devices && st.jobs[j].status.Searching? && st.devices[g].status.Ready?
    && st.jobs[j].nextOffset.Some?
    && st.jobs[j].nextOffset.value + Max(1, Max(1, st.devices[g].rate) * shardSeconds) < SECP256K1_ORDER
  }

  /**
   The insert violates the (job_id, range_start) constraint exactly when the job already has shards
   and its next offset was rewound to the origin.
   */
  lemma AllocationConflictsIffRewound(st: Store, j: JobId, g: Gpu, lease: nat, shardSeconds: int, batchMs: nat)
    requires StoreOk(st) && WouldAllocate(st, j, g, shardSeconds)
    ensures Allocate(st, j, g, lease, shardSeconds, batchMs).1.UniqueViolation?
      <==> (&& (exists i | 0 <= i < |st.shards| :: st.shards[i].job == j)
            && st.jobs[j].nextOffset == st.jobs[j].searchOrigin)
  {
    assert JobOk(st.jobs[j]) && RangesOk(st, j);
    var origin, next := st.jobs[j].searchOrigin.value, st.jobs[j].nextOffset.value;
    TilesBelowEnd(st.shards, j, origin);
    if i :| 0 <= i < |st.shards| && st.shards[i].job == j {
      OwnedShardMovesEnd(st.shards, j, origin, i);
      FreeStartIsNotOrigin(st.shards, j, origin);
    }
    if StartTaken(st.shards, j, next) {
      var i :| 0 <= i < |st.shards| && st.shards[i].job == j && st.shards[i].start == next;
      assert ShardOk(st, st.shards[i]);
    }
  }

  /**
   A job whose search was interrupted after its first shard can be claimed again, but its next
   allocation always raises: recovery rewinds the offset and keeps the old rows.
   */
  lemma InterruptedSearchCannotResume(
    st: Store, j: JobId, i: ShardId, drawn: nat, now: int, timeout: int,
    g: Gpu, rate: nat, lease: nat, shardSeconds: int, batchMs: nat)
    requires StoreOk(st) && 1 <= drawn < SECP256K1_ORDER
    requires j < |st.jobs| && st.jobs[j].status.Searching?
    requires i < |st.shards| && st.shards[i].job == j
    ensures var claimed := Claim(Recover(st), drawn, now, timeout);
      var ready := claimed.0.(devices := claimed.0.devices[g := Device(GpuStatus.Ready, rate, None)]);
      claimed.1 == Some(j) && WouldAllocate(ready, j, g, shardSeconds) ==>
        Allocate(ready, j, g, lease, shardSeconds, batchMs).1.UniqueViolation?
  {
    RecoverTouches(st);
    RecoverKeepsStoreOk(st);
    ClaimKeepsStoreOk(Recover(st), drawn, now, timeout);
    var (st', claimed) := Claim(Recover(st), drawn, now, timeout);
    var ready := st'.(devices := st'.devices[g := Device(GpuStatus.Ready, rate, None)]);
    StatusChangeKeepsStoreOk(st', ready);
    if claimed == Some(j) && WouldAllocate(ready, j, g, shardSeconds) {
      assert ready.shards[i].job == j;
      AllocationConflictsIffRewound(ready, j, g, lease, shardSeconds, batchMs);
    }
  }

  /** An event that reaches its shard: known device, known shard, right lease. */
  predicate Reaches(st: Store, e: WorkerEvent) { e.gpu in st.devices && MatchingShard(st.shards, e).Some? }

  /** Recording an event moves a finished job exactly when a winner without address or offset arrives for it. */
  lemma FinishedJobMovesIff(st: Store, e: WorkerEvent, verified: bool, j: JobId)
    requires StoreOk(st) && j < |st.jobs| && st.jobs[j].status.Terminal()
    ensures RecordEvent(st, e, verified).jobs[j].status != st.jobs[j].status
      <==> (&& Reaches(st, e) && e.kind.FOUND? && (e.address.None? || e.offset.None?)
            && st.shards[e.shard.value].job == j && !st.jobs[j].status.Failed?)
  {
    if Reaches(st, e) {
      assert ShardOk(st, st.shards[e.shard.value]);
    }
    if e.kind.FOUND? {
      assert JobOk(st.jobs[j]);
      WinnerMovesIff(st, e, verified, j);
    } else {
      hide RecordEvent;
      OnlyWinnersMoveStatus(st, e, verified, j);
    }
  }

  lemma OnlyWinnersMoveStatus(st: Store, e: WorkerEvent, verified: bool, j: JobId)
    requires j < |st.jobs| && !e.kind.FOUND?
    ensures |RecordEvent(st, e, verified).jobs| == |st.jobs|
    ensures RecordEvent(st, e, verified).jobs[j].status == st.jobs[j].status
  {
    hide RecordFound, DeviceAfter;
  }

  lemma WinnerMovesIff(st: Store, e: WorkerEvent, verified: bool, j: JobId)
    requires j < |st.jobs| && st.jobs[j].status.Terminal() && JobOk(st.jobs[j]) && e.kind.FOUND?
    requires Reaches(st, e) ==> st.shards[e.shard.value].job < |st.jobs|
    ensures |RecordEvent(st, e, verified).jobs| == |st.jobs|
    ensures RecordEvent(st, e, verified).jobs[j].status != st.jobs[j].status
      <==> (&& Reaches(st, e) && (e.address.None? || e.offset.None?)
            && st.shards[e.shard.value].job == j && !st.jobs[j].status.Failed?)
  {
    hide DeviceAfter;
  }

  /**
   Recording an event keeps attempts equal to the shards' progress exactly when it is not a final
   report (EXHAUSTED or CANCELED) that claims more than the last PROGRESS did.
   */
  lemma AttemptsStayExactIff(st: Store, e: WorkerEvent, verified: bool)
    requires StoreOk(st)
    ensures var st' := RecordEvent(st, e, verified);
      (forall j | 0 <= j < |st'.jobs| :: AccountOk(st', j))
      <==> !(&& Reaches(st, e) && (e.kind.EXHAUSTED? || e.kind.CANCELED?)
             && e.processed > st.shards[e.shard.value].processed)
  {
    var st' := RecordEvent(st, e, verified);
    if Reaches(st, e) {
      var i := e.shard.value;
      assert ShardOk(st, st.shards[i]);
      var job := st.shards[i].job;
      RecordedProgress(st, e, verified);
      forall j | 0 <= j < |st.jobs|
        ensures AccountOk(st', j) <==> (
          st'.jobs[j].attempts - st.jobs[j].attempts
          == if j == job then st'.shards[i].processed - st.shards[i].processed else 0)
      {
        assert AccountOk(st, j);
        ProcessedAfterUpdate(st.shards, i, st'.shards[i], j);
      }
    } else {
      forall j | 0 <= j < |st.jobs| ensures AccountOk(st', j) { assert AccountOk(st, j); }
    }
  }

  lemma RecordedProgress(st: Store, e: WorkerEvent, verified: bool)
    requires Reaches(st, e) && st.shards[e.shard.value].job < |st.jobs|
    ensures var st', i := RecordEvent(st, e, verified), e.shard.value;
      var job := st.shards[i].job;
      && |st'.jobs| == |st.jobs| && |st'.shards| == |st.shards| && st'.shards == st.shards[i := st'.shards[i]]
      && st'.shards[i].job == job
      && (forall j | 0 <= j < |st.jobs| && j != job :: st'.jobs[j].attempts == st.jobs[j].attempts)
      && st'.jobs[job].attempts - st.jobs[job].attempts
         == (if e.kind.PROGRESS? || e.kind.FOUND? then st'.shards[i].processed - st.shards[i].processed else 0)
      && st'.shards[i].processed
         == (if e.kind.PROGRESS? || e.kind.FOUND? || e.kind.EXHAUSTED? || e.kind.CANCELED?
             then Max(st.shards[i].processed, e.processed) else st.shards[i].processed)
  {
  }

  // ---- Device rows -----------------------------------------------------------------------------

  /** A useful observation moves the stored rate to or towards it, never past it and never to zero. */
  lemma SmoothedRateIsBetween(current: int, observed: int)
    ensures observed <= 0 ==> SmoothedRate(current, observed) == current
    ensures observed > 0 && current <= 0 ==> SmoothedRate(current, observed) == observed
    ensures observed > 0 && current > 0 ==>
      && 1 <= Min(current, observed) <= SmoothedRate(current, observed) <= Max(current, observed)
      && (observed < current ==> SmoothedRate(current, observed) < current)
      && (observed >= current + 4 ==> SmoothedRate(current, observed) > current)
  {
  }

  lemma ShardRecordAndDevices(st: Store, i: ShardId, e: WorkerEvent, verified: bool, g: Gpu)
    requires i < |st.shards| && e.gpu in st.devices && g in st.devices
    ensures var d, after := st.devices[g], RecordShard(st, i, e, verified).devices;
      && g in after
      && after[g].rate == d.rate && after[g].currentJob == d.currentJob
      && (after[g].status == d.status || (g == e.gpu && e.kind.FOUND? && after[g].status.Unhealthy?))
  {
  }

  lemma DeviceWord(d: Device, e: WorkerEvent)
    ensures var after := DeviceAfter(d, e);
      && (after.status.Ready? && !d.status.Ready? ==> e.kind.READY?)
      && (e.kind.READY? ==> after.status.Ready? && after.currentJob.None?)
      && (after.rate <= 0 ==> after.rate == d.rate)
  {
  }

  /** Only the news of a worker's own state change its device's status, and only READY makes it available. */
  lemma DeviceStatusFollowsWorker(st: Store, e: WorkerEvent, verified: bool, g: Gpu)
    requires g in st.devices
    ensures var d, st' := st.devices[g], RecordEvent(st, e, verified);
      && g in st'.devices
      && (g != e.gpu ==> st'.devices[g] == d)
      && (st'.devices[g].status.Ready? && !d.status.Ready? ==> g == e.gpu && e.kind.READY?)
      && (g == e.gpu && e.kind.READY? ==> st'.devices[g].status.Ready? && st'.devices[g].currentJob.None?)
      && (st'.devices[g].rate <= 0 ==> st'.devices[g].rate == d.rate)
  {
    hide DeviceAfter, RecordShard;
    if e.gpu in st.devices {
      DeviceWord(st.devices[e.gpu], e);
      var st1 := st.(devices := st.devices[e.gpu := DeviceAfter(st.devices[e.gpu], e)]);
      var shard := MatchingShard(st1.shards, e);
      if shard.Some? { ShardRecordAndDevices(st1, shard.value, e, verified, g); }
    }
  }
}
