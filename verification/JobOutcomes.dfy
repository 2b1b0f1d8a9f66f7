/**
 What each call on the generation tables decides, in its caller's terms: which outcome, for exactly which
 rows, and what is left alone.
 */
module JobOutcomes {
  import opened Common
  import Digits
  import opened JobStore
  import opened JobStoreProofs
  import opened JobStoreTheorems

  /** The tables differ at most in the row of job j. */
  predicate OnlyJob(st: Store, st': Store, j: JobId) {
    && st'.shards == st.shards && st'.devices == st.devices && |st'.jobs| == |st.jobs|
    && forall k | 0 <= k < |st.jobs| && k != j :: st'.jobs[k] == st.jobs[k]
  }

  // ---- Creation --------------------------------------------------------------------------------

  /** A new row is queued with nothing done yet, and asking again with its key finds it and adds nothing. */
  lemma CreatedJobIsQueued(st: Store, user: nat, key: Option<string>, priority: int)
    ensures var (st', id) := CreateJob(st, user, key, priority);
      && (id.None? <==> key.Some? && !WellFormedKey(key.value)) && (id.None? ==> st' == st)
      && (id.Some? && id.value < |st.jobs| ==>
            st' == st && key.Some? && st.jobs[id.value].user == user && st.jobs[id.value].key == key)
      && (id.Some? && id.value >= |st.jobs| ==>
            && id.value == |st.jobs| && st'.jobs == st.jobs + [st'.jobs[id.value]]
            && st'.shards == st.shards && st'.devices == st.devices
            && var job := st'.jobs[id.value];
               && job.user == user && job.key == key && job.priority == priority && job.status.Queued?
               && job.attempts == 0 && job.result.None? && job.searchOrigin.None? && job.nextOffset.None?)
  {
  }

  lemma CreationIsIdempotent(st: Store, user: nat, key: string, priority: int, other: int)
    requires WellFormedKey(key)
    ensures var (st', id) := CreateJob(st, user, Some(key), priority);
      CreateJob(st', user, Some(key), other) == (st', id)
  {
    hide WellFormedKey;
    var (st', id) := CreateJob(st, user, Some(key), priority);
    if FindKey(st.jobs, user, key).None? {
      assert st'.jobs[..|st.jobs|] == st.jobs;
    }
  }

  // ---- Cancellation ----------------------------------------------------------------------------

  /** Exactly the owner cancels, exactly what is not over, and nothing else changes. */
  lemma CancelDecided(st: Store, user: nat, j: JobId)
    ensures var (st', r) := CancelJob(st, user, j);
      && (r.CancelNotFound? <==> !(j < |st.jobs| && st.jobs[j].user == user))
      && (r.CancelDone? <==> j < |st.jobs| && st.jobs[j].user == user && !st.jobs[j].status.Terminal())
      && (r.AlreadyCanceled? <==> j < |st.jobs| && st.jobs[j].user == user && st.jobs[j].status.Canceled?)
      && (!r.CancelDone? ==> st' == st)
      && (r.CancelDone? ==>
            OnlyJob(st, st', j) && st'.jobs[j] == st.jobs[j].(status := JobStatus.Canceled))
  {
  }

  /** After that nobody works on the job any more: no shard, no result, no claim, no time-out. */
  lemma CanceledJobIsLeftAlone(st: Store, user: nat, j: JobId, g: Gpu, lease: nat, shardSeconds: int, batchMs: nat,
                               w: Winner, verified: bool, drawn: nat, now: int, timeout: int)
    requires StoreOk(st) && CancelJob(st, user, j).1.CancelDone?
    ensures var st' := CancelJob(st, user, j).0;
      && Allocate(st', j, g, lease, shardSeconds, batchMs) == (st', Refused)
      && Finalize(st', j, w, verified) == (st', StateConflict)
      && Claim(st', drawn, now, timeout).1 != Some(j)
      && CheckDeadline(st', j, now) == (st', Some(JobStatus.Canceled))
      && CancelJob(st', user, j) == (st', AlreadyCanceled)
  {
    assert JobOk(st.jobs[j]);
  }

  // ---- Claiming and time-out -------------------------------------------------------------------

  predicate SomeQueued(st: Store) { exists k | 0 <= k < |st.jobs| :: st.jobs[k].status.Queued? }

  predicate SomeActive(st: Store) { exists k | 0 <= k < |st.jobs| :: st.jobs[k].status.Active() }

  /** Highest priority first, oldest first among equals. */
  predicate IsBestQueued(st: Store, j: JobId) {
    && j < |st.jobs| && st.jobs[j].status.Queued?
    && forall k | 0 <= k < |st.jobs| && st.jobs[k].status.Queued? ::
         st.jobs[k].priority < st.jobs[j].priority || (st.jobs[k].priority == st.jobs[j].priority && j <= k)
  }

  /** An active job is taken up again as it is; else the best queued one starts its search at its origin. */
  predicate ClaimFits(st: Store, drawn: nat, now: int, timeout: int, st': Store, claimed: Option<JobId>) {
    if SomeActive(st) then
      st' == st && claimed.Some? && claimed.value < |st.jobs| && st.jobs[claimed.value].status.Active()
    else if SomeQueued(st) then
      claimed.Some? && IsBestQueued(st, claimed.value) && OnlyJob(st, st', claimed.value) &&
      var before, after := st.jobs[claimed.value], st'.jobs[claimed.value];
      && after.status.Searching? && after.deadline == Some(now + timeout)
      && after.nextOffset == after.searchOrigin
      && after.searchOrigin == (if before.searchOrigin.None? then Some(drawn) else before.searchOrigin)
      && after.user == before.user && after.key == before.key && after.priority == before.priority
      && after.attempts == before.attempts && after.result == before.result
    else
      st' == st && claimed.None?
  }

  lemma ClaimDecided(st: Store, drawn: nat, now: int, timeout: int)
    ensures ClaimFits(st, drawn, now, timeout, Claim(st, drawn, now, timeout).0, Claim(st, drawn, now, timeout).1)
  {
  }

  predicate Overdue(job: Job, now: int) {
    job.status.Searching? && job.deadline.Some? && job.deadline.value <= now
  }

  /** Reading a job times it out exactly when it is overdue, and says what the row then says. */
  lemma DeadlineDecided(st: Store, j: JobId, now: int)
    ensures var (st', status) := CheckDeadline(st, j, now);
      && (status.None? <==> j >= |st.jobs|)
      && (j < |st.jobs| ==> |st'.jobs| == |st.jobs| && status == Some(st'.jobs[j].status))
      && (j < |st.jobs| && Overdue(st.jobs[j], now) ==>
            OnlyJob(st, st', j) && st'.jobs[j] == st.jobs[j].(status := JobStatus.TimedOut))
      && (!(j < |st.jobs| && Overdue(st.jobs[j], now)) ==> st' == st)
  {
  }

  /** Nothing is left to do for the job: it is gone, over, or out of time. */
  predicate IsOver(st: Store, j: JobId, now: int) {
    j >= |st.jobs| || st.jobs[j].status.Terminal() || Overdue(st.jobs[j], now)
  }

  /** The tables once an overdue job has been timed out. */
  function TimedOutTables(st: Store, j: JobId, now: int): Store {
    if j < |st.jobs| && Overdue(st.jobs[j], now)
    then st.(jobs := st.jobs[j := st.jobs[j].(status := JobStatus.TimedOut)]) else st
  }

  lemma CheckedJob(st: Store, j: JobId, now: int)
    ensures var (st', status) := CheckDeadline(st, j, now);
      && st' == TimedOutTables(st, j, now)
      && (IsOver(st, j, now) <==> status.None? || status.value.Terminal())
  {
  }

  /** A job claimed from the queue has until `now + timeout`, whatever happens to it except its status. */
  lemma ClaimedJobHasItsTime(st: Store, j: JobId, drawn: nat, now: int, timeout: int, later: int)
    requires !SomeActive(st) && Claim(st, drawn, now, timeout).1 == Some(j)
    ensures var st' := Claim(st, drawn, now, timeout).0;
      CheckDeadline(st', j, later).1
      == Some(if later >= now + timeout then JobStatus.TimedOut else JobStatus.Searching)
  {
  }

  // ---- Allocation ------------------------------------------------------------------------------

  /** There is a search to serve and a device to serve it with. */
  predicate Serveable(st: Store, j: JobId, g: Gpu) {
    && j < |st.jobs| && g in st.devices && st.jobs[j].status.Searching? && st.devices[g].status.Ready?
    && st.jobs[j].nextOffset.Some?
  }

  /** What the device does in the shard's time. */
  function Wanted(st: Store, g: Gpu, shardSeconds: int): int
    requires g in st.devices
  {
    Max(1, Max(1, st.devices[g].rate) * shardSeconds)
  }

  /** And the whole of it ends below the group order. */
  predicate Served(st: Store, j: JobId, g: Gpu, shardSeconds: int) {
    Serveable(st, j, g) && st.jobs[j].nextOffset.value + Wanted(st, g, shardSeconds) < SECP256K1_ORDER
  }

  /** No shard is cut short: the job fails exactly when the whole one does not end below the group order. */
  lemma AllocationDecided(st: Store, j: JobId, g: Gpu, lease: nat, shardSeconds: int, batchMs: nat)
    ensures var (st', r) := Allocate(st, j, g, lease, shardSeconds, batchMs);
      && (r.Refused? <==> !Served(st, j, g, shardSeconds))
      && (r.UniqueViolation? <==>
            Served(st, j, g, shardSeconds) && StartTaken(st.shards, j, st.jobs[j].nextOffset.value))
      && (r.UniqueViolation? || !Serveable(st, j, g) ==> st' == st)
      && (r.Refused? && Serveable(st, j, g) ==>
            OnlyJob(st, st', j) && st'.jobs[j] == st.jobs[j].(status := JobStatus.Failed))
  {
  }

  /** The work is the device's stored rate times the seconds asked for, in batches of its milliseconds. */
  predicate IsRequested(st: Store, j: JobId, g: Gpu, lease: nat, shardSeconds: int, batchMs: nat, a: WorkAssignment) {
    && Serveable(st, j, g) && a.job == j && a.gpu == g && a.lease == lease && a.shard == |st.shards|
    && Some(a.start) == st.jobs[j].nextOffset && a.start + a.count < SECP256K1_ORDER
    && (if st.devices[g].rate >= 1 then a.rate == st.devices[g].rate else a.rate == 1)
    && (shardSeconds >= 1 ==> a.count % shardSeconds == 0 && a.count / shardSeconds == a.rate)
    && (shardSeconds <= 0 ==> a.count == 1)
    && a.batch >= 1
    && (a.batch > 1 || a.rate * batchMs >= 1000 ==> 1000 * a.batch <= a.rate * batchMs < 1000 * (a.batch + 1))
  }

  /** The shard handed out is the one asked for, and the rows say so. */
  lemma AllocatedIsRequested(st: Store, j: JobId, g: Gpu, lease: nat, shardSeconds: int, batchMs: nat)
    requires Allocate(st, j, g, lease, shardSeconds, batchMs).1.Allocated?
    ensures var (st', r) := Allocate(st, j, g, lease, shardSeconds, batchMs);
      var a := r.assignment;
      && IsRequested(st, j, g, lease, shardSeconds, batchMs, a)
      && st'.shards == st.shards + [Shard(j, g, lease, a.start, a.count, 0, ShardStatus.Assigned)]
      && st'.jobs == st.jobs[j := st.jobs[j].(nextOffset := Some(a.start + a.count))]
      && g in st'.devices && st'.devices == st.devices[g := st'.devices[g]]
      && st'.devices[g].status.Searching? && st'.devices[g].currentJob == Some(j)
      && st'.devices[g].rate == st.devices[g].rate
  {
    var rate := Max(1, st.devices[g].rate);
    if shardSeconds >= 1 { WholeSeconds(rate, shardSeconds); } else { NoSeconds(rate, shardSeconds); }
    hide StartTaken;
  }

  lemma WholeSeconds(rate: nat, seconds: nat)
    requires rate >= 1 && seconds >= 1
    ensures rate * seconds >= 1 && rate * seconds % seconds == 0 && rate * seconds / seconds == rate
  {
    Digits.QuotientAndRest(seconds, rate, 0);
  }

  lemma NoSeconds(rate: nat, seconds: int)
    requires rate >= 1 && seconds <= 0
    ensures rate * seconds <= 0
  {
  }

  // ---- Candidates ------------------------------------------------------------------------------

  /** A job takes its first verified candidate while it is not over, and never another. */
  lemma FinalizeDecided(st: Store, j: JobId, w: Winner, verified: bool)
    ensures var (st', r) := Finalize(st, j, w, verified);
      && (r.Accepted? <==> j < |st.jobs| && st.jobs[j].result.None? && st.jobs[j].status.Accepting() && verified)
      && (r.JobNotFound? <==> j >= |st.jobs|)
      && (r.AlreadyDone? <==> j < |st.jobs| && st.jobs[j].result.Some?)
      && (r.StateConflict? <==> j < |st.jobs| && st.jobs[j].result.None? && !st.jobs[j].status.Accepting())
      && (!r.Accepted? ==> st' == st)
      && (r.Accepted? ==>
            && OnlyJob(st, st', j)
            && st'.jobs[j] == st.jobs[j].(status := JobStatus.Ready, result := Some(w)))
  {
  }

  lemma SecondCandidateIsIgnored(st: Store, j: JobId, w: Winner, verified: bool, w': Winner, verified': bool)
    requires Finalize(st, j, w, verified).1.Accepted?
    ensures var st' := Finalize(st, j, w, verified).0;
      Finalize(st', j, w', verified') == (st', AlreadyDone)
  {
  }

  // ---- Events ----------------------------------------------------------------------------------

  /** What becomes of the candidate in a FOUND event. */
  datatype Fate = Won | Late | Closed | Disproved

  function FateOf(job: Job, e: WorkerEvent, verified: bool): Fate {
    if e.address.None? || e.offset.None? then Disproved
    else if job.result.Some? then Late
    else if job.status.Terminal() then Closed
    else if verified then Won else Disproved
  }

  /** The shard of an event tells what it says; a candidate's shard also tells what became of it. */
  predicate ShardTells(status: ShardStatus, before: ShardStatus, kind: EventKind, fate: Fate) {
    match kind
    case STARTED => status.Running?
    case PROGRESS => status == before
    case EXHAUSTED => status.Exhausted?
    case CANCELED => status.Canceled?
    case FAILED => status.Failed?
    case FOUND =>
      (match fate
       case Won => status.Found?
       case Late => status.Found?
       case Closed => status.Canceled?
       case Disproved => status.Failed?)
    case _ => status == before
  }

  /** Shard and job before and after the event, with the attempts as they came out. */
  predicate Told(shard: Shard, shard': Shard, job: Job, job': Job, e: WorkerEvent, verified: bool) {
    var fate := FateOf(job, e, verified);
    && ShardTells(shard'.status, shard.status, e.kind, fate)
    && shard' == shard.(status := shard'.status, processed := shard'.processed)
    && var credited := job.(attempts := job'.attempts);
       job' == (if !e.kind.FOUND? || fate.Late? || fate.Closed? then credited
                else if fate.Won? then
                  credited.(status := JobStatus.Ready, result := Some(Winner(e.address.value, e.offset.value)))
                else credited.(status := JobStatus.Failed))
  }

  lemma FoundTells(st: Store, i: ShardId, e: WorkerEvent, verified: bool)
    requires i < |st.shards| && e.gpu in st.devices && e.kind.FOUND? && st.shards[i].job < |st.jobs|
    ensures var st', j := RecordFound(st, i, e, verified), st.shards[i].job;
      && |st'.shards| == |st.shards| && |st'.jobs| == |st.jobs|
      && Told(st.shards[i], st'.shards[i], st.jobs[j], st'.jobs[j], e, verified)
      && st'.shards == st.shards[i := st'.shards[i]] && st'.jobs == st.jobs[j := st'.jobs[j]]
      && st'.devices.Keys == st.devices.Keys && st'.devices == st.devices[e.gpu := st'.devices[e.gpu]]
      && st'.devices[e.gpu] == (if FateOf(st.jobs[j], e, verified).Disproved?
                                then st.devices[e.gpu].(status := GpuStatus.Unhealthy) else st.devices[e.gpu])
  {
  }

  /** Shard and job after an event that reaches its shard; all others stay. */
  lemma RecordedFate(st: Store, e: WorkerEvent, verified: bool)
    requires Reaches(st, e) && st.shards[e.shard.value].job < |st.jobs|
    ensures var st', i := RecordEvent(st, e, verified), e.shard.value;
      var j := st.shards[i].job;
      && |st'.shards| == |st.shards| && |st'.jobs| == |st.jobs|
      && Told(st.shards[i], st'.shards[i], st.jobs[j], st'.jobs[j], e, verified)
      && st'.shards == st.shards[i := st'.shards[i]] && st'.jobs == st.jobs[j := st'.jobs[j]]
  {
    hide DeviceAfter, RecordFound;
    if e.kind.FOUND? {
      hide Told;
      FoundTells(st.(devices := st.devices[e.gpu := DeviceAfter(st.devices[e.gpu], e)]), e.shard.value, e, verified);
    }
  }

  /** An event that reaches no shard leaves jobs and shards alone. */
  lemma UnmatchedEventIsHarmless(st: Store, e: WorkerEvent, verified: bool)
    requires !Reaches(st, e)
    ensures var st' := RecordEvent(st, e, verified); st'.jobs == st.jobs && st'.shards == st.shards
  {
  }

  /** A device row shows what its worker announced; its rate moves a quarter of the way to the observed one. */
  lemma DeviceShows(before: Device, e: WorkerEvent)
    ensures var after := DeviceAfter(before, e);
      && (e.kind.STARTING? ==> after.status.Starting?) && (e.kind.SELF_TESTING? ==> after.status.SelfTesting?)
      && (e.kind.READY? ==> after.status.Ready?) && (e.kind.STOPPED? ==> after.status.Offline?)
      && (e.kind.FAILED? ==> after.status.Unhealthy?)
      && (e.kind.STARTED? || e.kind.PROGRESS? || e.kind.EXHAUSTED? || e.kind.FOUND? || e.kind.CANCELED? ==>
            after.status == before.status)
      && after.currentJob
         == (if e.kind.READY? || e.kind.STOPPED? || e.kind.FAILED? then None else before.currentJob)
      && (if e.rate <= 0 then after.rate == before.rate
          else if before.rate <= 0 then after.rate == e.rate
          else 0 <= e.rate - before.rate - 4 * (after.rate - before.rate) < 4)
  {
  }

  /** After an event only its GPU's device row differs, as announced, or unhealthy after a disproved candidate. */
  lemma RecordedDevice(st: Store, e: WorkerEvent, verified: bool)
    requires e.gpu in st.devices && (Reaches(st, e) ==> st.shards[e.shard.value].job < |st.jobs|)
    ensures var st' := RecordEvent(st, e, verified);
      var shown := DeviceAfter(st.devices[e.gpu], e);
      var disproved := Reaches(st, e) && e.kind.FOUND?
        && FateOf(st.jobs[st.shards[e.shard.value].job], e, verified).Disproved?;
      st'.devices == st.devices[e.gpu := if disproved then shown.(status := GpuStatus.Unhealthy) else shown]
  {
    hide DeviceAfter, RecordFound;
    if Reaches(st, e) && e.kind.FOUND? {
      hide Told;
      FoundTells(st.(devices := st.devices[e.gpu := DeviceAfter(st.devices[e.gpu], e)]), e.shard.value, e, verified);
    }
  }

  // ---- Recovery and start-up -------------------------------------------------------------------

  /** Recovery leaves no active job and no live shard, and touches no other row. */
  lemma RecoveryDecided(st: Store)
    ensures var st' := Recover(st);
      && !SomeActive(st') && |st'.jobs| == |st.jobs| && |st'.shards| == |st.shards| && st'.devices == st.devices
      && (forall j | 0 <= j < |st.jobs| ::
            if st.jobs[j].status.Active()
            then st'.jobs[j] == st.jobs[j].(status := JobStatus.Queued, nextOffset := st.jobs[j].searchOrigin,
                                            deadline := None)
            else st'.jobs[j] == st.jobs[j])
      && (forall i | 0 <= i < |st.shards| ::
            if st.shards[i].status.Assigned? || st.shards[i].status.Running?
            then st'.shards[i] == st.shards[i].(status := ShardStatus.Failed)
            else st'.shards[i] == st.shards[i])
  {
  }

  /** At start-up exactly the discovered devices are starting, at their discovered rates; nobody holds a job. */
  lemma StartUpDecided(st: Store, rates: map<Gpu, nat>)
    ensures var st' := Initialize(st, rates);
      && st'.jobs == st.jobs && st'.shards == st.shards
      && st'.devices.Keys == st.devices.Keys + rates.Keys
      && forall g | g in st'.devices ::
           && st'.devices[g].currentJob.None?
           && (if g in rates then st'.devices[g].status.Starting? && st'.devices[g].rate == rates[g]
               else st'.devices[g].status.Offline? && st'.devices[g].rate == st.devices[g].rate)
  {
  }
}
