/** The supervisor and scheduler objects, updating their fields in place. */
module Scheduler {
  import opened Common
  import opened JobStore
  import JobOutcomes
  import opened Protocol
  import SchedulerRepository

  /**
   Handles after one event was taken from the shared queue. A slot's outbox is its worker's part of that
   queue, so the event leaves both.
   */
  function Collected(handles: map<Gpu, Slot>, e: WorkerEvent): map<Gpu, Slot> {
    if e.gpu !in handles then handles
    else handles[e.gpu := Release(handles[e.gpu], e).(outbox := Rest(handles[e.gpu].outbox))]
  }

  function Rest(outbox: seq<WorkerEvent>): seq<WorkerEvent> { if outbox == [] then [] else outbox[1..] }

  function CollectAll(handles: map<Gpu, Slot>, batch: seq<WorkerEvent>): map<Gpu, Slot>
    decreases |batch|
  {
    if batch == [] then handles else CollectAll(Collected(handles, batch[0]), batch[1..])
  }

  /** The shared queue: its events are the heads of their writers' outboxes, in that order. */
  predicate InQueue(handles: map<Gpu, Slot>, batch: seq<WorkerEvent>)
    decreases |batch|
  {
    batch != [] ==>
      var e := batch[0];
      && e.gpu in handles && handles[e.gpu].outbox != [] && handles[e.gpu].outbox[0] == e
      && InQueue(Collected(handles, e), batch[1..])
  }

  /** What `restart_dead_workers` reports about one handle. */
  function Report(slot: Slot): seq<WorkerEvent> {
    if slot.phase.Dead? && slot.assignment.Some? then [About(FAILED, slot.assignment.value, 0)] else []
  }

  function Reports(handles: map<Gpu, Slot>, devices: seq<Gpu>): seq<WorkerEvent>
    requires forall i | 0 <= i < |devices| :: devices[i] in handles
  {
    if devices == [] then []
    else Reports(handles, devices[..|devices| - 1]) + Report(handles[devices[|devices| - 1]])
  }

  function Revive(slot: Slot): Slot { if slot.phase.Dead? then FreshSlot() else slot }

  function ReviveAll(slots: map<Gpu, Slot>, devices: seq<Gpu>): map<Gpu, Slot> {
    map g | g in slots :: if g in devices then Revive(slots[g]) else slots[g]
  }

  lemma ReviveNone(slots: map<Gpu, Slot>)
    ensures ReviveAll(slots, []) == slots
  {
  }

  lemma ReviveOneMore(slots: map<Gpu, Slot>, before: seq<Gpu>, last: Gpu)
    requires last in slots && last !in before
    ensures ReviveAll(slots, before + [last]) == ReviveAll(slots, before)[last := Revive(slots[last])]
    ensures last in ReviveAll(slots, before) && ReviveAll(slots, before)[last] == slots[last]
    ensures !slots[last].phase.Dead? ==> ReviveAll(slots, before + [last]) == ReviveAll(slots, before)
  {
  }

  // ---- What the supervisor's loops do to each handle -------------------------------------------

  /** Exactly the workers of job j have one more cancellation to read. */
  predicate CancellationsAdded(handles: map<Gpu, Slot>, handles': map<Gpu, Slot>, j: JobId) {
    && handles'.Keys == handles.Keys
    && forall g | g in handles ::
         var held := handles[g].assignment;
         handles'[g] == (if held.Some? && held.value.job == j
                         then handles[g].(commands := handles[g].commands + [Cancel(j)]) else handles[g])
  }

  predicate EndsWork(e: WorkerEvent, g: Gpu) {
    e.gpu == g && (e.kind.EXHAUSTED? || e.kind.FOUND? || e.kind.CANCELED? || e.kind.FAILED?)
  }

  /** One of the events says that the assignment of g is over. */
  predicate SaysOver(batch: seq<WorkerEvent>, g: Gpu) { exists i | 0 <= i < |batch| :: EndsWork(batch[i], g) }

  /** Exactly the handles whose events say so are free; nothing is sent to a worker and none is replaced. */
  predicate AssignmentsEnded(handles: map<Gpu, Slot>, handles': map<Gpu, Slot>, batch: seq<WorkerEvent>) {
    && handles'.Keys == handles.Keys
    && forall g | g in handles ::
         && handles'[g].assignment == (if SaysOver(batch, g) then None else handles[g].assignment)
         && handles'[g].commands == handles[g].commands && handles'[g].phase == handles[g].phase
  }

  lemma {:induction false} EndedAssignments(handles: map<Gpu, Slot>, batch: seq<WorkerEvent>)
    ensures AssignmentsEnded(handles, CollectAll(handles, batch), batch)
    decreases |batch|
  {
    if batch != [] {
      EndedAssignments(Collected(handles, batch[0]), batch[1..]);
      forall g | g in handles ensures SaysOver(batch, g) <==> SaysOver(batch[..1], g) || SaysOver(batch[1..], g) {
        SaysOverSplits(batch, g);
      }
    }
  }

  lemma SaysOverSplits(batch: seq<WorkerEvent>, g: Gpu)
    requires batch != []
    ensures SaysOver(batch, g) <==> SaysOver(batch[..1], g) || SaysOver(batch[1..], g)
  {
    if i :| 0 <= i < |batch| && EndsWork(batch[i], g) {
      if i == 0 { assert batch[..1][0] == batch[0]; } else { assert batch[1..][i - 1] == batch[i]; }
    }
  }

  /** A dead worker's handle is as good as new; the living keep theirs. */
  predicate DeadReplaced(handles: map<Gpu, Slot>, handles': map<Gpu, Slot>) {
    && handles'.Keys == handles.Keys
    && forall g | g in handles ::
         if handles[g].phase.Dead? then handles'[g] == Slot(None, [], Boot(0), []) else handles'[g] == handles[g]
  }

  /** The report about an assignment that died with its worker. */
  predicate IsLoss(handles: map<Gpu, Slot>, g: Gpu, e: WorkerEvent) {
    && g in handles && handles[g].phase.Dead? && handles[g].assignment.Some?
    && var a := handles[g].assignment.value;
       && e.kind.FAILED? && e.gpu == a.gpu && e.job == Some(a.job) && e.shard == Some(a.shard)
       && e.lease == Some(a.lease) && e.rate == 0
  }

  /** Every lost assignment is reported, and nothing else is. */
  predicate LossesReported(handles: map<Gpu, Slot>, reports: seq<WorkerEvent>) {
    && (forall g | g in handles && handles[g].phase.Dead? && handles[g].assignment.Some? ::
          exists i | 0 <= i < |reports| :: IsLoss(handles, g, reports[i]))
    && forall i | 0 <= i < |reports| :: exists g | g in handles :: IsLoss(handles, g, reports[i])
  }

  lemma RevivedHandles(handles: map<Gpu, Slot>, devices: seq<Gpu>)
    requires handles.Keys == set i | 0 <= i < |devices| :: devices[i]
    ensures DeadReplaced(handles, ReviveAll(handles, devices))
  {
  }

  lemma {:induction false} ReportedIs(handles: map<Gpu, Slot>, devices: seq<Gpu>, i: nat)
    requires i < |devices| && forall k | 0 <= k < |devices| :: devices[k] in handles
    requires handles[devices[i]].phase.Dead? && handles[devices[i]].assignment.Some?
    ensures About(FAILED, handles[devices[i]].assignment.value, 0) in Reports(handles, devices)
  {
    if i < |devices| - 1 { ReportedIs(handles, devices[..|devices| - 1], i); }
  }

  lemma {:induction false} OnlyLosses(handles: map<Gpu, Slot>, devices: seq<Gpu>, e: WorkerEvent) returns (g: Gpu)
    requires (forall k | 0 <= k < |devices| :: devices[k] in handles) && e in Reports(handles, devices)
    ensures IsLoss(handles, g, e)
  {
    g := devices[|devices| - 1];
    if e !in Report(handles[g]) { g := OnlyLosses(handles, devices[..|devices| - 1], e); }
  }

  lemma ReportedLosses(handles: map<Gpu, Slot>, devices: seq<Gpu>)
    requires handles.Keys == set i | 0 <= i < |devices| :: devices[i]
    ensures LossesReported(handles, Reports(handles, devices))
  {
    var reports := Reports(handles, devices);
    forall g | g in handles && handles[g].phase.Dead? && handles[g].assignment.Some?
      ensures exists i | 0 <= i < |reports| :: IsLoss(handles, g, reports[i])
    {
      var k :| 0 <= k < |devices| && devices[k] == g;
      ReportedIs(handles, devices, k);
      var i :| 0 <= i < |reports| && reports[i] == About(FAILED, handles[g].assignment.value, 0);
      assert IsLoss(handles, g, reports[i]);
    }
    forall i | 0 <= i < |reports| ensures exists g | g in handles :: IsLoss(handles, g, reports[i]) {
      var g := OnlyLosses(handles, devices, reports[i]);
    }
  }

  predicate Distinct(gpus: seq<Gpu>) { forall i, k | 0 <= i < k < |gpus| :: gpus[i] != gpus[k] }

  class Supervisor {
    const devices: seq<Gpu>
    var handles: map<Gpu, Slot>
    var events: seq<WorkerEvent>

    predicate Valid()
      reads this
    {
      Distinct(devices) && handles.Keys == set i | 0 <= i < |devices| :: devices[i]
    }

    constructor (devices: seq<Gpu>)
      requires Distinct(devices)
      ensures Valid() && this.devices == devices && events == []
      ensures forall g | g in handles :: handles[g] == FreshSlot()
    {
      this.devices := devices;
      handles := map i | 0 <= i < |devices| :: devices[i] := FreshSlot();
      events := [];
    }

    method Dispatch(a: WorkAssignment) returns (raised: bool)
      requires Valid() && a.gpu in handles
      modifies this
      ensures Valid() && events == old(events)
      ensures raised <==> !CanDispatch(old(handles)[a.gpu])
      ensures handles == if raised then old(handles)
                         else old(handles)[a.gpu := Protocol.Dispatch(old(handles)[a.gpu], a)]
    {
      var handle := handles[a.gpu];
      if handle.assignment.Some? { return true; }
      if handle.phase.Dead? { return true; }
      handle := handle.(assignment := Some(a));
      handle := handle.(commands := handle.commands + [Work(a)]);
      handles := handles[a.gpu := handle];
      raised := false;
    }

    method CancelJob(j: JobId)
      requires Valid()
      modifies this
      ensures Valid() && events == old(events)
      ensures handles == CancelAll(old(handles), j)
      ensures CancellationsAdded(old(handles), handles, j)
    {
      for i := 0 to |devices|
        invariant Valid() && events == old(events) && handles.Keys == old(handles).Keys
        invariant forall k | 0 <= k < |devices| ::
          handles[devices[k]] == if k < i then CancelSlot(old(handles)[devices[k]], j) else old(handles)[devices[k]]
      {
        var handle := handles[devices[i]];
        if handle.assignment.Some? && handle.assignment.value.job == j {
          handles := handles[devices[i] := handle.(commands := handle.commands + [Cancel(j)])];
        }
      }
      assert handles == CancelAll(old(handles), j);
    }

    method PollEvents() returns (collected: seq<WorkerEvent>)
      requires Valid()
      modifies this
      ensures Valid() && collected == old(events) && events == []
      ensures handles == CollectAll(old(handles), old(events))
      ensures AssignmentsEnded(old(handles), handles, collected)
    {
      hide AssignmentsEnded;
      collected := [];
      while events != []
        invariant Valid() && collected + events == old(events)
        invariant CollectAll(handles, events) == CollectAll(old(handles), old(events))
        decreases |events|
      {
        var e := events[0];
        events := events[1..];
        if e.gpu in handles {
          var handle := handles[e.gpu];
          if e.kind.EXHAUSTED? || e.kind.FOUND? || e.kind.CANCELED? || e.kind.FAILED? {
            handle := handle.(assignment := None);
          }
          handles := handles[e.gpu := handle.(outbox := Rest(handle.outbox))];
        }
        collected := collected + [e];
      }
      EndedAssignments(old(handles), collected);
    }

    /** Dead workers are replaced; those that still held work are reported as failed. */
    method RestartDeadWorkers() returns (reports: seq<WorkerEvent>)
      requires Valid()
      modifies this
      ensures Valid() && events == old(events)
      ensures handles == ReviveAll(old(handles), devices)
      ensures reports == Reports(old(handles), devices)
      ensures DeadReplaced(old(handles), handles) && LossesReported(old(handles), reports)
    {
      hide DeadReplaced, LossesReported, ReviveAll, Revive, Report;
      reports := [];
      ReviveNone(handles);
      for i := 0 to |devices|
        invariant Valid() && events == old(events)
        invariant handles == ReviveAll(old(handles), devices[..i])
        invariant reports == Reports(old(handles), devices[..i])
      {
        assert devices[..i + 1] == devices[..i] + [devices[i]];
        ReviveOneMore(old(handles), devices[..i], devices[i]);
        var handle := handles[devices[i]];
        ReportIs(handle);
        if handle.phase.Dead? {
          if handle.assignment.Some? {
            reports := reports + [About(FAILED, handle.assignment.value, 0)];
          }
          handles := handles[devices[i] := FreshSlot()];
        }
      }
      assert devices[..|devices|] == devices;
      RevivedHandles(old(handles), devices);
      ReportedLosses(old(handles), devices);
    }
  }

  lemma ReportIs(slot: Slot)
    ensures Report(slot)
      == (if slot.phase.Dead? && slot.assignment.Some? then [About(FAILED, slot.assignment.value, 0)] else [])
    ensures slot.phase.Dead? ==> Revive(slot) == FreshSlot()
  {
  }

  /** `_fill_idle_gpus` as acts of the protocol, one per idle GPU in the given order. */
  function FillActs(order: seq<Gpu>, leases: seq<nat>, shardSeconds: int, batchMs: nat): seq<Act>
    requires |leases| == |order|
  {
    seq(|order|, i requires 0 <= i < |order| => Loop(FillOne(order[i], leases[i], shardSeconds, batchMs)))
  }

  // ---- What the decisions of an iteration come to ----------------------------------------------

  /**
   The active job is given up exactly when it is over: it becomes the draining one and its workers are
   told. An overdue job is timed out.
   */
  predicate CheckFits(st: Store, active: Option<JobId>, draining: Option<JobId>, handles: map<Gpu, Slot>, now: int,
      st': Store, active': Option<JobId>, draining': Option<JobId>, handles': map<Gpu, Slot>)
  {
    if active.None? then
      st' == st && active' == active && draining' == draining && handles' == handles
    else
      && st' == JobOutcomes.TimedOutTables(st, active.value, now)
      && if JobOutcomes.IsOver(st, active.value, now)
         then active'.None? && draining' == active && CancellationsAdded(handles, handles', active.value)
         else active' == active && draining' == draining && handles' == handles
  }

  /**
   One round of decisions. A job being drained is done with as soon as every GPU is idle; then, if no job is
   active, an active or the best queued one of the tables is claimed.
   */
  predicate DecisionFits(st: Store, active: Option<JobId>, draining: Option<JobId>, allIdle: bool,
      handles: map<Gpu, Slot>, now: int, drawn: nat, timeout: int,
      st': Store, active': Option<JobId>, draining': Option<JobId>, handles': map<Gpu, Slot>)
  {
    var over := active.Some? && JobOutcomes.IsOver(st, active.value, now);
    var checked := if active.Some? then JobOutcomes.TimedOutTables(st, active.value, now) else st;
    && (if over then CancellationsAdded(handles, handles', active.value) else handles' == handles)
    && draining' == (if allIdle then None else if over then active else draining)
    && if active.Some? && !over then active' == active && st' == checked
       else if draining'.Some? || !allIdle then active'.None? && st' == checked
       else JobOutcomes.ClaimFits(checked, drawn, now, timeout, st', active')
  }

  /**
   One idle GPU. If its work can be cut and its worker is free, exactly that work is queued and held; a busy
   or dead worker raises, a taken start violates the constraint, and otherwise nothing happens.
   */
  ghost predicate FillFits(st: Store, j: JobId, g: Gpu, lease: nat, shardSeconds: int, batchMs: nat,
      handles: map<Gpu, Slot>, idle: set<Gpu>, handles': map<Gpu, Slot>, idle': set<Gpu>, raised: bool, violated: bool)
    requires g in handles
  {
    var served := JobOutcomes.Served(st, j, g, shardSeconds);
    var taken := served && StartTaken(st.shards, j, st.jobs[j].nextOffset.value);
    var free := handles[g].assignment.None? && !handles[g].phase.Dead?;
    && (violated <==> taken) && (raised <==> served && !taken && !free)
    && if served && !taken && free then
         idle' == idle - {g} &&
         exists a: WorkAssignment | JobOutcomes.IsRequested(st, j, g, lease, shardSeconds, batchMs, a) ::
           handles' == handles[g := handles[g].(assignment := Some(a), commands := handles[g].commands + [Work(a)])]
       else
         idle' == idle && handles' == handles
  }

  /** The acts of polling the queue and replacing the dead workers. */
  function GatherActs(handles: map<Gpu, Slot>, queue: seq<WorkerEvent>, devices: seq<Gpu>): seq<Act>
    requires forall i | 0 <= i < |devices| :: devices[i] in handles
  {
    CollectKeepsKeys(handles, queue);
    CollectActs(queue) + [Loop(PollDone)] + RespawnActs(CollectAll(handles, queue), devices) + [Loop(RestartDone)]
  }

  function HandleActs(verdicts: nat -> bool, n: nat): seq<Act> {
    if n == 0 then [] else HandleActs(verdicts, n - 1) + [Loop(LoopAct.HandleEvent(verdicts(n - 1)))]
  }

  function FilledBy(order: seq<Gpu>, leases: nat -> nat, shardSeconds: int, batchMs: nat): seq<Act> {
    FillActs(order, seq(|order|, i requires 0 <= i < |order| => leases(i)), shardSeconds, batchMs)
  }

  /** One act for each idle GPU in some order, up to one that stops the loop. */
  ghost predicate IsFilling(idle: set<Gpu>, filling: bool, leases: nat -> nat, shardSeconds: int, batchMs: nat,
      stopped: bool, acts: seq<Act>)
  {
    if filling then
      exists order: seq<Gpu> | Distinct(order) && idle == (set i | 0 <= i < |order| :: order[i]) ::
        if stopped then acts <= FilledBy(order, leases, shardSeconds, batchMs)
        else acts == FilledBy(order, leases, shardSeconds, batchMs) + [Loop(FillDone)]
    else
      acts == [Loop(FillDone)] && !stopped
  }

  function DecisionActs(now: int, drawn: nat, timeout: int): seq<Act> {
    [Loop(CheckActive(now)), Loop(FinishDraining), Loop(ClaimIfReady(drawn, now, timeout))]
  }

  class GenerationScheduler {
    const repository: SchedulerRepository.Database
    const supervisor: Supervisor
    var idleGpus: set<Gpu>
    var activeJob: Option<JobId>
    var drainingJob: Option<JobId>

    constructor (repository: SchedulerRepository.Database, supervisor: Supervisor)
      ensures this.repository == repository && this.supervisor == supervisor
      ensures idleGpus == {} && activeJob == None && drainingJob == None
    {
      this.repository, this.supervisor := repository, supervisor;
      idleGpus, activeJob, drainingJob := {}, None, None;
    }

    /** The scheduler's fields, its handles and the tables, as a state of the protocol. */
    ghost function State(inbox: seq<WorkerEvent>, pc: Pc): System
      reads this, repository, supervisor
    {
      System(repository.Rows(), Sched(idleGpus, activeJob, drainingJob), supervisor.handles, inbox, pc)
    }

    method HandleEvent(e: WorkerEvent, verified: bool, ghost rest: seq<WorkerEvent>)
      modifies this, repository
      ensures State(rest, Handle) == ApplyHandle(old(State([e] + rest, Handle)), verified)
      ensures idleGpus <= old(idleGpus) + if e.kind.READY? then {e.gpu} else {}
      ensures idleGpus == (if e.kind.READY? then old(idleGpus) + {e.gpu}
                           else if e.kind.STARTED? || e.kind.PROGRESS? || e.kind.FAILED? || e.kind.STOPPED?
                           then old(idleGpus) - {e.gpu} else old(idleGpus))
      ensures activeJob == old(activeJob) && drainingJob == old(drainingJob)
    {
      assert ([e] + rest)[1..] == rest;
      repository.RecordEvent(e, verified);
      match e.kind {
        case READY => idleGpus := idleGpus + {e.gpu};
        case STARTED => idleGpus := idleGpus - {e.gpu};
        case PROGRESS => idleGpus := idleGpus - {e.gpu};
        case FAILED => idleGpus := idleGpus - {e.gpu};
        case STOPPED => idleGpus := idleGpus - {e.gpu};
        case _ =>
      }
    }

    method CheckActiveJob(now: int, ghost inbox: seq<WorkerEvent>)
      requires supervisor.Valid()
      modifies this, repository, supervisor
      ensures supervisor.Valid() && supervisor.handles.Keys == old(supervisor.handles).Keys && idleGpus == old(idleGpus)
      ensures State(inbox, Drain) == ApplyCheck(old(State(inbox, Check)), now)
      ensures CheckFits(old(repository.Rows()), old(activeJob), old(drainingJob), old(supervisor.handles), now,
                        repository.Rows(), activeJob, drainingJob, supervisor.handles)
    {
      if activeJob.None? { return; }
      JobOutcomes.CheckedJob(repository.Rows(), activeJob.value, now);
      hide CheckDeadline, CancelAll, JobOutcomes.IsOver, JobOutcomes.TimedOutTables;
      var status := repository.ActiveJobStatus(activeJob.value, now);
      if status.Some? && !status.value.Terminal() { return; }
      supervisor.CancelJob(activeJob.value);
      drainingJob := activeJob;
      activeJob := None;
    }

    method FinishDraining(ghost inbox: seq<WorkerEvent>)
      requires supervisor.Valid()
      modifies this
      ensures State(inbox, Claiming) == ApplyDrain(old(State(inbox, Drain))) && idleGpus == old(idleGpus)
      ensures drainingJob == (if idleGpus == supervisor.handles.Keys then None else old(drainingJob))
      ensures activeJob == old(activeJob)
    {
      if drainingJob.None? { return; }
      if idleGpus == supervisor.handles.Keys {
        drainingJob := None;
      }
    }

    method ClaimIfReady(drawn: nat, now: int, timeout: int, ghost inbox: seq<WorkerEvent>)
      requires supervisor.Valid()
      modifies this, repository
      ensures State(inbox, FillAll(Sched(idleGpus, activeJob, drainingJob)))
           == ApplyClaim(old(State(inbox, Claiming)), drawn, now, timeout)
      ensures idleGpus == old(idleGpus) && drainingJob == old(drainingJob)
      ensures if old(activeJob.None? && drainingJob.None?) && idleGpus == supervisor.handles.Keys
        then JobOutcomes.ClaimFits(old(repository.Rows()), drawn, now, timeout, repository.Rows(), activeJob)
        else activeJob == old(activeJob) && repository.Rows() == old(repository.Rows())
    {
      JobOutcomes.ClaimDecided(repository.Rows(), drawn, now, timeout);
      hide JobOutcomes.ClaimFits;
      if activeJob.Some? || drainingJob.Some? { return; }
      if idleGpus != supervisor.handles.Keys { return; }
      activeJob := repository.ClaimNextJob(drawn, now, timeout);
    }

    /** One turn of the `_fill_idle_gpus` loop; `pc` says how the loop goes on. */
    method FillOneGpu(g: Gpu, lease: nat, shardSeconds: int, batchMs: nat, ghost inbox: seq<WorkerEvent>,
        ghost todo: set<Gpu>)
      returns (raised: bool, violated: bool)
      requires supervisor.Valid() && g in supervisor.handles && activeJob.Some?
      modifies this, repository, supervisor
      ensures supervisor.Valid() && supervisor.handles.Keys == old(supervisor.handles).Keys
      ensures activeJob == old(activeJob) && drainingJob == old(drainingJob)
      ensures State(inbox, if violated then Stopped else if raised then Raised else Fill(todo - {g}))
           == ApplyFill(old(State(inbox, Fill(todo))), g, lease, shardSeconds, batchMs)
      ensures FillFits(old(repository.Rows()), activeJob.value, g, lease, shardSeconds, batchMs,
                       old(supervisor.handles), old(idleGpus), supervisor.handles, idleGpus, raised, violated)
    {
      JobOutcomes.AllocationDecided(repository.Rows(), activeJob.value, g, lease, shardSeconds, batchMs);
      if Allocate(repository.Rows(), activeJob.value, g, lease, shardSeconds, batchMs).1.Allocated? {
        JobOutcomes.AllocatedIsRequested(repository.Rows(), activeJob.value, g, lease, shardSeconds, batchMs);
      }
      hide Allocate, JobOutcomes.IsRequested, JobOutcomes.Served, StartTaken;
      raised, violated := false, false;
      var allocation := repository.AllocateShard(activeJob.value, g, lease, shardSeconds, batchMs);
      match allocation {
        case Refused => return;
        case UniqueViolation => violated := true;
        case Allocated(a) =>
          raised := supervisor.Dispatch(a);
          if !raised { idleGpus := idleGpus - {g}; }
      }
    }

    /** The loop over the sorted idle GPUs is the run of its single turns, up to one that raises. */
    method FillIdleGpus(order: seq<Gpu>, leases: seq<nat>, shardSeconds: int, batchMs: nat,
        ghost inbox: seq<WorkerEvent>)
      returns (raised: bool, violated: bool, turns: nat)
      requires supervisor.Valid() && idleGpus <= supervisor.handles.Keys
      requires Distinct(order) && idleGpus == (set i | 0 <= i < |order| :: order[i]) && |leases| == |order|
      modifies this, repository, supervisor
      ensures supervisor.Valid() && turns <= |order|
      ensures old(activeJob.None? || drainingJob.Some?) ==>
        !raised && !violated && State(inbox, Poll) == old(State(inbox, Poll))
      ensures old(activeJob.Some? && drainingJob.None?) ==>
        var s0 := old(State(inbox, Fill(idleGpus)));
        var acts := FillActs(order, leases, shardSeconds, batchMs)[..turns];
        && (!raised && !violated ==> turns == |order|)
        && Reaches(s0, acts, State(inbox, if violated then Stopped else if raised then Raised else Fill({})))
    {
      hide Reaches, ApplyFill;
      raised, violated, turns := false, false, 0;
      if activeJob.None? || drainingJob.Some? { return; }
      ghost var s0 := State(inbox, Fill(idleGpus));
      ghost var acts := FillActs(order, leases, shardSeconds, batchMs);
      ghost var todo := idleGpus;
      assert acts[..0] == [];
      NothingReached(s0);
      while turns < |order|
        invariant turns <= |order| && !raised && !violated
        invariant supervisor.Valid() && supervisor.handles.Keys == old(supervisor.handles).Keys
        invariant activeJob == old(activeJob) && todo == set k | turns <= k < |order| :: order[k]
        invariant Reaches(s0, acts[..turns], State(inbox, Fill(todo)))
      {
        FillOneMore(s0, acts[..turns], State(inbox, Fill(todo)), order[turns], leases[turns], shardSeconds, batchMs);
        assert acts[..turns + 1] == acts[..turns] + [acts[turns]];
        raised, violated := FillOneGpu(order[turns], leases[turns], shardSeconds, batchMs, inbox, todo);
        todo := todo - {order[turns]};
        turns := turns + 1;
        if raised || violated { return; }
      }
      assert todo == {};
    }

    /** What the queue and the dead workers have to say, in the order in which it is handled. */
    method GatherEvents() returns (events: seq<WorkerEvent>, ghost acts: seq<Act>)
      requires supervisor.Valid() && InQueue(supervisor.handles, supervisor.events)
      requires Silent(CollectAll(supervisor.handles, supervisor.events))
      modifies supervisor
      ensures supervisor.Valid() && supervisor.handles.Keys == old(supervisor.handles).Keys && supervisor.events == []
      ensures ReadyFrom(events, supervisor.handles.Keys)
      ensures Reaches(old(State([], Poll)), acts, State(events, Handle))
      ensures acts == GatherActs(old(supervisor.handles), old(supervisor.events), supervisor.devices)
      ensures old(supervisor.events) <= events
    {
      hide Reaches, CollectAll, InQueue, Reports, ReviveAll, RespawnActs;
      ghost var s0 := State([], Poll);
      QueuedIsReadyFrom(supervisor.handles, supervisor.events);
      PollIsCollecting(s0, supervisor.events);
      CollectKeepsKeys(supervisor.handles, supervisor.events);
      acts := CollectActs(supervisor.events);
      events := supervisor.PollEvents();
      assert [] + events == events;
      ReachesMore(s0, acts, State(events, Poll), Loop(PollDone));
      acts := acts + [Loop(PollDone)];
      ghost var s1 := State(events, Restart);
      RestartIsRespawning(s1, supervisor.devices);
      ReachesThen(s0, acts, s1, RespawnActs(s1.slots, supervisor.devices), System(
        s1.store, s1.sched, ReviveAll(s1.slots, supervisor.devices),
        events + Reports(s1.slots, supervisor.devices), Restart));
      acts := acts + RespawnActs(s1.slots, supervisor.devices);
      ReportsAreNotReady(supervisor.handles, supervisor.devices);
      ReviveKeepsKeys(supervisor.handles, supervisor.devices);
      var reports := supervisor.RestartDeadWorkers();
      events := events + reports;
      ReachesMore(s0, acts, State(events, Restart), Loop(RestartDone));
      acts := acts + [Loop(RestartDone)];
    }

    /** The loop over the gathered events. */
    method HandleEvents(events: seq<WorkerEvent>, verdicts: nat -> bool) returns (ghost acts: seq<Act>)
      requires idleGpus <= supervisor.handles.Keys && ReadyFrom(events, supervisor.handles.Keys)
      modifies this, repository
      ensures idleGpus <= supervisor.handles.Keys
      ensures Reaches(old(State(events, Handle)), acts, State([], Check))
      ensures acts == HandleActs(verdicts, |events|) + [Loop(HandleDone)]
    {
      hide Reaches, ApplyHandle;
      ghost var s0 := State(events, Handle);
      acts := [];
      NothingReached(s0);
      assert events[0..] == events;
      for i := 0 to |events|
        invariant idleGpus <= supervisor.handles.Keys
        invariant Reaches(s0, acts, State(events[i..], Handle)) && acts == HandleActs(verdicts, i)
      {
        assert events[i..] == [events[i]] + events[i + 1..];
        ReachesMore(s0, acts, State(events[i..], Handle), Loop(LoopAct.HandleEvent(verdicts(i))));
        acts := acts + [Loop(LoopAct.HandleEvent(verdicts(i)))];
        HandleEvent(events[i], verdicts(i), events[i + 1..]);
      }
      assert events[|events|..] == [];
      ReachesMore(s0, acts, State([], Handle), Loop(HandleDone));
      acts := acts + [Loop(HandleDone)];
    }

    /** The three decisions between the events and the allocation. */
    method Decide(now: int, drawn: nat, timeout: int) returns (ghost acts: seq<Act>)
      requires supervisor.Valid() && 1 <= drawn < SECP256K1_ORDER && idleGpus <= supervisor.handles.Keys
      modifies this, repository, supervisor
      ensures supervisor.Valid() && idleGpus <= supervisor.handles.Keys
        && supervisor.handles.Keys == old(supervisor.handles).Keys
      ensures Reaches(old(State([], Check)), acts, State([], FillAll(Sched(idleGpus, activeJob, drainingJob))))
      ensures acts == DecisionActs(now, drawn, timeout)
      ensures DecisionFits(old(repository.Rows()), old(activeJob), old(drainingJob),
                           old(idleGpus == supervisor.handles.Keys), old(supervisor.handles), now, drawn, timeout,
                           repository.Rows(), activeJob, drainingJob, supervisor.handles)
    {
      hide Reaches, ApplyCheck, ApplyDrain, ApplyClaim, CancellationsAdded;
      hide JobOutcomes.ClaimFits, JobOutcomes.IsOver, JobOutcomes.TimedOutTables;
      ghost var s0 := State([], Check);
      NothingReached(s0);
      acts := [];
      ReachesMore(s0, acts, s0, Loop(CheckActive(now)));
      acts := acts + [Loop(CheckActive(now))];
      CheckActiveJob(now, []);
      ReachesMore(s0, acts, State([], Drain), Loop(LoopAct.FinishDraining));
      acts := acts + [Loop(LoopAct.FinishDraining)];
      FinishDraining([]);
      ReachesMore(s0, acts, State([], Claiming), Loop(LoopAct.ClaimIfReady(drawn, now, timeout)));
      acts := acts + [Loop(LoopAct.ClaimIfReady(drawn, now, timeout))];
      ClaimIfReady(drawn, now, timeout, []);
    }

    /** Allocation for every idle GPU. */
    method AllocateIdle(leases: nat -> nat, shardSeconds: int, batchMs: nat)
      returns (raised: bool, violated: bool, ghost acts: seq<Act>)
      requires supervisor.Valid() && idleGpus <= supervisor.handles.Keys
      modifies this, repository, supervisor
      ensures supervisor.Valid()
      ensures Reaches(old(State([], FillAll(Sched(idleGpus, activeJob, drainingJob)))), acts,
                      State([], if violated then Stopped else if raised then Raised else Poll))
      ensures IsFilling(old(idleGpus), old(activeJob.Some? && drainingJob.None?), leases, shardSeconds, batchMs,
                        raised || violated, acts)
    {
      hide Reaches;
      ghost var s0 := State([], FillAll(Sched(idleGpus, activeJob, drainingJob)));
      ghost var filling := activeJob.Some? && drainingJob.None?;
      var order := Listed(idleGpus);
      var turns;
      raised, violated, turns :=
        FillIdleGpus(order, seq(|order|, i requires 0 <= i < |order| => leases(i)), shardSeconds, batchMs, []);
      if filling {
        acts := FillActs(order, seq(|order|, i requires 0 <= i < |order| => leases(i)), shardSeconds, batchMs)[..turns];
      } else {
        acts := [];
        NothingReached(s0);
      }
      if !raised && !violated {
        ReachesMore(s0, acts, State([], Pc.Fill({})), Loop(FillDone));
        acts := acts + [Loop(FillDone)];
      }
      ghost var all := FilledBy(order, leases, shardSeconds, batchMs);
      assert filling && !raised && !violated ==> acts == all + [Loop(FillDone)];
    }

    /**
     One iteration of the loop of `run`, as a run of the protocol. `verdicts` and `leases` are the
     environment's; the queue holds what the workers wrote, and the dead have nothing more to say.
     */
    method Iterate(verdicts: nat -> bool, now: int, drawn: nat, timeout: int, leases: nat -> nat, shardSeconds: int,
        batchMs: nat)
      returns (raised: bool, violated: bool, ghost acts: seq<Act>, ghost handled: nat, ghost filling: seq<Act>,
               ghost idle: set<Gpu>, ghost fills: bool)
      requires supervisor.Valid() && InQueue(supervisor.handles, supervisor.events)
      requires Silent(CollectAll(supervisor.handles, supervisor.events))
      requires idleGpus <= supervisor.handles.Keys && 1 <= drawn < SECP256K1_ORDER
      modifies this, repository, supervisor
      ensures supervisor.Valid()
      ensures Reaches(old(State([], Poll)), acts,
        State([], if violated then Stopped else if raised then Raised else Poll))
      ensures acts == GatherActs(old(supervisor.handles), old(supervisor.events), supervisor.devices)
        + HandleActs(verdicts, handled) + [Loop(HandleDone)] + DecisionActs(now, drawn, timeout) + filling
      ensures IsFilling(idle, fills, leases, shardSeconds, batchMs, raised || violated, filling)
    {
      hide Reaches, InQueue, Silent, CollectAll, GatherActs, HandleActs, DecisionActs, IsFilling;
      ghost var s0 := State([], Poll);
      var events;
      events, acts := GatherEvents();
      ghost var s1 := State(events, Handle);
      ghost var next := HandleEvents(events, verdicts);
      handled := |events|;
      ghost var s2 := State([], Check);
      ReachesThen(s0, acts, s1, next, s2);
      acts := acts + next;
      next := Decide(now, drawn, timeout);
      ghost var s3 := State([], FillAll(Sched(idleGpus, activeJob, drainingJob)));
      ReachesThen(s0, acts, s2, next, s3);
      acts := acts + next;
      idle, fills := idleGpus, activeJob.Some? && drainingJob.None?;
      raised, violated, next := AllocateIdle(leases, shardSeconds, batchMs);
      filling := next;
      ReachesThen(s0, acts, s3, next, State([], if violated then Stopped else if raised then Raised else Poll));
      acts := acts + next;
    }
  }

  /** Fault model, part 1: a dead worker has nothing left to say. */
  predicate Silent(handles: map<Gpu, Slot>) {
    forall g | g in handles && handles[g].phase.Dead? :: handles[g].outbox == []
  }

  /** Only known GPUs announce themselves. */
  predicate ReadyFrom(events: seq<WorkerEvent>, gpus: set<Gpu>) {
    forall i | 0 <= i < |events| && events[i].kind.READY? :: events[i].gpu in gpus
  }

  lemma CollectKeepsKeys(handles: map<Gpu, Slot>, batch: seq<WorkerEvent>)
    ensures CollectAll(handles, batch).Keys == handles.Keys
    decreases |batch|
  {
    if batch != [] { CollectKeepsKeys(Collected(handles, batch[0]), batch[1..]); }
  }

  lemma QueuedIsReadyFrom(handles: map<Gpu, Slot>, batch: seq<WorkerEvent>)
    requires InQueue(handles, batch)
    ensures ReadyFrom(batch, handles.Keys)
    decreases |batch|
  {
    if batch != [] {
      QueuedIsReadyFrom(Collected(handles, batch[0]), batch[1..]);
      assert forall i | 0 < i < |batch| :: batch[i] == batch[1..][i - 1];
    }
  }

  lemma {:induction false} ReportsAreNotReady(handles: map<Gpu, Slot>, devices: seq<Gpu>)
    requires forall i | 0 <= i < |devices| :: devices[i] in handles
    ensures forall i | 0 <= i < |Reports(handles, devices)| :: Reports(handles, devices)[i].kind.FAILED?
  {
    if devices != [] { ReportsAreNotReady(handles, devices[..|devices| - 1]); }
  }

  lemma ReviveKeepsKeys(handles: map<Gpu, Slot>, devices: seq<Gpu>)
    ensures ReviveAll(handles, devices).Keys == handles.Keys
  {
  }

  /** The members of a set, in some order. */
  method Listed(gpus: set<Gpu>) returns (order: seq<Gpu>)
    ensures Distinct(order) && gpus == set i | 0 <= i < |order| :: order[i]
  {
    order := [];
    var rest := gpus;
    while rest != {}
      invariant Distinct(order) && gpus == rest + (set i | 0 <= i < |order| :: order[i])
      invariant forall i | 0 <= i < |order| :: order[i] !in rest
      decreases rest
    {
      var g :| g in rest;
      ListOneMore(order, g);
      order := order + [g];
      rest := rest - {g};
    }
  }

  lemma ListOneMore(order: seq<Gpu>, g: Gpu)
    ensures (set i | 0 <= i < |order + [g]| :: (order + [g])[i]) == (set i | 0 <= i < |order| :: order[i]) + {g}
  {
    var more := order + [g];
    assert more[|order|] == g;
    assert forall i | 0 <= i < |order| :: more[i] == order[i];
  }

  lemma FillOneMore(s0: System, acts: seq<Act>, s: System, g: Gpu, lease: nat, shardSeconds: int, batchMs: nat)
    requires Reaches(s0, acts, s)
    requires s.pc.Fill? && g in s.pc.todo && s.sched.active.Some? && g in s.slots
    ensures Reaches(s0, acts + [Loop(FillOne(g, lease, shardSeconds, batchMs))],
      ApplyFill(s, g, lease, shardSeconds, batchMs))
  {
    RunOneMore(s0, acts, Loop(FillOne(g, lease, shardSeconds, batchMs)));
  }

  // ---- The loops of the supervisor are runs of the protocol's steps ---------------------------

  function CollectActs(batch: seq<WorkerEvent>): seq<Act> {
    seq(|batch|, i requires 0 <= i < |batch| => Loop(Collect(batch[i].gpu)))
  }

  lemma CollectOne(s: System, e: WorkerEvent)
    requires s.pc.Poll? && e.gpu in s.slots && s.slots[e.gpu].outbox != [] && s.slots[e.gpu].outbox[0] == e
    ensures LoopEnabled(s, Collect(e.gpu))
    ensures ApplyCollect(s, e.gpu) == System(s.store, s.sched, Collected(s.slots, e), s.inbox + [e], s.pc)
  {
  }

  /** Polling the queue is collecting its events one by one. */
  lemma {:induction false} PollIsCollecting(s: System, batch: seq<WorkerEvent>)
    requires s.pc.Poll? && InQueue(s.slots, batch)
    ensures Reaches(s, CollectActs(batch), System(s.store, s.sched, CollectAll(s.slots, batch), s.inbox + batch, s.pc))
    decreases |batch|
  {
    if batch == [] {
      assert s.inbox + [] == s.inbox;
    } else {
      hide Collected;
      var e := batch[0];
      CollectOne(s, e);
      hide ApplyCollect;
      var s1 := ApplyCollect(s, e.gpu);
      PollIsCollecting(s1, batch[1..]);
      assert s1.inbox + batch[1..] == s.inbox + batch;
      assert CollectActs(batch)[1..] == CollectActs(batch[1..]);
    }
  }

  function RespawnActs(handles: map<Gpu, Slot>, devices: seq<Gpu>): seq<Act>
    requires forall i | 0 <= i < |devices| :: devices[i] in handles
  {
    if devices == [] then []
    else
      var last := devices[|devices| - 1];
      RespawnActs(handles, devices[..|devices| - 1]) + if handles[last].phase.Dead? then [Loop(Respawn(last))] else []
  }

  /** Restarting the dead workers is respawning them one by one. */
  lemma {:induction false} RestartIsRespawning(s: System, devices: seq<Gpu>)
    requires s.pc.Restart? && Distinct(devices)
    requires forall i | 0 <= i < |devices| :: devices[i] in s.slots
    requires forall i | 0 <= i < |devices| && s.slots[devices[i]].phase.Dead? :: s.slots[devices[i]].outbox == []
    ensures Reaches(s, RespawnActs(s.slots, devices),
      System(s.store, s.sched, ReviveAll(s.slots, devices), s.inbox + Reports(s.slots, devices), s.pc))
    decreases |devices|
  {
    hide Reaches, ReviveAll, Revive, Report;
    if devices == [] {
      ReviveNone(s.slots);
      assert s.inbox + [] == s.inbox;
      NothingReached(s);
    } else {
      var n := |devices| - 1;
      var last, before := devices[n], devices[..n];
      RestartIsRespawning(s, before);
      ReviveOneMore(s.slots, before, last);
      assert devices == before + [last];
      var s1 := System(s.store, s.sched, ReviveAll(s.slots, before), s.inbox + Reports(s.slots, before), s.pc);
      LivingReportsNothing(s.slots[last]);
      assert s.inbox + Reports(s.slots, before) + Report(s.slots[last]) == s.inbox + Reports(s.slots, devices);
      if s.slots[last].phase.Dead? {
        RespawnOneMore(s, RespawnActs(s.slots, before), s1, last);
      } else {
        assert RespawnActs(s.slots, before) + [] == RespawnActs(s.slots, before);
        assert s.inbox + Reports(s.slots, before) + [] == s.inbox + Reports(s.slots, before);
      }
    }
  }

  lemma LivingReportsNothing(slot: Slot)
    ensures !slot.phase.Dead? ==> Report(slot) == [] && Revive(slot) == slot
    ensures slot.phase.Dead? ==> Revive(slot) == FreshSlot()
  {
  }

  lemma RespawnOneMore(s0: System, acts: seq<Act>, s: System, g: Gpu)
    requires Reaches(s0, acts, s)
    requires s.pc.Restart? && g in s.slots && s.slots[g].phase.Dead? && s.slots[g].outbox == []
    ensures Reaches(s0, acts + [Loop(Respawn(g))],
      System(s.store, s.sched, s.slots[g := FreshSlot()], s.inbox + Report(s.slots[g]), s.pc))
  {
    RunOneMore(s0, acts, Loop(Respawn(g)));
  }
}
