/** Concrete runs of a one-GPU fleet that reach the situations the negative results are about. */
module Scenarios {
  import opened Common
  import opened JobStore
  import opened JobStoreProofs
  import opened Protocol
  import opened ProtocolProofs
  import opened ProtocolTheorems

  const GPU: Gpu := "gpu"

  function Devices(status: GpuStatus, job: Option<JobId>): map<Gpu, Device> { map[GPU := Device(status, 1, job)] }

  function Booted(): seq<WorkerEvent> { [Plain(STARTING, GPU), Plain(SELF_TESTING, GPU), Plain(READY, GPU)] }

  /** A fleet whose worker is in `phase` with `outbox` unread and `inbox` collected. */
  function Fleet(jobs: seq<Job>, shards: seq<Shard>, status: GpuStatus, idle: set<Gpu>, phase: Phase,
                 outbox: seq<WorkerEvent>, inbox: seq<WorkerEvent>, pc: Pc): System
  {
    System(Store(jobs, shards, Devices(status, None)), Sched(idle, None, None),
           map[GPU := Slot(None, [], phase, outbox)], inbox, pc)
  }

  function Fresh(jobs: seq<Job>, shards: seq<Shard>): System {
    Fleet(jobs, shards, GpuStatus.Starting, {}, Boot(0), [], [], Poll)
  }

  /** The worker waits and is known to be idle. */
  function Rested(jobs: seq<Job>, shards: seq<Shard>): System {
    Fleet(jobs, shards, GpuStatus.Ready, {GPU}, Waiting, [], [], Check)
  }

  lemma Boots(jobs: seq<Job>, shards: seq<Shard>) returns (acts: seq<Act>)
    ensures Reaches(Fresh(jobs, shards), acts, Rested(jobs, shards))
  {
    acts := Speaks3(jobs, shards);
    var more := Heard3(jobs, shards);
    ReachesThen(Fresh(jobs, shards), acts,
      Fleet(jobs, shards, GpuStatus.Starting, {}, Waiting, Booted(), [], Poll), more, Rested(jobs, shards));
    acts := acts + more;
  }

  /** The worker boots and announces itself. */
  lemma Speaks3(jobs: seq<Job>, shards: seq<Shard>) returns (acts: seq<Act>)
    ensures Reaches(Fresh(jobs, shards), acts, Fleet(jobs, shards, GpuStatus.Starting, {}, Waiting, Booted(), [], Poll))
  {
    var s0 := Fresh(jobs, shards);
    var step := Act.Worker(GPU, BootStep);
    var s1 := Fleet(jobs, shards, GpuStatus.Starting, {}, Boot(1), Booted()[..1], [], Poll);
    var s2 := Fleet(jobs, shards, GpuStatus.Starting, {}, Boot(2), Booted()[..2], [], Poll);
    var s3 := Fleet(jobs, shards, GpuStatus.Starting, {}, Waiting, Booted(), [], Poll);
    assert [] + [Booted()[0]] == Booted()[..1] && Booted()[..1] + [Booted()[1]] == Booted()[..2];
    assert Booted()[..2] + [Booted()[2]] == Booted();
    SaysNext(jobs, shards, Boot(0), [], Boot(1), Booted()[0]);
    SaysNext(jobs, shards, Boot(1), Booted()[..1], Boot(2), Booted()[1]);
    SaysNext(jobs, shards, Boot(2), Booted()[..2], Waiting, Booted()[2]);
    acts := Three(s0, step, s1, step, s2, step, s3);
  }

  lemma SaysNext(jobs: seq<Job>, shards: seq<Shard>, phase: Phase, said: seq<WorkerEvent>, next: Phase, e: WorkerEvent)
    requires phase.Boot? && BootNext(Slot(None, [], phase, said), GPU) == Slot(None, [], next, said + [e])
    ensures Apply(Fleet(jobs, shards, GpuStatus.Starting, {}, phase, said, [], Poll), Act.Worker(GPU, BootStep))
         == Fleet(jobs, shards, GpuStatus.Starting, {}, next, said + [e], [], Poll)
  {
    assert map[GPU := Slot(None, [], phase, said)][GPU := Slot(None, [], next, said + [e])]
        == map[GPU := Slot(None, [], next, said + [e])];
  }

  lemma Three(s0: System, a: Act, s1: System, b: Act, s2: System, c: Act, s3: System) returns (acts: seq<Act>)
    requires Enabled(s0, a) && Apply(s0, a) == s1 && Enabled(s1, b) && Apply(s1, b) == s2
    requires Enabled(s2, c) && Apply(s2, c) == s3
    ensures Reaches(s0, acts, s3)
  {
    hide Reaches, Apply, Enabled;
    NothingReached(s0);
    acts := [];
    ReachesMore(s0, acts, s0, a);
    acts := acts + [a];
    ReachesMore(s0, acts, s1, b);
    acts := acts + [b];
    ReachesMore(s0, acts, s2, c);
    acts := acts + [c];
  }

  /** The scheduler collects and handles the three announcements. */
  lemma Heard3(jobs: seq<Job>, shards: seq<Shard>) returns (acts: seq<Act>)
    ensures Reaches(Fleet(jobs, shards, GpuStatus.Starting, {}, Waiting, Booted(), [], Poll), acts,
      Rested(jobs, shards))
  {
    var e := Booted();
    var s0 := Fleet(jobs, shards, GpuStatus.Starting, {}, Waiting, e, [], Poll);
    var s1 := Fleet(jobs, shards, GpuStatus.Starting, {}, Waiting, e[1..], e[..1], Poll);
    var s2 := Fleet(jobs, shards, GpuStatus.Starting, {}, Waiting, e[2..], e[..2], Poll);
    var s3 := Fleet(jobs, shards, GpuStatus.Starting, {}, Waiting, [], e, Poll);
    var take := Loop(Collect(GPU));
    assert [] + [e[0]] == e[..1] && e[..1] + [e[1]] == e[..2] && e[..2] + [e[2]] == e;
    assert e[1..][1..] == e[2..] && e[2..][1..] == [];
    Taken(jobs, shards, e, []);
    Taken(jobs, shards, e[1..], e[..1]);
    Taken(jobs, shards, e[2..], e[..2]);
    acts := Three(s0, take, s1, take, s2, take, s3);
    var more := Handled3(jobs, shards);
    ReachesThen(s0, acts, s3, more, Rested(jobs, shards));
    acts := acts + more;
  }

  lemma Taken(jobs: seq<Job>, shards: seq<Shard>, unread: seq<WorkerEvent>, read: seq<WorkerEvent>)
    requires unread != [] && !ClearsAssignment(unread[0].kind)
    ensures ApplyCollect(Fleet(jobs, shards, GpuStatus.Starting, {}, Waiting, unread, read, Poll), GPU)
         == Fleet(jobs, shards, GpuStatus.Starting, {}, Waiting, unread[1..], read + [unread[0]], Poll)
  {
    var slot := Slot(None, [], Waiting, unread[1..]);
    assert map[GPU := Slot(None, [], Waiting, unread)][GPU := slot] == map[GPU := slot];
  }

  lemma Handled3(jobs: seq<Job>, shards: seq<Shard>) returns (acts: seq<Act>)
    ensures Reaches(Fleet(jobs, shards, GpuStatus.Starting, {}, Waiting, [], Booted(), Poll), acts,
      Rested(jobs, shards))
  {
    var e := Booted();
    var s0 := Fleet(jobs, shards, GpuStatus.Starting, {}, Waiting, [], e, Poll);
    var s2 := Fleet(jobs, shards, GpuStatus.Starting, {}, Waiting, [], e, Handle);
    var s3 := Fleet(jobs, shards, GpuStatus.Starting, {}, Waiting, [], e[1..], Handle);
    var s4 := Fleet(jobs, shards, GpuStatus.SelfTesting, {}, Waiting, [], e[2..], Handle);
    var s5 := Fleet(jobs, shards, GpuStatus.Ready, {GPU}, Waiting, [], [], Handle);
    var handle := Loop(HandleEvent(true));
    HandledOne(jobs, shards, GpuStatus.Starting, e);
    HandledOne(jobs, shards, GpuStatus.Starting, e[1..]);
    HandledOne(jobs, shards, GpuStatus.SelfTesting, e[2..]);
    acts := Three(s0, Loop(PollDone), At(s0, Restart), Loop(RestartDone), s2, handle, s3);
    var more := Three(s3, handle, s4, handle, s5, Loop(HandleDone), Rested(jobs, shards));
    ReachesThen(s0, acts, s3, more, Rested(jobs, shards));
    acts := acts + more;
  }

  lemma HandledOne(jobs: seq<Job>, shards: seq<Shard>, status: GpuStatus, events: seq<WorkerEvent>)
    requires events != [] && events[0].gpu == GPU && events[0] == Plain(events[0].kind, GPU)
    requires events[0].kind.STARTING? || events[0].kind.SELF_TESTING? || events[0].kind.READY?
    ensures var kind := events[0].kind;
      ApplyHandle(Fleet(jobs, shards, status, {}, Waiting, [], events, Handle), true)
      == Fleet(jobs, shards,
               if kind.STARTING? then GpuStatus.Starting
               else if kind.SELF_TESTING? then GpuStatus.SelfTesting
               else GpuStatus.Ready,
               if kind.READY? then {GPU} else {}, Waiting, [], events[1..], Handle)
  {
    var e := events[0];
    var devices := Devices(status, None);
    assert MatchingShard(shards, e).None?;
    assert devices[GPU := DeviceAfter(devices[GPU], e)] == map[GPU := DeviceAfter(devices[GPU], e)];
  }

  // ---- A job interrupted after its first shard -------------------------------------------------

  function OneJob(status: JobStatus, origin: Option<nat>, next: Option<nat>, deadline: Option<int>): Job {
    Job(0, None, status, 0, 0, origin, next, deadline, None)
  }

  /** From rest to the allocation: the job is claimed and the GPU is about to be served. */
  lemma Claims(job: Job, shards: seq<Shard>) returns (acts: seq<Act>)
    requires job == OneJob(JobStatus.Queued, job.searchOrigin, job.nextOffset, None)
    requires job.searchOrigin.None? || job.searchOrigin == Some(1)
    ensures Reaches(Rested([job], shards), acts, Served(shards, 1))
  {
    var s0 := Rested([job], shards);
    var s3 := Served(shards, 1);
    assert NextQueued([job]) == Some(0) by { assert [job][..0] == []; }
    assert FirstActive([job]).None? by { assert [job][..0] == []; }
    var claimed := Claim(s0.store, 1, 0, 100);
    assert claimed.0.jobs == [OneJob(JobStatus.Searching, Some(1), Some(1), Some(100))];
    acts := Three(s0, Loop(CheckActive(0)), At(s0, Drain), Loop(FinishDraining), At(s0, Claiming),
                  Loop(ClaimIfReady(1, 0, 100)), s3);
  }

  function Served(shards: seq<Shard>, next: nat): System {
    System(Store([OneJob(JobStatus.Searching, Some(1), Some(next), Some(100))], shards, Devices(GpuStatus.Ready, None)),
           Sched({GPU}, Some(0), None), map[GPU := Slot(None, [], Waiting, [])], [], Fill({GPU}))
  }

  function FirstShard(status: ShardStatus): Shard { Shard(0, GPU, 0, 1, 1, 0, status) }

  /** The first allocation hands out [1, 2). */
  lemma FirstAllocation()
    ensures var s := ApplyFill(Served([], 1), GPU, 0, 1, 1);
      s.pc == Fill({}) && s.slots.Keys == {GPU}
      && s.store == Store(
           [OneJob(JobStatus.Searching, Some(1), Some(2), Some(100))], [FirstShard(ShardStatus.Assigned)],
                          Devices(GpuStatus.Searching, Some(0)))
  {
  }

  /** The second scheduler starts over recovered tables. */
  lemma Recovered(s: System)
    requires s.slots.Keys == {GPU}
    requires s.store == Store([OneJob(JobStatus.Searching, Some(1), Some(2), Some(100))],
                              [FirstShard(ShardStatus.Assigned)], Devices(GpuStatus.Searching, Some(0)))
    ensures ApplyRestart(s, map[GPU := 1])
         == Fresh([OneJob(JobStatus.Queued, Some(1), Some(1), None)], [FirstShard(ShardStatus.Failed)])
  {
    var s' := ApplyRestart(s, map[GPU := 1]);
    assert s'.store.jobs == [OneJob(JobStatus.Queued, Some(1), Some(1), None)];
    assert s'.store.shards == [FirstShard(ShardStatus.Failed)];
    assert s'.store.devices == Devices(GpuStatus.Starting, None);
    assert s'.slots == map[GPU := FreshSlot()];
  }

  lemma SecondAllocation()
    ensures ApplyFill(Served([FirstShard(ShardStatus.Failed)], 1), GPU, 0, 1, 1).pc.Stopped?
  {
    assert [FirstShard(ShardStatus.Failed)][0].start == 1;
  }

  /** The tables as created: a new job and a device that is starting. */
  lemma CreatedFleet()
    ensures Initial(Store([], [], map[]), map[GPU := 1]) == Fresh([], [])
    ensures Apply(Fresh([], []), Api(ApiCreate(0, None, 0))) == Fresh([OneJob(JobStatus.Queued, None, None, None)], [])
  {
    var s := Initial(Store([], [], map[]), map[GPU := 1]);
    assert s.store.devices == Devices(GpuStatus.Starting, None);
    assert s.slots == map[GPU := FreshSlot()];
  }

  /**
   A whole run into the constraint: a job gets its first shard, the scheduler restarts, the job is
   claimed again and the allocation stops the scheduler.
   */
  lemma InterruptedJobStopsScheduler() returns (acts: seq<Act>)
    ensures var s0 := Initial(Store([], [], map[]), map[GPU := 1]);
      StoreOk(Store([], [], map[])) && CanRun(s0, acts) && Run(s0, acts).pc.Stopped?
  {
    acts := FirstRound();
    var again, failed := OneJob(JobStatus.Queued, Some(1), Some(1), None), [FirstShard(ShardStatus.Failed)];
    var second := ToAllocation(again, failed);
    var s := ApplyFill(Served(failed, 1), GPU, 0, 1, 1);
    SecondAllocation();
    CreatedFleet();
    EmptyTablesAreOk();
    hide Fresh, Served, ApplyFill, Reaches, OneJob, FirstShard, Fleet, StoreOk, Initial;
    ReachesThen(Fresh([], []), acts, Fresh([again], failed), second, s);
    acts := acts + second;
    ReachedIs(Fresh([], []), acts, s);
  }

  lemma EmptyTablesAreOk()
    ensures StoreOk(Store([], [], map[]))
  {
  }

  /** From nothing to a second scheduler over the tables of an interrupted job. */
  lemma FirstRound() returns (acts: seq<Act>)
    ensures Reaches(Fresh([], []), acts,
      Fresh([OneJob(JobStatus.Queued, Some(1), Some(1), None)], [FirstShard(ShardStatus.Failed)]))
  {
    var job := OneJob(JobStatus.Queued, None, None, None);
    var create, restart := Api(ApiCreate(0, None, 0)), SchedulerRestarts(map[GPU := 1]);
    CreatedFleet();
    var s0, s1 := Fresh([], []), ApplyFill(Served([], 1), GPU, 0, 1, 1);
    FirstAllocation();
    Recovered(s1);
    var first := ToAllocation(job, []);
    hide Fresh, Served, ApplyFill, ApplyRestart, Reaches, OneJob, FirstShard, Fleet;
    NothingReached(s0);
    acts := [];
    ReachesMore(s0, acts, s0, create);
    acts := acts + [create];
    ReachesThen(s0, acts, Fresh([job], []), first, s1);
    acts := acts + first;
    ReachesMore(s0, acts, s1, restart);
    acts := acts + [restart];
  }

  lemma ReachedIs(s0: System, acts: seq<Act>, s: System)
    requires Reaches(s0, acts, s)
    ensures CanRun(s0, acts) && Run(s0, acts) == s
  {
  }

  /** From a fresh fleet with one queued job to the allocation of its next shard. */
  lemma ToAllocation(job: Job, shards: seq<Shard>) returns (acts: seq<Act>)
    requires job == OneJob(JobStatus.Queued, job.searchOrigin, job.nextOffset, None)
    requires job.searchOrigin.None? || job.searchOrigin == Some(1)
    ensures Reaches(Fresh([job], shards), acts, ApplyFill(Served(shards, 1), GPU, 0, 1, 1))
  {
    var fill := Loop(FillOne(GPU, 0, 1, 1));
    var s0, s2 := Fresh([job], shards), Served(shards, 1);
    assert Enabled(s2, fill) && Apply(s2, fill) == ApplyFill(s2, GPU, 0, 1, 1);
    acts := Boots([job], shards);
    var claim := Claims(job, shards);
    hide Fresh, Rested, Served, ApplyFill, Reaches, OneJob, Apply, Enabled;
    ReachesThen(s0, acts, Rested([job], shards), claim, s2);
    acts := acts + claim;
    ReachesMore(s0, acts, s2, fill);
    acts := acts + [fill];
  }

  // ---- A death after READY ---------------------------------------------------------------------

  /** A run after which a death the fault model excludes would leave a booting worker marked idle. */
  lemma DeathAfterReadyHappens() returns (acts: seq<Act>)
    ensures var s0 := Initial(Store([], [], map[]), map[GPU := 1]);
      && CanRun(s0, acts)
      && var s := Run(s0, acts);
         && GPU in s.slots
         && var handled := HandleAll(ApplyRespawn(Put(s, GPU, s.slots[GPU].(phase := Dead)), GPU));
            GPU in handled.sched.idle && GPU in handled.slots && handled.slots[GPU].phase.Boot?
  {
    CreatedFleet();
    acts := Boots([], []);
    ReachedIs(Fresh([], []), acts, Rested([], []));
    var views := ReachableInv(Store([], [], map[]), map[GPU := 1], acts);
    DeathAfterReadyMisleads(Rested([], []), views, GPU, views);
  }

  // ---- A canceled job makes room for the next one ----------------------------------------------

  const WORK := WorkAssignment(0, 0, 0, GPU, 1, 1, 1, 1)

  function NewJob0(): Job { OneJob(JobStatus.Queued, None, None, None) }

  function NewJobs(): seq<Job> { [NewJob0(), NewJob0()] }

  /** Two jobs, the first with its shard out, or canceled after that. */
  function FirstServed(status: JobStatus): seq<Job> {
    [OneJob(status, Some(1), Some(2), Some(100)), NewJob0()]
  }

  /** The fleet while its GPU is on the first job. */
  function Serving(status: JobStatus, shard: ShardStatus, sched: Sched, slot: Slot, inbox: seq<WorkerEvent>, pc: Pc)
    : System
  {
    System(Store(FirstServed(status), [FirstShard(shard)], Devices(GpuStatus.Searching, Some(0))), sched,
           map[GPU := slot], inbox, pc)
  }

  lemma SameMap(slot: Slot, slot': Slot)
    ensures map[GPU := slot][GPU := slot'] == map[GPU := slot']
  {
  }

  /** The first job is claimed and its first shard handed out. */
  lemma ServesFirst() returns (acts: seq<Act>)
    ensures Reaches(Rested(NewJobs(), []), acts,
      Serving(JobStatus.Searching, ShardStatus.Assigned, Sched({}, Some(0), None),
              Slot(Some(WORK), [Work(WORK)], Waiting, []), [], Fill({})))
  {
    var s0 := Rested(NewJobs(), []);
    var claimed := FirstClaimed();
    var s3 := System(Store(claimed, [], Devices(GpuStatus.Ready, None)), Sched({GPU}, Some(0), None),
                     map[GPU := Slot(None, [], Waiting, [])], [], Fill({GPU}));
    FirstIsNext();
    assert Claim(s0.store, 1, 0, 100).0.jobs == claimed;
    acts := Three(s0, Loop(CheckActive(0)), At(s0, Drain), Loop(FinishDraining), At(s0, Claiming),
                  Loop(ClaimIfReady(1, 0, 100)), s3);
    FirstFill();
    ReachesMore(s0, acts, s3, Loop(FillOne(GPU, 0, 1, 1)));
    acts := acts + [Loop(FillOne(GPU, 0, 1, 1))];
  }

  function FirstClaimed(): seq<Job> { [OneJob(JobStatus.Searching, Some(1), Some(1), Some(100)), NewJob0()] }

  lemma FirstFill()
    ensures ApplyFill(System(Store(FirstClaimed(), [], Devices(GpuStatus.Ready, None)), Sched({GPU}, Some(0), None),
                             map[GPU := Slot(None, [], Waiting, [])], [], Fill({GPU})), GPU, 0, 1, 1)
         == Serving(JobStatus.Searching, ShardStatus.Assigned, Sched({}, Some(0), None),
                    Slot(Some(WORK), [Work(WORK)], Waiting, []), [], Fill({}))
  {
    var st := Store(FirstClaimed(), [], Devices(GpuStatus.Ready, None));
    var (st', r) := Allocate(st, 0, GPU, 0, 1, 1);
    assert r == Allocated(WORK);
    assert st'.jobs == FirstServed(JobStatus.Searching);
    assert st'.shards == [FirstShard(ShardStatus.Assigned)];
    assert st'.devices == Devices(GpuStatus.Searching, Some(0));
    var idle: set<Gpu>, free := {GPU}, Slot(None, [], Waiting, []);
    assert idle - {GPU} == {};
    assert Dispatch(free, WORK) == Slot(Some(WORK), [Work(WORK)], Waiting, []);
    SameMap(free, Dispatch(free, WORK));
  }

  lemma FirstIsNext()
    ensures FirstActive(NewJobs()).None? && NextQueued(NewJobs()) == Some(0)
  {
    hide NewJob0;
    var jobs := NewJobs();
    assert forall j | 0 <= j < |jobs| :: jobs[j] == NewJob0();
    StillQueued();
  }

  lemma StillQueued()
    ensures NewJob0().status.Queued? && NewJob0().priority == 0
  {
  }

  function Started(): seq<WorkerEvent> { [About(STARTED, WORK, 0)] }

  function Parted(): seq<WorkerEvent> { [About(STARTED, WORK, 0), About(CANCELED, WORK, 0), Plain(READY, GPU)] }

  function Busy0(commands: seq<Command>): Slot { Slot(Some(WORK), commands, Phase.Running(WORK, 0), Started()) }

  /** The worker takes its work and the user cancels the job. */
  lemma IsCanceled() returns (acts: seq<Act>)
    ensures Reaches(
      Serving(JobStatus.Searching, ShardStatus.Assigned, Sched({}, Some(0), None),
              Slot(Some(WORK), [Work(WORK)], Waiting, []), [], Fill({})), acts,
      Serving(JobStatus.Canceled, ShardStatus.Assigned, Sched({}, Some(0), None), Busy0([]), [], Poll))
  {
    var sched, work := Sched({}, Some(0), None), Slot(Some(WORK), [Work(WORK)], Waiting, []);
    var s0 := Serving(JobStatus.Searching, ShardStatus.Assigned, sched, work, [], Fill({}));
    var s1 := Serving(JobStatus.Searching, ShardStatus.Assigned, sched, work, [], Poll);
    var s2 := Serving(JobStatus.Searching, ShardStatus.Assigned, sched, Busy0([]), [], Poll);
    var s3 := Serving(JobStatus.Canceled, ShardStatus.Assigned, sched, Busy0([]), [], Poll);
    SameMap(work, Busy0([]));
    assert TakeNext(work) == Busy0([]) by { assert [Work(WORK)][1..] == [] && work.outbox + Started() == Started(); }
    assert CancelJob(s2.store, 0, 0).0.jobs == FirstServed(JobStatus.Canceled);
    acts := Three(s0, Loop(FillDone), s1, Act.Worker(GPU, TakeCommand), s2, Api(ApiCancel(0, 0)), s3);
  }

  lemma CancelsWork()
    ensures CancelAll(map[GPU := Busy0([])], 0) == map[GPU := Busy0([Cancel(0)])]
  {
    var none: seq<Command> := [];
    assert none + [Cancel(0)] == [Cancel(0)];
    assert CancelSlot(Busy0([]), 0) == Busy0([Cancel(0)]);
  }

  /** While the worker has not stopped the scheduler keeps draining. */
  lemma IsDraining() returns (acts: seq<Act>)
    ensures var s := Serving(JobStatus.Canceled, ShardStatus.Assigned, Sched({}, None, Some(0)), Busy0([Cancel(0)]), [],
                             Drain);
      Reaches(s, acts, At(s, Poll))
  {
    var sched := Sched({}, None, Some(0));
    var s := Serving(JobStatus.Canceled, ShardStatus.Assigned, sched, Busy0([Cancel(0)]), [], Drain);
    assert GPU in s.slots;
    acts := Three(s, Loop(FinishDraining), At(s, Claiming), Loop(ClaimIfReady(1, 0, 100)), At(s, Fill({})),
                  Loop(FillDone), At(s, Poll));
  }

  /** The scheduler notices, tells the worker and waits. */
  lemma IsNoticed() returns (acts: seq<Act>)
    ensures Reaches(
      Serving(JobStatus.Canceled, ShardStatus.Assigned, Sched({}, Some(0), None), Busy0([]), [], Poll), acts,
      Draining(Busy0([Cancel(0)]), []))
  {
    var s0 := Serving(JobStatus.Canceled, ShardStatus.Assigned, Sched({}, Some(0), None), Busy0([]), [], Poll);
    var sched := Sched({}, None, Some(0));
    var s4 := Serving(JobStatus.Canceled, ShardStatus.Assigned, sched, Busy0([Cancel(0)]), [], Drain);
    CancelsWork();
    acts := Three(s0, Loop(PollDone), At(s0, Restart), Loop(RestartDone), At(s0, Handle), Loop(HandleDone),
                  At(s0, Check));
    ReachesMore(s0, acts, At(s0, Check), Loop(CheckActive(0)));
    acts := acts + [Loop(CheckActive(0))];
    var more := IsDraining();
    ReachesThen(s0, acts, s4, more, At(s4, Poll));
    acts := acts + more;
  }

  /** While the first job drains: canceled, its shard still marked as assigned. */
  function Draining(slot: Slot, inbox: seq<WorkerEvent>): System {
    Serving(JobStatus.Canceled, ShardStatus.Assigned, Sched({}, None, Some(0)), slot, inbox, Poll)
  }

  /** The worker stops and announces itself. */
  lemma IsStopped() returns (acts: seq<Act>)
    ensures Reaches(Draining(Busy0([Cancel(0)]), []), acts, Draining(Slot(Some(WORK), [], Waiting, Parted()), []))
  {
    var e := Parted();
    var stopped, ready := Slot(Some(WORK), [], Finished, e[..2]), Slot(Some(WORK), [], Waiting, e);
    var s0, s1, s2 := Draining(Busy0([Cancel(0)]), []), Draining(stopped, []), Draining(ready, []);
    assert [Cancel(0)][0] == Cancel(0);
    assert Started() + [e[1]] == e[..2] && e[..2] + [e[2]] == e;
    SameMap(Busy0([Cancel(0)]), stopped);
    SameMap(stopped, ready);
    NothingReached(s0);
    acts := [];
    ReachesMore(s0, acts, s0, Act.Worker(GPU, DrainCommands(false)));
    acts := acts + [Act.Worker(GPU, DrainCommands(false))];
    ReachesMore(s0, acts, s1, Act.Worker(GPU, SayReady));
    acts := acts + [Act.Worker(GPU, SayReady)];
  }

  /** The scheduler reads it all. */
  lemma IsHeard() returns (acts: seq<Act>)
    ensures Reaches(Draining(Slot(Some(WORK), [], Waiting, Parted()), []), acts,
                    Draining(Slot(None, [], Waiting, []), Parted()))
  {
    var e := Parted();
    var ready, once := Slot(Some(WORK), [], Waiting, e), Slot(Some(WORK), [], Waiting, e[1..]);
    var twice, free := Slot(None, [], Waiting, e[2..]), Slot(None, [], Waiting, []);
    assert [] + [e[0]] == e[..1] && e[..1] + [e[1]] == e[..2] && e[..2] + [e[2]] == e;
    assert e[1..][1..] == e[2..] && e[2..][1..] == [];
    SameMap(ready, once);
    SameMap(once, twice);
    SameMap(twice, free);
    var take := Loop(Collect(GPU));
    acts := Three(Draining(ready, []), take, Draining(once, e[..1]), take, Draining(twice, e[..2]), take,
                  Draining(free, e));
  }

  /** The fleet while the canceled job's events are handled. */
  function Handling(shard: ShardStatus, device: Device, idle: set<Gpu>, inbox: seq<WorkerEvent>, pc: Pc): System {
    System(Store(FirstServed(JobStatus.Canceled), [FirstShard(shard)], map[GPU := device]), Sched(idle, None, Some(0)),
           map[GPU := Slot(None, [], Waiting, [])], inbox, pc)
  }

  lemma IsHandled() returns (acts: seq<Act>)
    ensures Reaches(Draining(Slot(None, [], Waiting, []), Parted()), acts,
      Handling(ShardStatus.Canceled, Device(GpuStatus.Ready, 1, None), {GPU}, [], Check))
  {
    var e, busy := Parted(), Device(GpuStatus.Searching, 1, Some(0));
    var s0 := Handling(ShardStatus.Assigned, busy, {}, e, Poll);
    var s1 := Handling(ShardStatus.Running, busy, {}, e[1..], Handle);
    var s2 := Handling(ShardStatus.Canceled, busy, {}, e[2..], Handle);
    var s3 := Handling(ShardStatus.Canceled, Device(GpuStatus.Ready, 1, None), {GPU}, [], Handle);
    assert e[1..][1..] == e[2..] && e[2..][1..] == [];
    HandledAbout(STARTED, ShardStatus.Assigned, ShardStatus.Running, e);
    HandledAbout(CANCELED, ShardStatus.Running, ShardStatus.Canceled, e[1..]);
    HandledReady(e[2..]);
    var handle := Loop(HandleEvent(true));
    acts := Three(s0, Loop(PollDone), At(s0, Restart), Loop(RestartDone), At(s0, Handle), handle, s1);
    var more := Three(s1, handle, s2, handle, s3, Loop(HandleDone), At(s3, Check));
    ReachesThen(s0, acts, s1, more, At(s3, Check));
    acts := acts + more;
  }

  lemma HandledAbout(kind: EventKind, before: ShardStatus, after: ShardStatus, events: seq<WorkerEvent>)
    requires events != [] && events[0] == About(kind, WORK, 0)
    requires (kind.STARTED? && after.Running?) || (kind.CANCELED? && after.Canceled?)
    ensures var busy := Device(GpuStatus.Searching, 1, Some(0));
      ApplyHandle(Handling(before, busy, {}, events, Handle), true) == Handling(after, busy, {}, events[1..], Handle)
  {
    var busy := Device(GpuStatus.Searching, 1, Some(0));
    assert map[GPU := busy][GPU := busy] == map[GPU := busy];
    assert MatchingShard([FirstShard(before)], events[0]) == Some(0);
    assert [FirstShard(before)][0 := FirstShard(after)] == [FirstShard(after)];
    var none: set<Gpu> := {};
    assert none - {GPU} == {};
  }

  lemma HandledReady(events: seq<WorkerEvent>)
    requires events == [Plain(READY, GPU)]
    ensures ApplyHandle(
      Handling(ShardStatus.Canceled, Device(GpuStatus.Searching, 1, Some(0)), {}, events, Handle), true)
         == Handling(ShardStatus.Canceled, Device(GpuStatus.Ready, 1, None), {GPU}, [], Handle)
  {
    var busy, ready := Device(GpuStatus.Searching, 1, Some(0)), Device(GpuStatus.Ready, 1, None);
    assert map[GPU := busy][GPU := ready] == map[GPU := ready];
    var none: set<Gpu> := {};
    assert events[1..] == [] && none + {GPU} == {GPU};
  }

  /** All GPUs rest, so the draining ends and the second job is claimed. */
  lemma ClaimsSecond() returns (acts: seq<Act>, s: System)
    ensures Reaches(Handling(ShardStatus.Canceled, Device(GpuStatus.Ready, 1, None), {GPU}, [], Check), acts, s)
    ensures s.sched.draining.None? && s.sched.active == Some(1)
    ensures |s.store.jobs| == 2 && s.store.jobs[0].status.Canceled? && s.store.jobs[1].status.Searching?
  {
    var s0 := Handling(ShardStatus.Canceled, Device(GpuStatus.Ready, 1, None), {GPU}, [], Check);
    var s2 := System(s0.store, Sched({GPU}, None, None), s0.slots, [], Claiming);
    assert FirstActive(s0.store.jobs).None? && NextQueued(s0.store.jobs) == Some(1) by {
      var jobs := FirstServed(JobStatus.Canceled);
      assert jobs[0].status.Canceled? && jobs[1].status.Queued?;
    }
    s := ApplyClaim(s2, 1, 0, 100);
    acts := Three(s0, Loop(CheckActive(0)), At(s0, Drain), Loop(FinishDraining), s2, Loop(ClaimIfReady(1, 0, 100)), s);
  }

  lemma JustCreated()
    ensures NewJob0() == OneJob(JobStatus.Queued, None, None, None)
  {
  }

  lemma CreatedTwo()
    ensures Apply(Fresh([NewJob0()], []), Api(ApiCreate(0, None, 0))) == Fresh(NewJobs(), [])
  {
  }

  /**
   A whole run: two jobs are created, the first is claimed, served, canceled and drained, and the second
   one is claimed.
   */
  lemma CanceledJobMakesRoom() returns (acts: seq<Act>)
    ensures var s0 := Initial(Store([], [], map[]), map[GPU := 1]);
      && CanRun(s0, acts)
      && var s := Run(s0, acts);
         && s.sched.draining.None? && s.sched.active == Some(1)
         && |s.store.jobs| == 2 && s.store.jobs[0].status.Canceled? && s.store.jobs[1].status.Searching?
  {
    var create := Api(ApiCreate(0, None, 0));
    CreatedFleet();
    CreatedTwo();
    var boot := Boots(NewJobs(), []);
    var serve := ServesFirst();
    var cancel := IsCanceled();
    var notice := IsNoticed();
    var stop := IsStopped();
    var hear := IsHeard();
    var handle := IsHandled();
    var claim, s := ClaimsSecond();
    var s0 := Fresh([], []);
    JustCreated();
    hide Fresh, Rested, Serving, Handling, Reaches, Apply, OneJob, NewJob0, NewJobs, Busy0, Initial;
    NothingReached(s0);
    acts := [];
    ReachesMore(s0, acts, s0, create);
    acts := acts + [create];
    ReachesMore(s0, acts, Fresh([NewJob0()], []), create);
    acts := acts + [create];
    ReachesThen(s0, acts, Fresh(NewJobs(), []), boot, Rested(NewJobs(), []));
    acts := acts + boot;
    var s1 := Serving(JobStatus.Searching, ShardStatus.Assigned, Sched({}, Some(0), None),
                      Slot(Some(WORK), [Work(WORK)], Waiting, []), [], Fill({}));
    ReachesThen(s0, acts, Rested(NewJobs(), []), serve, s1);
    acts := acts + serve;
    var s2 := Serving(JobStatus.Canceled, ShardStatus.Assigned, Sched({}, Some(0), None), Busy0([]), [], Poll);
    ReachesThen(s0, acts, s1, cancel, s2);
    acts := acts + cancel;
    var s3, said := Draining(Busy0([Cancel(0)]), []), Draining(Slot(Some(WORK), [], Waiting, Parted()), []);
    ReachesThen(s0, acts, s2, notice, s3);
    acts := acts + notice;
    ReachesThen(s0, acts, s3, stop, said);
    acts := acts + stop;
    var s4 := Draining(Slot(None, [], Waiting, []), Parted());
    ReachesThen(s0, acts, said, hear, s4);
    acts := acts + hear;
    var s5 := Handling(ShardStatus.Canceled, Device(GpuStatus.Ready, 1, None), {GPU}, [], Check);
    ReachesThen(s0, acts, s4, handle, s5);
    acts := acts + handle;
    ReachesThen(s0, acts, s5, claim, s);
    acts := acts + claim;
    ReachedIs(s0, acts, s);
  }
}
