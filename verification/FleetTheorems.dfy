/** Idle GPUs and their device rows: allocation never turns an idle GPU away because of its device. */
module FleetTheorems {
  import opened Common
  import opened JobStore
  import opened JobStoreProofs
  import opened JobStoreTheorems
  import opened Protocol
  import opened ProtocolProofs
  import opened ProtocolSteps
  import opened ProtocolTheorems

  predicate Available(st: Store, g: Gpu) {
    g in st.devices && st.devices[g].status.Ready? && st.devices[g].currentJob.None?
  }

  predicate IdleAreAvailable(s: System) { forall g | g in s.sched.idle :: Available(s.store, g) }

  /** The only event that makes a GPU idle also makes its device available. */
  lemma HandleKeepsAvailable(s: System, views: map<Gpu, View>, verified: bool)
    requires Inv(s, views) && IdleAreAvailable(s) && s.inbox != []
    ensures IdleAreAvailable(ApplyHandle(s, verified))
  {
    hide RecordEvent, StoreOk, CancelsOk, ShardMatches, PhaseOk;
    var e := s.inbox[0];
    var s' := ApplyHandle(s, verified);
    HeadIsExpected(s, views);
    assert GpuOk(s, e.gpu, views[e.gpu]);
    NoteEventIdle(s.sched, views[e.gpu], e);
    forall g | g in s'.sched.idle ensures Available(s'.store, g) {
      if g == e.gpu {
        OnlyReadyMakesIdle(e.gpu, views[e.gpu], e);
        DeviceStatusFollowsWorker(s.store, e, verified, g);
      } else {
        DeviceStatusFollowsWorker(s.store, e, verified, g);
      }
    }
  }

  lemma OnlyReadyMakesIdle(g: Gpu, v: View, e: WorkerEvent)
    requires After(g, v, e).Idle?
    ensures e.kind.READY?
  {
  }

  lemma TablesKeepDevices(st: Store, j: JobId, drawn: nat, now: int, timeout: int)
    ensures CheckDeadline(st, j, now).0.devices == st.devices
    ensures Claim(st, drawn, now, timeout).0.devices == st.devices
  {
  }

  lemma FillKeepsAvailable(s: System, views: map<Gpu, View>, g: Gpu, lease: nat, shardSeconds: int, batchMs: nat)
    requires Inv(s, views) && IdleAreAvailable(s)
    requires s.pc.Fill? && g in s.pc.todo && s.sched.active.Some? && g in s.slots
    ensures IdleAreAvailable(ApplyFill(s, g, lease, shardSeconds, batchMs))
  {
    hide Inv, Allocate, SchedOk, StoreOk, CanDispatch;
    FillOk(s, views, g, lease, shardSeconds, batchMs);
    NeverRaised(ApplyFill(s, g, lease, shardSeconds, batchMs),
      ViewsAfterFill(s, views, g, lease, shardSeconds, batchMs));
    AllocateTakesDevice(s.store, s.sched.active.value, g, lease, shardSeconds, batchMs);
  }

  lemma NeverRaised(s: System, views: map<Gpu, View>)
    requires Inv(s, views)
    ensures !s.pc.Raised?
  {
  }

  lemma AllocateTakesDevice(st: Store, j: JobId, g: Gpu, lease: nat, shardSeconds: int, batchMs: nat)
    ensures var (st', outcome) := Allocate(st, j, g, lease, shardSeconds, batchMs);
      if outcome.Allocated?
        then forall h | h in st.devices && h != g :: h in st'.devices && st'.devices[h] == st.devices[h]
      else st'.devices == st.devices
  {
    hide StartTaken;
  }

  lemma LoopKeepsAvailable(s: System, views: map<Gpu, View>, act: LoopAct)
    requires Inv(s, views) && IdleAreAvailable(s) && LoopEnabled(s, act)
    ensures IdleAreAvailable(LoopApply(s, act))
  {
    hide Inv, Allocate, Claim, CheckDeadline, RecordEvent, ApplyFill, Available;
    match act
    case HandleEvent(verified) => HandleKeepsAvailable(s, views, verified);
    case CheckActive(now) =>
      if s.sched.active.Some? { TablesKeepDevices(s.store, s.sched.active.value, 1, now, 0); }
      SameDevices(s, LoopApply(s, act));
    case ClaimIfReady(drawn, now, timeout) =>
      TablesKeepDevices(s.store, 0, drawn, now, timeout);
      SameDevices(s, LoopApply(s, act));
    case FillOne(g, lease, shardSeconds, batchMs) => FillKeepsAvailable(s, views, g, lease, shardSeconds, batchMs);
    case _ => SameDevices(s, LoopApply(s, act));
  }

  lemma SameDevices(s: System, s': System)
    requires IdleAreAvailable(s) && s'.sched.idle == s.sched.idle && s'.store.devices == s.store.devices
    ensures IdleAreAvailable(s')
  {
  }

  lemma StepKeepsAvailable(s: System, views: map<Gpu, View>, act: Act)
    requires Inv(s, views) && IdleAreAvailable(s) && Enabled(s, act)
    ensures IdleAreAvailable(Apply(s, act))
  {
    hide Inv, Available;
    match act
    case Loop(loop) => LoopKeepsAvailable(s, views, loop);
    case Worker(_, _) => SameDevices(s, Apply(s, act));
    case Api(_) => SameDevices(s, Apply(s, act));
    case SchedulerRestarts(_) =>
  }

  lemma {:induction false} RunKeepsAvailable(s: System, views: map<Gpu, View>, acts: seq<Act>)
    requires Inv(s, views) && IdleAreAvailable(s) && CanRun(s, acts)
    ensures IdleAreAvailable(Run(s, acts))
    decreases |acts|
  {
    if acts != [] {
      hide Inv, IdleAreAvailable, Apply, Enabled;
      StepKeepsAvailable(s, views, acts[0]);
      StepKeepsInv(s, views, acts[0]);
      RunKeepsAvailable(Apply(s, acts[0]), ViewsAfter(s, views, acts[0]), acts[1..]);
    }
  }

  /** Over every run, the device row of an idle GPU is READY and holds no job. */
  lemma IdleDeviceIsReady(store: Store, rates: map<Gpu, nat>, acts: seq<Act>, g: Gpu)
    requires StoreOk(store) && CanRun(Initial(store, rates), acts)
    ensures var s := Run(Initial(store, rates), acts);
      g in s.sched.idle ==> Available(s.store, g)
  {
    var s0 := System(store, Sched({}, None, None), map g | g in rates :: FreshSlot(), [], Poll);
    RestartOk(s0, rates);
    hide Inv, StoreOk;
    RunKeepsAvailable(Initial(store, rates), ViewsAtStart(rates.Keys), acts);
  }

  /** The next shard would reach the group order. */
  predicate RangeUsedUp(st: Store, j: JobId, g: Gpu, shardSeconds: int) {
    && j < |st.jobs| && g in st.devices && st.jobs[j].nextOffset.Some?
    && st.jobs[j].nextOffset.value + Max(1, Max(1, st.devices[g].rate) * shardSeconds) >= SECP256K1_ORDER
  }

  /**
   So whenever the scheduler asks for work for an idle GPU, the answer is a shard or a constraint
   violation, unless the job is over or its range is used up.
   */
  lemma IdleGpuIsNotTurnedAway(store: Store, rates: map<Gpu, nat>, acts: seq<Act>, g: Gpu, j: JobId, lease: nat,
                               shardSeconds: int, batchMs: nat)
    requires StoreOk(store) && CanRun(Initial(store, rates), acts)
    ensures var s := Run(Initial(store, rates), acts);
      s.pc.Fill? && g in s.pc.todo && s.sched.active == Some(j) && j < |s.store.jobs|
      && Allocate(s.store, j, g, lease, shardSeconds, batchMs).1.Refused?
      ==> !s.store.jobs[j].status.Searching? || RangeUsedUp(s.store, j, g, shardSeconds)
  {
    var views := ReachableInv(store, rates, acts);
    IdleDeviceIsReady(store, rates, acts, g);
    var s := Run(Initial(store, rates), acts);
    if j < |s.store.jobs| { assert JobOk(s.store.jobs[j]); }
    hide StartTaken;
  }
}
