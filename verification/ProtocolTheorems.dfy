/** What holds in every state the generation system can reach. */
module ProtocolTheorems {
  import opened Common
  import opened JobStore
  import opened JobStoreProofs
  import opened Protocol
  import opened ProtocolProofs
  import opened ProtocolSteps

  function ViewsAfter(s: System, views: map<Gpu, View>, act: Act): map<Gpu, View>
    requires Enabled(s, act) && Inv(s, views)
  {
    match act
    case Loop(HandleEvent(_)) => ViewsAfterEvent(views, s.inbox[0])
    case Loop(FillOne(g, lease, shardSeconds, batchMs)) => ViewsAfterFill(s, views, g, lease, shardSeconds, batchMs)
    case SchedulerRestarts(rates) => ViewsAtStart(rates.Keys)
    case _ => views
  }

  lemma WorkerActOk(s: System, views: map<Gpu, View>, g: Gpu, act: WorkerAct)
    requires Inv(s, views) && g in s.slots && WorkerEnabled(s.slots[g], act)
    ensures Inv(Put(s, g, WorkerApply(s.slots[g], g, act)), views)
  {
    match act
    case BootStep => BootStepOk(s, views, g);
    case TakeCommand =>
      if s.slots[g].commands[0].Cancel? { TakeCancelOk(s, views, g); } else { TakeWorkOk(s, views, g); }
    case DrainCommands(stopFails) => DrainControlOk(s, views, g, stopFails);
    case BatchDone(total, rate) => BatchDoneOk(s, views, g, total, rate);
    case BatchFound(total, rate, w) => BatchFoundOk(s, views, g, total, rate, w);
    case RangeDone => RangeDoneOk(s, views, g);
    case WorkFails => WorkFailsOk(s, views, g);
    case SayReady => SayReadyOk(s, views, g);
    case Escapes => EscapesOk(s, views, g);
    case SayStopped => SayStoppedOk(s, views, g);
    case Dies => DiesOk(s, views, g);
  }

  lemma LoopActOk(s: System, views: map<Gpu, View>, act: LoopAct)
    requires Inv(s, views) && LoopEnabled(s, act)
    ensures Inv(LoopApply(s, act), ViewsAfter(s, views, Loop(act)))
  {
    match act
    case Collect(g) => CollectOk(s, views, g);
    case PollDone => PcStep(s, views, Restart);
    case Respawn(g) => RespawnOk(s, views, g);
    case RestartDone => PcStep(s, views, Handle);
    case HandleEvent(verified) => HandleOk(s, views, verified);
    case HandleDone => PcStep(s, views, Check);
    case CheckActive(now) => CheckOk(s, views, now);
    case FinishDraining => DrainOk(s, views);
    case ClaimIfReady(drawn, now, timeout) => ClaimOk(s, views, drawn, now, timeout);
    case FillOne(g, lease, shardSeconds, batchMs) => FillOk(s, views, g, lease, shardSeconds, batchMs);
    case FillDone => PcStep(s, views, Poll);
  }

  lemma ApiActOk(s: System, views: map<Gpu, View>, act: ApiAct)
    requires Inv(s, views)
    ensures Inv(WithStore(s, ApiApply(s.store, act)), views)
  {
    match act
    case ApiCreate(user, key, priority) => ApiCreateOk(s, views, user, key, priority);
    case ApiCancel(user, j) => ApiCancelOk(s, views, user, j);
    case ApiSubmit(j, w, verified) => ApiSubmitOk(s, views, j, w, verified);
  }

  /** The invariant is inductive: every enabled act of any participant keeps it. */
  lemma StepKeepsInv(s: System, views: map<Gpu, View>, act: Act)
    requires Inv(s, views) && Enabled(s, act)
    ensures Inv(Apply(s, act), ViewsAfter(s, views, act))
  {
    match act
    case Loop(loop) => LoopActOk(s, views, loop);
    case Worker(g, worker) => WorkerActOk(s, views, g, worker);
    case Api(api) => ApiActOk(s, views, api);
    case SchedulerRestarts(rates) => RestartOk(s, rates);
  }

  lemma {:induction false} RunKeepsInv(s: System, views: map<Gpu, View>, acts: seq<Act>)
    returns (views': map<Gpu, View>)
    requires Inv(s, views) && CanRun(s, acts)
    ensures Inv(Run(s, acts), views')
    decreases |acts|
  {
    if acts == [] {
      views' := views;
    } else {
      StepKeepsInv(s, views, acts[0]);
      views' := RunKeepsInv(Apply(s, acts[0]), ViewsAfter(s, views, acts[0]), acts[1..]);
    }
  }

  // ---- Every reachable state -----------------------------------------------------------------

  lemma ReachableInv(store: Store, rates: map<Gpu, nat>, acts: seq<Act>) returns (views: map<Gpu, View>)
    requires StoreOk(store) && CanRun(Initial(store, rates), acts)
    ensures Inv(Run(Initial(store, rates), acts), views)
  {
    var s0 := System(store, Sched({}, None, None), map g | g in rates :: FreshSlot(), [], Poll);
    RestartOk(s0, rates);
    views := RunKeepsInv(Initial(store, rates), ViewsAtStart(rates.Keys), acts);
  }

  /**
   An idle GPU has no assignment, no queued work, no event on its way and a live waiting worker,
   so dispatching to it never raises.
   */
  lemma IdleGpuIsFree(store: Store, rates: map<Gpu, nat>, acts: seq<Act>, g: Gpu)
    requires StoreOk(store) && CanRun(Initial(store, rates), acts)
    ensures var s := Run(Initial(store, rates), acts);
      && !s.pc.Raised?
      && (g in s.sched.idle ==>
            && g in s.slots && CanDispatch(s.slots[g]) && Unoccupied(s.slots[g])
            && Of(g, s.inbox) == [] && s.slots[g].outbox == [])
  {
    var views := ReachableInv(store, rates, acts);
    var s := Run(Initial(store, rates), acts);
    if g in s.sched.idle { IdleGpu(s, views, g); }
  }

  /** A busy worker never finds a second assignment in its queue. */
  lemma NoOverlappingAssignments(store: Store, rates: map<Gpu, nat>, acts: seq<Act>, g: Gpu)
    requires StoreOk(store) && CanRun(Initial(store, rates), acts)
    ensures var s := Run(Initial(store, rates), acts);
      g in s.slots && s.slots[g].phase.Running? ==>
        && !HasWork(s.slots[g].commands)
        && s.slots[g].phase.a.gpu == g && s.slots[g].phase.processed <= s.slots[g].phase.a.count
  {
    var views := ReachableInv(store, rates, acts);
    var s := Run(Initial(store, rates), acts);
    if g in s.slots && s.slots[g].phase.Running? {
      RunningGpu(s, views, g);
      assert GpuOk(s, g, views[g]);
      WorksMeansHasWork(s.slots[g].commands);
    }
  }

  /** The work a GPU is bound to: what its handle records or its process executes. */
  predicate Holds(slot: Slot, a: WorkAssignment) {
    slot.assignment == Some(a) || (slot.phase.Running? && slot.phase.a == a)
  }

  lemma HoldsMeansBusy(s: System, views: map<Gpu, View>, g: Gpu, a: WorkAssignment)
    requires Inv(s, views) && g in s.slots && Holds(s.slots[g], a)
    ensures views[g].Busy? && views[g].a == a
  {
    var seen := Fold(g, views[g], Of(g, s.inbox));
    assert GpuOk(s, g, views[g]);
    if s.slots[g].phase.Running? && s.slots[g].phase.a == a {
      BusyComesFromView(g, seen, s.slots[g].outbox);
    }
    BusyComesFromView(g, views[g], Of(g, s.inbox));
  }

  /**
   All work in flight belongs to the one job being searched or drained, each piece is a shard row
   of its GPU, and between jobs nobody holds any work.
   */
  lemma WorkBelongsToOneJob(store: Store, rates: map<Gpu, nat>, acts: seq<Act>, g: Gpu, a: WorkAssignment)
    requires StoreOk(store) && CanRun(Initial(store, rates), acts)
    ensures var s := Run(Initial(store, rates), acts);
      && (s.sched.active.None? || s.sched.draining.None?)
      && (g in s.slots && Holds(s.slots[g], a) ==>
            && (s.sched.active == Some(a.job) || s.sched.draining == Some(a.job))
            && a.gpu == g && a.shard < |s.store.shards| && s.store.shards[a.shard].gpu == g
            && s.store.shards[a.shard].job == a.job && s.store.shards[a.shard].lease == a.lease)
  {
    var views := ReachableInv(store, rates, acts);
    var s := Run(Initial(store, rates), acts);
    if g in s.slots && Holds(s.slots[g], a) {
      HoldsMeansBusy(s, views, g, a);
      assert GpuOk(s, g, views[g]);
    }
  }

  /** A job is claimed only when every worker waits, unassigned, with all its events handled. */
  lemma ClaimOnlyWhenFleetRests(store: Store, rates: map<Gpu, nat>, acts: seq<Act>, g: Gpu)
    requires StoreOk(store) && CanRun(Initial(store, rates), acts)
    ensures var s := Run(Initial(store, rates), acts);
      ClaimReady(s) && g in s.slots ==>
        && s.slots[g].assignment.None? && Unoccupied(s.slots[g])
        && Of(g, s.inbox) == [] && s.slots[g].outbox == []
        && FirstActive(s.store.jobs).None?
  {
    var views := ReachableInv(store, rates, acts);
    var s := Run(Initial(store, rates), acts);
    if ClaimReady(s) && g in s.slots { IdleGpu(s, views, g); }
  }

  /** Only a job that is over loses its work: a cancellation met by a busy worker is for a terminal job. */
  lemma OnlyTerminalJobsAreCanceled(store: Store, rates: map<Gpu, nat>, acts: seq<Act>, g: Gpu)
    requires StoreOk(store) && CanRun(Initial(store, rates), acts)
    ensures var s := Run(Initial(store, rates), acts);
      g in s.slots && s.slots[g].phase.Running? && HasCancel(s.slots[g].commands, s.slots[g].phase.a.job) ==>
        && s.slots[g].phase.a.job < |s.store.jobs|
        && s.store.jobs[s.slots[g].phase.a.job].status.Terminal()
  {
    var views := ReachableInv(store, rates, acts);
    var s := Run(Initial(store, rates), acts);
    if g in s.slots && s.slots[g].phase.Running? && HasCancel(s.slots[g].commands, s.slots[g].phase.a.job) {
      var i :| 0 <= i < |s.slots[g].commands| && s.slots[g].commands[i] == Cancel(s.slots[g].phase.a.job);
      assert CancelsOk(s.store, s.slots[g].commands);
    }
  }

  /** Attempts are exactly the candidates reported by the job's shards, none of which overruns its range. */
  lemma AttemptsAddUp(store: Store, rates: map<Gpu, nat>, acts: seq<Act>, j: JobId)
    requires StoreOk(store) && CanRun(Initial(store, rates), acts)
    ensures var st := Run(Initial(store, rates), acts).store;
      && (j < |st.jobs| ==> st.jobs[j].attempts == Processed(st.shards, j))
      && (forall i | 0 <= i < |st.shards| :: st.shards[i].processed <= st.shards[i].count)
  {
    var _ := ReachableInv(store, rates, acts);
    var st := Run(Initial(store, rates), acts).store;
    if j < |st.jobs| { assert AccountOk(st, j); }
    forall i | 0 <= i < |st.shards| ensures st.shards[i].processed <= st.shards[i].count {
      assert ShardOk(st, st.shards[i]);
    }
  }

  /** Two shard rows of one job never share a scalar, in this and every earlier claim of the job. */
  lemma ShardsAreDisjoint(store: Store, rates: map<Gpu, nat>, acts: seq<Act>, i: ShardId, k: ShardId)
    requires StoreOk(store) && CanRun(Initial(store, rates), acts)
    ensures var shards := Run(Initial(store, rates), acts).store.shards;
      i < k < |shards| && shards[i].job == shards[k].job ==>
        && 1 <= shards[i].start && shards[i].start + shards[i].count <= shards[k].start
        && shards[k].start + shards[k].count < SECP256K1_ORDER
  {
    var _ := ReachableInv(store, rates, acts);
    var st := Run(Initial(store, rates), acts).store;
    if i < k < |st.shards| && st.shards[i].job == st.shards[k].job {
      var j := st.shards[i].job;
      assert ShardOk(st, st.shards[i]) && ShardOk(st, st.shards[k]) && RangesOk(st, j);
      TilesArePairwiseDisjoint(st.shards, j, st.jobs[j].searchOrigin.value, i, k);
    }
  }

  /** While a job is searched, its shards cover everything from its origin up to the next offset. */
  lemma ShardsCoverSearchedRange(store: Store, rates: map<Gpu, nat>, acts: seq<Act>, j: JobId, x: nat)
    requires StoreOk(store) && CanRun(Initial(store, rates), acts)
    ensures var st := Run(Initial(store, rates), acts).store;
      && j < |st.jobs| && st.jobs[j].searchOrigin.Some? && st.jobs[j].nextOffset.Some?
      && st.jobs[j].searchOrigin.value <= x < st.jobs[j].nextOffset.value
      ==> exists i | 0 <= i < |st.shards| ::
            st.shards[i].job == j && st.shards[i].start <= x < st.shards[i].start + st.shards[i].count
  {
    var _ := ReachableInv(store, rates, acts);
    var st := Run(Initial(store, rates), acts).store;
    if j < |st.jobs| && st.jobs[j].searchOrigin.Some? && st.jobs[j].nextOffset.Some?
       && st.jobs[j].searchOrigin.value <= x < st.jobs[j].nextOffset.value {
      assert RangesOk(st, j);
      var i := TilesCover(st.shards, j, st.jobs[j].searchOrigin.value, x);
    }
  }

  /** Every shard lies in [1, n), on its job's range. */
  lemma ShardsAreInRange(store: Store, rates: map<Gpu, nat>, acts: seq<Act>, i: ShardId)
    requires StoreOk(store) && CanRun(Initial(store, rates), acts)
    ensures var st := Run(Initial(store, rates), acts).store;
      i < |st.shards| ==>
        var s := st.shards[i];
        && 1 <= s.start && 1 <= s.count && s.start + s.count < SECP256K1_ORDER
        && s.job < |st.jobs| && st.jobs[s.job].searchOrigin.Some? && st.jobs[s.job].searchOrigin.value <= s.start
  {
    var _ := ReachableInv(store, rates, acts);
    var st := Run(Initial(store, rates), acts).store;
    if i < |st.shards| {
      var j := st.shards[i].job;
      assert ShardOk(st, st.shards[i]) && RangesOk(st, j);
      TilesBelowEnd(st.shards, j, st.jobs[j].searchOrigin.value);
    }
  }

  predicate HasShard(st: Store, j: JobId) { exists i | 0 <= i < |st.shards| :: st.shards[i].job == j }

  predicate InShardOf(st: Store, j: JobId, x: nat) {
    exists i | 0 <= i < |st.shards| ::
      st.shards[i].job == j && st.shards[i].start <= x < st.shards[i].start + st.shards[i].count
  }

  /** Unless the offset was rewound, the shards hold exactly the scalars from the origin up to the next offset. */
  lemma ShardsTileExactly(store: Store, rates: map<Gpu, nat>, acts: seq<Act>, j: JobId, x: nat)
    requires StoreOk(store) && CanRun(Initial(store, rates), acts)
    ensures var st := Run(Initial(store, rates), acts).store;
      j < |st.jobs| && st.jobs[j].searchOrigin.Some? && st.jobs[j].nextOffset.Some?
      && (st.jobs[j].nextOffset == st.jobs[j].searchOrigin ==> !HasShard(st, j))
      ==> (InShardOf(st, j, x) <==> st.jobs[j].searchOrigin.value <= x < st.jobs[j].nextOffset.value)
  {
    var _ := ReachableInv(store, rates, acts);
    var st := Run(Initial(store, rates), acts).store;
    if j < |st.jobs| && st.jobs[j].searchOrigin.Some? && st.jobs[j].nextOffset.Some?
       && (st.jobs[j].nextOffset == st.jobs[j].searchOrigin ==> !HasShard(st, j)) {
      assert RangesOk(st, j);
      TiledExactly(st, j, st.jobs[j].searchOrigin.value, st.jobs[j].nextOffset.value, x);
    }
  }

  lemma TiledExactly(st: Store, j: JobId, origin: nat, next: nat, x: nat)
    requires Tiles(st.shards, j, origin)
      && (next == EndOf(st.shards, j, origin) || (next == origin && !HasShard(st, j)))
    ensures InShardOf(st, j, x) <==> origin <= x < next
  {
    TilesBelowEnd(st.shards, j, origin);
    if origin <= x < next {
      var i := TilesCover(st.shards, j, origin, x);
    }
  }

  /** At most one job is being searched, and it is the scheduler's active one. */
  lemma OneSearchingJob(store: Store, rates: map<Gpu, nat>, acts: seq<Act>, j: JobId)
    requires StoreOk(store) && CanRun(Initial(store, rates), acts)
    ensures var s := Run(Initial(store, rates), acts);
      j < |s.store.jobs| ==>
        && (s.store.jobs[j].status.Searching? ==> s.sched.active == Some(j))
        && (s.store.jobs[j].result.Some? <==> s.store.jobs[j].status.Ready?)
  {
    var views := ReachableInv(store, rates, acts);
    var s := Run(Initial(store, rates), acts);
    if j < |s.store.jobs| { assert JobOk(s.store.jobs[j]); }
  }

  // ---- Terminal means final ------------------------------------------------------------------

  /** A finished job keeps its status and its result. */
  predicate Final(st: Store, st': Store) {
    |st.jobs| <= |st'.jobs| && forall j | 0 <= j < |st.jobs| && st.jobs[j].status.Terminal() ::
      st'.jobs[j].status == st.jobs[j].status && st'.jobs[j].result == st.jobs[j].result
  }

  lemma RecordIsFinal(st: Store, e: WorkerEvent, verified: bool)
    requires StoreOk(st) && Honest(st, e)
    ensures Final(st, RecordEvent(st, e, verified))
  {
    var shard := MatchingShard(st.shards, e);
    if e.gpu in st.devices && shard.Some? {
      assert ShardOk(st, st.shards[shard.value]);
      assert JobOk(st.jobs[st.shards[shard.value].job]);
    }
  }

  lemma TableCallsAreFinal(st: Store, j: JobId, drawn: nat, now: int, timeout: int, g: Gpu, lease: nat,
      shardSeconds: int, batchMs: nat)
    ensures Final(st, CheckDeadline(st, j, now).0)
    ensures Final(st, Claim(st, drawn, now, timeout).0)
    ensures Final(st, Allocate(st, j, g, lease, shardSeconds, batchMs).0)
  {
  }

  lemma HandlingIsFinal(s: System, views: map<Gpu, View>, verified: bool)
    requires Inv(s, views) && s.inbox != []
    ensures Final(s.store, ApplyHandle(s, verified).store)
  {
    var e := s.inbox[0];
    HeadIsExpected(s, views);
    ExpectedIsHonest(s.store, e.gpu, views[e.gpu], e);
    RecordIsFinal(s.store, e, verified);
  }

  lemma LoopIsFinal(s: System, views: map<Gpu, View>, act: LoopAct)
    requires Inv(s, views) && LoopEnabled(s, act)
    ensures Final(s.store, LoopApply(s, act).store)
  {
    hide Inv, Allocate, Claim, CheckDeadline, RecordEvent;
    match act
    case HandleEvent(verified) => HandlingIsFinal(s, views, verified);
    case CheckActive(now) =>
      if s.sched.active.Some? { TableCallsAreFinal(s.store, s.sched.active.value, 1, now, 0, "", 0, 0, 0); }
    case ClaimIfReady(drawn, now, timeout) => TableCallsAreFinal(s.store, 0, drawn, now, timeout, "", 0, 0, 0);
    case FillOne(g, lease, shardSeconds, batchMs) =>
      TableCallsAreFinal(s.store, s.sched.active.value, 1, 0, 0, g, lease, shardSeconds, batchMs);
    case _ =>
  }

  lemma StepIsFinal(s: System, views: map<Gpu, View>, act: Act)
    requires Inv(s, views) && Enabled(s, act)
    ensures Final(s.store, Apply(s, act).store)
  {
    match act
    case Loop(loop) => LoopIsFinal(s, views, loop);
    case Worker(_, _) =>
    case Api(_) =>
      forall j | 0 <= j < |s.store.jobs| ensures JobOk(s.store.jobs[j]) { }
    case SchedulerRestarts(_) => RecoverTouches(s.store);
  }

  /** Over every run, scheduler restarts included, a terminal status and its result never change. */
  lemma {:induction false} TerminalIsAbsorbing(s: System, views: map<Gpu, View>, acts: seq<Act>)
    requires Inv(s, views) && CanRun(s, acts)
    ensures Final(s.store, Run(s, acts).store)
    decreases |acts|
  {
    if acts != [] {
      var s1 := Apply(s, acts[0]);
      StepIsFinal(s, views, acts[0]);
      StepKeepsInv(s, views, acts[0]);
      TerminalIsAbsorbing(s1, ViewsAfter(s, views, acts[0]), acts[1..]);
    }
  }

  // ---- Why the fault model is needed ---------------------------------------------------------

  function HandleAll(s: System): System
    decreases |s.inbox|
  {
    if s.inbox == [] then s else HandleAll(ApplyHandle(s, true))
  }

  lemma {:induction false} HandleAllReachesView(s: System, g: Gpu, v: View)
    requires g in s.sched.idle <==> v.Idle?
    requires !Fold(g, v, Of(g, s.inbox)).Wrong?
    ensures g in HandleAll(s).sched.idle <==> Fold(g, v, Of(g, s.inbox)).Idle?
    ensures HandleAll(s).slots == s.slots && HandleAll(s).inbox == []
    decreases |s.inbox|
  {
    if s.inbox != [] {
      var e := s.inbox[0];
      if e.gpu == g {
        assert Of(g, s.inbox)[1..] == Of(g, s.inbox[1..]);
        WrongStaysWrong(g, Of(g, s.inbox[1..]));
        NoteEventIdle(s.sched, v, e);
        HandleAllReachesView(ApplyHandle(s, true), g, After(g, v, e));
      } else {
        assert Of(g, s.inbox) == Of(g, s.inbox[1..]);
        HandleAllReachesView(ApplyHandle(s, true), g, v);
      }
    }
  }

  lemma BootingIsNotIdle(s: System, views: map<Gpu, View>, g: Gpu)
    requires g in s.slots && g in s.sched.idle && s.slots[g].phase.Boot?
    ensures !Inv(s, views)
  {
    if Inv(s, views) { IdleGpu(s, views, g); }
  }

  lemma RespawnedThenHandled(s: System, g: Gpu, v: View)
    requires g in s.slots && s.slots[g].assignment.None? && (g in s.sched.idle <==> v.Idle?)
    requires Fold(g, v, Of(g, s.inbox)).Idle?
    ensures var handled := HandleAll(ApplyRespawn(s, g));
      g in handled.slots && g in handled.sched.idle && handled.slots[g].phase.Boot?
  {
    assert s.inbox + [] == s.inbox;
    HandleAllReachesView(ApplyRespawn(s, g), g, v);
  }

  /**
   Without part 2 of the fault model the idle claim fails: a worker that dies after its READY was
   collected, even before that READY is handled, is replaced by a booting one that the scheduler
   then takes for idle, and no view of the events repairs that.
   */
  lemma DeathAfterReadyMisleads(s: System, views: map<Gpu, View>, g: Gpu, anyViews: map<Gpu, View>)
    requires Inv(s, views) && g in s.slots
    requires Unoccupied(s.slots[g]) && s.slots[g].outbox == []
    ensures var died := Put(s, g, s.slots[g].(phase := Dead));
      var handled := HandleAll(ApplyRespawn(died, g));
      g in handled.sched.idle && g in handled.slots && handled.slots[g].phase.Boot? && !Inv(handled, anyViews)
  {
    var died := Put(s, g, s.slots[g].(phase := Dead));
    ReadyIsOnItsWay(s, views, g);
    RespawnedThenHandled(died, g, views[g]);
    BootingIsNotIdle(HandleAll(ApplyRespawn(died, g)), anyViews, g);
  }

  lemma ReadyIsOnItsWay(s: System, views: map<Gpu, View>, g: Gpu)
    requires Inv(s, views) && g in s.slots
    requires Unoccupied(s.slots[g]) && s.slots[g].outbox == []
    ensures s.slots[g].assignment.None? && (g in s.sched.idle <==> views[g].Idle?)
    ensures Fold(g, views[g], Of(g, s.inbox)).Idle?
  {
    assert GpuOk(s, g, views[g]);
    WorksMeansHasWork(s.slots[g].commands);
  }
}
