/** The scheduler's own steps keep the protocol invariant; so does every run. */
module ProtocolSteps {
  import opened Common
  import opened JobStore
  import opened JobStoreProofs
  import opened Protocol
  import opened ProtocolProofs

  // ---- Collecting and handling events --------------------------------------------------------

  lemma CollectMovesHead(s: System, views: map<Gpu, View>, g: Gpu)
    requires g in views && g in s.slots && s.slots[g].outbox != [] && GpuOk(s, g, views[g])
    ensures GpuOk(ApplyCollect(s, g), g, views[g])
    ensures s.slots[g].outbox[0].gpu == g
  {
    var slot := s.slots[g];
    var e := slot.outbox[0];
    var seen := Fold(g, views[g], Of(g, s.inbox));
    assert Fold(g, seen, slot.outbox) == Fold(g, After(g, seen, e), slot.outbox[1..]);
    WrongStaysWrong(g, slot.outbox[1..]);
    OfAppend(g, s.inbox, e);
    FoldAppend(g, views[g], Of(g, s.inbox), e);
  }

  lemma CollectLeavesOthers(s: System, g: Gpu, h: Gpu, v: View)
    requires g in s.slots && s.slots[g].outbox != [] && s.slots[g].outbox[0].gpu == g
    requires h in s.slots && h != g
    ensures Untouched(s, ApplyCollect(s, g), h, v)
  {
    OfAppend(h, s.inbox, s.slots[g].outbox[0]);
  }

  lemma CollectGpus(s: System, views: map<Gpu, View>, g: Gpu)
    requires views.Keys == s.slots.Keys && GpusOk(s, views) && g in s.slots && s.slots[g].outbox != []
    ensures GpusOk(ApplyCollect(s, g), views) && s.slots[g].outbox[0].gpu == g
  {
    CollectMovesHead(s, views, g);
    forall h | h in s.slots && h != g ensures Untouched(s, ApplyCollect(s, g), h, views[h]) {
      CollectLeavesOthers(s, g, h, views[h]);
    }
    OneGpuChanged(s, ApplyCollect(s, g), views, views, g);
  }

  lemma CollectOk(s: System, views: map<Gpu, View>, g: Gpu)
    requires Inv(s, views) && g in s.slots && s.slots[g].outbox != []
    ensures Inv(ApplyCollect(s, g), views)
  {
    hide GpuOk, GpusOk, StoreOk, SchedOk;
    var s' := ApplyCollect(s, g);
    CollectGpus(s, views, g);
    SameSched(s, s', views);
    assert s'.slots[g].commands == s.slots[g].commands;
  }

  lemma RespawnFreesSlot(s: System, views: map<Gpu, View>, g: Gpu)
    requires g in views && g in s.slots && s.slots[g].phase.Dead? && s.slots[g].outbox == []
    requires GpuOk(s, g, views[g])
    ensures GpuOk(ApplyRespawn(s, g), g, views[g])
    ensures s.slots[g].assignment.Some? ==> s.slots[g].assignment.value.gpu == g
  {
    var slot := s.slots[g];
    if slot.assignment.Some? {
      var e := About(FAILED, slot.assignment.value, 0);
      BusyComesFromView(g, views[g], Of(g, s.inbox));
      OfAppend(g, s.inbox, e);
      FoldAppend(g, views[g], Of(g, s.inbox), e);
    } else {
      assert s.inbox + [] == s.inbox;
    }
  }

  lemma RespawnGpus(s: System, views: map<Gpu, View>, g: Gpu)
    requires views.Keys == s.slots.Keys && GpusOk(s, views)
    requires g in s.slots && s.slots[g].phase.Dead? && s.slots[g].outbox == []
    ensures GpusOk(ApplyRespawn(s, g), views)
    ensures s.slots[g].assignment.Some? ==> s.slots[g].assignment.value.gpu == g
  {
    var held := s.slots[g].assignment;
    RespawnFreesSlot(s, views, g);
    forall h | h in s.slots && h != g ensures Untouched(s, ApplyRespawn(s, g), h, views[h]) {
      if held.Some? { OfAppend(h, s.inbox, About(FAILED, held.value, 0)); }
      else { assert s.inbox + [] == s.inbox; }
    }
    OneGpuChanged(s, ApplyRespawn(s, g), views, views, g);
  }

  lemma RespawnOk(s: System, views: map<Gpu, View>, g: Gpu)
    requires Inv(s, views) && g in s.slots && s.slots[g].phase.Dead? && s.slots[g].outbox == []
    ensures Inv(ApplyRespawn(s, g), views)
  {
    hide GpuOk, GpusOk, StoreOk, SchedOk;
    RespawnGpus(s, views, g);
    SameSched(s, ApplyRespawn(s, g), views);
  }

  /** At most shard row `i` changed, no job was added, revived or activated. */
  predicate Touch(st: Store, st': Store, i: ShardId) {
    && |st'.jobs| == |st.jobs| && |st'.shards| == |st.shards|
    && st'.devices.Keys == st.devices.Keys
    && TerminalKept(st, st')
    && (forall k | 0 <= k < |st.shards| && k != i :: st'.shards[k] == st.shards[k])
    && (forall j | 0 <= j < |st.jobs| && st'.jobs[j].status.Active() :: st.jobs[j].status.Active())
  }

  lemma RejectTouches(st: Store, i: ShardId, g: Gpu)
    requires i < |st.shards| && g in st.devices
    requires st.shards[i].job < |st.jobs| ==> st.jobs[st.shards[i].job].status.Accepting()
    ensures Touch(st, RejectWinner(st, i, g), i)
  {
  }

  lemma FoundTouches(st: Store, i: ShardId, e: WorkerEvent, verified: bool)
    requires i < |st.shards| && e.gpu in st.devices && e.address.Some? && e.offset.Some?
    ensures Touch(st, RecordFound(st, i, e, verified), i)
  {
    var st1 := Credit(st, i, ShardStatus.Found, e.processed);
    assert Touch(st, st1, i);
    var (st2, outcome) := Finalize(st1, st1.shards[i].job, Winner(e.address.value, e.offset.value), verified);
    assert Touch(st1, st2, i);
    if outcome.JobNotFound? || outcome.VerificationFailed? { RejectTouches(st1, i, e.gpu); }
  }

  /** What recording an event leaves alone. */
  lemma RecordTouches(st: Store, e: WorkerEvent, verified: bool)
    requires StoreOk(st) && Honest(st, e)
    ensures var shard := MatchingShard(st.shards, e);
      Touch(st, RecordEvent(st, e, verified), if shard.Some? then shard.value else |st.shards|)
  {
    var shard := MatchingShard(st.shards, e);
    if e.gpu in st.devices && shard.Some? && e.kind.FOUND? {
      FoundTouches(st.(devices := st.devices[e.gpu := DeviceAfter(st.devices[e.gpu], e)]), shard.value, e, verified);
    }
  }

  /** The matched shard keeps its identity; its progress is what the event says. */
  lemma RecordUpdatesShard(st: Store, e: WorkerEvent, verified: bool)
    requires e.gpu in st.devices && MatchingShard(st.shards, e).Some?
    ensures var i := MatchingShard(st.shards, e).value;
      var s, s' := st.shards[i], RecordEvent(st, e, verified).shards[i];
      && s' == s.(status := s'.status, processed := s'.processed)
      && s'.processed == if e.kind.PROGRESS? || e.kind.FOUND? || e.kind.EXHAUSTED? || e.kind.CANCELED?
                         then Max(s.processed, e.processed) else s.processed
  {
  }

  function ViewsAfterEvent(views: map<Gpu, View>, e: WorkerEvent): map<Gpu, View>
    requires e.gpu in views
  {
    views[e.gpu := After(e.gpu, views[e.gpu], e)]
  }

  lemma HeadIsExpected(s: System, views: map<Gpu, View>)
    requires Inv(s, views) && s.inbox != []
    ensures var e := s.inbox[0];
      && !After(e.gpu, views[e.gpu], e).Wrong?
      && Of(e.gpu, s.inbox) == [e] + Of(e.gpu, s.inbox[1..])
      && Fold(e.gpu, views[e.gpu], Of(e.gpu, s.inbox))
        == Fold(e.gpu, After(e.gpu, views[e.gpu], e), Of(e.gpu, s.inbox[1..]))
      && (views[e.gpu].Busy? ==> ShardMatches(s.store, e.gpu, views[e.gpu].a, views[e.gpu].processed))
  {
    var e := s.inbox[0];
    var g := e.gpu;
    assert GpuOk(s, g, views[g]);
    assert Of(g, s.inbox)[1..] == Of(g, s.inbox[1..]);
    WrongStaysWrong(g, Of(g, s.inbox[1..]));
  }

  lemma ExpectedIsHonest(st: Store, g: Gpu, v: View, e: WorkerEvent)
    requires StoreOk(st) && !After(g, v, e).Wrong?
    requires v.Busy? ==> ShardMatches(st, g, v.a, v.processed)
    ensures Honest(st, e)
    ensures MatchingShard(st.shards, e) == if v.Busy? && e.shard.Some? then Some(v.a.shard) else None
  {
  }

  lemma NoteEventIdle(sched: Sched, v: View, e: WorkerEvent)
    requires e.gpu in sched.idle <==> v.Idle?
    requires !After(e.gpu, v, e).Wrong?
    ensures e.gpu in NoteEvent(sched, e).idle <==> After(e.gpu, v, e).Idle?
    ensures forall h | h != e.gpu :: h in NoteEvent(sched, e).idle <==> h in sched.idle
    ensures NoteEvent(sched, e) == sched.(idle := NoteEvent(sched, e).idle)
  {
  }

  /** The tables after an expected event: still consistent, and the shard's progress is the view's. */
  lemma ExpectedEventRecorded(st: Store, g: Gpu, v: View, e: WorkerEvent, verified: bool)
    requires StoreOk(st) && g in st.devices && !After(g, v, e).Wrong?
    requires v.Busy? ==> ShardMatches(st, g, v.a, v.processed)
    ensures var st' := RecordEvent(st, e, verified);
      && StoreOk(st') && Honest(st, e)
      && Touch(st, st', if v.Busy? then v.a.shard else |st.shards|)
      && var v' := After(g, v, e);
         v'.Busy? ==> v.Busy? && v'.a == v.a && ShardMatches(st', g, v'.a, v'.processed)
  {
    ExpectedIsHonest(st, g, v, e);
    RecordEventKeepsStoreOk(st, e, verified);
    RecordTouches(st, e, verified);
    if v.Busy? && e.shard.Some? { RecordUpdatesShard(st, e, verified); }
  }

  lemma HandleKeepsSched(s: System, s': System, views: map<Gpu, View>, g: Gpu, v': View)
    requires SchedOk(s, views) && g in views && views.Keys == s.slots.Keys == s'.slots.Keys && !s.pc.Fill?
      && s'.pc == s.pc
    requires s'.sched == s.sched.(idle := s'.sched.idle) && s'.sched.idle <= s.slots.Keys
    requires |s'.store.jobs| == |s.store.jobs| && TerminalKept(s.store, s'.store)
    requires forall j | 0 <= j < |s.store.jobs| && s'.store.jobs[j].status.Active() :: s.store.jobs[j].status.Active()
    requires v'.Busy? ==> views[g].Busy? && v'.a == views[g].a
    ensures SchedOk(s', views[g := v'])
  {
  }

  /** GPU `g` after its next event was handled. */
  lemma HandleMovesHead(s: System, views: map<Gpu, View>, verified: bool)
    requires Inv(s, views) && s.inbox != []
    ensures var e := s.inbox[0];
      var v' := After(e.gpu, views[e.gpu], e);
      && GpuOk(ApplyHandle(s, verified), e.gpu, v')
      && StoreOk(RecordEvent(s.store, e, verified))
      && (v'.Busy? ==> views[e.gpu].Busy? && v'.a == views[e.gpu].a)
  {
    var e := s.inbox[0];
    var g, v := e.gpu, views[e.gpu];
    HeadIsExpected(s, views);
    ExpectedEventRecorded(s.store, g, v, e, verified);
    assert GpuOk(s, g, v);
    NoteEventIdle(s.sched, v, e);
    hide RecordEvent, NoteEvent, After, StoreOk, Inv, Touch;
  }

  lemma IdleIsKnown(s: System, views: map<Gpu, View>)
    requires Inv(s, views)
    ensures s.sched.idle <= s.slots.Keys
  {
  }

  lemma HandleLeavesOthers(s: System, views: map<Gpu, View>, verified: bool, h: Gpu)
    requires Inv(s, views) && s.inbox != [] && h in s.slots && h != s.inbox[0].gpu
    ensures Untouched(s, ApplyHandle(s, verified), h, views[h])
  {
    hide RecordEvent, NoteEvent, After, StoreOk, Fold, PhaseOk, CancelsOk, SchedOk;
    var e := s.inbox[0];
    HeadIsExpected(s, views);
    ExpectedEventRecorded(s.store, e.gpu, views[e.gpu], e, verified);
    assert GpuOk(s, e.gpu, views[e.gpu]) && GpuOk(s, h, views[h]);
    NoteEventIdle(s.sched, views[e.gpu], e);
  }

  /** What handling an event leaves alone. */
  lemma HandleTouches(s: System, views: map<Gpu, View>, verified: bool)
    requires Inv(s, views) && s.inbox != []
    ensures var e := s.inbox[0];
      var s' := ApplyHandle(s, verified);
      && Touch(s.store, s'.store, if views[e.gpu].Busy? then views[e.gpu].a.shard else |s.store.shards|)
      && s'.sched == s.sched.(idle := s'.sched.idle) && s'.sched.idle <= s.slots.Keys
      && forall h | h in s.slots && h != e.gpu :: Untouched(s, s', h, views[h])
  {
    var e := s.inbox[0];
    var s' := ApplyHandle(s, verified);
    hide RecordEvent, NoteEvent, After, StoreOk, Fold, PhaseOk, CancelsOk, SchedOk;
    HeadIsExpected(s, views);
    ExpectedEventRecorded(s.store, e.gpu, views[e.gpu], e, verified);
    assert GpuOk(s, e.gpu, views[e.gpu]);
    NoteEventIdle(s.sched, views[e.gpu], e);
    assert s.sched.idle <= s.slots.Keys by { IdleIsKnown(s, views); }
    forall h | h in s.slots && h != e.gpu ensures Untouched(s, s', h, views[h]) {
      HandleLeavesOthers(s, views, verified, h);
    }
  }

  lemma HandleOk(s: System, views: map<Gpu, View>, verified: bool)
    requires Inv(s, views) && s.inbox != [] && !s.pc.Fill?
    ensures Inv(ApplyHandle(s, verified), ViewsAfterEvent(views, s.inbox[0]))
  {
    hide GpuOk, RecordEvent, NoteEvent, After, StoreOk, CancelsOk, Untouched;
    var e := s.inbox[0];
    var g := e.gpu;
    var s' := ApplyHandle(s, verified);
    var v' := After(g, views[g], e);
    HandleMovesHead(s, views, verified);
    HandleTouches(s, views, verified);
    OneGpuChanged(s, s', views, views[g := v'], g);
    HandleKeepsSched(s, s', views, g, v');
    forall h | h in s.slots ensures CancelsOk(s'.store, s'.slots[h].commands) {
      TerminalKeptKeepsCancels(s.store, s'.store, s.slots[h].commands);
    }
  }

  // ---- The rest of the loop ------------------------------------------------------------------

  lemma DeadlineTouches(st: Store, j: JobId, now: int)
    requires StoreOk(st)
    ensures var (st', status) := CheckDeadline(st, j, now);
      && SameShards(st, st') && TerminalKept(st, st') && |st'.jobs| == |st.jobs| && st'.devices == st.devices
      && (forall k | 0 <= k < |st.jobs| && st'.jobs[k].status.Active() :: st.jobs[k].status.Active())
      && (j < |st.jobs| ==> status == Some(st'.jobs[j].status))
  {
  }

  lemma CancelKeepsGpu(s: System, s': System, v: View, h: Gpu, j: JobId)
    requires h in s.slots && h in s'.slots && GpuOk(s, h, v) && CancelsOk(s.store, s.slots[h].commands)
    requires j < |s.store.jobs| && s.store.jobs[j].status.Terminal()
    requires s'.slots[h] == CancelSlot(s.slots[h], j) && s'.store == s.store && s'.inbox == s.inbox
      && s'.sched.idle == s.sched.idle
    ensures GpuOk(s', h, v) && CancelsOk(s'.store, s'.slots[h].commands)
  {
    WorksAppend(s.slots[h].commands, Cancel(j));
  }

  lemma DrainingSched(s: System, s': System, views: map<Gpu, View>, j: JobId)
    requires SchedOk(s, views) && s.sched.active == Some(j) && s.store.jobs[j].status.Terminal() && !s.pc.Fill?
    requires s'.store == s.store && s'.sched == Sched(s.sched.idle, None, Some(j)) && s'.pc == Drain
    requires s'.slots.Keys == s.slots.Keys
    ensures SchedOk(s', views)
  {
  }

  lemma CancelAllGpus(s: System, views: map<Gpu, View>, j: JobId)
    requires views.Keys == s.slots.Keys && GpusOk(s, views)
    requires forall g | g in s.slots :: CancelsOk(s.store, s.slots[g].commands)
    requires j < |s.store.jobs| && s.store.jobs[j].status.Terminal()
    ensures var s' := StartDraining(s, j);
      GpusOk(s', views) && forall g | g in s'.slots :: CancelsOk(s'.store, s'.slots[g].commands)
  {
    var s' := StartDraining(s, j);
    forall h | h in s.slots ensures GpuOk(s', h, views[h]) && CancelsOk(s'.store, s'.slots[h].commands) {
      CancelKeepsGpu(s, s', views[h], h, j);
    }
  }

  lemma CancelAllOk(s: System, views: map<Gpu, View>, j: JobId)
    requires Inv(s, views) && s.sched.active == Some(j) && s.store.jobs[j].status.Terminal() && !s.pc.Fill?
    ensures Inv(StartDraining(s, j), views)
  {
    CancelAllGpus(s, views, j);
    DrainingSched(s, StartDraining(s, j), views, j);
  }

  lemma CheckOk(s: System, views: map<Gpu, View>, now: int)
    requires Inv(s, views) && !s.pc.Fill?
    ensures Inv(ApplyCheck(s, now), views)
  {
    if s.sched.active.Some? {
      var j := s.sched.active.value;
      var st' := CheckDeadline(s.store, j, now).0;
      CheckDeadlineKeepsStoreOk(s.store, j, now);
      DeadlineTouches(s.store, j, now);
      var s1 := WithStore(s, st');
      TableStep(s, s1, views);
      PcStep(s1, views, Drain);
      if st'.jobs[j].status.Terminal() { CancelAllOk(s1, views, j); }
    } else {
      PcStep(s, views, Drain);
    }
  }

  /** Moving on in the loop, to anywhere but the fill phase or an error, changes nothing else. */
  lemma PcStep(s: System, views: map<Gpu, View>, pc: Pc)
    requires Inv(s, views) && !pc.Fill? && !pc.Raised?
    ensures Inv(At(s, pc), views)
  {
    forall h | h in s.slots ensures GpuOk(At(s, pc), h, views[h]) {
      UntouchedKeepsGpuOk(s, At(s, pc), h, views[h]);
    }
  }

  /** With every GPU idle, no worker has, or is about to get, any work. */
  lemma AllIdleMeansNoWork(s: System, views: map<Gpu, View>)
    requires Inv(s, views) && s.sched.idle == s.slots.Keys
    ensures forall g | g in s.slots :: views[g].Idle? && Unoccupied(s.slots[g]) && s.slots[g].assignment.None?
  {
    forall g | g in s.slots ensures views[g].Idle? && Unoccupied(s.slots[g]) && s.slots[g].assignment.None? {
      IdleGpu(s, views, g);
    }
  }

  lemma {:induction false} IdleSeesNothing(g: Gpu, es: seq<WorkerEvent>)
    requires !Fold(g, Idle, es).Wrong?
    ensures es == []
  {
    if es != [] { WrongStaysWrong(g, es[1..]); }
  }

  /** An idle GPU: unassigned, nothing queued, nothing on its way, alive and waiting. */
  lemma IdleGpu(s: System, views: map<Gpu, View>, g: Gpu)
    requires Inv(s, views) && g in s.slots && g in s.sched.idle
    ensures views[g].Idle? && s.slots[g].assignment.None? && Unoccupied(s.slots[g])
    ensures Of(g, s.inbox) == [] && s.slots[g].outbox == []
  {
    assert GpuOk(s, g, views[g]);
    var seen := Fold(g, Idle, Of(g, s.inbox));
    IdleSeesNothing(g, Of(g, s.inbox));
    IdleSeesNothing(g, s.slots[g].outbox);
    WorksMeansHasWork(s.slots[g].commands);
  }

  lemma DrainOk(s: System, views: map<Gpu, View>)
    requires Inv(s, views)
    ensures Inv(ApplyDrain(s), views)
  {
    PcStep(s, views, Claiming);
    var s' := ApplyDrain(s);
    if s.sched.draining.Some? && s.sched.idle == s.slots.Keys {
      AllIdleMeansNoWork(s, views);
      forall h | h in s.slots ensures GpuOk(s', h, views[h]) {
        UntouchedKeepsGpuOk(s, s', h, views[h]);
      }
    }
  }

  lemma ClaimTouches(st: Store, drawn: nat, now: int, timeout: int)
    ensures var (st', claimed) := Claim(st, drawn, now, timeout);
      && st'.shards == st.shards && st'.devices == st.devices && |st'.jobs| == |st.jobs| && TerminalKept(st, st')
      && (claimed.Some? ==> claimed.value < |st.jobs|)
      && (FirstActive(st.jobs).None? ==>
            forall j | 0 <= j < |st.jobs| && st'.jobs[j].status.Active() :: claimed == Some(j))
  {
  }

  lemma ClaimOk(s: System, views: map<Gpu, View>, drawn: nat, now: int, timeout: int)
    requires Inv(s, views) && 1 <= drawn < SECP256K1_ORDER
    ensures Inv(ApplyClaim(s, drawn, now, timeout), views)
  {
    var s' := ApplyClaim(s, drawn, now, timeout);
    ClaimKeepsStoreOk(s.store, drawn, now, timeout);
    ClaimTouches(s.store, drawn, now, timeout);
    if ClaimReady(s) { AllIdleMeansNoWork(s, views); }
    forall h | h in s.slots ensures GpuOk(s', h, views[h]) && CancelsOk(s'.store, s'.slots[h].commands) {
      TerminalKeptKeepsCancels(s.store, s'.store, s.slots[h].commands);
      UntouchedKeepsGpuOk(s, s', h, views[h]);
    }
    assert SchedOk(s', views);
  }

  lemma AllocateTouches(st: Store, j: JobId, g: Gpu, lease: nat, shardSeconds: int, batchMs: nat)
    requires StoreOk(st)
    ensures var (st', outcome) := Allocate(st, j, g, lease, shardSeconds, batchMs);
      && SameShards(st, st') && TerminalKept(st, st') && |st'.jobs| == |st.jobs|
      && st'.devices.Keys == st.devices.Keys
      && (forall k | 0 <= k < |st.jobs| && st'.jobs[k].status.Active() :: st.jobs[k].status.Active())
      && (outcome.Allocated? ==> outcome.assignment.job == j && ShardMatches(st', g, outcome.assignment, 0))
  {
  }

  function ViewsAfterFill(s: System, views: map<Gpu, View>, g: Gpu, lease: nat,
      shardSeconds: int, batchMs: nat): map<Gpu, View>
    requires s.sched.active.Some?
  {
    var outcome := Allocate(s.store, s.sched.active.value, g, lease, shardSeconds, batchMs).1;
    if outcome.Allocated? then views[g := Busy(outcome.assignment, 0)] else views
  }

  lemma DispatchOccupies(s: System, s': System, views: map<Gpu, View>, g: Gpu, a: WorkAssignment)
    requires Inv(s, views) && g in s.slots && g in s.sched.idle
    requires ShardMatches(s.store, g, a, 0)
    requires s'.store == s.store && s'.inbox == s.inbox
    requires g in s'.slots && s'.slots[g] == Dispatch(s.slots[g], a) && g !in s'.sched.idle
    ensures CanDispatch(s.slots[g])
    ensures GpuOk(s', g, Busy(a, 0)) && CancelsOk(s.store, s'.slots[g].commands)
  {
    IdleGpu(s, views, g);
    WorksAppend(s.slots[g].commands, Work(a));
    WorksMeansHasWork(s.slots[g].commands);
    assert CancelsOk(s.store, s.slots[g].commands);
  }

  lemma DispatchOk(s: System, views: map<Gpu, View>, g: Gpu, a: WorkAssignment)
    requires Inv(s, views) && s.pc.Fill? && g in s.pc.todo && g in s.slots
    requires s.sched.active == Some(a.job) && ShardMatches(s.store, g, a, 0)
    ensures CanDispatch(s.slots[g])
    ensures Inv(Hand(s, g, a), views[g := Busy(a, 0)])
  {
    hide GpuOk, StoreOk, CancelsOk, ShardMatches, CanDispatch;
    var s' := Hand(s, g, a);
    DispatchOccupies(s, s', views, g, a);
    OneGpuChanged(s, s', views, views[g := Busy(a, 0)], g);
    forall h | h in s.slots ensures CancelsOk(s'.store, s'.slots[h].commands) {
      if h != g { assert CancelsOk(s.store, s.slots[h].commands); }
    }
    assert SchedOk(s', views[g := Busy(a, 0)]);
  }

  lemma FillPc(s: System, views: map<Gpu, View>, pc: Pc)
    requires Inv(s, views) && s.pc.Fill?
    requires pc.Stopped? || (pc.Fill? && pc.todo <= s.pc.todo)
    ensures Inv(At(s, pc), views)
  {
    forall h | h in s.slots ensures GpuOk(At(s, pc), h, views[h]) {
      UntouchedKeepsGpuOk(s, At(s, pc), h, views[h]);
    }
  }

  lemma FillOk(s: System, views: map<Gpu, View>, g: Gpu, lease: nat, shardSeconds: int, batchMs: nat)
    requires Inv(s, views) && s.pc.Fill? && g in s.pc.todo && s.sched.active.Some? && g in s.slots
    ensures Inv(ApplyFill(s, g, lease, shardSeconds, batchMs),
      ViewsAfterFill(s, views, g, lease, shardSeconds, batchMs))
  {
    var j := s.sched.active.value;
    var (st', outcome) := Allocate(s.store, j, g, lease, shardSeconds, batchMs);
    AllocateKeepsStoreOk(s.store, j, g, lease, shardSeconds, batchMs);
    AllocateTouches(s.store, j, g, lease, shardSeconds, batchMs);
    var s1 := WithStore(s, st');
    TableStep(s, s1, views);
    match outcome
    case Refused => FillPc(s1, views, Fill(s.pc.todo - {g}));
    case UniqueViolation => FillPc(s1, views, Stopped);
    case Allocated(a) => DispatchOk(s1, views, g, a);
  }

  // ---- Operators and restarts ----------------------------------------------------------------

  lemma ApiCreateOk(s: System, views: map<Gpu, View>, user: nat, key: Option<string>, priority: int)
    requires Inv(s, views)
    ensures Inv(WithStore(s, CreateJob(s.store, user, key, priority).0), views)
  {
    CreateJobKeepsStoreOk(s.store, user, key, priority);
    TableStep(s, WithStore(s, CreateJob(s.store, user, key, priority).0), views);
  }

  lemma ApiCancelOk(s: System, views: map<Gpu, View>, user: nat, j: JobId)
    requires Inv(s, views)
    ensures Inv(WithStore(s, CancelJob(s.store, user, j).0), views)
  {
    CancelJobKeepsStoreOk(s.store, user, j);
    TableStep(s, WithStore(s, CancelJob(s.store, user, j).0), views);
  }

  lemma ApiSubmitOk(s: System, views: map<Gpu, View>, j: JobId, w: Winner, verified: bool)
    requires Inv(s, views)
    ensures Inv(WithStore(s, Finalize(s.store, j, w, verified).0), views)
  {
    FinalizeKeepsStoreOk(s.store, j, w, verified);
    TableStep(s, WithStore(s, Finalize(s.store, j, w, verified).0), views);
  }

  function ViewsAtStart(gpus: set<Gpu>): map<Gpu, View> { map g | g in gpus :: Out }

  lemma RestartOk(s: System, rates: map<Gpu, nat>)
    requires StoreOk(s.store)
    ensures Inv(ApplyRestart(s, rates), ViewsAtStart(rates.Keys))
  {
    var s' := ApplyRestart(s, rates);
    RecoverKeepsStoreOk(s.store);
    RecoverTouches(s.store);
    StatusChangeKeepsStoreOk(Recover(s.store), s'.store);
  }
}
