/**
 The inductive invariant of the generation protocol.

 For every GPU it keeps the scheduler's knowledge (`View`) after the events handled so far. Folding
 the events still on their way over that view must end in what the worker really does.
 */
module ProtocolProofs {
  import opened Common
  import opened JobStore
  import opened JobStoreProofs
  import opened Protocol

  datatype View = Out | Idle | Busy(a: WorkAssignment, processed: nat) | Wrong

  predicate Speaks(e: WorkerEvent, a: WorkAssignment) {
    e.gpu == a.gpu && e.shard == Some(a.shard) && e.lease == Some(a.lease)
  }

  /** How one event of GPU `g` moves the view; `Wrong` is an event nobody should see there. */
  function After(g: Gpu, v: View, e: WorkerEvent): View {
    if e.gpu != g then Wrong
    else match v
      case Out =>
        if e.shard.Some? then Wrong
        else if e.kind.READY? then Idle
        else if e.kind.STARTING? || e.kind.SELF_TESTING? || e.kind.FAILED? || e.kind.STOPPED? then Out
        else Wrong
      case Busy(a, p) =>
        if e.kind.FAILED? && e.shard.None? then Out
        else if !Speaks(e, a) then Wrong
        else if e.kind.STARTED? then v
        else if e.kind.PROGRESS? && p <= e.processed <= a.count then Busy(a, e.processed)
        else if (e.kind.EXHAUSTED? || e.kind.CANCELED?) && e.processed == p then Out
        else if e.kind.FOUND? && p <= e.processed <= a.count && e.address.Some? && e.offset.Some? then Out
        else if e.kind.FAILED? then Out
        else Wrong
      case _ => Wrong
  }

  function Fold(g: Gpu, v: View, es: seq<WorkerEvent>): View
    decreases |es|
  {
    if es == [] then v else Fold(g, After(g, v, es[0]), es[1..])
  }

  lemma {:induction false} FoldAppend(g: Gpu, v: View, es: seq<WorkerEvent>, e: WorkerEvent)
    ensures Fold(g, v, es + [e]) == After(g, Fold(g, v, es), e)
    decreases |es|
  {
    if es == [] {
      assert es + [e] == [e];
      assert [e][1..] == [];
    } else {
      assert (es + [e])[1..] == es[1..] + [e];
      FoldAppend(g, After(g, v, es[0]), es[1..], e);
    }
  }

  lemma {:induction false} WrongStaysWrong(g: Gpu, es: seq<WorkerEvent>)
    ensures Fold(g, Wrong, es) == Wrong
  {
    if es != [] { WrongStaysWrong(g, es[1..]); }
  }

  function Of(g: Gpu, es: seq<WorkerEvent>): seq<WorkerEvent> {
    if es == [] then [] else (if es[0].gpu == g then [es[0]] else []) + Of(g, es[1..])
  }

  lemma {:induction false} OfAppend(g: Gpu, es: seq<WorkerEvent>, e: WorkerEvent)
    ensures Of(g, es + [e]) == Of(g, es) + if e.gpu == g then [e] else []
    decreases |es|
  {
    if es == [] {
      assert es + [e] == [e];
      assert [e][1..] == [];
    } else {
      var head := if es[0].gpu == g then [es[0]] else [];
      var tail := if e.gpu == g then [e] else [];
      assert (es + [e])[1..] == es[1..] + [e] && (es + [e])[0] == es[0];
      OfAppend(g, es[1..], e);
      OfUnfold(g, es);
      OfUnfold(g, es + [e]);
      hide Of;
      assert head + (Of(g, es[1..]) + tail) == head + Of(g, es[1..]) + tail;
    }
  }

  lemma OfUnfold(g: Gpu, es: seq<WorkerEvent>)
    requires es != []
    ensures Of(g, es) == (if es[0].gpu == g then [es[0]] else []) + Of(g, es[1..])
  {
  }

  /** The work waiting in a command queue, in order. */
  function Works(commands: seq<Command>): seq<WorkAssignment> {
    if commands == [] then []
    else (if commands[0].Work? then [commands[0].a] else []) + Works(commands[1..])
  }

  lemma {:induction false} WorksAppend(commands: seq<Command>, c: Command)
    ensures Works(commands + [c]) == Works(commands) + if c.Work? then [c.a] else []
  {
    if commands == [] {
      assert commands + [c] == [c];
      assert [c][1..] == [];
    } else {
      WorksAppend(commands[1..], c);
      assert (commands + [c])[0] == commands[0];
      assert (commands + [c])[1..] == commands[1..] + [c];
    }
  }

  lemma {:induction false} WorksMeansHasWork(commands: seq<Command>)
    ensures HasWork(commands) <==> Works(commands) != []
  {
    if commands != [] {
      WorksMeansHasWork(commands[1..]);
      if HasWork(commands) {
        var i :| 0 <= i < |commands| && commands[i].Work?;
        if i > 0 { assert commands[1..][i - 1].Work?; }
      }
      if HasWork(commands[1..]) {
        var i :| 0 <= i < |commands[1..]| && commands[1..][i].Work?;
        assert commands[i + 1].Work?;
      }
    }
  }

  /** What the worker does agrees with the view reached once all its events are handled. */
  predicate PhaseOk(slot: Slot, v: View) {
    match slot.phase
    case Boot(_) => v.Out? && Works(slot.commands) == []
    case Finished => v.Out? && Works(slot.commands) == []
    case Running(a, p) => v == Busy(a, p) && p <= a.count && Works(slot.commands) == []
    case Waiting =>
      || (v.Idle? && Works(slot.commands) == [])
      || (v.Busy? && v.processed == 0 && Works(slot.commands) == [v.a])
    case Leaving => v.Out?
    case Dead => v.Out? || v.Busy?
  }

  predicate ShardMatches(st: Store, g: Gpu, a: WorkAssignment, p: nat) {
    && a.gpu == g && a.shard < |st.shards|
    && var s := st.shards[a.shard];
       s.job == a.job && s.gpu == g && s.lease == a.lease && s.count == a.count && s.processed == p
  }

  predicate GpuOk(s: System, g: Gpu, v: View)
    requires g in s.slots
  {
    var slot := s.slots[g];
    var seen := Fold(g, v, Of(g, s.inbox));
    && (g in s.sched.idle <==> v.Idle?)
    && !seen.Wrong?
    && slot.assignment == (if seen.Busy? then Some(seen.a) else None)
    && PhaseOk(slot, Fold(g, seen, slot.outbox))
    && (v.Busy? ==> ShardMatches(s.store, g, v.a, v.processed))
  }

  predicate CancelsOk(st: Store, commands: seq<Command>) {
    forall i | 0 <= i < |commands| && commands[i].Cancel? ::
      commands[i].job < |st.jobs| && st.jobs[commands[i].job].status.Terminal()
  }

  predicate SchedOk(s: System, views: map<Gpu, View>) {
    && s.sched.idle <= s.slots.Keys
    && !(s.sched.active.Some? && s.sched.draining.Some?)
    && (s.sched.active.Some? ==> s.sched.active.value < |s.store.jobs|)
    && (s.sched.draining.Some? ==>
        s.sched.draining.value < |s.store.jobs| && s.store.jobs[s.sched.draining.value].status.Terminal())
    && (forall j | 0 <= j < |s.store.jobs| && s.store.jobs[j].status.Active() :: s.sched.active == Some(j))
    && (forall g | g in views && views[g].Busy? ::
         s.sched.active == Some(views[g].a.job) || s.sched.draining == Some(views[g].a.job))
    && (s.pc.Fill? ==>
         s.pc.todo <= s.sched.idle && (s.pc.todo != {} ==> s.sched.active.Some? && s.sched.draining.None?))
    && !s.pc.Raised?
  }

  predicate Inv(s: System, views: map<Gpu, View>) {
    && views.Keys == s.slots.Keys
    && s.slots.Keys <= s.store.devices.Keys
    && StoreOk(s.store)
    && SchedOk(s, views)
    && InboxOk(s)
    && GpusOk(s, views)
    && (forall g | g in s.slots :: CancelsOk(s.store, s.slots[g].commands))
  }

  predicate InboxOk(s: System) { forall i | 0 <= i < |s.inbox| :: s.inbox[i].gpu in s.slots }

  predicate GpusOk(s: System, views: map<Gpu, View>)
    requires views.Keys == s.slots.Keys
  {
    forall g | g in s.slots :: GpuOk(s, g, views[g])
  }

  // ---- Frames --------------------------------------------------------------------------------

  /** Nothing GPU `h` depends on changed. */
  predicate Untouched(s: System, s': System, h: Gpu, v: View)
    requires h in s.slots && h in s'.slots
  {
    && s'.slots[h] == s.slots[h]
    && Of(h, s'.inbox) == Of(h, s.inbox)
    && (h in s'.sched.idle <==> h in s.sched.idle)
    && (v.Busy? && v.a.shard < |s.store.shards| ==>
          v.a.shard < |s'.store.shards|
            && s'.store.shards[v.a.shard].(status := s.store.shards[v.a.shard].status) == s.store.shards[v.a.shard])
  }

  lemma UntouchedKeepsGpuOk(s: System, s': System, h: Gpu, v: View)
    requires h in s.slots && h in s'.slots && GpuOk(s, h, v) && Untouched(s, s', h, v)
    ensures GpuOk(s', h, v)
  {
  }

  /** Jobs only ever gain rows, and a terminal status is never left. */
  predicate TerminalKept(st: Store, st': Store) {
    |st.jobs| <= |st'.jobs| && forall j | 0 <= j < |st.jobs| && st.jobs[j].status.Terminal() ::
      st'.jobs[j].status == st.jobs[j].status
  }

  lemma TerminalKeptKeepsCancels(st: Store, st': Store, commands: seq<Command>)
    requires CancelsOk(st, commands) && TerminalKept(st, st')
    ensures CancelsOk(st', commands)
  {
  }

  predicate SameShards(st: Store, st': Store) {
    |st.shards| <= |st'.shards| && forall i | 0 <= i < |st.shards| :: st'.shards[i] == st.shards[i]
  }

  /** Only GPU `g` and its view changed. */
  lemma OneGpuChanged(s: System, s': System, views: map<Gpu, View>, views': map<Gpu, View>, g: Gpu)
    requires views.Keys == s.slots.Keys == s'.slots.Keys && views'.Keys == views.Keys && g in s.slots
    requires GpusOk(s, views)
    requires forall h | h in s.slots && h != g :: views'[h] == views[h] && Untouched(s, s', h, views[h])
    requires GpuOk(s', g, views'[g])
    ensures GpusOk(s', views')
  {
    forall h | h in s.slots ensures GpuOk(s', h, views'[h]) {
      if h != g { UntouchedKeepsGpuOk(s, s', h, views[h]); }
    }
  }

  lemma SameSched(s: System, s': System, views: map<Gpu, View>)
    requires SchedOk(s, views) && s'.sched == s.sched && s'.pc == s.pc
    requires s'.store.jobs == s.store.jobs && s'.slots.Keys == s.slots.Keys
    ensures SchedOk(s', views)
  {
  }

  /** A step that touches only the tables: shards are kept, nothing terminal is revived. */
  lemma TableStep(s: System, s': System, views: map<Gpu, View>)
    requires Inv(s, views) && s' == WithStore(s, s'.store)
    requires StoreOk(s'.store) && SameShards(s.store, s'.store) && TerminalKept(s.store, s'.store)
    requires s'.store.devices.Keys == s.store.devices.Keys
    requires forall j | 0 <= j < |s'.store.jobs| && s'.store.jobs[j].status.Active() ::
      j < |s.store.jobs| && s.store.jobs[j].status.Active()
    ensures Inv(s', views)
  {
    forall h | h in s.slots ensures GpuOk(s', h, views[h]) && CancelsOk(s'.store, s'.slots[h].commands) {
      UntouchedKeepsGpuOk(s, s', h, views[h]);
      TerminalKeptKeepsCancels(s.store, s'.store, s.slots[h].commands);
    }
  }

  /** A step inside one worker: only its slot changes, its view does not. */
  lemma WorkerStep(s: System, s': System, views: map<Gpu, View>, g: Gpu)
    requires Inv(s, views) && g in s.slots && g in s'.slots && s' == Put(s, g, s'.slots[g])
    requires s'.slots[g].assignment == s.slots[g].assignment
    requires CancelsOk(s.store, s'.slots[g].commands)
    requires PhaseOk(s'.slots[g], Fold(g, Fold(g, views[g], Of(g, s.inbox)), s'.slots[g].outbox))
    ensures Inv(s', views)
  {
    hide StoreOk, SchedOk, ShardMatches, CancelsOk, Fold, PhaseOk, GpuOk, Untouched;
    OthersUntouched(s, s', views, g);
    NewPhase(s, s', g, views[g]);
    OneGpuChanged(s, s', views, views, g);
    SameSched(s, s', views);
  }

  lemma OthersUntouched(s: System, s': System, views: map<Gpu, View>, g: Gpu)
    requires views.Keys == s.slots.Keys && g in s.slots && g in s'.slots && s' == Put(s, g, s'.slots[g])
    ensures forall h | h in s.slots && h != g :: Untouched(s, s', h, views[h])
  {
  }

  lemma NewPhase(s: System, s': System, g: Gpu, v: View)
    requires g in s.slots && g in s'.slots && s' == Put(s, g, s'.slots[g]) && GpuOk(s, g, v)
    requires s'.slots[g].assignment == s.slots[g].assignment
    requires PhaseOk(s'.slots[g], Fold(g, Fold(g, v, Of(g, s.inbox)), s'.slots[g].outbox))
    ensures GpuOk(s', g, v)
  {
  }

  /** A worker step that emits one event and moves to a phase that fits it. */
  lemma EmitStep(s: System, s': System, views: map<Gpu, View>, g: Gpu, commands: seq<Command>, phase: Phase,
      e: WorkerEvent)
    requires Inv(s, views) && g in s.slots
    requires s' == Put(s, g, Emit(s.slots[g].(commands := commands), phase, [e]))
    requires CancelsOk(s.store, commands)
    requires
      var now := Fold(g, Fold(g, views[g], Of(g, s.inbox)), s.slots[g].outbox);
      PhaseOk(s'.slots[g], After(g, now, e))
    ensures Inv(s', views)
  {
    FoldAppend(g, Fold(g, views[g], Of(g, s.inbox)), s.slots[g].outbox, e);
    WorkerStep(s, s', views, g);
  }

  // ---- Worker acts ---------------------------------------------------------------------------

  /** Shared start of the worker lemmas: the busy worker's assignment is on its own GPU. */
  lemma {:induction false} BusyComesFromView(g: Gpu, v: View, es: seq<WorkerEvent>)
    requires Fold(g, v, es).Busy?
    ensures v.Busy? && Fold(g, v, es).a == v.a
    decreases |es|
  {
    if es != [] {
      if After(g, v, es[0]).Wrong? { WrongStaysWrong(g, es[1..]); }
      BusyComesFromView(g, After(g, v, es[0]), es[1..]);
    }
  }

  lemma RunningGpu(s: System, views: map<Gpu, View>, g: Gpu)
    requires Inv(s, views) && g in s.slots && s.slots[g].phase.Running?
    ensures s.slots[g].phase.a.gpu == g && Works(s.slots[g].commands) == []
    ensures Fold(g, Fold(g, views[g], Of(g, s.inbox)), s.slots[g].outbox)
         == Busy(s.slots[g].phase.a, s.slots[g].phase.processed)
  {
    var seen := Fold(g, views[g], Of(g, s.inbox));
    assert GpuOk(s, g, views[g]);
    BusyComesFromView(g, seen, s.slots[g].outbox);
    BusyComesFromView(g, views[g], Of(g, s.inbox));
  }

  lemma BootStepOk(s: System, views: map<Gpu, View>, g: Gpu)
    requires Inv(s, views) && g in s.slots && s.slots[g].phase.Boot?
    ensures Inv(Put(s, g, BootNext(s.slots[g], g)), views)
  {
    hide StoreOk, SchedOk, InboxOk, ShardMatches, CancelsOk, Fold;
    var slot := s.slots[g];
    assert GpuOk(s, g, views[g]);
    var s' := Put(s, g, BootNext(slot, g));
    if slot.phase.stage == 0 { EmitStep(s, s', views, g, slot.commands, Boot(1), Plain(STARTING, g)); }
    else if slot.phase.stage == 1 { EmitStep(s, s', views, g, slot.commands, Boot(2), Plain(SELF_TESTING, g)); }
    else { EmitStep(s, s', views, g, slot.commands, Waiting, Plain(READY, g)); }
  }

  /** An exception that reaches the outer handler: whatever the worker held, the scheduler sees it go. */
  lemma EscapesOk(s: System, views: map<Gpu, View>, g: Gpu)
    requires Inv(s, views) && g in s.slots && InsideTry(s.slots[g]) && !Unoccupied(s.slots[g])
    ensures Inv(Put(s, g, Emit(s.slots[g], Leaving, [Plain(FAILED, g)])), views)
  {
    hide StoreOk, SchedOk, InboxOk, ShardMatches, Fold, CancelsOk;
    var slot := s.slots[g];
    assert GpuOk(s, g, views[g]);
    WorksMeansHasWork(slot.commands);
    EmitStep(s, Put(s, g, Emit(slot, Leaving, [Plain(FAILED, g)])), views, g, slot.commands, Leaving, Plain(FAILED, g));
  }

  lemma SayStoppedOk(s: System, views: map<Gpu, View>, g: Gpu)
    requires Inv(s, views) && g in s.slots && s.slots[g].phase.Leaving?
    ensures Inv(Put(s, g, Emit(s.slots[g], Dead, [Plain(STOPPED, g)])), views)
  {
    hide StoreOk, SchedOk, InboxOk, ShardMatches, Fold, CancelsOk;
    var slot := s.slots[g];
    assert GpuOk(s, g, views[g]);
    EmitStep(s, Put(s, g, Emit(slot, Dead, [Plain(STOPPED, g)])), views, g, slot.commands, Dead, Plain(STOPPED, g));
  }

  lemma TakeCancelOk(s: System, views: map<Gpu, View>, g: Gpu)
    requires Inv(s, views) && g in s.slots && s.slots[g].phase.Waiting?
    requires s.slots[g].commands != [] && s.slots[g].commands[0].Cancel?
    ensures Inv(Put(s, g, TakeNext(s.slots[g])), views)
  {
    var slot := s.slots[g];
    assert GpuOk(s, g, views[g]) && CancelsOk(s.store, slot.commands);
    assert CancelsOk(s.store, slot.commands[1..]);
    WorkerStep(s, Put(s, g, TakeNext(slot)), views, g);
  }

  lemma TakeWorkOk(s: System, views: map<Gpu, View>, g: Gpu)
    requires Inv(s, views) && g in s.slots && s.slots[g].phase.Waiting?
    requires s.slots[g].commands != [] && s.slots[g].commands[0].Work?
    ensures Inv(Put(s, g, TakeNext(s.slots[g])), views)
  {
    var slot := s.slots[g];
    var a := slot.commands[0].a;
    var seen := Fold(g, views[g], Of(g, s.inbox));
    assert GpuOk(s, g, views[g]) && CancelsOk(s.store, slot.commands);
    assert CancelsOk(s.store, slot.commands[1..]);
    assert Works(slot.commands) == [a] + Works(slot.commands[1..]);
    assert Works(slot.commands) == [Fold(g, seen, slot.outbox).a];
    assert Works(slot.commands)[0] == a && |Works(slot.commands[1..])| == 0;
    BusyComesFromView(g, seen, slot.outbox);
    BusyComesFromView(g, views[g], Of(g, s.inbox));
    EmitStep(s, Put(s, g, TakeNext(slot)), views, g, slot.commands[1..], Phase.Running(a, 0), About(STARTED, a, 0));
  }

  /** A busy worker finds no work in its queue, so draining either ends it or changes nothing else. */
  lemma DrainControlOk(s: System, views: map<Gpu, View>, g: Gpu, stopFails: bool)
    requires Inv(s, views) && g in s.slots && s.slots[g].phase.Running?
    ensures Inv(Put(s, g, DrainControl(s.slots[g], stopFails)), views)
  {
    hide Inv, HasCancel, HasWork, Emit, Works, Fold;
    var slot := s.slots[g];
    var a, p := slot.phase.a, slot.phase.processed;
    RunningGpu(s, views, g);
    WorksMeansHasWork(slot.commands);
    if HasCancel(slot.commands, a.job) {
      DrainedEndOk(s, views, g, if stopFails then About(FAILED, a, 0) else About(CANCELED, a, p));
    } else {
      IgnoredOk(s, views, g);
    }
  }

  lemma DrainedEndOk(s: System, views: map<Gpu, View>, g: Gpu, e: WorkerEvent)
    requires Inv(s, views) && g in s.slots && s.slots[g].phase.Running?
    requires After(s.slots[g].phase.a.gpu, Busy(s.slots[g].phase.a, s.slots[g].phase.processed), e).Out?
    ensures Inv(Put(s, g, Emit(s.slots[g].(commands := []), Finished, [e])), views)
  {
    hide StoreOk, SchedOk, InboxOk, ShardMatches, Fold, Inv, After;
    var slot := s.slots[g];
    RunningGpu(s, views, g);
    EmitStep(s, Put(s, g, Emit(slot.(commands := []), Finished, [e])), views, g, [], Finished, e);
  }

  lemma IgnoredOk(s: System, views: map<Gpu, View>, g: Gpu)
    requires Inv(s, views) && g in s.slots && s.slots[g].phase.Running?
    ensures Inv(Put(s, g, s.slots[g].(commands := [])), views)
  {
    hide StoreOk, SchedOk, InboxOk, ShardMatches, Fold;
    assert GpuOk(s, g, views[g]);
    WorkerStep(s, Put(s, g, s.slots[g].(commands := [])), views, g);
  }

  /** Every report of a busy worker, whatever it leads to. */
  lemma ReportOk(s: System, views: map<Gpu, View>, g: Gpu, phase: Phase, e: WorkerEvent)
    requires Inv(s, views) && g in s.slots && s.slots[g].phase.Running?
    requires
      var a, p := s.slots[g].phase.a, s.slots[g].phase.processed;
      || (phase.Running? && phase.a == a && After(a.gpu, Busy(a, p), e) == Busy(a, phase.processed)
        && phase.processed <= a.count)
      || (phase.Finished? && After(a.gpu, Busy(a, p), e).Out?)
    ensures Inv(Put(s, g, Emit(s.slots[g], phase, [e])), views)
  {
    RunningGpu(s, views, g);
    assert CancelsOk(s.store, s.slots[g].commands);
    EmitStep(s, Put(s, g, Emit(s.slots[g], phase, [e])), views, g, s.slots[g].commands, phase, e);
  }

  lemma BatchDoneOk(s: System, views: map<Gpu, View>, g: Gpu, total: nat, rate: int)
    requires Inv(s, views) && g in s.slots && InBatch(s.slots[g], total)
    ensures var a := s.slots[g].phase.a;
      Inv(Put(s, g, Emit(s.slots[g], Phase.Running(a, total), [Batch(a, total, rate)])), views)
  {
    hide Inv, Fold, Emit;
    RunningGpu(s, views, g);
    ReportOk(s, views, g, Phase.Running(s.slots[g].phase.a, total), Batch(s.slots[g].phase.a, total, rate));
  }

  lemma BatchFoundOk(s: System, views: map<Gpu, View>, g: Gpu, total: nat, rate: int, w: Winner)
    requires Inv(s, views) && g in s.slots && InBatch(s.slots[g], total)
    ensures Inv(Put(s, g, Emit(s.slots[g], Finished, [FoundIn(s.slots[g].phase.a, total, rate, w)])), views)
  {
    hide Inv, Fold, Emit;
    RunningGpu(s, views, g);
    ReportOk(s, views, g, Finished, FoundIn(s.slots[g].phase.a, total, rate, w));
  }

  lemma RangeDoneOk(s: System, views: map<Gpu, View>, g: Gpu)
    requires Inv(s, views) && g in s.slots && s.slots[g].phase.Running?
    ensures var phase := s.slots[g].phase;
      Inv(Put(s, g, Emit(s.slots[g], Finished, [About(EXHAUSTED, phase.a, phase.processed)])), views)
  {
    hide Inv, Fold, Emit;
    RunningGpu(s, views, g);
    ReportOk(s, views, g, Finished, About(EXHAUSTED, s.slots[g].phase.a, s.slots[g].phase.processed));
  }

  lemma WorkFailsOk(s: System, views: map<Gpu, View>, g: Gpu)
    requires Inv(s, views) && g in s.slots && s.slots[g].phase.Running?
    ensures Inv(Put(s, g, Emit(s.slots[g], Finished, [About(FAILED, s.slots[g].phase.a, 0)])), views)
  {
    hide Inv, Fold, Emit;
    RunningGpu(s, views, g);
    ReportOk(s, views, g, Finished, About(FAILED, s.slots[g].phase.a, 0));
  }

  lemma SayReadyOk(s: System, views: map<Gpu, View>, g: Gpu)
    requires Inv(s, views) && g in s.slots && s.slots[g].phase.Finished?
    ensures Inv(Put(s, g, Emit(s.slots[g], Waiting, [Plain(READY, g)])), views)
  {
    assert GpuOk(s, g, views[g]);
    EmitStep(s, Put(s, g, Emit(s.slots[g], Waiting, [Plain(READY, g)])), views, g, s.slots[g].commands, Waiting,
      Plain(READY, g));
  }

  lemma DiesOk(s: System, views: map<Gpu, View>, g: Gpu)
    requires Inv(s, views) && g in s.slots && !Unoccupied(s.slots[g])
    ensures Inv(Put(s, g, s.slots[g].(phase := Dead)), views)
  {
    assert GpuOk(s, g, views[g]);
    WorksMeansHasWork(s.slots[g].commands);
    WorkerStep(s, Put(s, g, s.slots[g].(phase := Dead)), views, g);
  }
}
