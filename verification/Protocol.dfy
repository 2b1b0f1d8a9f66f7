/**
 The running system: scheduler loop, supervisor handles, one worker process per GPU, their
 queues and the database (backend/app/generator/scheduler.py, supervisor.py, worker.py).

 A run is a sequence of `Act`s. Each act is one atomic step of one participant; all
 nondeterminism (which worker moves, clocks, random draws, verdicts, crashes) is in the act.
 The shared event queue is kept as one FIFO per writing worker and the scheduler may take the
 head of any of them, so every interleaving of different workers' events is covered.
 */
module Protocol {
  import opened Common
  import opened JobStore

  datatype Command = Work(a: WorkAssignment) | Cancel(job: JobId)

  datatype Phase =
    | Boot(stage: nat)
    | Waiting
    | Running(a: WorkAssignment, processed: nat)
    | Finished
    | Leaving
    | Dead

  /** A worker handle and the process behind it. */
  datatype Slot = Slot(
    assignment: Option<WorkAssignment>, commands: seq<Command>, phase: Phase, outbox: seq<WorkerEvent>)

  datatype Sched = Sched(idle: set<Gpu>, active: Option<JobId>, draining: Option<JobId>)

  /** Where the scheduler loop is; `Raised` is an escaped dispatch error, `Stopped` a database error. */
  datatype Pc = Poll | Restart | Handle | Check | Drain | Claiming | Fill(todo: set<Gpu>) | Raised | Stopped

  datatype System = System(store: Store, sched: Sched, slots: map<Gpu, Slot>, inbox: seq<WorkerEvent>, pc: Pc)

  /** Steps of the scheduler loop. */
  datatype LoopAct =
    | Collect(g: Gpu)
    | PollDone
    | Respawn(g: Gpu)
    | RestartDone
    | HandleEvent(verified: bool)
    | HandleDone
    | CheckActive(now: int)
    | FinishDraining
    | ClaimIfReady(drawn: nat, now: int, timeout: int)
    | FillOne(g: Gpu, lease: nat, shardSeconds: int, batchMs: nat)
    | FillDone

  /** Steps of one worker process. */
  datatype WorkerAct =
    | BootStep
    | TakeCommand
    | DrainCommands(stopFails: bool)
    | BatchDone(total: nat, rate: int)
    | BatchFound(total: nat, rate: int, w: Winner)
    | RangeDone
    | WorkFails
    | SayReady
    | Escapes
    | SayStopped
    | Dies

  /** Requests to the API. */
  datatype ApiAct =
    | ApiCreate(user: nat, key: Option<string>, priority: int)
    | ApiCancel(user: nat, j: JobId)
    | ApiSubmit(j: JobId, w: Winner, verified: bool)

  datatype Act =
    | Loop(loop: LoopAct)
    | Worker(g: Gpu, worker: WorkerAct)
    | Api(api: ApiAct)
    | SchedulerRestarts(rates: map<Gpu, nat>)

  // ---- Events --------------------------------------------------------------------------------

  function Plain(kind: EventKind, g: Gpu): WorkerEvent {
    WorkerEvent(kind, g, None, None, None, 0, 0, None, None)
  }

  function About(kind: EventKind, a: WorkAssignment, total: nat): WorkerEvent {
    WorkerEvent(kind, a.gpu, Some(a.job), Some(a.shard), Some(a.lease), total, 0, None, None)
  }

  function Batch(a: WorkAssignment, total: nat, rate: int): WorkerEvent { About(PROGRESS, a, total).(rate := rate) }

  function FoundIn(a: WorkAssignment, total: nat, rate: int, w: Winner): WorkerEvent {
    About(FOUND, a, total).(rate := rate, address := Some(w.address), offset := Some(w.offset))
  }

  predicate ClearsAssignment(kind: EventKind) {
    kind.EXHAUSTED? || kind.FOUND? || kind.CANCELED? || kind.FAILED?
  }

  // ---- Supervisor ----------------------------------------------------------------------------

  function FreshSlot(): Slot { Slot(None, [], Boot(0), []) }

  /** One turn of the `poll_events` loop: the assignment is released as soon as its last event is seen. */
  function Release(slot: Slot, e: WorkerEvent): Slot {
    if ClearsAssignment(e.kind) then slot.(assignment := None) else slot
  }

  function CancelSlot(slot: Slot, j: JobId): Slot {
    if slot.assignment.Some? && slot.assignment.value.job == j
    then slot.(commands := slot.commands + [Cancel(j)]) else slot
  }

  function CancelAll(slots: map<Gpu, Slot>, j: JobId): map<Gpu, Slot> {
    map g | g in slots :: CancelSlot(slots[g], j)
  }

  /** `dispatch` raises for an assigned or dead worker. */
  predicate CanDispatch(slot: Slot) { slot.assignment.None? && !slot.phase.Dead? }

  function Dispatch(slot: Slot, a: WorkAssignment): Slot {
    slot.(assignment := Some(a), commands := slot.commands + [Work(a)])
  }

  // ---- Scheduler -----------------------------------------------------------------------------

  function NoteEvent(sched: Sched, e: WorkerEvent): Sched {
    match e.kind
    case READY => sched.(idle := sched.idle + {e.gpu})
    case STARTED => sched.(idle := sched.idle - {e.gpu})
    case PROGRESS => sched.(idle := sched.idle - {e.gpu})
    case FAILED => sched.(idle := sched.idle - {e.gpu})
    case STOPPED => sched.(idle := sched.idle - {e.gpu})
    case _ => sched
  }

  // ---- Steps ---------------------------------------------------------------------------------

  function Put(s: System, g: Gpu, slot: Slot): System {
    System(s.store, s.sched, s.slots[g := slot], s.inbox, s.pc)
  }

  function WithStore(s: System, store: Store): System { System(store, s.sched, s.slots, s.inbox, s.pc) }

  function At(s: System, pc: Pc): System { System(s.store, s.sched, s.slots, s.inbox, pc) }

  function Emit(slot: Slot, phase: Phase, es: seq<WorkerEvent>): Slot {
    Slot(slot.assignment, slot.commands, phase, slot.outbox + es)
  }

  predicate HasCancel(commands: seq<Command>, j: JobId) { Cancel(j) in commands }

  predicate HasWork(commands: seq<Command>) { exists i | 0 <= i < |commands| :: commands[i].Work? }

  /** A worker that has announced READY and has not been handed work. */
  predicate Unoccupied(slot: Slot) { slot.phase.Waiting? && !HasWork(slot.commands) }

  predicate LoopEnabled(s: System, act: LoopAct) {
    match act
    case Collect(g) => s.pc.Poll? && g in s.slots && s.slots[g].outbox != []
    case PollDone => s.pc.Poll?
    // Fault model, part 1: a death is noticed only after the events of the dead worker were collected.
    case Respawn(g) => s.pc.Restart? && g in s.slots && s.slots[g].phase.Dead? && s.slots[g].outbox == []
    case RestartDone => s.pc.Restart?
    case HandleEvent(_) => s.pc.Handle? && s.inbox != []
    case HandleDone => s.pc.Handle? && s.inbox == []
    case CheckActive(_) => s.pc.Check?
    case FinishDraining => s.pc.Drain?
    case ClaimIfReady(drawn, _, _) => s.pc.Claiming? && 1 <= drawn < SECP256K1_ORDER
    case FillOne(g, _, _, _) => s.pc.Fill? && g in s.pc.todo && s.sched.active.Some? && g in s.slots
    case FillDone => s.pc.Fill? && s.pc.todo == {}
  }

  predicate WorkerEnabled(slot: Slot, act: WorkerAct) {
    match act
    case BootStep => slot.phase.Boot?
    case TakeCommand => slot.phase.Waiting? && slot.commands != []
    case DrainCommands(_) => slot.phase.Running?
    case BatchDone(total, _) => InBatch(slot, total)
    case BatchFound(total, _, _) => InBatch(slot, total)
    case RangeDone => slot.phase.Running? && slot.phase.processed == slot.phase.a.count
    case WorkFails => slot.phase.Running?
    case SayReady => slot.phase.Finished?
    // Fault model, part 2: a worker may give up or die at any moment except between READY and its next work.
    case Escapes => InsideTry(slot) && !Unoccupied(slot)
    case SayStopped => slot.phase.Leaving?
    case Dies => !Unoccupied(slot)
  }

  /** Where an exception ends in the outer handler of the worker's main loop. */
  predicate InsideTry(slot: Slot) {
    match slot.phase
    case Boot(stage) => stage >= 1
    case Leaving => false
    case Dead => false
    case _ => true
  }

  predicate InBatch(slot: Slot, total: nat) {
    slot.phase.Running? && slot.phase.processed < total <= slot.phase.a.count
  }

  predicate Enabled(s: System, act: Act) {
    match act
    case Loop(loop) => LoopEnabled(s, loop)
    case Worker(g, worker) => g in s.slots && WorkerEnabled(s.slots[g], worker)
    case Api(_) => true
    case SchedulerRestarts(rates) => rates.Keys == s.slots.Keys
  }

  function Apply(s: System, act: Act): System
    requires Enabled(s, act)
  {
    match act
    case Loop(loop) => LoopApply(s, loop)
    case Worker(g, worker) => Put(s, g, WorkerApply(s.slots[g], g, worker))
    case Api(api) => WithStore(s, ApiApply(s.store, api))
    case SchedulerRestarts(rates) => ApplyRestart(s, rates)
  }

  function LoopApply(s: System, act: LoopAct): System
    requires LoopEnabled(s, act)
  {
    match act
    case Collect(g) => ApplyCollect(s, g)
    case PollDone => At(s, Restart)
    case Respawn(g) => ApplyRespawn(s, g)
    case RestartDone => At(s, Handle)
    case HandleEvent(verified) => ApplyHandle(s, verified)
    case HandleDone => At(s, Check)
    case CheckActive(now) => ApplyCheck(s, now)
    case FinishDraining => ApplyDrain(s)
    case ClaimIfReady(drawn, now, timeout) => ApplyClaim(s, drawn, now, timeout)
    case FillOne(g, lease, shardSeconds, batchMs) => ApplyFill(s, g, lease, shardSeconds, batchMs)
    case FillDone => At(s, Poll)
  }

  function ApiApply(st: Store, act: ApiAct): Store {
    match act
    case ApiCreate(user, key, priority) => CreateJob(st, user, key, priority).0
    case ApiCancel(user, j) => CancelJob(st, user, j).0
    case ApiSubmit(j, w, verified) => Finalize(st, j, w, verified).0
  }

  function WorkerApply(slot: Slot, g: Gpu, act: WorkerAct): Slot
    requires WorkerEnabled(slot, act)
  {
    match act
    case BootStep => BootNext(slot, g)
    case TakeCommand => TakeNext(slot)
    case DrainCommands(stopFails) => DrainControl(slot, stopFails)
    case BatchDone(total, rate) => Emit(slot, Phase.Running(slot.phase.a, total), [Batch(slot.phase.a, total, rate)])
    case BatchFound(total, rate, w) => Emit(slot, Finished, [FoundIn(slot.phase.a, total, rate, w)])
    case RangeDone => Emit(slot, Finished, [About(EXHAUSTED, slot.phase.a, slot.phase.processed)])
    case WorkFails => Emit(slot, Finished, [About(FAILED, slot.phase.a, 0)])
    case SayReady => Emit(slot, Waiting, [Plain(READY, g)])
    case Escapes => Emit(slot, Leaving, [Plain(FAILED, g)])
    case SayStopped => Emit(slot, Dead, [Plain(STOPPED, g)])
    case Dies => slot.(phase := Dead)
  }

  function ApplyCollect(s: System, g: Gpu): System
    requires g in s.slots && s.slots[g].outbox != []
  {
    var slot := s.slots[g];
    var e := slot.outbox[0];
    System(s.store, s.sched, s.slots[g := Release(slot, e).(outbox := slot.outbox[1..])], s.inbox + [e], s.pc)
  }

  /** `restart_dead_workers` for one dead worker: only a held assignment is reported as failed. */
  function ApplyRespawn(s: System, g: Gpu): System
    requires g in s.slots
  {
    var held := s.slots[g].assignment;
    var report := if held.Some? then [About(FAILED, held.value, 0)] else [];
    System(s.store, s.sched, s.slots[g := FreshSlot()], s.inbox + report, s.pc)
  }

  function ApplyHandle(s: System, verified: bool): System
    requires s.inbox != []
  {
    var e := s.inbox[0];
    System(RecordEvent(s.store, e, verified), NoteEvent(s.sched, e), s.slots, s.inbox[1..], s.pc)
  }

  function ApplyCheck(s: System, now: int): System {
    if s.sched.active.None? then At(s, Drain)
    else
      var j := s.sched.active.value;
      var (store, status) := CheckDeadline(s.store, j, now);
      if status.Some? && !status.value.Terminal() then At(WithStore(s, store), Drain)
      else StartDraining(WithStore(s, store), j)
  }

  function StartDraining(s: System, j: JobId): System {
    System(s.store, Sched(s.sched.idle, None, Some(j)), CancelAll(s.slots, j), s.inbox, Drain)
  }

  function ApplyDrain(s: System): System {
    if s.sched.draining.Some? && s.sched.idle == s.slots.Keys
    then System(s.store, Sched(s.sched.idle, s.sched.active, None), s.slots, s.inbox, Claiming)
    else At(s, Claiming)
  }

  predicate ClaimReady(s: System) {
    s.sched.active.None? && s.sched.draining.None? && s.sched.idle == s.slots.Keys
  }

  function FillAll(sched: Sched): Pc {
    Fill(if sched.active.None? || sched.draining.Some? then {} else sched.idle)
  }

  function ApplyClaim(s: System, drawn: nat, now: int, timeout: int): System {
    if !ClaimReady(s) then At(s, FillAll(s.sched))
    else
      var (store, claimed) := Claim(s.store, drawn, now, timeout);
      var sched := Sched(s.sched.idle, claimed, None);
      System(store, sched, s.slots, s.inbox, FillAll(sched))
  }

  function ApplyFill(s: System, g: Gpu, lease: nat, shardSeconds: int, batchMs: nat): System
    requires s.pc.Fill? && s.sched.active.Some? && g in s.slots
  {
    var (store, outcome) := Allocate(s.store, s.sched.active.value, g, lease, shardSeconds, batchMs);
    var s := WithStore(s, store);
    match outcome
    case Refused => At(s, Fill(s.pc.todo - {g}))
    case UniqueViolation => At(s, Stopped)
    case Allocated(a) => if CanDispatch(s.slots[g]) then Hand(s, g, a) else At(s, Raised)
  }

  /** A fresh shard goes to its worker, which is no longer idle. */
  function Hand(s: System, g: Gpu, a: WorkAssignment): System
    requires s.pc.Fill? && g in s.slots
  {
    System(s.store, Sched(s.sched.idle - {g}, s.sched.active, s.sched.draining),
           s.slots[g := Dispatch(s.slots[g], a)], s.inbox, Fill(s.pc.todo - {g}))
  }

  function BootNext(slot: Slot, g: Gpu): Slot
    requires slot.phase.Boot?
  {
    if slot.phase.stage == 0 then Emit(slot, Boot(1), [Plain(STARTING, g)])
    else if slot.phase.stage == 1 then Emit(slot, Boot(2), [Plain(SELF_TESTING, g)])
    else Emit(slot, Waiting, [Plain(READY, g)])
  }

  /** A waiting worker ignores cancellations and starts whatever work comes next. */
  function TakeNext(slot: Slot): Slot
    requires slot.commands != []
  {
    var rest := slot.(commands := slot.commands[1..]);
    match slot.commands[0]
    case Cancel(_) => rest
    case Work(a) => Emit(rest, Phase.Running(a, 0), [About(STARTED, a, 0)])
  }

  /**
   `drain_control_commands`: a second piece of work raises, as does a session that cannot be stopped
   when the job is canceled; the main loop's inner handler reports both as FAILED.
   */
  function DrainControl(slot: Slot, stopFails: bool): Slot
    requires slot.phase.Running?
  {
    var a := slot.phase.a;
    var rest := slot.(commands := []);
    var canceled := HasCancel(slot.commands, a.job);
    if HasWork(slot.commands) || (canceled && stopFails) then Emit(rest, Finished, [About(FAILED, a, 0)])
    else if canceled then Emit(rest, Finished, [About(CANCELED, a, slot.phase.processed)])
    else rest
  }

  /** The scheduler process is gone with its workers and queues; a new one recovers the tables. */
  function ApplyRestart(s: System, rates: map<Gpu, nat>): System {
    System(Initialize(Recover(s.store), rates), Sched({}, None, None),
           map g | g in rates :: FreshSlot(), [], Poll)
  }

  // ---- Runs ----------------------------------------------------------------------------------

  /** A system that has just started over tables in which nothing ran yet. */
  function Initial(store: Store, rates: map<Gpu, nat>): System {
    ApplyRestart(System(store, Sched({}, None, None), map g | g in rates :: FreshSlot(), [], Poll), rates)
  }

  predicate CanRun(s: System, acts: seq<Act>)
    decreases |acts|
  {
    acts != [] ==> Enabled(s, acts[0]) && CanRun(Apply(s, acts[0]), acts[1..])
  }

  function Run(s: System, acts: seq<Act>): System
    requires CanRun(s, acts)
    decreases |acts|
  {
    if acts == [] then s else Run(Apply(s, acts[0]), acts[1..])
  }

  predicate Reaches(s: System, acts: seq<Act>, s': System) { CanRun(s, acts) && Run(s, acts) == s' }

  lemma {:induction false} RunOneMore(s: System, acts: seq<Act>, act: Act)
    requires CanRun(s, acts) && Enabled(Run(s, acts), act)
    ensures CanRun(s, acts + [act]) && Run(s, acts + [act]) == Apply(Run(s, acts), act)
    decreases |acts|
  {
    if acts == [] {
      assert acts + [act] == [act];
      assert [act][1..] == [];
    } else {
      assert (acts + [act])[1..] == acts[1..] + [act];
      RunOneMore(Apply(s, acts[0]), acts[1..], act);
    }
  }

  lemma ReachesMore(s0: System, acts: seq<Act>, s: System, act: Act)
    requires Reaches(s0, acts, s) && Enabled(s, act)
    ensures Reaches(s0, acts + [act], Apply(s, act))
  {
    hide Apply, Enabled;
    RunOneMore(s0, acts, act);
  }

  lemma {:induction false} ReachesThen(s0: System, acts: seq<Act>, s1: System, more: seq<Act>, s2: System)
    requires Reaches(s0, acts, s1) && Reaches(s1, more, s2)
    ensures Reaches(s0, acts + more, s2)
    decreases |acts|
  {
    hide Apply, Enabled;
    if acts == [] {
      assert acts + more == more;
    } else {
      assert (acts + more)[1..] == acts[1..] + more;
      ReachesThen(Apply(s0, acts[0]), acts[1..], s1, more, s2);
    }
  }

  lemma NothingReached(s: System)
    ensures Reaches(s, [], s)
  {
  }
}
