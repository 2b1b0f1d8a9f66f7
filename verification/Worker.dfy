/**
 The assignment loops of a GPU worker (backend/app/generator/worker.py).

 The native session, the clock and the moments at which commands arrive are inputs: `Batch` gives,
 for one submitted batch, what every look at the command queue finds and how the session answers.
 */
module Worker {
  import opened Common
  import Digits
  import opened JobStore
  import opened Protocol
  import opened ProtocolProofs

  datatype Control = Shutdown | Scheduler(command: Command)

  datatype Answer =
    | Payload(attempts: Option<int>, found: bool, address: Option<string>, offset: Option<string>)
    | SessionFailed

  /**
   Commands found before the batch, then before each poll of the session, and its final answer;
   `stopFails` says whether the session can be stopped when a poll asks for it.
   */
  datatype BatchInput = BatchInput(
    before: seq<Control>, submitFails: bool, polls: seq<seq<Control>>, stopFails: bool, answer: Answer, elapsed: real)

  const MAXIMUM_NATIVE_BATCH: nat := 67_108_864

  // ---- Control commands ----------------------------------------------------------------------

  predicate AsksCancel(queue: seq<Control>, a: WorkAssignment) { Scheduler(Cancel(a.job)) in queue }

  predicate AsksShutdown(queue: seq<Control>) { Shutdown in queue }

  predicate BringsWork(queue: seq<Control>) {
    exists i | 0 <= i < |queue| :: queue[i].Scheduler? && queue[i].command.Work?
  }

  method DrainControlCommands(queue: seq<Control>, a: WorkAssignment)
    returns (canceled: bool, shutdown: bool, raised: bool)
    ensures raised <==> BringsWork(queue)
    ensures !raised ==> (canceled <==> AsksCancel(queue, a)) && (shutdown <==> AsksShutdown(queue))
  {
    canceled, shutdown, raised := false, false, false;
    for i := 0 to |queue|
      invariant !raised && !BringsWork(queue[..i])
      invariant (canceled <==> AsksCancel(queue[..i], a)) && (shutdown <==> AsksShutdown(queue[..i]))
    {
      assert queue[..i + 1] == queue[..i] + [queue[i]];
      match queue[i] {
        case Shutdown => shutdown := true;
        case Scheduler(Cancel(j)) => if j == a.job { canceled := true; }
        case Scheduler(Work(_)) =>
          assert BringsWork(queue);
          return canceled, shutdown, true;
      }
    }
    assert queue[..|queue|] == queue;
  }

  /** A look at the queue that finds nothing for this worker. */
  predicate Quiet(queue: seq<Control>, a: WorkAssignment) {
    !BringsWork(queue) && !AsksCancel(queue, a) && !AsksShutdown(queue)
  }

  /** A look that tells the worker to stop. */
  predicate TellsToStop(queue: seq<Control>, a: WorkAssignment) {
    !BringsWork(queue) && (AsksCancel(queue, a) || AsksShutdown(queue))
  }

  // ---- How a batch ends, by its environment alone ----------------------------------------------

  /** The batch is submitted, and the first n looks at the queue after that find nothing. */
  predicate QuietUntil(input: BatchInput, a: WorkAssignment, n: nat)
    requires n <= |input.polls|
  {
    Quiet(input.before, a) && !input.submitFails && forall k | 0 <= k < n :: Quiet(input.polls[k], a)
  }

  /** The session's answer for the whole batch comes before anything else. */
  predicate Undisturbed(input: BatchInput, a: WorkAssignment, size: nat) {
    QuietUntil(input, a, |input.polls|) && input.answer.Payload? && input.answer.attempts == Some(size)
  }

  predicate GoesOn(input: BatchInput, a: WorkAssignment, size: nat) {
    Undisturbed(input, a, size) && !input.answer.found
  }

  predicate Wins(input: BatchInput, a: WorkAssignment, size: nat) {
    && Undisturbed(input, a, size) && input.answer.found
    && input.answer.address.Some? && input.answer.offset.Some?
  }

  /** Before anything else a look tells the worker to stop, and the session can be stopped if there is a batch. */
  ghost predicate StopsWith(input: BatchInput, a: WorkAssignment, shutdown: bool) {
    || (TellsToStop(input.before, a) && shutdown == AsksShutdown(input.before))
    || exists i | 0 <= i < |input.polls| :: StopsAt(input, a, i, shutdown)
  }

  predicate StopsAt(input: BatchInput, a: WorkAssignment, i: nat, shutdown: bool)
    requires i < |input.polls|
  {
    && QuietUntil(input, a, i) && TellsToStop(input.polls[i], a) && !input.stopFails
    && shutdown == AsksShutdown(input.polls[i])
  }

  // ---- Batches -------------------------------------------------------------------------------

  datatype Batch = Batch(start: nat, count: nat)

  /** Batches follow one another from `start`; the result is the first scalar after them. */
  function BatchEnd(batches: seq<Batch>, start: nat): nat {
    if batches == [] then start else
      batches[|batches| - 1].start + batches[|batches| - 1].count
  }

  predicate Consecutive(batches: seq<Batch>, start: nat) {
    forall i | 0 <= i < |batches| :: batches[i].start == BatchEnd(batches[..i], start)
  }

  /** What the GPU accepts: bounded, not empty, and whole chains unless smaller than one round of them. */
  predicate WellSized(b: Batch, chainCount: nat) {
    1 <= b.count <= MAXIMUM_NATIVE_BATCH && (chainCount > 0 && b.count >= chainCount ==> b.count % chainCount == 0)
  }

  /** n is as much as the adaptive rate does in the target time, at least 1. */
  predicate FillsTarget(n: nat, adaptiveRate: int, targetSeconds: real) {
    n >= 1 && n as real <= MaxReal(1.0, adaptiveRate as real * targetSeconds) < n as real + 1.0
  }

  function MaxReal(x: real, y: real): real { if x < y then y else x }

  /** Less than one round of chains, or less than one round below what would be wanted. */
  predicate WholeChains(size: nat, wanted: int, chainCount: nat) {
    if chainCount == 0 || wanted < chainCount then size == wanted
    else size % chainCount == 0 && wanted - chainCount < size <= wanted
  }

  /** The most whole rounds of chains within the target, the native limit and what remains. */
  ghost predicate SizedFor(size: nat, adaptiveRate: int, targetSeconds: real, remaining: int, chainCount: nat) {
    exists n: nat | FillsTarget(n, adaptiveRate, targetSeconds) ::
      WholeChains(size, Min(Min(n, MAXIMUM_NATIVE_BATCH), remaining), chainCount)
  }

  /** The next batch: what the rate does in the target time, within the limits, in whole rounds of chains. */
  method BatchSize(adaptiveRate: int, targetSeconds: real, remaining: nat, chainCount: nat) returns (size: nat)
    requires remaining >= 1
    ensures size <= remaining && WellSized(Batch(0, size), chainCount)
    ensures SizedFor(size, adaptiveRate, targetSeconds, remaining, chainCount)
  {
    var adaptive := Max(1, (adaptiveRate as real * targetSeconds).Floor);
    assert FillsTarget(adaptive, adaptiveRate, targetSeconds);
    size := Min(Min(adaptive, MAXIMUM_NATIVE_BATCH), remaining);
    if chainCount > 0 && size >= chainCount {
      Digits.WholeMultiples(size, chainCount);
      size := size - size % chainCount;
    }
  }

  function ObservedRate(attempts: nat, elapsed: real): int {
    var bounded := if elapsed < 0.000000001 then 0.000000001 else elapsed;
    Max(1, (attempts as real / bounded).Floor)
  }

  function TargetSeconds(a: WorkAssignment): real {
    var target := a.batch as real / Max(1, a.rate) as real;
    if target < 0.01 then 0.01 else target
  }

  function AdaptedRate(rate: int, observed: int): int { Max(1, (rate * 3 + observed) / 4) }

  /** The observed rate is what the session did a second, in whole attempts and at least 1. */
  lemma RateIsObserved(attempts: nat, elapsed: real)
    ensures var perSecond := attempts as real / MaxReal(0.000000001, elapsed);
      var observed := ObservedRate(attempts, elapsed);
      && observed >= 1
      && (perSecond < 1.0 ==> observed == 1)
      && (perSecond >= 1.0 ==> observed as real <= perSecond < (observed + 1) as real)
  {
  }

  /** The next rate is a quarter of the way from the last one to the observed one. */
  lemma RateMovesAQuarter(rate: int, observed: int)
    requires rate >= 1 && observed >= 1
    ensures 0 <= observed - rate - 4 * (AdaptedRate(rate, observed) - rate) < 4
  {
  }

  /** A batch takes as long as the assigned size takes at the assigned rate, at least a hundredth of a second. */
  lemma TargetIsAllotted(a: WorkAssignment)
    ensures TargetSeconds(a) >= 0.01
    ensures TargetSeconds(a) * Max(1, a.rate) as real >= a.batch as real
    ensures TargetSeconds(a) > 0.01 ==> TargetSeconds(a) * Max(1, a.rate) as real == a.batch as real
  {
    var rate := Max(1, a.rate);
    var target := a.batch as real / rate as real;
    assert target * rate as real == a.batch as real;
  }

  // ---- One assignment ------------------------------------------------------------------------

  datatype Outcome = Outcome(shutdown: bool, raised: bool)

  /** Waits for the session. The first `at` looks find nothing, and the next one, if there is one, does not. */
  method AwaitAnswer(input: BatchInput, a: WorkAssignment)
    returns (stopped: bool, shutdown: bool, raised: bool, ghost at: nat)
    ensures at <= |input.polls| && (forall k | 0 <= k < at :: Quiet(input.polls[k], a))
    ensures at == |input.polls| ==> !stopped && (raised <==> input.answer.SessionFailed?)
    ensures at < |input.polls| ==>
      && !Quiet(input.polls[at], a)
      && (stopped <==> TellsToStop(input.polls[at], a) && !input.stopFails) && raised == !stopped
      && (stopped ==> (shutdown <==> AsksShutdown(input.polls[at])))
  {
    at := 0;
    for i := 0 to |input.polls|
      invariant at == i && forall k | 0 <= k < i :: Quiet(input.polls[k], a)
    {
      var canceled, asked, overlapping := DrainControlCommands(input.polls[i], a);
      if overlapping { return false, false, true, at; }
      if canceled || asked {
        if input.stopFails { return false, asked, true, at; }
        return true, asked, false, at;
      }
      at := at + 1;
    }
    return false, false, input.answer.SessionFailed?, at;
  }

  /** The events written so far begin with STARTED and take the scheduler's view to `v`. */
  predicate Says(a: WorkAssignment, events: seq<WorkerEvent>, v: View) {
    events != [] && events[0] == About(STARTED, a, 0) && Fold(a.gpu, Busy(a, 0), events) == v
  }

  lemma SaysMore(a: WorkAssignment, events: seq<WorkerEvent>, v: View, e: WorkerEvent)
    requires Says(a, events, v)
    ensures Says(a, events + [e], After(a.gpu, v, e))
  {
    FoldAppend(a.gpu, Busy(a, 0), events, e);
  }

  /** The act of the protocol that writes an event of a worker at work. */
  function ActFor(e: WorkerEvent): WorkerAct {
    match e.kind
    case PROGRESS => BatchDone(e.processed, e.rate)
    case FOUND =>
      if e.address.Some? && e.offset.Some?
      then BatchFound(e.processed, e.rate, Winner(e.address.value, e.offset.value)) else WorkFails
    case EXHAUSTED => RangeDone
    case CANCELED => DrainCommands(false)
    case FAILED => if e.shard.Some? then WorkFails else Escapes
    case STOPPED => SayStopped
    case _ => SayReady
  }

  /** That act, with a cancellation waiting where one is reported, writes exactly `e` and leads to `phase'`. */
  predicate Writes(a: WorkAssignment, phase: Phase, e: WorkerEvent, phase': Phase) {
    var slot := Slot(Some(a), if e.kind.CANCELED? then [Cancel(a.job)] else [], phase, []);
    WorkerEnabled(slot, ActFor(e)) && WorkerApply(slot, a.gpu, ActFor(e)) == Slot(Some(a), [], phase', [e])
  }

  /** A worker that finds `a` in its queue writes `events`, one act of the protocol each, and is then in `phase`. */
  ghost predicate Replays(a: WorkAssignment, events: seq<WorkerEvent>, phase: Phase)
    decreases |events|, 1
  {
    && events != []
    && if |events| == 1
       then TakeNext(Slot(Some(a), [Work(a)], Waiting, [])) == Slot(Some(a), [], phase, events)
       else exists before: Phase :: ReplaysVia(a, events, before, phase)
  }

  ghost predicate ReplaysVia(a: WorkAssignment, events: seq<WorkerEvent>, before: Phase, phase: Phase)
    requires |events| > 1
    decreases |events|, 0
  {
    Replays(a, events[..|events| - 1], before) && Writes(a, before, events[|events| - 1], phase)
  }

  lemma ReplaysMore(a: WorkAssignment, events: seq<WorkerEvent>, before: Phase, e: WorkerEvent, phase: Phase)
    requires Replays(a, events, before) && Writes(a, before, e, phase)
    ensures Replays(a, events + [e], phase)
  {
    hide Writes;
    assert (events + [e])[..|events|] == events;
    assert ReplaysVia(a, events + [e], before, phase);
  }

  /** The batches submitted so far. */
  predicate Submitted(a: WorkAssignment, chainCount: nat, batches: seq<Batch>) {
    && (forall i | 0 <= i < |batches| :: WellSized(batches[i], chainCount))
    && Consecutive(batches, a.start) && BatchEnd(batches, a.start) <= a.start + a.count
  }

  /** EXHAUSTED is said only about a whole shard. */
  predicate ExhaustedIsWhole(a: WorkAssignment, events: seq<WorkerEvent>, batches: seq<Batch>) {
    forall i | 0 <= i < |events| && events[i].kind.EXHAUSTED? ::
      events[i].processed == a.count && BatchEnd(batches, a.start) == a.start + a.count
  }

  datatype Turn =
    | Errored(submitted: bool)
    | Interrupted(submitted: bool, shutdown: bool)
    | Answered(found: bool, e: WorkerEvent)

  /** The turn that the batch's environment asks for. */
  ghost predicate TurnFits(a: WorkAssignment, input: BatchInput, size: nat, processed: nat, turn: Turn) {
    && (Wins(input, a, size) <==> turn.Answered? && turn.found)
    && (GoesOn(input, a, size) <==> turn.Answered? && !turn.found)
    && (forall b: bool :: StopsWith(input, a, b) <==> turn.Interrupted? && turn.shutdown == b)
    && (!turn.Answered? ==> (turn.submitted <==> QuietUntil(input, a, 0)))
    && (turn.Answered? ==>
          && turn.e.kind == (if turn.found then FOUND else PROGRESS)
          && turn.e.processed == processed + size && turn.e.rate == ObservedRate(size, input.elapsed)
          && (turn.found ==> turn.e.address == input.answer.address && turn.e.offset == input.answer.offset))
  }

  /** And its event is the one the scheduler expects, written by one act of the protocol. */
  ghost predicate TurnOk(a: WorkAssignment, chainCount: nat, input: BatchInput, rate: int, processed: nat, turn: Turn,
      size: nat, newRate: int)
  {
    && processed + size <= a.count && WellSized(Batch(a.start + processed, size), chainCount)
    && SizedFor(size, rate, TargetSeconds(a), a.count - processed, chainCount)
    && TurnFits(a, input, size, processed, turn)
    && (turn.Answered? ==>
          && newRate == AdaptedRate(rate, turn.e.rate)
          && After(a.gpu, Busy(a, processed), turn.e) == (if turn.found then Out else Busy(a, processed + size))
          && Writes(a, Phase.Running(a, processed), turn.e,
                    if turn.found then Finished else Phase.Running(a, processed + size)))
  }

  /** The first look that finds something decides whether the batch is stopped. */
  lemma FirstFindDecides(input: BatchInput, a: WorkAssignment, at: nat)
    requires at <= |input.polls| && QuietUntil(input, a, at) && (at < |input.polls| ==> !Quiet(input.polls[at], a))
    ensures QuietUntil(input, a, |input.polls|) <==> at == |input.polls|
    ensures forall b: bool :: StopsWith(input, a, b) <==> at < |input.polls| && StopsAt(input, a, at, b)
  {
    hide BringsWork, AsksCancel, AsksShutdown;
    assert forall i, b: bool | 0 <= i < |input.polls| && StopsAt(input, a, i, b) :: i == at;
  }

  /** One turn of the loop: look for commands, submit a batch, wait for its answer. */
  method RunBatch(a: WorkAssignment, chainCount: nat, input: BatchInput, rate: int, processed: nat)
    returns (turn: Turn, size: nat, newRate: int)
    requires processed < a.count
    ensures size >= 1 && processed + size <= a.count
    ensures TurnOk(a, chainCount, input, rate, processed, turn, size, newRate)
  {
    hide SizedFor, ObservedRate, AdaptedRate, TargetSeconds, BringsWork, AsksCancel, AsksShutdown;
    newRate := rate;
    size := BatchSize(rate, TargetSeconds(a), a.count - processed, chainCount);
    var canceled, shutdown, overlapping := DrainControlCommands(input.before, a);
    if overlapping { return Errored(false), size, newRate; }
    if canceled || shutdown { return Interrupted(false, shutdown), size, newRate; }
    if input.submitFails { return Errored(false), size, newRate; }
    var stopped, asked, raised;
    ghost var at;
    stopped, asked, raised, at := AwaitAnswer(input, a);
    FirstFindDecides(input, a, at);
    if raised { return Errored(true), size, newRate; }
    if stopped { return Interrupted(true, asked), size, newRate; }
    if input.answer.attempts != Some(size) { return Errored(true), size, newRate; }
    var observed := ObservedRate(size, input.elapsed);
    newRate := AdaptedRate(rate, observed);
    if input.answer.found {
      if input.answer.address.None? || input.answer.offset.None? { return Errored(true), size, newRate; }
      var w := Winner(input.answer.address.value, input.answer.offset.value);
      return Answered(true, FoundIn(a, processed + size, observed, w)), size, newRate;
    }
    turn := Answered(false, Protocol.Batch(a, processed + size, observed));
  }

  /** What holds between two turns of the loop. */
  ghost predicate Between(a: WorkAssignment, chainCount: nat, events: seq<WorkerEvent>, batches: seq<Batch>,
      processed: nat)
  {
    && processed <= a.count && |batches| <= processed
    && Submitted(a, chainCount, batches) && BatchEnd(batches, a.start) == a.start + processed
    && Says(a, events, Busy(a, processed)) && Replays(a, events, Phase.Running(a, processed))
    && (forall i | 0 <= i < |events| :: !events[i].kind.EXHAUSTED?)
  }

  /** What the scheduler is left with: the assignment is over, or still open if an error escaped. */
  ghost predicate Over(a: WorkAssignment, events: seq<WorkerEvent>, raised: bool) {
    var v := Fold(a.gpu, Busy(a, 0), events);
    && Says(a, events, v)
    && if raised
       then v.Busy? && v.a == a && v.processed <= a.count && Replays(a, events, Phase.Running(a, v.processed))
       else v.Out? && Replays(a, events, Finished)
  }

  lemma Start(a: WorkAssignment, chainCount: nat)
    ensures Between(a, chainCount, [About(STARTED, a, 0)], [], 0)
  {
    hide Replays, Says;
    FirstWord(a);
  }

  lemma SubmitBatch(a: WorkAssignment, chainCount: nat, events: seq<WorkerEvent>, batches: seq<Batch>, processed: nat,
      size: nat)
    requires Between(a, chainCount, events, batches, processed)
    requires processed + size <= a.count && WellSized(Batch(a.start + processed, size), chainCount)
    ensures var more := batches + [Batch(a.start + processed, size)];
      Submitted(a, chainCount, more) && |more| <= a.count && BatchEnd(more, a.start) == a.start + processed + size
      && |more| <= processed + size
      && ExhaustedIsWhole(a, events, more)
    ensures Submitted(a, chainCount, batches) && |batches| <= a.count && Over(a, events, true)
    ensures ExhaustedIsWhole(a, events, batches)
  {
    OneMoreBatch(batches, a.start, Batch(a.start + processed, size));
  }

  lemma LastWord(a: WorkAssignment, chainCount: nat, events: seq<WorkerEvent>, batches: seq<Batch>, processed: nat,
      e: WorkerEvent, more: seq<Batch>)
    requires Between(a, chainCount, events, batches, processed)
    requires After(a.gpu, Busy(a, processed), e).Out? && !e.kind.EXHAUSTED?
    requires Writes(a, Phase.Running(a, processed), e, Finished)
    ensures Over(a, events + [e], false)
    ensures ExhaustedIsWhole(a, events + [e], more)
  {
    hide Writes;
    SaysMore(a, events, Busy(a, processed), e);
    ReplaysMore(a, events, Phase.Running(a, processed), e, Finished);
  }

  lemma Progressed(a: WorkAssignment, chainCount: nat, events: seq<WorkerEvent>, batches: seq<Batch>, processed: nat,
      size: nat, e: WorkerEvent)
    requires Between(a, chainCount, events, batches, processed)
    requires processed + size <= a.count && WellSized(Batch(a.start + processed, size), chainCount)
    requires After(a.gpu, Busy(a, processed), e) == Busy(a, processed + size) && !e.kind.EXHAUSTED?
    requires Writes(a, Phase.Running(a, processed), e, Phase.Running(a, processed + size))
    ensures Between(a, chainCount, events + [e], batches + [Batch(a.start + processed, size)], processed + size)
  {
    hide Writes, Over;
    SubmitBatch(a, chainCount, events, batches, processed, size);
    SaysMore(a, events, Busy(a, processed), e);
    ReplaysMore(a, events, Phase.Running(a, processed), e, Phase.Running(a, processed + size));
  }

  /** The words that end an assignment, as acts. */
  lemma EndingWrites(a: WorkAssignment, processed: nat)
    ensures Writes(a, Phase.Running(a, processed), About(CANCELED, a, processed), Finished)
    ensures After(a.gpu, Busy(a, processed), About(CANCELED, a, processed)).Out?
    ensures processed == a.count ==> Writes(a, Phase.Running(a, processed), About(EXHAUSTED, a, processed), Finished)
    ensures Writes(a, Phase.Running(a, processed), About(FAILED, a, 0), Finished)
    ensures Writes(a, Phase.Running(a, processed), Plain(FAILED, a.gpu), Leaving)
  {
    assert [Cancel(a.job)][0] == Cancel(a.job);
  }

  lemma PartingWrites(a: WorkAssignment)
    ensures Writes(a, Leaving, Plain(STOPPED, a.gpu), Dead)
    ensures Writes(a, Finished, Plain(READY, a.gpu), Waiting)
  {
  }

  // ---- The course of an assignment, by the environments of its batches -------------------------

  /** Batch i had the size its rate asks for, answered "not found" and was reported; the rate then adapts. */
  ghost predicate Went(a: WorkAssignment, chainCount: nat, inputs: nat -> BatchInput, events: seq<WorkerEvent>,
      batches: seq<Batch>, rates: seq<int>, i: nat)
    requires i < |batches| && i + 1 < |events| && i + 1 < |rates|
  {
    var b, e := batches[i], events[i + 1];
    && SizedFor(b.count, rates[i], TargetSeconds(a), a.start + a.count - b.start, chainCount)
    && GoesOn(inputs(i), a, b.count)
    && e.kind.PROGRESS? && e.processed == b.start + b.count - a.start
    && e.rate == ObservedRate(b.count, inputs(i).elapsed) && rates[i + 1] == AdaptedRate(rates[i], e.rate)
  }

  /** The first `turns` batches went on. */
  ghost predicate Course(a: WorkAssignment, chainCount: nat, inputs: nat -> BatchInput, events: seq<WorkerEvent>,
      batches: seq<Batch>, rates: seq<int>, turns: nat)
  {
    && turns <= |batches| && turns < |events| && |rates| == turns + 1 && rates[0] == Max(1, a.rate)
    && forall i: nat | i < turns :: Went(a, chainCount, inputs, events, batches, rates, i)
  }

  /** The first batch that did not go on, if the shard is not used up: `last` is what it made the worker say. */
  ghost predicate EndsEarly(a: WorkAssignment, input: BatchInput, batch: Option<Batch>, processed: int,
      last: Option<WorkerEvent>, r: Outcome)
  {
    var says := kind => last.Some? && last.value.kind == kind;
    && (batch.Some? <==> QuietUntil(input, a, 0)) && (batch.Some? ==> !GoesOn(input, a, batch.value.count))
    && (says(FOUND) <==> batch.Some? && Wins(input, a, batch.value.count))
    && (forall b: bool :: StopsWith(input, a, b) <==> says(CANCELED) && r.shutdown == b)
    && (r.raised <==> last.None?) && (last.Some? ==> says(FOUND) || says(CANCELED)) && (r.shutdown ==> says(CANCELED))
    && (says(CANCELED) ==> last.value.processed == processed)
    && (says(FOUND) ==>
          && last.value.address == input.answer.address && last.value.offset == input.answer.offset
          && last.value.processed == processed + batch.value.count)
  }

  /**
   `turns` batches go on. If they are the whole shard, the worker says EXHAUSTED; else the next one ends the
   assignment: with its winner, with a cancellation, or with an error if it asks for neither.
   */
  ghost predicate Ends(a: WorkAssignment, chainCount: nat, inputs: nat -> BatchInput, events: seq<WorkerEvent>,
      batches: seq<Batch>, rates: seq<int>, turns: nat, r: Outcome)
  {
    && Course(a, chainCount, inputs, events, batches, rates, turns)
    && |events| == turns + (if r.raised then 1 else 2) && |batches| <= turns + 1
    && var done := BatchEnd(batches[..turns], a.start) - a.start;
       var last := if r.raised then None else Some(events[turns + 1]);
       if done == a.count then
         |batches| == turns && r == Outcome(false, false) && last.value.kind.EXHAUSTED?
       else
         && EndsEarly(a, inputs(turns), if turns < |batches| then Some(batches[turns]) else None, done, last, r)
         && (turns < |batches| ==>
               SizedFor(batches[turns].count, rates[turns], TargetSeconds(a), a.count - done, chainCount))
  }

  lemma CourseGoesOn(a: WorkAssignment, chainCount: nat, inputs: nat -> BatchInput, events: seq<WorkerEvent>,
      batches: seq<Batch>, rates: seq<int>, e: WorkerEvent, b: Batch, rate: int)
    requires Course(a, chainCount, inputs, events, batches, rates, |batches|) && |events| == |batches| + 1
    requires Went(a, chainCount, inputs, events + [e], batches + [b], rates + [rate], |batches|)
    ensures Course(a, chainCount, inputs, events + [e], batches + [b], rates + [rate], |batches| + 1)
  {
    hide SizedFor, GoesOn, ObservedRate, AdaptedRate, TargetSeconds;
    CourseStays(a, chainCount, inputs, events, batches, rates, [e], [b], [rate]);
  }

  lemma CourseStays(a: WorkAssignment, chainCount: nat, inputs: nat -> BatchInput, events: seq<WorkerEvent>,
      batches: seq<Batch>, rates: seq<int>, es: seq<WorkerEvent>, bs: seq<Batch>, rs: seq<int>)
    requires Course(a, chainCount, inputs, events, batches, rates, |batches|) && |events| == |batches| + 1
    ensures forall i: nat | i < |batches| :: Went(a, chainCount, inputs, events + es, batches + bs, rates + rs, i)
    ensures Course(a, chainCount, inputs, events + es, batches + bs, rates, |batches|)
  {
    hide SizedFor, GoesOn, ObservedRate, AdaptedRate, TargetSeconds;
    assert rates + [] == rates;
    forall i: nat | i < |batches|
      ensures Went(a, chainCount, inputs, events + es, batches + bs, rates + rs, i)
      ensures Went(a, chainCount, inputs, events + es, batches + bs, rates, i)
    {
      assert Went(a, chainCount, inputs, events, batches, rates, i);
    }
  }

  /** A turn that does not go on ends the assignment as its environment asks. */
  lemma TurnEnds(a: WorkAssignment, chainCount: nat, inputs: nat -> BatchInput, events: seq<WorkerEvent>,
      batches: seq<Batch>, rates: seq<int>, size: nat, turn: Turn, last: seq<WorkerEvent>, more: seq<Batch>, r: Outcome)
    requires Course(a, chainCount, inputs, events, batches, rates, |batches|) && |events| == |batches| + 1
    requires a.start <= BatchEnd(batches, a.start) < a.start + a.count
    requires var done := BatchEnd(batches, a.start) - a.start;
      && TurnFits(a, inputs(|batches|), size, done, turn)
      && SizedFor(size, rates[|batches|], TargetSeconds(a), a.count - done, chainCount)
      && LastWords(a, done, turn, last, r)
    requires more ==
      if turn.Answered? || turn.submitted then batches + [Batch(BatchEnd(batches, a.start), size)] else batches
    ensures Ends(a, chainCount, inputs, events + last, more, rates, |batches|, r)
  {
    hide Course, SizedFor, GoesOn, Wins, StopsWith, QuietUntil, ObservedRate, TargetSeconds;
    CourseStays(a, chainCount, inputs, events, batches, rates, last, more[|batches|..], []);
    assert batches + more[|batches|..] == more;
    assert more[..|batches|] == batches;
    WinsIsSubmitted(inputs(|batches|), a, size);
  }

  lemma WinsIsSubmitted(input: BatchInput, a: WorkAssignment, size: nat)
    ensures Wins(input, a, size) || GoesOn(input, a, size) ==> QuietUntil(input, a, 0)
    ensures !(Wins(input, a, size) && GoesOn(input, a, size))
  {
  }

  lemma TurnWent(a: WorkAssignment, chainCount: nat, inputs: nat -> BatchInput, events: seq<WorkerEvent>,
      batches: seq<Batch>, rates: seq<int>, size: nat, processed: nat, turn: Turn, newRate: int)
    requires Course(a, chainCount, inputs, events, batches, rates, |batches|) && |events| == |batches| + 1
    requires TurnFits(a, inputs(|batches|), size, processed, turn) && turn.Answered? && !turn.found
    requires SizedFor(size, rates[|batches|], TargetSeconds(a), a.count - processed, chainCount)
    requires newRate == AdaptedRate(rates[|batches|], turn.e.rate)
    ensures Course(a, chainCount, inputs, events + [turn.e], batches + [Batch(a.start + processed, size)],
                   rates + [newRate], |batches| + 1)
  {
    hide Course, SizedFor, GoesOn, Wins, StopsWith, QuietUntil, ObservedRate, AdaptedRate, TargetSeconds;
    CourseLengths(a, chainCount, inputs, events, batches, rates);
    CourseGoesOn(a, chainCount, inputs, events, batches, rates, turn.e, Batch(a.start + processed, size), newRate);
  }

  lemma CourseLengths(a: WorkAssignment, chainCount: nat, inputs: nat -> BatchInput, events: seq<WorkerEvent>,
      batches: seq<Batch>, rates: seq<int>)
    requires Course(a, chainCount, inputs, events, batches, rates, |batches|)
    ensures |rates| == |batches| + 1
  {
  }

  lemma WholeEnds(a: WorkAssignment, chainCount: nat, inputs: nat -> BatchInput, events: seq<WorkerEvent>,
      batches: seq<Batch>, rates: seq<int>)
    requires Course(a, chainCount, inputs, events, batches, rates, |batches|) && |events| == |batches| + 1
    requires BatchEnd(batches, a.start) == a.start + a.count
    ensures Ends(a, chainCount, inputs, events + [About(EXHAUSTED, a, a.count)], batches, rates, |batches|,
                 Outcome(false, false))
  {
    CourseStays(a, chainCount, inputs, events, batches, rates, [About(EXHAUSTED, a, a.count)], [], []);
    hide Course, EndsEarly;
    assert batches + [] == batches && batches[..|batches|] == batches;
  }

  /** Between two turns: everything so far is in order and went on. */
  ghost predicate Working(a: WorkAssignment, chainCount: nat, inputs: nat -> BatchInput, events: seq<WorkerEvent>,
      batches: seq<Batch>, processed: nat, rates: seq<int>)
  {
    && Between(a, chainCount, events, batches, processed) && |events| == |batches| + 1
    && Course(a, chainCount, inputs, events, batches, rates, |batches|)
  }

  ghost predicate Worked(a: WorkAssignment, chainCount: nat, inputs: nat -> BatchInput, events: seq<WorkerEvent>,
      batches: seq<Batch>, rates: seq<int>, turns: nat, r: Outcome)
  {
    && Submitted(a, chainCount, batches) && |batches| <= a.count
    && Over(a, events, r.raised) && ExhaustedIsWhole(a, events, batches)
    && Ends(a, chainCount, inputs, events, batches, rates, turns, r)
  }

  lemma WorkStarts(a: WorkAssignment, chainCount: nat, inputs: nat -> BatchInput)
    ensures Working(a, chainCount, inputs, [About(STARTED, a, 0)], [], 0, [Max(1, a.rate)])
  {
    hide Between, Went;
    Start(a, chainCount);
  }

  lemma WorkGoesOn(a: WorkAssignment, chainCount: nat, inputs: nat -> BatchInput, events: seq<WorkerEvent>,
      batches: seq<Batch>, processed: nat, rates: seq<int>, size: nat, turn: Turn, newRate: int)
    requires Working(a, chainCount, inputs, events, batches, processed, rates) && |rates| == |batches| + 1
    requires TurnOk(a, chainCount, inputs(|batches|), rates[|batches|], processed, turn, size, newRate)
    requires turn.Answered? && !turn.found
    ensures Working(a, chainCount, inputs, events + [turn.e], batches + [Batch(a.start + processed, size)],
                    processed + size, rates + [newRate])
  {
    assert !turn.e.kind.EXHAUSTED?;
    hide Course, Between, TurnFits, SizedFor, AdaptedRate, TargetSeconds, Writes, After, WellSized;
    Progressed(a, chainCount, events, batches, processed, size, turn.e);
    TurnWent(a, chainCount, inputs, events, batches, rates, size, processed, turn, newRate);
  }

  /** What the worker says last about a turn that does not go on, and what it returns. */
  predicate LastWords(a: WorkAssignment, processed: nat, turn: Turn, last: seq<WorkerEvent>, r: Outcome) {
    match turn
    case Errored(_) => last == [] && r == Outcome(false, true)
    case Interrupted(_, shutdown) => last == [About(CANCELED, a, processed)] && r == Outcome(shutdown, false)
    case Answered(found, e) => found && last == [e] && r == Outcome(false, false)
  }

  lemma WorkStops(a: WorkAssignment, chainCount: nat, inputs: nat -> BatchInput, events: seq<WorkerEvent>,
      batches: seq<Batch>, processed: nat, rates: seq<int>, size: nat, turn: Turn, newRate: int,
      last: seq<WorkerEvent>, more: seq<Batch>, r: Outcome)
    requires Working(a, chainCount, inputs, events, batches, processed, rates) && |rates| == |batches| + 1
    requires processed < a.count
    requires TurnOk(a, chainCount, inputs(|batches|), rates[|batches|], processed, turn, size, newRate)
    requires LastWords(a, processed, turn, last, r)
    requires more ==
      if turn.Answered? || turn.submitted then batches + [Batch(a.start + processed, size)] else batches
    ensures Worked(a, chainCount, inputs, events + last, more, rates, |batches|, r)
  {
    EndsAt(a, chainCount, events, batches, processed);
    TurnEnds(a, chainCount, inputs, events, batches, rates, size, turn, last, more, r);
    assert turn.Answered? ==> !turn.e.kind.EXHAUSTED?;
    hide Course, Ends, TurnFits, SizedFor, AdaptedRate, TargetSeconds, Writes, After, WellSized, Between, Over;
    hide Submitted, BatchEnd;
    SubmitBatch(a, chainCount, events, batches, processed, size);
    EndingWrites(a, processed);
    if last == [] {
      assert events + [] == events;
    } else {
      LastWord(a, chainCount, events, batches, processed, last[0], more);
      assert last == [last[0]];
    }
  }

  lemma EndsAt(a: WorkAssignment, chainCount: nat, events: seq<WorkerEvent>, batches: seq<Batch>, processed: nat)
    requires Between(a, chainCount, events, batches, processed)
    ensures BatchEnd(batches, a.start) == a.start + processed && Submitted(a, chainCount, batches)
  {
  }

  lemma WorkIsWhole(a: WorkAssignment, chainCount: nat, inputs: nat -> BatchInput, events: seq<WorkerEvent>,
      batches: seq<Batch>, rates: seq<int>)
    requires Working(a, chainCount, inputs, events, batches, a.count, rates)
    ensures Worked(a, chainCount, inputs, events + [About(EXHAUSTED, a, a.count)], batches, rates, |batches|,
                   Outcome(false, false))
  {
    hide Course, Ends, Over, ExhaustedIsWhole;
    EndsAt(a, chainCount, events, batches, a.count);
    WholeShard(a, chainCount, events, batches);
    WholeEnds(a, chainCount, inputs, events, batches, rates);
  }

  lemma WorkingRates(a: WorkAssignment, chainCount: nat, inputs: nat -> BatchInput, events: seq<WorkerEvent>,
      batches: seq<Batch>, processed: nat, rates: seq<int>)
    requires Working(a, chainCount, inputs, events, batches, processed, rates)
    ensures |rates| == |batches| + 1
  {
  }

  /**
   `execute_cuda_assignment`. `inputs(k)` is the environment of the k-th batch, and it alone decides how the
   assignment ends. The events written are the ones the scheduler expects of a worker busy with `a`; a raised
   error leaves the assignment open.
   */
  method ExecuteCudaAssignment(a: WorkAssignment, chainCount: nat, inputs: nat -> BatchInput)
    returns (events: seq<WorkerEvent>, batches: seq<Batch>, r: Outcome, ghost rates: seq<int>, ghost turns: nat)
    ensures Submitted(a, chainCount, batches) && |batches| <= a.count
    ensures Over(a, events, r.raised)
    ensures ExhaustedIsWhole(a, events, batches)
    ensures Ends(a, chainCount, inputs, events, batches, rates, turns, r)
  {
    hide Working, TurnOk, Over, Submitted, ExhaustedIsWhole, Ends, About;
    events := [About(STARTED, a, 0)];
    batches := [];
    var processed: nat := 0;
    var rate := Max(1, a.rate);
    rates, turns := [rate], 0;
    WorkStarts(a, chainCount, inputs);
    while processed < a.count
      invariant processed <= a.count && turns == |batches| && |rates| == turns + 1 && rates[turns] == rate
      invariant Working(a, chainCount, inputs, events, batches, processed, rates)
      decreases a.count - processed
    {
      var turn, size, newRate := RunBatch(a, chainCount, inputs(|batches|), rate, processed);
      var more := if turn.Answered? || turn.submitted then batches + [Batch(a.start + processed, size)] else batches;
      var last: seq<WorkerEvent> := [];
      r := Outcome(false, false);
      match turn {
        case Errored(_) => r := Outcome(false, true);
        case Interrupted(_, shutdown) => last, r := [About(CANCELED, a, processed)], Outcome(shutdown, false);
        case Answered(true, e) => last := [e];
        case Answered(false, e) =>
          WorkGoesOn(a, chainCount, inputs, events, batches, processed, rates, size, turn, newRate);
          events, batches, processed, rate := events + [e], more, processed + size, newRate;
          rates, turns := rates + [newRate], turns + 1;
          continue;
      }
      WorkStops(a, chainCount, inputs, events, batches, processed, rates, size, turn, newRate, last, more, r);
      return events + last, more, r, rates, turns;
    }
    WorkIsWhole(a, chainCount, inputs, events, batches, rates);
    events := events + [About(EXHAUSTED, a, processed)];
    r := Outcome(false, false);
  }

  lemma WholeShard(a: WorkAssignment, chainCount: nat, events: seq<WorkerEvent>, batches: seq<Batch>)
    requires Between(a, chainCount, events, batches, a.count)
    ensures var all := events + [About(EXHAUSTED, a, a.count)];
      Over(a, all, false) && ExhaustedIsWhole(a, all, batches) && Submitted(a, chainCount, batches)
        && |batches| <= a.count
  {
    EndingWrites(a, a.count);
    hide Writes;
    SaysMore(a, events, Busy(a, a.count), About(EXHAUSTED, a, a.count));
    ReplaysMore(a, events, Phase.Running(a, a.count), About(EXHAUSTED, a, a.count), Finished);
  }

  lemma OneMoreBatch(batches: seq<Batch>, start: nat, b: Batch)
    requires Consecutive(batches, start) && b.start == BatchEnd(batches, start)
    ensures Consecutive(batches + [b], start) && BatchEnd(batches + [b], start) == b.start + b.count
  {
    var more := batches + [b];
    forall i | 0 <= i < |more| ensures more[i].start == BatchEnd(more[..i], start) {
      if i < |batches| { assert more[..i] == batches[..i]; } else { assert more[..i] == batches; }
    }
  }

  /** Simulated batch i: nothing was found before it, and as much as fits was done. */
  ghost predicate Simulated(a: WorkAssignment, queues: nat -> seq<Control>, events: seq<WorkerEvent>, i: nat)
    requires i + 1 < |events|
  {
    && Quiet(queues(i), a) && events[i + 1].kind.PROGRESS?
    && events[i + 1].processed == events[i].processed + Min(a.batch, a.count - events[i].processed)
  }

  /** `turns` batches are done; then the shard is used up, or the first look that finds something decides. */
  ghost predicate SimulationEnds(a: WorkAssignment, queues: nat -> seq<Control>, events: seq<WorkerEvent>, turns: nat,
      r: Outcome)
  {
    && |events| == turns + (if r.raised then 1 else 2) && events[0].processed == 0
    && (forall i: nat | i < turns :: Simulated(a, queues, events, i))
    && var done := events[turns].processed;
       if done == a.count then r == Outcome(false, false) && events[turns + 1].kind.EXHAUSTED?
       else
         && !Quiet(queues(turns), a) && (r.raised <==> BringsWork(queues(turns)))
         && (r.shutdown <==> !r.raised && AsksShutdown(queues(turns)))
         && (!r.raised ==> events[turns + 1].kind.CANCELED? && events[turns + 1].processed == done)
  }

  lemma SimulatedStays(a: WorkAssignment, queues: nat -> seq<Control>, events: seq<WorkerEvent>, turns: nat,
      e: WorkerEvent)
    requires |events| == turns + 1 && forall i: nat | i < turns :: Simulated(a, queues, events, i)
    ensures forall i: nat | i < turns :: Simulated(a, queues, events + [e], i)
  {
    hide Quiet;
    forall i: nat | i < turns ensures Simulated(a, queues, events + [e], i) {
      assert Simulated(a, queues, events, i);
    }
  }

  /** The simulated worker: fixed batches, commands looked at before each. */
  method ExecuteSimulatedAssignment(a: WorkAssignment, queues: nat -> seq<Control>)
    returns (events: seq<WorkerEvent>, r: Outcome, ghost turns: nat)
    requires a.batch >= 1
    ensures Over(a, events, r.raised)
    ensures forall i | 0 <= i < |events| && events[i].kind.EXHAUSTED? :: events[i].processed == a.count
    ensures SimulationEnds(a, queues, events, turns, r)
  {
    hide Writes, Replays, Fold, After, Submitted, BringsWork, AsksCancel, AsksShutdown;
    events := [About(STARTED, a, 0)];
    var processed: nat := 0;
    turns := 0;
    var k := 0;
    FirstWord(a);
    while processed < a.count
      invariant processed <= a.count && turns == k && |events| == turns + 1
      invariant events[0].processed == 0 && events[turns].processed == processed
      invariant Says(a, events, Busy(a, processed)) && Replays(a, events, Phase.Running(a, processed))
      invariant forall i | 0 <= i < |events| :: !events[i].kind.EXHAUSTED?
      invariant forall i: nat | i < turns :: Simulated(a, queues, events, i)
      decreases a.count - processed
    {
      var canceled, shutdown, overlapping := DrainControlCommands(queues(k), a);
      if overlapping { return events, Outcome(false, true), turns; }
      if canceled || shutdown {
        EndWith(a, events, processed, About(CANCELED, a, processed));
        SimulatedStays(a, queues, events, turns, About(CANCELED, a, processed));
        return events + [About(CANCELED, a, processed)], Outcome(shutdown, false), turns;
      }
      var total := processed + Min(a.batch, a.count - processed);
      ProgressWith(a, events, processed, total);
      SimulatedStays(a, queues, events, turns, About(PROGRESS, a, total));
      events := events + [About(PROGRESS, a, total)];
      processed := total;
      k, turns := k + 1, turns + 1;
    }
    EndWith(a, events, processed, About(EXHAUSTED, a, processed));
    SimulatedStays(a, queues, events, turns, About(EXHAUSTED, a, processed));
    events := events + [About(EXHAUSTED, a, processed)];
    r := Outcome(false, false);
  }

  lemma FirstWord(a: WorkAssignment)
    ensures Says(a, [About(STARTED, a, 0)], Busy(a, 0)) && Replays(a, [About(STARTED, a, 0)], Phase.Running(a, 0))
  {
    assert [About(STARTED, a, 0)][1..] == [];
    assert [Work(a)][1..] == [];
  }

  lemma EndWith(a: WorkAssignment, events: seq<WorkerEvent>, processed: nat, e: WorkerEvent)
    requires Says(a, events, Busy(a, processed)) && Replays(a, events, Phase.Running(a, processed))
      && processed <= a.count
    requires e == About(CANCELED, a, processed) || (e == About(EXHAUSTED, a, processed) && processed == a.count)
    ensures Over(a, events + [e], false)
  {
    EndingWrites(a, processed);
    hide Writes, Replays;
    SaysMore(a, events, Busy(a, processed), e);
    ReplaysMore(a, events, Phase.Running(a, processed), e, Finished);
  }

  lemma ProgressWith(a: WorkAssignment, events: seq<WorkerEvent>, processed: nat, total: nat)
    requires Says(a, events, Busy(a, processed)) && Replays(a, events, Phase.Running(a, processed))
    requires processed < total <= a.count
    ensures Says(a, events + [About(PROGRESS, a, total)], Busy(a, total))
    ensures Replays(a, events + [About(PROGRESS, a, total)], Phase.Running(a, total))
  {
    hide Replays;
    SaysMore(a, events, Busy(a, processed), About(PROGRESS, a, total));
    ReplaysMore(a, events, Phase.Running(a, processed), About(PROGRESS, a, total), Phase.Running(a, total));
  }

  /** How one turn of the main loop ends: ready for more, told to stop, or by an escaping exception. */
  datatype TurnEnd = Again | ToldToStop | Escaped

  /**
   What the main loop still says after an assignment: FAILED if it raised, naming the shard unless the
   session cannot be stopped, then READY or STOPPED; STOPPED is lost if the session cannot be stopped then.
   */
  function Parting(a: WorkAssignment, r: Outcome, stopFails: bool, finalStopFails: bool): seq<WorkerEvent> {
    (if !r.raised then [] else if stopFails then [Plain(FAILED, a.gpu)] else [About(FAILED, a, 0)])
    + if !r.shutdown && !(r.raised && stopFails) then [Plain(READY, a.gpu)]
      else if finalStopFails then []
      else [Plain(STOPPED, a.gpu)]
  }

  /**
   One turn of the main loop. If the assignment raises, the session is stopped and FAILED names the
   shard; if stopping raises as well (`stopFails`), the outer handler says FAILED about no shard and the
   process leaves. The scheduler sees the GPU idle again, or gone.
   */
  method ServeAssignment(a: WorkAssignment, chainCount: nat, inputs: nat -> BatchInput, stopFails: bool,
      finalStopFails: bool)
    returns (events: seq<WorkerEvent>, batches: seq<Batch>, end: TurnEnd,
             ghost work: seq<WorkerEvent>, ghost r: Outcome, ghost rates: seq<int>, ghost turns: nat)
    ensures Ends(a, chainCount, inputs, work, batches, rates, turns, r)
    ensures events == work + Parting(a, r, stopFails, finalStopFails)
    ensures (end.ToldToStop? <==> r.shutdown) && (end.Escaped? <==> r.raised && stopFails)
    ensures Says(a, events, if end.Again? then Idle else Out)
    ensures Submitted(a, chainCount, batches)
    ensures end.Again? ==> Replays(a, events, Waiting)
    ensures end.Escaped? ==> Replays(a, events, if finalStopFails then Leaving else Dead)
  {
    hide Replays, Writes, Fold, Ends;
    var result;
    events, batches, result, rates, turns := ExecuteCudaAssignment(a, chainCount, inputs);
    work, r := events, result;
    RaisedIsNoShutdown(a, chainCount, inputs, work, batches, rates, turns, r);
    ghost var v := Fold(a.gpu, Busy(a, 0), events);
    end := if result.shutdown then ToldToStop else Again;
    ghost var phase := Finished;
    if result.raised {
      EndingWrites(a, v.processed);
      if stopFails {
        SaysMore(a, events, v, Plain(FAILED, a.gpu));
        ReplaysMore(a, events, Phase.Running(a, v.processed), Plain(FAILED, a.gpu), Leaving);
        events := events + [Plain(FAILED, a.gpu)];
        end, phase := Escaped, Leaving;
      } else {
        SaysMore(a, events, v, About(FAILED, a, 0));
        ReplaysMore(a, events, Phase.Running(a, v.processed), About(FAILED, a, 0), Finished);
        events := events + [About(FAILED, a, 0)];
        end := Again;
      }
    }
    assert Says(a, events, Out) && Replays(a, events, phase);
    PartingWrites(a);
    if end.Again? {
      SaysMore(a, events, Out, Plain(READY, a.gpu));
      ReplaysMore(a, events, Finished, Plain(READY, a.gpu), Waiting);
      events := events + [Plain(READY, a.gpu)];
    } else if !finalStopFails {
      SaysMore(a, events, Out, Plain(STOPPED, a.gpu));
      if end.Escaped? { ReplaysMore(a, events, Leaving, Plain(STOPPED, a.gpu), Dead); }
      events := events + [Plain(STOPPED, a.gpu)];
    }
  }

  lemma RaisedIsNoShutdown(a: WorkAssignment, chainCount: nat, inputs: nat -> BatchInput, events: seq<WorkerEvent>,
      batches: seq<Batch>, rates: seq<int>, turns: nat, r: Outcome)
    requires Ends(a, chainCount, inputs, events, batches, rates, turns, r)
    ensures r.raised ==> !r.shutdown
  {
    hide Course;
  }

  // ---- Disjoint batches ----------------------------------------------------------------------

  lemma {:induction false} BatchesAreDisjoint(batches: seq<Batch>, start: nat, i: nat, k: nat)
    requires Consecutive(batches, start) && i < k < |batches|
    ensures batches[i].start + batches[i].count <= batches[k].start
    decreases k - i
  {
    assert batches[..k][k - 1] == batches[k - 1];
    assert batches[k].start == BatchEnd(batches[..k], start);
    if i < k - 1 { BatchesAreDisjoint(batches, start, i, k - 1); }
  }

  lemma {:induction false} BatchesCover(batches: seq<Batch>, start: nat, x: nat) returns (i: nat)
    requires Consecutive(batches, start) && start <= x < BatchEnd(batches, start)
    ensures i < |batches| && batches[i].start <= x < batches[i].start + batches[i].count
  {
    var last := |batches| - 1;
    if batches[last].start <= x {
      i := last;
    } else {
      assert batches[last].start == BatchEnd(batches[..last], start);
      forall k | 0 <= k < last ensures batches[..last][k].start == BatchEnd(batches[..last][..k], start) {
        assert batches[..last][..k] == batches[..k];
      }
      i := BatchesCover(batches[..last], start, x);
    }
  }
}
