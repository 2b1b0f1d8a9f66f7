/**
 Wallet funding: the persisted transfer rows, the processor that drives them and its surroundings
 (backend/app/funding/processor.py, repository.py, gateway.py, api/routes/funding.py).

 A run is a sequence of acts. Between any two acts the process may die; every node answer, clock
 reading and commit outcome is chosen by the act.
 */
module Funding {
  import opened Common

  datatype Status = Requested | Preparing | Signed | Broadcast | Confirmed | Failed | Unknown
  {
    predicate Terminal() { Confirmed? || Failed? }
    predicate Processable() { Requested? || Signed? || Broadcast? || Unknown? }
  }

  type TxId = string
  type FundingId = nat

  /** A signed transaction as stored: the identifier it claims and everything else. */
  datatype Payload = Payload(txid: TxId, body: string)

  /** An encrypted payload; decrypting gives back what was encrypted. */
  datatype Sealed = Sealed(content: Payload)

  datatype Row = Row(
    user: nat, job: nat, key: string, destination: string, amount: nat, createdAt: nat,
    status: Status, txid: Option<TxId>, sealed: Option<Sealed>, expiresAt: Option<nat>,
    broadcastAt: Option<nat>)

  // ---- What the node may answer --------------------------------------------------------------

  datatype PrepareAnswer =
    Prepared(txid: TxId, payload: Payload, expiresAt: nat) | PrepareUnreachable | PrepareRejected | PrepareError

  datatype BroadcastAnswer = Taken | BroadcastUnreachable | BroadcastRejected | BroadcastError

  datatype Receipt = Success | Reverted | Unmatched | NotFound

  datatype ReceiptAnswer = Answer(receipt: Receipt) | ReceiptUnreachable | ReceiptError

  /** A commit may also fail after the database already took it. */
  datatype CommitOutcome = Committed | RolledBack | CommittedButRaised

  // ---- Repository writers --------------------------------------------------------------------

  datatype Write =
    | MarkPrepared(txid: TxId, sealed: Sealed, expiresAt: nat)
    | RetryPreparation
    | MarkBroadcast
    | MarkUnknown
    | MarkChecked(timeout: nat)
    | MarkConfirmed
    | MarkFailed

  function RecoverRow(r: Row): Row { if r.status.Preparing? then r.(status := Requested) else r }

  function WriteRow(r: Row, w: Write, now: nat): Row {
    match w
    case MarkPrepared(txid, sealed, expiresAt) =>
      if !r.status.Preparing? then r
      else r.(txid := Some(txid), sealed := Some(sealed), expiresAt := Some(expiresAt), status := Signed)
    case RetryPreparation => if !r.status.Preparing? then r else r.(status := Requested)
    case MarkBroadcast =>
      if !r.status.Signed? && !r.status.Unknown? then r
      else r.(status := Broadcast, broadcastAt := if r.broadcastAt.Some? then r.broadcastAt else Some(now))
    case MarkUnknown => if r.status.Terminal() then r else r.(status := Unknown)
    case MarkChecked(timeout) =>
      if r.status.Broadcast? && r.broadcastAt.Some? && now > r.broadcastAt.value + timeout
      then r.(status := Unknown) else r
    case MarkConfirmed => r.(status := Confirmed, sealed := None)
    case MarkFailed => if r.status.Confirmed? then r else r.(status := Failed, sealed := None)
  }

  /** The unique constraint on transaction ids. */
  predicate TxidTaken(rows: seq<Row>, id: FundingId, w: Write) {
    w.MarkPrepared? && exists i | 0 <= i < |rows| && i != id :: rows[i].txid == Some(w.txid)
  }

  /** `claim_next` serves broadcast rows first, then unknown, then signed, then new ones. */
  function Priority(status: Status): nat {
    match status
    case Broadcast => 0
    case Unknown => 1
    case Signed => 2
    case _ => 3
  }

  predicate IsNext(rows: seq<Row>, id: FundingId) {
    && id < |rows| && rows[id].status.Processable()
    && forall i | 0 <= i < |rows| && rows[i].status.Processable() ::
         Priority(rows[id].status) <= Priority(rows[i].status)
  }

  function ClaimRow(r: Row): Row { if r.status.Requested? then r.(status := Preparing) else r }

  // ---- Creating a request --------------------------------------------------------------------

  const SECONDS_PER_DAY: nat := 86_400

  function Day(t: nat): nat { t / SECONDS_PER_DAY }

  function DayStart(t: nat): nat { Day(t) * SECONDS_PER_DAY }

  /** What the daily limit counts: everything of the user since `from` that has not failed. */
  function Reserved(rows: seq<Row>, user: nat, from: nat): nat {
    if rows == [] then 0 else
      var last := rows[|rows| - 1];
      Reserved(rows[..|rows| - 1], user, from)
        + if last.user == user && last.createdAt >= from && !last.status.Failed? then last.amount else 0
  }

  datatype Request = Request(user: nat, job: nat, key: string, destination: string, amount: nat)

  datatype CreateOutcome =
    Created(id: FundingId) | Existing(id: FundingId) | AmountConflict | LimitExceeded | KeyConflict | NotFundable

  function FindJob(rows: seq<Row>, job: nat): (r: Option<FundingId>)
    ensures r.Some? ==> r.value < |rows| && rows[r.value].job == job
    ensures r.None? ==> forall i | 0 <= i < |rows| :: rows[i].job != job
  {
    if rows == [] then None else
      var last := |rows| - 1;
      var earlier := FindJob(rows[..last], job);
      if earlier.Some? then earlier else if rows[last].job == job then Some(last) else None
  }

  predicate KeyTaken(rows: seq<Row>, user: nat, key: string) {
    exists i | 0 <= i < |rows| :: rows[i].user == user && rows[i].key == key
  }

  /**
   `create_funding`: `now` is read for the daily limit, `insertedAt` when the row is written. Both
   happen while the user's row is locked.
   */
  function Create(rows: seq<Row>, limit: nat, q: Request, fundable: bool, now: nat, insertedAt: nat)
    : (seq<Row>, CreateOutcome)
  {
    if !fundable then (rows, NotFundable)
    else
      var existing := FindJob(rows, q.job);
      if existing.Some? then
        (rows, if rows[existing.value].amount != q.amount then AmountConflict else Existing(existing.value))
      else if Reserved(rows, q.user, DayStart(now)) + q.amount > limit then (rows, LimitExceeded)
      else if KeyTaken(rows, q.user, q.key) then (rows, KeyConflict)
      else
        (rows + [Row(q.user, q.job, q.key, q.destination, q.amount, insertedAt, Requested, None, None, None, None)],
         Created(|rows|))
  }

  // ---- The processor -------------------------------------------------------------------------

  /** Where the processor is; `Committing` also remembers whether it is the error handler's write. */
  datatype Pc =
    | Down
    | Ready
    | Claimed(id: FundingId, row: Row)
    | Resending(id: FundingId, row: Row)
    | Committing(id: FundingId, w: Write, handler: bool)

  datatype Sent = Sent(id: FundingId, payload: Payload)
  datatype Seen = Seen(id: FundingId, txid: TxId, receipt: Receipt)

  /** `sent` and `seen` record every payload handed to the node and every receipt it gave. */
  datatype World = World(rows: seq<Row>, pc: Pc, sent: seq<Sent>, seen: seq<Seen>, clock: nat, limit: nat)

  datatype Act =
    | Start
    | ClaimNext(id: FundingId)
    | PrepareTransfer(prepare: PrepareAnswer)
    | SendSigned(readable: bool, broadcast: BroadcastAnswer)
    | AskReceipt(receipt: ReceiptAnswer, timeout: nat)
    | Resend(readable: bool, broadcast: BroadcastAnswer)
    | Commit(outcome: CommitOutcome)
    | Crash
    | Tick(now: nat)
    | Post(q: Request, fundable: bool, insertedAt: nat)

  predicate Enabled(s: World, act: Act) {
    match act
    case Start => s.pc.Down?
    case ClaimNext(id) => s.pc.Ready? && IsNext(s.rows, id)
    case PrepareTransfer(_) => s.pc.Claimed? && s.pc.row.status.Preparing?
    case SendSigned(_, _) => s.pc.Claimed? && s.pc.row.status.Signed?
    case AskReceipt(_, _) => s.pc.Claimed? && (s.pc.row.status.Broadcast? || s.pc.row.status.Unknown?)
    case Resend(_, _) => s.pc.Resending?
    case Commit(_) => s.pc.Committing? && s.pc.id < |s.rows|
    case Crash => true
    case Tick(now) => s.clock <= now
    case Post(_, _, insertedAt) => s.clock <= insertedAt
  }

  function At(s: World, pc: Pc): World { World(s.rows, pc, s.sent, s.seen, s.clock, s.limit) }

  function Writing(s: World, id: FundingId, w: Write): World { At(s, Committing(id, w, false)) }

  /** Any other exception ends in the handler of `run`, which marks the row unknown. */
  function Handling(s: World, id: FundingId): World { At(s, Committing(id, MarkUnknown, true)) }

  function Apply(s: World, act: Act): World
    requires Enabled(s, act)
  {
    match act
    case Start =>
      var rows := seq(|s.rows|, i requires 0 <= i < |s.rows| => RecoverRow(s.rows[i]));
      World(rows, Ready, s.sent, s.seen, s.clock, s.limit)
    case ClaimNext(id) =>
      var row := ClaimRow(s.rows[id]);
      World(s.rows[id := row], Claimed(id, row), s.sent, s.seen, s.clock, s.limit)
    case PrepareTransfer(answer) => AfterPrepare(s, s.pc.id, answer)
    case SendSigned(readable, answer) => AfterBroadcast(s, s.pc.id, s.pc.row, readable, answer)
    case AskReceipt(answer, timeout) => AfterReceipt(s, s.pc.id, s.pc.row, answer, timeout)
    case Resend(readable, answer) => AfterBroadcast(s, s.pc.id, s.pc.row, readable, answer)
    case Commit(outcome) => AfterCommit(s, s.pc.id, s.pc.w, s.pc.handler, outcome)
    case Crash => At(s, Down)
    case Tick(now) => World(s.rows, s.pc, s.sent, s.seen, now, s.limit)
    case Post(q, fundable, insertedAt) =>
      World(Create(s.rows, s.limit, q, fundable, s.clock, insertedAt).0, s.pc, s.sent, s.seen, insertedAt, s.limit)
  }

  function AfterPrepare(s: World, id: FundingId, answer: PrepareAnswer): World {
    match answer
    case Prepared(txid, payload, expiresAt) => Writing(s, id, MarkPrepared(txid, Sealed(payload), expiresAt))
    case PrepareUnreachable => Writing(s, id, RetryPreparation)
    case PrepareRejected => Writing(s, id, MarkFailed)
    case PrepareError => Handling(s, id)
  }

  /** `_broadcast`; the gateway refuses a payload whose identifier is not the stored one. */
  function AfterBroadcast(s: World, id: FundingId, row: Row, readable: bool, answer: BroadcastAnswer): World {
    if row.txid.None? || row.sealed.None? then Writing(s, id, MarkFailed)
    else if !readable then Handling(s, id)
    else
      var refused := Writing(s, id, if row.status.Unknown? then MarkUnknown else MarkFailed);
      var payload := row.sealed.value.content;
      if payload.txid != row.txid.value then refused
      else
        var sent := s.sent + [Sent(id, payload)];
        match answer
        case Taken => World(s.rows, Committing(id, MarkBroadcast, false), sent, s.seen, s.clock, s.limit)
        case BroadcastUnreachable => World(s.rows, Committing(id, MarkUnknown, false), sent, s.seen, s.clock, s.limit)
        case BroadcastRejected => World(s.rows, refused.pc, sent, s.seen, s.clock, s.limit)
        case BroadcastError => World(s.rows, Committing(id, MarkUnknown, true), sent, s.seen, s.clock, s.limit)
  }

  /** `_confirm`. */
  function AfterReceipt(s: World, id: FundingId, row: Row, answer: ReceiptAnswer, timeout: nat): World {
    if row.txid.None? then Writing(s, id, MarkFailed)
    else
      match answer
      case ReceiptUnreachable => Writing(s, id, MarkUnknown)
      case ReceiptError => Handling(s, id)
      case Answer(receipt) =>
        var s := World(s.rows, s.pc, s.sent, s.seen + [Seen(id, row.txid.value, receipt)], s.clock, s.limit);
        match receipt
        case Success => Writing(s, id, MarkConfirmed)
        case Unmatched => Writing(s, id, MarkUnknown)
        case Reverted => Writing(s, id, MarkFailed)
        case NotFound =>
          if row.status.Unknown? && row.expiresAt.Some? && row.expiresAt.value > s.clock && row.sealed.Some?
          then At(s, Resending(id, row))
          else Writing(s, id, MarkChecked(timeout))
  }

  /** One writer call. A raised commit goes to the error handler; a raised handler ends the process. */
  function AfterCommit(s: World, id: FundingId, w: Write, handler: bool, outcome: CommitOutcome): World
    requires id < |s.rows|
  {
    var raised := if handler then Down else Committing(id, MarkUnknown, true);
    if outcome.RolledBack? || TxidTaken(s.rows, id, w) then At(s, raised)
    else
      World(s.rows[id := WriteRow(s.rows[id], w, s.clock)], if outcome.Committed? then Ready else raised,
            s.sent, s.seen, s.clock, s.limit)
  }

  function Initial(limit: nat): World { World([], Down, [], [], 0, limit) }

  predicate CanRun(s: World, acts: seq<Act>)
    decreases |acts|
  {
    acts != [] ==> Enabled(s, acts[0]) && CanRun(Apply(s, acts[0]), acts[1..])
  }

  function Run(s: World, acts: seq<Act>): World
    requires CanRun(s, acts)
    decreases |acts|
  {
    if acts == [] then s else Run(Apply(s, acts[0]), acts[1..])
  }
}
