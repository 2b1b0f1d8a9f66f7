/** The funding objects: rows updated in place, and the processor that calls node and repository. */
module FundingProcessor {
  import opened Common
  import opened Funding

  /** Row id is to be processed, and no row that is further on its way waits for it. */
  predicate FurthestAlong(rows: seq<Row>, id: FundingId) {
    && id < |rows|
    && var status := rows[id].status;
       && (status.Broadcast? || status.Unknown? || status.Signed? || status.Requested?)
       && forall i | 0 <= i < |rows| ::
            && (rows[i].status.Broadcast? ==> status.Broadcast?)
            && (rows[i].status.Unknown? ==> status.Broadcast? || status.Unknown?)
            && (rows[i].status.Signed? ==> !status.Requested?)
  }

  class FundingRepository {
    var rows: seq<Row>

    constructor ()
      ensures rows == []
    {
      rows := [];
    }

    method RecoverInterruptedWork()
      modifies this
      ensures rows == seq(|old(rows)|, i requires 0 <= i < |old(rows)| => RecoverRow(old(rows)[i]))
      ensures |rows| == |old(rows)|
      ensures forall i | 0 <= i < |rows| ::
        rows[i] == if old(rows)[i].status.Preparing? then old(rows)[i].(status := Requested) else old(rows)[i]
    {
      for i := 0 to |rows|
        invariant |rows| == |old(rows)|
        invariant forall k | 0 <= k < |rows| :: rows[k] == if k < i then RecoverRow(old(rows)[k]) else old(rows)[k]
      {
        if rows[i].status.Preparing? {
          rows := rows[i := rows[i].(status := Requested)];
        }
      }
    }

    /** The first row of the best priority among those to be processed, claimed; none if there is none. */
    method ClaimNext() returns (claimed: Option<FundingId>)
      modifies this
      ensures claimed.Some? ==> FurthestAlong(old(rows), claimed.value)
      ensures claimed.None? ==> rows == old(rows) && forall i | 0 <= i < |rows| :: !rows[i].status.Processable()
      ensures claimed.Some? ==>
        IsNext(old(rows), claimed.value) && rows == old(rows)[claimed.value := ClaimRow(old(rows)[claimed.value])]
      ensures claimed.Some? ==> rows[claimed.value] == ClaimRow(old(rows)[claimed.value])
    {
      claimed := None;
      for i := 0 to |rows|
        invariant rows == old(rows)
        invariant claimed.None? ==> forall k | 0 <= k < i :: !rows[k].status.Processable()
        invariant claimed.Some? ==> claimed.value < i && rows[claimed.value].status.Processable()
        invariant claimed.Some? ==> forall k | 0 <= k < i && rows[k].status.Processable() ::
          Priority(rows[claimed.value].status) <= Priority(rows[k].status)
      {
        if rows[i].status.Processable()
           && (claimed.None? || Priority(rows[i].status) < Priority(rows[claimed.value].status)) {
          claimed := Some(i);
        }
      }
      if claimed.None? { return; }
      var id := claimed.value;
      if rows[id].status.Requested? {
        rows := rows[id := rows[id].(status := Preparing)];
      } else {
        assert rows[id := rows[id]] == rows;
      }
    }

    method MarkPrepared(id: FundingId, txid: TxId, sealed: Sealed, expiresAt: nat) returns (raised: bool)
      requires id < |rows|
      modifies this
      ensures raised <==>
        (old(rows)[id].status.Preparing? && TxidTaken(old(rows), id, Write.MarkPrepared(txid, sealed, expiresAt)))
      ensures rows == if raised then old(rows)
        else old(rows)[id := WriteRow(old(rows)[id], Write.MarkPrepared(txid, sealed, expiresAt), 0)]
    {
      if !rows[id].status.Preparing? { return false; }
      if exists i | 0 <= i < |rows| && i != id :: rows[i].txid == Some(txid) { return true; }
      var row := rows[id].(txid := Some(txid));
      row := row.(sealed := Some(sealed));
      row := row.(expiresAt := Some(expiresAt));
      rows := rows[id := row.(status := Signed)];
      raised := false;
    }

    method RetryPreparation(id: FundingId)
      requires id < |rows|
      modifies this
      ensures rows == old(rows)[id := WriteRow(old(rows)[id], Write.RetryPreparation, 0)]
    {
      if !rows[id].status.Preparing? { return; }
      rows := rows[id := rows[id].(status := Requested)];
    }

    method MarkBroadcast(id: FundingId, now: nat)
      requires id < |rows|
      modifies this
      ensures rows == old(rows)[id := WriteRow(old(rows)[id], Write.MarkBroadcast, now)]
    {
      if !rows[id].status.Signed? && !rows[id].status.Unknown? { return; }
      var row := rows[id].(status := Broadcast);
      if row.broadcastAt.None? { row := row.(broadcastAt := Some(now)); }
      rows := rows[id := row];
    }

    method MarkUnknown(id: FundingId)
      requires id < |rows|
      modifies this
      ensures rows == old(rows)[id := WriteRow(old(rows)[id], Write.MarkUnknown, 0)]
    {
      if rows[id].status.Confirmed? || rows[id].status.Failed? { return; }
      rows := rows[id := rows[id].(status := Unknown)];
    }

    method MarkChecked(id: FundingId, now: nat, timeout: nat)
      requires id < |rows|
      modifies this
      ensures rows == old(rows)[id := WriteRow(old(rows)[id], Write.MarkChecked(timeout), now)]
    {
      var row := rows[id];
      if row.status.Broadcast? && row.broadcastAt.Some? && now - row.broadcastAt.value > timeout {
        rows := rows[id := row.(status := Unknown)];
      }
    }

    method MarkConfirmed(id: FundingId)
      requires id < |rows|
      modifies this
      ensures rows == old(rows)[id := WriteRow(old(rows)[id], Write.MarkConfirmed, 0)]
    {
      rows := rows[id := rows[id].(status := Confirmed)];
      rows := rows[id := rows[id].(sealed := None)];
      assert rows == old(rows)[id := rows[id]];
    }

    method MarkFailed(id: FundingId)
      requires id < |rows|
      modifies this
      ensures rows == old(rows)[id := WriteRow(old(rows)[id], Write.MarkFailed, 0)]
    {
      if rows[id].status.Confirmed? { return; }
      rows := rows[id := rows[id].(status := Failed)];
      rows := rows[id := rows[id].(sealed := None)];
      assert rows == old(rows)[id := rows[id]];
    }

    /** The route that creates a request; the user's row is locked from `now` to `insertedAt`. */
    method CreateFunding(q: Request, limit: nat, fundable: bool, now: nat, insertedAt: nat) returns (r: CreateOutcome)
      modifies this
      ensures (rows, r) == Create(old(rows), limit, q, fundable, now, insertedAt)
    {
      if !fundable { return NotFundable; }
      var existing := FindJob(rows, q.job);
      if existing.Some? {
        if rows[existing.value].amount != q.amount { return AmountConflict; }
        return Existing(existing.value);
      }
      var from := DayStart(now);
      var reserved := 0;
      for i := 0 to |rows|
        invariant reserved == Reserved(rows[..i], q.user, from)
      {
        assert rows[..i + 1][..i] == rows[..i];
        if rows[i].user == q.user && rows[i].createdAt >= from && !rows[i].status.Failed? {
          reserved := reserved + rows[i].amount;
        }
      }
      assert rows[..|rows|] == rows;
      if reserved + q.amount > limit { return LimitExceeded; }
      if exists i | 0 <= i < |rows| :: rows[i].user == q.user && rows[i].key == q.key { return KeyConflict; }
      r := Created(|rows|);
      rows := rows +
        [Row(q.user, q.job, q.key, q.destination, q.amount, insertedAt, Requested, None, None, None, None)];
    }
  }

  /** Everything the node answers during one `_process` call. */
  datatype Answers = Answers(
    prepare: PrepareAnswer, receipt: ReceiptAnswer, readable: bool, broadcast: BroadcastAnswer, timeout: nat)

  function PreparedWrite(answer: PrepareAnswer): Write
    requires answer.Prepared?
  {
    MarkPrepared(answer.txid, Sealed(answer.payload), answer.expiresAt)
  }

  predicate Reaches(s: World, acts: seq<Act>, s': World) { CanRun(s, acts) && Run(s, acts) == s' }

  lemma NothingReached(s: World)
    ensures Reaches(s, [], s)
  {
  }

  lemma {:induction false} ReachesMore(s: World, acts: seq<Act>, s': World, act: Act)
    requires Reaches(s, acts, s') && Enabled(s', act)
    ensures Reaches(s, acts + [act], Apply(s', act))
    decreases |acts|
  {
    hide Apply, Enabled;
    if acts == [] {
      assert acts + [act] == [act];
      assert [act][1..] == [];
      NothingReached(Apply(s, act));
    } else {
      assert (acts + [act])[1..] == acts[1..] + [act];
      ReachesMore(Apply(s, acts[0]), acts[1..], s', act);
    }
  }

  // ---- What a claimed row becomes, by what the node answered -----------------------------------

  /** How a call ends: the row it wants committed and what it handed to the node, or an unexpected error. */
  datatype CallEnd = Becomes(row: Row) | Raises

  function Settled(row: Row, status: Status): Row { row.(status := status, sealed := None) }

  /** A fresh transfer is signed and stored; an unreachable node means another try, a refusal the end. */
  predicate PreparationEnds(row: Row, answer: PrepareAnswer, taken: bool, end: CallEnd) {
    match answer
    case Prepared(txid, payload, expiresAt) =>
      end == (if taken then Raises else Becomes(row.(
        status := Signed, txid := Some(txid), sealed := Some(Sealed(payload)), expiresAt := Some(expiresAt))))
    case PrepareUnreachable => end == Becomes(row.(status := Requested))
    case PrepareRejected => end == Becomes(Settled(row, Failed))
    case PrepareError => end == Raises
  }

  /** What is sent is the stored payload, and only if it carries the stored id. */
  predicate Sendable(row: Row, readable: bool) {
    row.txid.Some? && row.sealed.Some? && readable && row.sealed.value.content.txid == row.txid.value
  }

  /** A taken transfer is on its way; after a refusal a row that was never in doubt has failed. */
  predicate SendingEnds(row: Row, readable: bool, answer: BroadcastAnswer, now: nat, end: CallEnd) {
    var refused := Becomes(if row.status.Unknown? then row else Settled(row, Failed));
    if row.txid.None? || row.sealed.None? then end == Becomes(Settled(row, Failed))
    else if !readable then end == Raises
    else if !Sendable(row, readable) then end == refused
    else
      match answer
      case Taken =>
        end == Becomes(row.(
          status := Broadcast, broadcastAt := if row.broadcastAt.None? then Some(now) else row.broadcastAt))
      case BroadcastUnreachable => end == Becomes(row.(status := Unknown))
      case BroadcastRejected => end == refused
      case BroadcastError => end == Raises
  }

  /** In doubt, not expired and still stored: an unknown transfer is sent once more. */
  predicate WorthResending(row: Row, now: nat) {
    row.status.Unknown? && row.sealed.Some? && row.expiresAt.Some? && row.expiresAt.value > now
  }

  predicate Delayed(row: Row, now: nat, timeout: nat) {
    row.status.Broadcast? && row.broadcastAt.Some? && now > row.broadcastAt.value + timeout
  }

  /** A receipt decides; without one the transfer is sent again, waited for, or in doubt. */
  predicate ReceiptEnds(row: Row, answers: Answers, now: nat, end: CallEnd) {
    if row.txid.None? then end == Becomes(Settled(row, Failed))
    else
      match answers.receipt
      case ReceiptUnreachable => end == Becomes(row.(status := Unknown))
      case ReceiptError => end == Raises
      case Answer(Success) => end == Becomes(Settled(row, Confirmed))
      case Answer(Reverted) => end == Becomes(Settled(row, Failed))
      case Answer(Unmatched) => end == Becomes(row.(status := Unknown))
      case Answer(NotFound) =>
        if WorthResending(row, now) then SendingEnds(row, answers.readable, answers.broadcast, now, end)
        else end == Becomes(if Delayed(row, now, answers.timeout) then row.(status := Unknown) else row)
  }

  /** `taken` says whether some other row already has the transaction id that was just prepared. */
  predicate CallEnds(row: Row, answers: Answers, taken: bool, now: nat, end: CallEnd) {
    if row.status.Preparing? then PreparationEnds(row, answers.prepare, taken, end)
    else if row.status.Signed? then SendingEnds(row, answers.readable, answers.broadcast, now, end)
    else ReceiptEnds(row, answers, now, end)
  }

  /** Whether the call asks for a receipt, and whether it hands the payload to the node. */
  predicate Asks(row: Row, answers: Answers) {
    (row.status.Broadcast? || row.status.Unknown?) && row.txid.Some? && answers.receipt.Answer?
  }

  predicate Sends(row: Row, answers: Answers, now: nat) {
    && Sendable(row, answers.readable)
    && (row.status.Signed? || (Asks(row, answers) && answers.receipt.receipt.NotFound? && WorthResending(row, now)))
  }

  predicate OthersHave(rows: seq<Row>, id: FundingId, answer: PrepareAnswer) {
    answer.Prepared? && exists i | 0 <= i < |rows| && i != id :: rows[i].txid == Some(answer.txid)
  }

  /** What a decision makes of the row. */
  function Chosen(row: Row, w: Write, raises: bool, now: nat): CallEnd {
    if raises then Raises else Becomes(WriteRow(row, w, now))
  }

  /** The rows after a call: the commit may be lost, or succeed and raise all the same. */
  predicate CallCommits(rows: seq<Row>, id: FundingId, end: CallEnd, outcome: CommitOutcome, rows': seq<Row>,
      raised: bool)
    requires id < |rows|
  {
    && rows' == (if end.Raises? || outcome.RolledBack? then rows else rows[id := end.row])
    && (raised <==> end.Raises? || outcome != Committed)
  }

  /** A row whose processing raised is in doubt, unless it is settled. */
  function InDoubt(row: Row): Row {
    if row.status.Confirmed? || row.status.Failed? then row else row.(status := Unknown)
  }

  /** The rows after a turn over the claimed rows; an error in the call leaves its row in doubt. */
  ghost predicate TurnCommits(rows: seq<Row>, id: FundingId, end: CallEnd, outcome: CommitOutcome,
      handlerOutcome: CommitOutcome, rows': seq<Row>, died: bool)
    requires id < |rows|
  {
    exists mid: seq<Row>, raised: bool | CallCommits(rows, id, end, outcome, mid, raised) ::
      && |mid| == |rows|
      && rows' == (if raised && !handlerOutcome.RolledBack? then mid[id := InDoubt(mid[id])] else mid)
      && (died <==> raised && handlerOutcome != Committed)
  }

  class Processor {
    const repository: FundingRepository
    var sent: seq<Sent>
    var seen: seq<Seen>

    constructor (repository: FundingRepository)
      ensures this.repository == repository && sent == [] && seen == []
    {
      this.repository := repository;
      sent, seen := [], [];
    }

    ghost function State(pc: Pc, clock: nat, limit: nat): World
      reads this, repository
    {
      World(repository.rows, pc, sent, seen, clock, limit)
    }

    /** Performs one write. It raises on a transaction id that is taken and on a commit that fails. */
    method Perform(id: FundingId, w: Write, now: nat, outcome: CommitOutcome) returns (raised: bool)
      requires id < |repository.rows| && (w.MarkPrepared? ==> repository.rows[id].status.Preparing?)
      modifies repository
      ensures raised <==> outcome != Committed || TxidTaken(old(repository.rows), id, w)
      ensures repository.rows ==
        if outcome.RolledBack? || TxidTaken(old(repository.rows), id, w) then old(repository.rows)
        else old(repository.rows)[id := WriteRow(old(repository.rows)[id], w, now)]
    {
      if outcome.RolledBack? { return true; }
      raised := false;
      match w {
        case MarkPrepared(txid, sealed, expiresAt) => raised := repository.MarkPrepared(id, txid, sealed, expiresAt);
        case RetryPreparation => repository.RetryPreparation(id);
        case MarkBroadcast => repository.MarkBroadcast(id, now);
        case MarkUnknown => repository.MarkUnknown(id);
        case MarkChecked(timeout) => repository.MarkChecked(id, now, timeout);
        case MarkConfirmed => repository.MarkConfirmed(id);
        case MarkFailed => repository.MarkFailed(id);
      }
      raised := raised || outcome.CommittedButRaised?;
    }

    /** The gateway checks the payload's identifier before anything leaves the process. */
    method SendToNode(id: FundingId, payload: Payload, expected: TxId, answer: BroadcastAnswer)
      returns (r: BroadcastAnswer)
      modifies this
      ensures seen == old(seen)
      ensures payload.txid != expected ==> r == BroadcastRejected && sent == old(sent)
      ensures payload.txid == expected ==> r == answer && sent == old(sent) + [Sent(id, payload)]
    {
      if payload.txid != expected { return BroadcastRejected; }
      sent := sent + [Sent(id, payload)];
      r := answer;
    }

    /** `_broadcast`: decides which write follows. */
    method BroadcastStored(id: FundingId, row: Row, readable: bool, answer: BroadcastAnswer, ghost s: World)
      returns (w: Write, handler: bool)
      requires s == State(s.pc, s.clock, s.limit)
      modifies this
      ensures State(Committing(id, w, handler), s.clock, s.limit) == AfterBroadcast(s, id, row, readable, answer)
      ensures row.status.Signed? || row.status.Unknown? ==>
        SendingEnds(row, readable, answer, s.clock, Chosen(row, w, handler, s.clock))
      ensures seen == old(seen) && !w.MarkPrepared? && (handler ==> w.MarkUnknown?)
      ensures sent == old(sent) + if Sendable(row, readable) then [Sent(id, row.sealed.value.content)] else []
    {
      if row.txid.None? || row.sealed.None? { return MarkFailed, false; }
      if !readable { return MarkUnknown, true; }
      var r := SendToNode(id, row.sealed.value.content, row.txid.value, answer);
      match r {
        case Taken => return MarkBroadcast, false;
        case BroadcastUnreachable => return MarkUnknown, false;
        case BroadcastRejected =>
          if row.status.Unknown? { return MarkUnknown, false; } else { return MarkFailed, false; }
        case BroadcastError => return MarkUnknown, true;
      }
    }

    /** `_confirm`: asks for the receipt and either decides the write or sends the stored payload again. */
    method Confirm(id: FundingId, row: Row, answer: ReceiptAnswer, timeout: nat, now: nat, ghost s: World)
      returns (resend: bool, w: Write, handler: bool)
      requires s == State(s.pc, s.clock, s.limit) && s.clock == now
      modifies this
      ensures State(if resend then Resending(id, row) else Committing(id, w, handler), s.clock, s.limit)
           == AfterReceipt(s, id, row, answer, timeout)
      ensures sent == old(sent) && !w.MarkPrepared? && (handler ==> w.MarkUnknown?)
      ensures resend <==> row.txid.Some? && answer == Answer(NotFound) && WorthResending(row, now)
      ensures !resend && (row.status.Broadcast? || row.status.Unknown?) ==>
        forall answers: Answers | answers.receipt == answer && answers.timeout == timeout ::
          ReceiptEnds(row, answers, now, Chosen(row, w, handler, now))
      ensures seen ==
        old(seen) + if row.txid.Some? && answer.Answer? then [Seen(id, row.txid.value, answer.receipt)] else []
    {
      resend, handler, w := false, false, MarkUnknown;
      if row.txid.None? { return false, MarkFailed, false; }
      match answer {
        case ReceiptUnreachable => return false, MarkUnknown, false;
        case ReceiptError => return false, MarkUnknown, true;
        case Answer(receipt) =>
          seen := seen + [Seen(id, row.txid.value, receipt)];
          match receipt {
            case Success => w := MarkConfirmed;
            case Unmatched => w := MarkUnknown;
            case Reverted => w := MarkFailed;
            case NotFound =>
              if row.status.Unknown? && row.expiresAt.Some? && row.expiresAt.value > now && row.sealed.Some? {
                resend := true;
              } else {
                w := MarkChecked(timeout);
              }
          }
      }
    }

    /** What `_process` decides to write for a claimed row, and the acts that lead there. */
    method Choose(id: FundingId, row: Row, answers: Answers, now: nat, ghost limit: nat)
      returns (w: Write, handler: bool, ghost acts: seq<Act>)
      requires id < |repository.rows| && repository.rows[id] == row
      requires row.status.Preparing? || row.status.Signed? || row.status.Broadcast? || row.status.Unknown?
      modifies this
      ensures Reaches(old(State(Claimed(id, row), now, limit)), acts, State(Committing(id, w, handler), now, limit))
      ensures handler ==> w.MarkUnknown?
      ensures w.MarkPrepared? <==> row.status.Preparing? && answers.prepare.Prepared?
      ensures w.MarkPrepared? ==> w.txid == answers.prepare.txid
      ensures CallEnds(row, answers, false, now, Chosen(row, w, handler, now))
      ensures CallEnds(row, answers, true, now, Chosen(row, w, handler || w.MarkPrepared?, now))
      ensures sent == old(sent) + if Sends(row, answers, now) then [Sent(id, row.sealed.value.content)] else []
      ensures seen ==
        old(seen) + if Asks(row, answers) then [Seen(id, row.txid.value, answers.receipt.receipt)] else []
    {
      hide Reaches;
      ghost var s0 := State(Claimed(id, row), now, limit);
      NothingReached(s0);
      acts := [];
      if row.status.Preparing? {
        match answers.prepare {
          case Prepared(_, _, _) => w, handler := PreparedWrite(answers.prepare), false;
          case PrepareUnreachable => w, handler := RetryPreparation, false;
          case PrepareRejected => w, handler := MarkFailed, false;
          case PrepareError => w, handler := MarkUnknown, true;
        }
        ReachesMore(s0, acts, s0, PrepareTransfer(answers.prepare));
        acts := acts + [PrepareTransfer(answers.prepare)];
      } else if row.status.Signed? {
        ReachesMore(s0, acts, s0, SendSigned(answers.readable, answers.broadcast));
        acts := acts + [SendSigned(answers.readable, answers.broadcast)];
        w, handler := BroadcastStored(id, row, answers.readable, answers.broadcast, s0);
      } else {
        var resend;
        ReachesMore(s0, acts, s0, AskReceipt(answers.receipt, answers.timeout));
        acts := acts + [AskReceipt(answers.receipt, answers.timeout)];
        resend, w, handler := Confirm(id, row, answers.receipt, answers.timeout, now, s0);
        if resend {
          ghost var s1 := State(Resending(id, row), now, limit);
          ReachesMore(s0, acts, s1, Resend(answers.readable, answers.broadcast));
          acts := acts + [Resend(answers.readable, answers.broadcast)];
          w, handler := BroadcastStored(id, row, answers.readable, answers.broadcast, s1);
        }
      }
    }

    /** `_process` of a claimed row: a run of acts that ends ready, or in the handler of `run` if it raises. */
    method Process(id: FundingId, row: Row, answers: Answers, outcome: CommitOutcome, now: nat, ghost limit: nat)
      returns (raised: bool, ghost end: CallEnd, ghost acts: seq<Act>)
      requires id < |repository.rows| && repository.rows[id] == row
      requires row.status.Preparing? || row.status.Signed? || row.status.Broadcast? || row.status.Unknown?
      modifies this, repository
      ensures CallEnds(row, answers, OthersHave(old(repository.rows), id, answers.prepare), now, end)
      ensures CallCommits(old(repository.rows), id, end, outcome, repository.rows, raised)
      ensures sent == old(sent) + if Sends(row, answers, now) then [Sent(id, row.sealed.value.content)] else []
      ensures seen ==
        old(seen) + if Asks(row, answers) then [Seen(id, row.txid.value, answers.receipt.receipt)] else []
      ensures Reaches(old(State(Claimed(id, row), now, limit)), acts,
                      State(if raised then Committing(id, MarkUnknown, true) else Ready, now, limit))
    {
      hide Reaches, WriteRow, TxidTaken;
      ghost var s0 := State(Claimed(id, row), now, limit);
      var w, handler;
      w, handler, acts := Choose(id, row, answers, now, limit);
      end := Raises;
      if handler { return true, end, acts; }
      ghost var s1 := State(Committing(id, w, false), now, limit);
      ghost var taken := TxidTaken(repository.rows, id, w);
      TakenByOthers(repository.rows, id, w, answers.prepare);
      end := if taken then Raises else Becomes(WriteRow(row, w, now));
      raised := Perform(id, w, now, outcome);
      ReachesMore(s0, acts, s1, Commit(outcome));
      acts := acts + [Commit(outcome)];
    }

    /**
     One turn of the `run` loop: claim, process, and mark the row unknown if that raised. Commits end as
     the environment says; a failing handler ends the process.
     */
    method Turn(answers: Answers, outcome: CommitOutcome, handlerOutcome: CommitOutcome, now: nat, ghost limit: nat)
      returns (died: bool, ghost end: CallEnd, ghost acts: seq<Act>)
      modifies this, repository
      ensures Reaches(old(State(Ready, now, limit)), acts, State(if died then Down else Ready, now, limit))
      ensures acts == [] <==>
        forall i | 0 <= i < |old(repository.rows)| :: !old(repository.rows)[i].status.Processable()
      ensures acts == [] ==> repository.rows == old(repository.rows) && sent == old(sent) && seen == old(seen) && !died
      ensures acts != [] ==>
        acts[0].ClaimNext? && FurthestAlong(old(repository.rows), acts[0].id) &&
        var id := acts[0].id;
        var before := old(repository.rows)[id];
        var row := before.(status := if before.status.Requested? then Preparing else before.status);
        var rows := old(repository.rows)[id := row];
        && CallEnds(row, answers, OthersHave(rows, id, answers.prepare), now, end)
        && TurnCommits(rows, id, end, outcome, handlerOutcome, repository.rows, died)
        && sent == old(sent) + (if Sends(row, answers, now) then [Sent(id, row.sealed.value.content)] else [])
        && seen == old(seen) + if Asks(row, answers) then [Seen(id, row.txid.value, answers.receipt.receipt)] else []
    {
      hide Reaches, WriteRow, ClaimRow, CallEnds, Sends, Asks, OthersHave, FurthestAlong;
      ghost var s0 := State(Ready, now, limit);
      NothingReached(s0);
      died, end, acts := false, Raises, [];
      var claimed := repository.ClaimNext();
      if claimed.None? { return; }
      var id := claimed.value;
      var row := repository.rows[id];
      ghost var s1 := State(Claimed(id, row), now, limit);
      ReachesMore(s0, acts, s0, Act.ClaimNext(id));
      acts := acts + [Act.ClaimNext(id)];
      ClaimedIsActive(s0.rows[id]);
      var raised;
      ghost var more;
      raised, end, more := Process(id, row, answers, outcome, now, limit);
      ghost var mid := repository.rows;
      assert CallCommits(s1.rows, id, end, outcome, mid, raised);
      ReachesThen(s0, acts, s1, more, State(if raised then Committing(id, MarkUnknown, true) else Ready, now, limit));
      acts := acts + more;
      if raised {
        ghost var s2 := State(Committing(id, MarkUnknown, true), now, limit);
        died := Perform(id, MarkUnknown, now, handlerOutcome);
        UnknownIsInDoubt(mid, id, now);
        ReachesMore(s0, acts, s2, Commit(handlerOutcome));
        acts := acts + [Commit(handlerOutcome)];
      }
    }
  }

  lemma UnknownIsInDoubt(rows: seq<Row>, id: FundingId, now: nat)
    requires id < |rows|
    ensures WriteRow(rows[id], MarkUnknown, now) == InDoubt(rows[id]) && !TxidTaken(rows, id, MarkUnknown)
  {
  }

  lemma TakenByOthers(rows: seq<Row>, id: FundingId, w: Write, answer: PrepareAnswer)
    requires w.MarkPrepared? ==> answer.Prepared? && w.txid == answer.txid
    ensures w.MarkPrepared? ==> (TxidTaken(rows, id, w) <==> OthersHave(rows, id, answer))
    ensures !w.MarkPrepared? ==> !TxidTaken(rows, id, w)
  {
  }

  lemma ClaimedIsActive(r: Row)
    requires r.status.Processable()
    ensures var status := ClaimRow(r).status;
      status.Preparing? || status.Signed? || status.Broadcast? || status.Unknown?
    ensures ClaimRow(r) == r.(status := if r.status.Requested? then Preparing else r.status)
  {
  }

  lemma {:induction false} ReachesThen(s0: World, acts: seq<Act>, s1: World, more: seq<Act>, s2: World)
    requires Reaches(s0, acts, s1) && Reaches(s1, more, s2)
    ensures Reaches(s0, acts + more, s2)
    decreases |acts|
  {
    hide Apply, Enabled;
    if acts == [] {
      assert acts + more == more;
    } else {
      assert (acts + more)[1..] == acts[1..] + more;
      ReachesThen(Apply(s0, acts[0]), acts[1..], s1, more, s2);
    }
  }
}
