/** One wallet, one transaction: the invariant of the funding machine and what follows from it. */
module FundingProofs {
  import opened Common
  import opened Funding

  // ---- Invariant -----------------------------------------------------------------------------

  /** Which fields a row of each status carries. */
  predicate RowOk(r: Row) {
    match r.status
    case Requested => r.txid.None? && r.sealed.None?
    case Preparing => r.txid.None? && r.sealed.None?
    case Signed => r.txid.Some? && r.sealed.Some?
    case Broadcast => r.txid.Some? && r.sealed.Some?
    case Unknown => r.txid.Some? <==> r.sealed.Some?
    case Confirmed => r.txid.Some? && r.sealed.None?
    case Failed => r.sealed.None?
  }

  /** A transaction of this row may be on its way to the chain. */
  predicate InFlight(r: Row) { (r.status.Broadcast? || r.status.Unknown?) && r.txid.Some? }

  predicate Saw(seen: seq<Seen>, id: FundingId, txid: Option<TxId>, receipt: Receipt) {
    txid.Some? && Seen(id, txid.value, receipt) in seen
  }

  /** A pending write fits the row it is for. */
  predicate WriteOk(s: World, id: FundingId, w: Write, handler: bool) {
    && id < |s.rows|
    && var r := s.rows[id];
       match w
       case MarkPrepared(_, _, _) => r.status.Preparing? && !handler
       case RetryPreparation => r.status.Preparing? && !handler
       case MarkBroadcast => (r.status.Signed? || r.status.Unknown?) && r.txid.Some? && !handler
       case MarkUnknown => true
       case MarkChecked(_) => InFlight(r) && !handler
       case MarkConfirmed => InFlight(r) && Saw(s.seen, id, r.txid, Success) && !handler
       case MarkFailed => !r.status.Terminal() && !handler && (InFlight(r) ==> Saw(s.seen, id, r.txid, Reverted))
  }

  predicate PcOk(s: World) {
    match s.pc
    case Claimed(id, row) => id < |s.rows| && s.rows[id] == row
      && (row.status.Preparing? || row.status.Signed? || row.status.Broadcast? || row.status.Unknown?)
    case Resending(id, row) => id < |s.rows| && s.rows[id] == row && row.status.Unknown? && row.txid.Some?
      && row.sealed.Some?
    case Committing(id, w, handler) => WriteOk(s, id, w, handler)
    case _ => true
  }

  predicate SentOk(s: World) {
    forall k | 0 <= k < |s.sent| ::
      s.sent[k].id < |s.rows| && s.rows[s.sent[k].id].txid == Some(s.sent[k].payload.txid)
  }

  predicate JobsUnique(rows: seq<Row>) { forall i, k | 0 <= i < k < |rows| :: rows[i].job != rows[k].job }

  predicate TxidsUnique(rows: seq<Row>) {
    forall i, k | 0 <= i < k < |rows| && rows[i].txid.Some? :: rows[i].txid != rows[k].txid
  }

  predicate Inv(s: World) {
    && (forall i | 0 <= i < |s.rows| :: RowOk(s.rows[i]))
    && (forall i | 0 <= i < |s.rows| && s.rows[i].status.Confirmed? :: Saw(s.seen, i, s.rows[i].txid, Success))
    && PcOk(s) && SentOk(s) && JobsUnique(s.rows) && TxidsUnique(s.rows)
  }

  // ---- What one step may do to a row ---------------------------------------------------------

  /** Fields fixed at creation, and a transaction id once it is set. */
  predicate Fixed(r: Row, r': Row) {
    && r'.user == r.user && r'.job == r.job && r'.amount == r.amount && r'.createdAt == r.createdAt
    && r'.destination == r.destination && (r.txid.Some? ==> r'.txid == r.txid)
  }

  /** Where a row that may be on chain can go, given the receipts seen. */
  predicate Onward(seen: seq<Seen>, id: FundingId, r: Row, r': Row) {
    && Fixed(r, r')
    && (InFlight(r) ==>
          || InFlight(r')
          || (r'.status.Confirmed? && Saw(seen, id, r.txid, Success))
          || (r'.status.Failed? && Saw(seen, id, r.txid, Reverted)))
    && (r.status.Terminal() ==> r' == r)
  }

  predicate Steps(s: World, s': World) {
    && |s.rows| <= |s'.rows| && s.seen <= s'.seen && s.sent <= s'.sent
    && forall i | 0 <= i < |s.rows| :: Onward(s'.seen, i, s.rows[i], s'.rows[i])
  }

  lemma WriteKeepsRow(s: World, id: FundingId, w: Write, handler: bool)
    requires Inv(s) && WriteOk(s, id, w, handler)
    ensures var r' := WriteRow(s.rows[id], w, s.clock);
      RowOk(r') && Onward(s.seen, id, s.rows[id], r') && (r'.status.Confirmed? ==> Saw(s.seen, id, r'.txid, Success))
      && (s.rows[id].txid.Some? ==> r'.txid == s.rows[id].txid)
  {
    assert RowOk(s.rows[id]);
  }

  lemma CommitOk(s: World, outcome: CommitOutcome)
    requires Inv(s) && Enabled(s, Commit(outcome))
    ensures Inv(Apply(s, Commit(outcome))) && Steps(s, Apply(s, Commit(outcome)))
  {
    hide RowOk, WriteRow, Saw, TxidTaken, Onward, InFlight, TxidsUnique;
    var id, w, handler := s.pc.id, s.pc.w, s.pc.handler;
    var s' := AfterCommit(s, id, w, handler, outcome);
    RowsStay(s.seen, s.rows);
    if outcome.RolledBack? || TxidTaken(s.rows, id, w) {
      assert s'.rows == s.rows;
    } else {
      WriteKeepsRow(s, id, w, handler);
      WriteTxid(s.rows[id], w, s.clock);
      assert s'.rows == s.rows[id := WriteRow(s.rows[id], w, s.clock)];
      NewTxidIsFree(s.rows, id, w, WriteRow(s.rows[id], w, s.clock));
      assert SentOk(s') by { SentStays(s, s', id); }
    }
  }

  /** Sent payloads keep their row's transaction id when that id, once set, stays. */
  lemma SentStays(s: World, s': World, id: FundingId)
    requires SentOk(s) && id < |s.rows| && s'.sent == s.sent && |s'.rows| == |s.rows|
    requires s'.rows == s.rows[id := s'.rows[id]]
    requires s.rows[id].txid.Some? ==> s'.rows[id].txid == s.rows[id].txid
    ensures SentOk(s')
  {
  }

  lemma RowsStay(seen: seq<Seen>, rows: seq<Row>)
    ensures forall i | 0 <= i < |rows| :: Onward(seen, i, rows[i], rows[i])
  {
  }

  /** Replacing one row keeps transaction ids unique when its id is its old one or nobody's. */
  lemma NewTxidIsFree(rows: seq<Row>, id: FundingId, w: Write, r: Row)
    requires id < |rows| && TxidsUnique(rows) && !TxidTaken(rows, id, w)
    requires r.txid == rows[id].txid || (w.MarkPrepared? && r.txid == Some(w.txid))
    ensures TxidsUnique(rows[id := r])
  {
  }

  /** A write changes the transaction id only to the prepared one, which nobody else has. */
  lemma WriteTxid(r: Row, w: Write, now: nat)
    ensures var r' := WriteRow(r, w, now);
      r'.txid == r.txid || (w.MarkPrepared? && r'.txid == Some(w.txid))
    ensures WriteRow(r, w, now).job == r.job
  {
  }

  lemma ClaimOk(s: World, id: FundingId)
    requires Inv(s) && Enabled(s, ClaimNext(id))
    ensures Inv(Apply(s, ClaimNext(id))) && Steps(s, Apply(s, ClaimNext(id)))
  {
    assert RowOk(s.rows[id]);
  }

  lemma StartOk(s: World)
    requires Inv(s) && Enabled(s, Start)
    ensures Inv(Apply(s, Start)) && Steps(s, Apply(s, Start))
  {
    var s' := Apply(s, Start);
    forall i | 0 <= i < |s.rows|
      ensures RowOk(s'.rows[i]) && Onward(s'.seen, i, s.rows[i], s'.rows[i])
      ensures s'.rows[i] == RecoverRow(s.rows[i])
    {
      assert RowOk(s.rows[i]);
    }
  }

  /** A call to the node leaves the rows alone and may add to what was sent and seen. */
  lemma CallKeepsRows(s: World, s': World)
    requires Inv(s) && s'.rows == s.rows && s.seen <= s'.seen && s.sent <= s'.sent
    requires PcOk(s') && SentOk(s')
    ensures Inv(s') && Steps(s, s')
  {
    hide RowOk, PcOk, SentOk;
    forall i | 0 <= i < |s.rows| && s.rows[i].status.Confirmed? ensures Saw(s'.seen, i, s.rows[i].txid, Success) {
      SawStays(s.seen, s'.seen, i, s.rows[i].txid, Success);
    }
  }

  lemma SawStays(seen: seq<Seen>, seen': seq<Seen>, id: FundingId, txid: Option<TxId>, receipt: Receipt)
    requires seen <= seen' && Saw(seen, id, txid, receipt)
    ensures Saw(seen', id, txid, receipt)
  {
    var k :| 0 <= k < |seen| && seen[k] == Seen(id, txid.value, receipt);
    assert seen'[k] == seen[k];
  }

  lemma PrepareOk(s: World, answer: PrepareAnswer)
    requires Inv(s) && Enabled(s, PrepareTransfer(answer))
    ensures var s' := AfterPrepare(s, s.pc.id, answer); Inv(s') && Steps(s, s')
  {
    CallKeepsRows(s, AfterPrepare(s, s.pc.id, answer));
  }

  lemma BroadcastOk(s: World, id: FundingId, row: Row, readable: bool, answer: BroadcastAnswer)
    requires Inv(s) && id < |s.rows| && s.rows[id] == row
    requires row.status.Signed? || (row.status.Unknown? && row.txid.Some?)
    ensures var s' := AfterBroadcast(s, id, row, readable, answer); Inv(s') && Steps(s, s')
  {
    assert RowOk(row);
    var s' := AfterBroadcast(s, id, row, readable, answer);
    assert PcOk(s');
    assert SentOk(s');
    CallKeepsRows(s, s');
  }

  lemma ReceiptOk(s: World, id: FundingId, row: Row, answer: ReceiptAnswer, timeout: nat)
    requires Inv(s) && id < |s.rows| && s.rows[id] == row && (row.status.Broadcast? || row.status.Unknown?)
    ensures var s' := AfterReceipt(s, id, row, answer, timeout); Inv(s') && Steps(s, s')
  {
    hide Saw, SentOk, JobsUnique, TxidsUnique;
    assert RowOk(row);
    var s' := AfterReceipt(s, id, row, answer, timeout);
    assert SentOk(s') by { SameSent(s, s'); }
    if row.txid.Some? && answer.Answer? {
      assert s'.seen[|s.seen|] == Seen(id, row.txid.value, answer.receipt);
      assert Saw(s'.seen, id, row.txid, answer.receipt) by { LastSeen(s'.seen, id, row.txid, answer.receipt); }
    }
    assert PcOk(s');
    CallKeepsRows(s, s');
  }

  lemma SameSent(s: World, s': World)
    requires SentOk(s) && s'.sent == s.sent && s'.rows == s.rows
    ensures SentOk(s')
  {
  }

  lemma LastSeen(seen: seq<Seen>, id: FundingId, txid: Option<TxId>, receipt: Receipt)
    requires seen != [] && txid.Some? && seen[|seen| - 1] == Seen(id, txid.value, receipt)
    ensures Saw(seen, id, txid, receipt)
  {
  }

  lemma PostOk(s: World, q: Request, fundable: bool, insertedAt: nat)
    requires Inv(s) && Enabled(s, Post(q, fundable, insertedAt))
    ensures Inv(Apply(s, Post(q, fundable, insertedAt))) && Steps(s, Apply(s, Post(q, fundable, insertedAt)))
  {
    hide Saw, Onward, Reserved, KeyTaken, DayStart, WriteOk;
    RowsStay(s.seen, s.rows);
    PendingWriteStays(s, Apply(s, Post(q, fundable, insertedAt)));
  }

  lemma PendingWriteStays(s: World, s': World)
    requires s.rows <= s'.rows && s'.pc == s.pc && s'.seen == s.seen && PcOk(s)
    ensures PcOk(s')
  {
  }

  /** Every act keeps the invariant and moves rows only forward. */
  lemma StepOk(s: World, act: Act)
    requires Inv(s) && Enabled(s, act)
    ensures Inv(Apply(s, act)) && Steps(s, Apply(s, act))
  {
    match act
    case Start => StartOk(s);
    case ClaimNext(id) => ClaimOk(s, id);
    case Commit(outcome) => CommitOk(s, outcome);
    case Crash =>
    case Tick(_) =>
    case Post(q, fundable, insertedAt) => PostOk(s, q, fundable, insertedAt);
    case PrepareTransfer(answer) => PrepareOk(s, answer);
    case SendSigned(readable, answer) => BroadcastOk(s, s.pc.id, s.pc.row, readable, answer);
    case Resend(readable, answer) => BroadcastOk(s, s.pc.id, s.pc.row, readable, answer);
    case AskReceipt(answer, timeout) => ReceiptOk(s, s.pc.id, s.pc.row, answer, timeout);
  }

  lemma StepsCompose(a: World, b: World, c: World)
    requires Steps(a, b) && Steps(b, c)
    ensures Steps(a, c)
  {
    forall i | 0 <= i < |a.rows| ensures Onward(c.seen, i, a.rows[i], c.rows[i]) {
      assert Onward(b.seen, i, a.rows[i], b.rows[i]) && Onward(c.seen, i, b.rows[i], c.rows[i]);
      if Saw(b.seen, i, a.rows[i].txid, Success) { SawStays(b.seen, c.seen, i, a.rows[i].txid, Success); }
      if Saw(b.seen, i, a.rows[i].txid, Reverted) { SawStays(b.seen, c.seen, i, a.rows[i].txid, Reverted); }
    }
  }

  lemma {:induction false} RunOk(s: World, acts: seq<Act>)
    requires Inv(s) && CanRun(s, acts)
    ensures Inv(Run(s, acts)) && Steps(s, Run(s, acts))
    decreases |acts|
  {
    if acts != [] {
      StepOk(s, acts[0]);
      RunOk(Apply(s, acts[0]), acts[1..]);
      StepsCompose(s, Apply(s, acts[0]), Run(s, acts));
    }
  }

  // ---- Theorems over every run ---------------------------------------------------------------

  /**
   Whatever crashes, retries and answers occur, all payloads ever handed to the node for one wallet's
   funding carry one and the same transaction id, which is the stored one.
   */
  lemma OneTransactionPerWallet(limit: nat, acts: seq<Act>, k: nat, m: nat)
    requires CanRun(Initial(limit), acts)
    ensures var s := Run(Initial(limit), acts);
      k < |s.sent| && m < |s.sent| && s.sent[k].id < |s.rows| && s.sent[m].id < |s.rows|
      && s.rows[s.sent[k].id].job == s.rows[s.sent[m].id].job
      ==> s.sent[k].id == s.sent[m].id && s.sent[k].payload.txid == s.sent[m].payload.txid
          && s.rows[s.sent[k].id].txid == Some(s.sent[k].payload.txid)
  {
    RunOk(Initial(limit), acts);
  }

  /** Two funding rows never share a transaction: no payload is sent for two wallets. */
  lemma TransactionsAreNotShared(limit: nat, acts: seq<Act>, k: nat, m: nat)
    requires CanRun(Initial(limit), acts)
    ensures var s := Run(Initial(limit), acts);
      k < |s.sent| && m < |s.sent| && s.sent[k].payload.txid == s.sent[m].payload.txid ==> s.sent[k].id == s.sent[m].id
  {
    RunOk(Initial(limit), acts);
    var s := Run(Initial(limit), acts);
    if k < |s.sent| && m < |s.sent| && s.sent[k].payload.txid == s.sent[m].payload.txid {
      assert s.rows[s.sent[k].id].txid == s.rows[s.sent[m].id].txid;
    }
  }

  lemma SendsStoredTransaction(s: World, act: Act)
    requires Inv(s) && Enabled(s, act) && |Apply(s, act).sent| > |s.sent|
    ensures var s' := Apply(s, act);
      var e := s'.sent[|s.sent|];
      && s'.rows == s.rows && e.id < |s.rows| && s.rows[e.id].txid == Some(e.payload.txid)
      && (s.rows[e.id].status.Signed? || s.rows[e.id].status.Unknown?)
  {
    assert act.SendSigned? || act.Resend?;
  }

  /** A payload is sent only for a row whose transaction id was committed before, and which keeps it. */
  lemma CommittedBeforeSent(s: World, act: Act, later: seq<Act>)
    requires Inv(s) && Enabled(s, act) && CanRun(Apply(s, act), later)
    requires |Apply(s, act).sent| > |s.sent|
    ensures var e := Apply(s, act).sent[|s.sent|];
      && e.id < |s.rows| && s.rows[e.id].txid == Some(e.payload.txid)
      && (s.rows[e.id].status.Signed? || s.rows[e.id].status.Unknown?)
      && e.id < |Run(Apply(s, act), later).rows|
      && Run(Apply(s, act), later).rows[e.id].txid == Some(e.payload.txid)
  {
    SendsStoredTransaction(s, act);
    StepOk(s, act);
    hide Apply, Enabled, Inv;
    var s1 := Apply(s, act);
    TxidIsWriteOnce(s1, later, s1.sent[|s.sent|].id);
  }

  /** The transaction id of a row is written at most once. */
  lemma TxidIsWriteOnce(s: World, acts: seq<Act>, id: FundingId)
    requires Inv(s) && CanRun(s, acts) && id < |s.rows| && s.rows[id].txid.Some?
    ensures id < |Run(s, acts).rows| && Run(s, acts).rows[id].txid == s.rows[id].txid
  {
    RunOk(s, acts);
    assert Onward(Run(s, acts).seen, id, s.rows[id], Run(s, acts).rows[id]);
  }

  /**
   Once a transaction may be on chain its row stays so until a receipt for that very transaction
   settles it; it never goes back to being requested, prepared or merely signed.
   */
  lemma InFlightEndsByReceipt(s: World, acts: seq<Act>, id: FundingId)
    requires Inv(s) && CanRun(s, acts) && id < |s.rows| && InFlight(s.rows[id])
    ensures var s' := Run(s, acts);
      id < |s'.rows| &&
      var r' := s'.rows[id];
      && (InFlight(r') || r'.status.Confirmed? || r'.status.Failed?)
      && (r'.status.Confirmed? ==> Saw(s'.seen, id, s.rows[id].txid, Success))
      && (r'.status.Failed? ==> Saw(s'.seen, id, s.rows[id].txid, Reverted))
  {
    RunOk(s, acts);
    assert Onward(Run(s, acts).seen, id, s.rows[id], Run(s, acts).rows[id]);
  }

  /** Settled rows never change again, and rows carry exactly what their status promises. */
  lemma SettledIsFinal(s: World, acts: seq<Act>, id: FundingId)
    requires Inv(s) && CanRun(s, acts) && id < |s.rows|
    ensures var s' := Run(s, acts);
      && id < |s'.rows| && RowOk(s'.rows[id])
      && (s.rows[id].status.Terminal() ==> s'.rows[id] == s.rows[id])
  {
    RunOk(s, acts);
    assert Onward(Run(s, acts).seen, id, s.rows[id], Run(s, acts).rows[id]);
  }

  /** Every reachable state satisfies the invariant the theorems above start from. */
  lemma ReachableInv(limit: nat, acts: seq<Act>)
    requires CanRun(Initial(limit), acts)
    ensures Inv(Run(Initial(limit), acts))
  {
    RunOk(Initial(limit), acts);
  }

  // ---- The daily limit -----------------------------------------------------------------------

  /** What user `user` committed to on day `day` and has not failed. */
  function SpentOn(rows: seq<Row>, user: nat, day: nat): nat {
    if rows == [] then 0 else
      var last := rows[|rows| - 1];
      SpentOn(rows[..|rows| - 1], user, day)
        + if last.user == user && Day(last.createdAt) == day && !last.status.Failed? then last.amount else 0
  }

  ghost predicate LimitOk(s: World) {
    && (forall i | 0 <= i < |s.rows| :: s.rows[i].createdAt <= s.clock)
    && forall user: nat, day: nat :: SpentOn(s.rows, user, day) <= s.limit
  }

  /** The same rows later: nothing new counts, some may have failed. */
  lemma {:induction false} SpentOnlyShrinks(rows: seq<Row>, rows': seq<Row>, user: nat, day: nat)
    requires |rows| == |rows'|
    requires forall i | 0 <= i < |rows| ::
      Fixed(rows[i], rows'[i]) && (rows[i].status.Failed? ==> rows'[i].status.Failed?)
    ensures SpentOn(rows', user, day) <= SpentOn(rows, user, day)
  {
    if rows != [] {
      SpentOnlyShrinks(rows[..|rows| - 1], rows'[..|rows| - 1], user, day);
    }
  }

  lemma DayFacts(t: nat, now: nat)
    requires t <= now
    ensures t >= DayStart(now) <==> Day(t) == Day(now)
  {
  }

  /** Before midnight passes, the sum the request checks is the day's sum. */
  lemma {:induction false} ReservedIsTodaysSum(rows: seq<Row>, user: nat, now: nat)
    requires forall i | 0 <= i < |rows| :: rows[i].createdAt <= now
    ensures Reserved(rows, user, DayStart(now)) == SpentOn(rows, user, Day(now))
  {
    if rows != [] {
      ReservedIsTodaysSum(rows[..|rows| - 1], user, now);
      DayFacts(rows[|rows| - 1].createdAt, now);
    }
  }

  lemma {:induction false} NothingSpentTomorrow(rows: seq<Row>, user: nat, now: nat, day: nat)
    requires forall i | 0 <= i < |rows| :: rows[i].createdAt <= now
    requires day > Day(now)
    ensures SpentOn(rows, user, day) == 0
  {
    if rows != [] {
      NothingSpentTomorrow(rows[..|rows| - 1], user, now, day);
      DayMonotone(rows[|rows| - 1].createdAt, now);
    }
  }

  lemma DayMonotone(a: nat, b: nat)
    requires a <= b
    ensures Day(a) <= Day(b)
  {
  }

  lemma SpentAfterPost(rows: seq<Row>, r: Row, user: nat, day: nat)
    ensures SpentOn(rows + [r], user, day)
      == SpentOn(rows, user, day) +
         if r.user == user && Day(r.createdAt) == day && !r.status.Failed? then r.amount else 0
  {
    assert (rows + [r])[..|rows|] == rows;
  }

  /** A request passes the limit on the day it is stamped with, even if midnight falls in between. */
  lemma PostKeepsLimit(s: World, q: Request, fundable: bool, insertedAt: nat)
    requires LimitOk(s) && s.clock <= insertedAt
    ensures LimitOk(Apply(s, Post(q, fundable, insertedAt)))
  {
    var s' := Apply(s, Post(q, fundable, insertedAt));
    if s'.rows != s.rows {
      var r := s'.rows[|s.rows|];
      assert s'.rows == s.rows + [r];
      forall user: nat, day: nat ensures SpentOn(s'.rows, user, day) <= s.limit {
        SpentAfterPost(s.rows, r, user, day);
        ReservedIsTodaysSum(s.rows, q.user, s.clock);
        DayMonotone(s.clock, insertedAt);
        if Day(insertedAt) != Day(s.clock) { NothingSpentTomorrow(s.rows, q.user, s.clock, Day(insertedAt)); }
        assert SpentOn(s.rows, user, day) <= s.limit;
      }
    }
  }

  lemma StepKeepsLimit(s: World, act: Act)
    requires Inv(s) && LimitOk(s) && Enabled(s, act)
    ensures LimitOk(Apply(s, act))
  {
    var s' := Apply(s, act);
    if act.Post? {
      PostKeepsLimit(s, act.q, act.fundable, act.insertedAt);
    } else {
      StepOk(s, act);
      assert |s'.rows| == |s.rows| && s'.limit == s.limit && s.clock <= s'.clock;
      forall i | 0 <= i < |s.rows|
        ensures Fixed(s.rows[i], s'.rows[i]) && (s.rows[i].status.Failed? ==> s'.rows[i].status.Failed?)
      {
        assert Onward(s'.seen, i, s.rows[i], s'.rows[i]);
      }
      forall user: nat, day: nat ensures SpentOn(s'.rows, user, day) <= s'.limit {
        SpentOnlyShrinks(s.rows, s'.rows, user, day);
        assert SpentOn(s.rows, user, day) <= s.limit;
      }
    }
  }

  lemma {:induction false} RunKeepsLimit(s: World, acts: seq<Act>)
    requires Inv(s) && LimitOk(s) && CanRun(s, acts)
    ensures LimitOk(Run(s, acts)) && Run(s, acts).limit == s.limit
    decreases |acts|
  {
    if acts != [] {
      StepOk(s, acts[0]);
      StepKeepsLimit(s, acts[0]);
      RunKeepsLimit(Apply(s, acts[0]), acts[1..]);
    }
  }

  /** On every UTC day no user's requests that have not failed exceed the limit, and a job has one row. */
  lemma DailyLimitHolds(limit: nat, acts: seq<Act>, user: nat, day: nat)
    requires CanRun(Initial(limit), acts)
    ensures SpentOn(Run(Initial(limit), acts).rows, user, day) <= limit
    ensures JobsUnique(Run(Initial(limit), acts).rows)
  {
    RunOk(Initial(limit), acts);
    RunKeepsLimit(Initial(limit), acts);
  }

  // ---- What a request decides ------------------------------------------------------------------

  predicate Funded(rows: seq<Row>, job: nat) { exists i | 0 <= i < |rows| :: rows[i].job == job }

  /**
   A request for a wallet that has none is taken exactly when the day's sum stays within the limit and its
   key is fresh; the new row asks for that amount to that address. A second one only repeats the first.
   */
  lemma RequestDecided(rows: seq<Row>, limit: nat, q: Request, fundable: bool, now: nat, insertedAt: nat)
    requires JobsUnique(rows) && forall i | 0 <= i < |rows| :: rows[i].createdAt <= now
    ensures var (rows', r) := Create(rows, limit, q, fundable, now, insertedAt);
      var within := SpentOn(rows, q.user, Day(now)) + q.amount <= limit;
      && (r.NotFundable? <==> !fundable)
      && (r.Created? <==> fundable && !Funded(rows, q.job) && within && !KeyTaken(rows, q.user, q.key))
      && (r.LimitExceeded? <==> fundable && !Funded(rows, q.job) && !within)
      && (r.Existing? || r.AmountConflict? <==> fundable && Funded(rows, q.job))
      && (r.Existing? ==> r.id < |rows| && rows[r.id].job == q.job && rows[r.id].amount == q.amount)
      && (r.AmountConflict? ==> exists i | 0 <= i < |rows| :: rows[i].job == q.job && rows[i].amount != q.amount)
      && (!r.Created? ==> rows' == rows)
      && (r.Created? ==>
            && r.id == |rows| && rows' == rows + [rows'[r.id]]
            && var row := rows'[r.id];
               && row.user == q.user && row.job == q.job && row.key == q.key && row.createdAt == insertedAt
               && row.destination == q.destination && row.amount == q.amount && row.status.Requested?
               && row.txid.None? && row.sealed.None? && row.expiresAt.None? && row.broadcastAt.None?)
  {
    ReservedIsTodaysSum(rows, q.user, now);
  }
}
