/**
 What a result is worth: over runs in which no verdict is laxer than the server's checks, the address of
 a READY job is owned by the key combined from the job's base key and its result.
 */
module ResultTheorems {
  import opened Common
  import opened Base58Check
  import opened JobStore
  import opened JobStoreProofs
  import opened Patterns
  import opened Protocol
  import opened ProtocolProofs
  import opened ProtocolTheorems
  import opened Scalars
  import opened TronAddress
  import opened Wallet

  type Judge = (JobId, Winner) -> bool

  /** The candidate an event brings, for which job. */
  function Candidate(st: Store, e: WorkerEvent): Option<(JobId, Winner)> {
    var shard := MatchingShard(st.shards, e);
    if e.kind.FOUND? && shard.Some? && e.address.Some? && e.offset.Some?
    then Some((st.shards[shard.value].job, Winner(e.address.value, e.offset.value))) else None
  }

  /** The verdict in this act, if it holds one, is the judge's. */
  predicate Judged(s: System, act: Act, judge: Judge) {
    match act
    case Loop(HandleEvent(verified)) =>
      s.inbox != [] ==>
        var candidate := Candidate(s.store, s.inbox[0]);
        candidate.Some? ==> verified == judge(candidate.value.0, candidate.value.1)
    case Api(ApiSubmit(j, w, verified)) => verified == judge(j, w)
    case _ => true
  }

  predicate JudgedRun(s: System, acts: seq<Act>, judge: Judge)
    requires CanRun(s, acts)
    decreases |acts|
  {
    acts != [] ==> Judged(s, acts[0], judge) && JudgedRun(Apply(s, acts[0]), acts[1..], judge)
  }

  predicate ResultsJudged(st: Store, judge: Judge) {
    forall j | 0 <= j < |st.jobs| && st.jobs[j].result.Some? :: judge(j, st.jobs[j].result.value)
  }

  /** Only an accepted candidate becomes a result. */
  lemma FinalizeKeepsJudged(st: Store, j: JobId, w: Winner, verified: bool, judge: Judge)
    requires ResultsJudged(st, judge) && (verified ==> judge(j, w))
    ensures ResultsJudged(Finalize(st, j, w, verified).0, judge)
  {
  }

  lemma SameResults(st: Store, st': Store, judge: Judge)
    requires ResultsJudged(st, judge) && |st'.jobs| >= |st.jobs|
    requires forall j | 0 <= j < |st'.jobs| ::
      st'.jobs[j].result == if j < |st.jobs| then st.jobs[j].result else None
    ensures ResultsJudged(st', judge)
  {
  }

  lemma CreditKeepsResults(st: Store, i: ShardId, status: ShardStatus, total: nat)
    requires i < |st.shards|
    ensures var st' := Credit(st, i, status, total);
      |st'.jobs| == |st.jobs| && |st'.shards| == |st.shards| && st'.shards[i].job == st.shards[i].job
      && st'.devices == st.devices
      && forall j | 0 <= j < |st.jobs| :: st'.jobs[j].result == st.jobs[j].result
  {
  }

  lemma FoundKeepsJudged(st: Store, i: ShardId, e: WorkerEvent, verified: bool, judge: Judge)
    requires i < |st.shards| && e.gpu in st.devices && ResultsJudged(st, judge)
    requires e.address.Some? && e.offset.Some? && verified ==>
      judge(st.shards[i].job, Winner(e.address.value, e.offset.value))
    ensures ResultsJudged(RecordFound(st, i, e, verified), judge)
  {
    var st1 := Credit(st, i, ShardStatus.Found, e.processed);
    CreditKeepsResults(st, i, ShardStatus.Found, e.processed);
    hide Credit;
    SameResults(st, st1, judge);
    if e.address.Some? && e.offset.Some? {
      FinalizeKeepsJudged(st1, st1.shards[i].job, Winner(e.address.value, e.offset.value), verified, judge);
    }
    SameResults(st1, RejectWinner(st1, i, e.gpu), judge);
  }

  lemma RecordKeepsJudged(st: Store, e: WorkerEvent, verified: bool, judge: Judge)
    requires ResultsJudged(st, judge)
    requires var candidate := Candidate(st, e);
      candidate.Some? ==> verified == judge(candidate.value.0, candidate.value.1)
    ensures ResultsJudged(RecordEvent(st, e, verified), judge)
  {
    if e.gpu in st.devices && MatchingShard(st.shards, e).Some? {
      hide DeviceAfter, RecordFound;
      var st1 := st.(devices := st.devices[e.gpu := DeviceAfter(st.devices[e.gpu], e)]);
      var i := MatchingShard(st.shards, e).value;
      if e.kind.FOUND? { FoundKeepsJudged(st1, i, e, verified, judge); }
    }
  }

  lemma TablesKeepJudged(st: Store, j: JobId, drawn: nat, now: int, timeout: int, g: Gpu, lease: nat,
                         shardSeconds: int, batchMs: nat, judge: Judge)
    requires ResultsJudged(st, judge)
    ensures ResultsJudged(CheckDeadline(st, j, now).0, judge)
    ensures ResultsJudged(Claim(st, drawn, now, timeout).0, judge)
    ensures ResultsJudged(Allocate(st, j, g, lease, shardSeconds, batchMs).0, judge)
  {
  }

  lemma ApiKeepsJudged(st: Store, act: ApiAct, judge: Judge)
    requires ResultsJudged(st, judge)
    requires act.ApiSubmit? && act.verified ==> judge(act.j, act.w)
    ensures ResultsJudged(ApiApply(st, act), judge)
  {
    if act.ApiSubmit? { FinalizeKeepsJudged(st, act.j, act.w, act.verified, judge); }
  }

  lemma StepKeepsJudged(s: System, act: Act, judge: Judge)
    requires ResultsJudged(s.store, judge) && Enabled(s, act) && Judged(s, act, judge)
    ensures ResultsJudged(Apply(s, act).store, judge)
  {
    hide Allocate, Claim, CheckDeadline, RecordEvent, ResultsJudged;
    match act
    case Loop(HandleEvent(verified)) => RecordKeepsJudged(s.store, s.inbox[0], verified, judge);
    case Loop(CheckActive(now)) =>
      if s.sched.active.Some? {
        TablesKeepJudged(s.store, s.sched.active.value, 1, now, 0, "", 0, 0, 0, judge);
      }
    case Loop(ClaimIfReady(drawn, now, timeout)) =>
      TablesKeepJudged(s.store, 0, drawn, now, timeout, "", 0, 0, 0, judge);
    case Loop(FillOne(g, lease, shardSeconds, batchMs)) =>
      TablesKeepJudged(s.store, s.sched.active.value, 1, 0, 0, g, lease, shardSeconds, batchMs, judge);
    case Api(api) => ApiKeepsJudged(s.store, api, judge);
    case SchedulerRestarts(rates) => RestartKeepsJudged(s, rates, judge);
    case _ =>
  }

  lemma RestartKeepsJudged(s: System, rates: map<Gpu, nat>, judge: Judge)
    requires ResultsJudged(s.store, judge)
    ensures ResultsJudged(ApplyRestart(s, rates).store, judge)
  {
    RecoverTouches(s.store);
    SameResults(s.store, ApplyRestart(s, rates).store, judge);
  }

  lemma {:induction false} RunKeepsJudged(s: System, acts: seq<Act>, judge: Judge)
    requires ResultsJudged(s.store, judge) && CanRun(s, acts) && JudgedRun(s, acts, judge)
    ensures ResultsJudged(Run(s, acts).store, judge)
    decreases |acts|
  {
    if acts != [] {
      hide ResultsJudged, Apply, Enabled, Judged;
      StepKeepsJudged(s, acts[0], judge);
      RunKeepsJudged(Apply(s, acts[0]), acts[1..], judge);
    }
  }

  // ---- The server's verdict --------------------------------------------------------------------

  /** What a job was created with: the scalar of its base key and its compiled pattern. */
  datatype JobKeys = JobKeys(key: JobId -> nat, spec: JobId -> MatchSpec)

  ghost predicate KeysOk(keys: JobKeys) {
    forall j: JobId :: IsScalar(keys.key(j))
  }

  /** `finalize_candidate`'s verdict on a candidate for job `j`. */
  ghost predicate Accepts(points: Points, hash: Hash, keys: JobKeys, j: JobId, w: Winner)
    requires KeysOk(keys)
  {
    KeyHasText(keys.key(j));
    CandidateAccepted(points, hash, keys.key(j), w.offset, w.address, keys.spec(j))
  }

  /** The result's key can be combined, owns the address, and the address is one that was asked for. */
  ghost predicate Redeemable(points: Points, hash: Hash, keys: JobKeys, j: JobId, w: Winner)
    requires KeysOk(keys)
  {
    KeyHasText(keys.key(j));
    && AllHex(w.offset) && Owned(points, hash, keys.key(j), w.offset, w.address)
    && AddressMatchesSpec(w.address, keys.spec(j)) && ValidTronAddress(hash, w.address)
  }

  lemma AcceptedIsRedeemable(points: Points, hash: Hash, keys: JobKeys, j: JobId, w: Winner)
    requires KeysOk(keys) && Accepts(points, hash, keys, j, w)
    ensures Redeemable(points, hash, keys, j, w)
  {
    hide Owned, AddressMatchesSpec, ValidTronAddress, AllHex, HexNumber, DerivedAddress, Hex64, Below256Bits;
    KeyHasText(keys.key(j));
  }

  /** The judge accepts nothing that the server's checks refuse. */
  ghost predicate AsStrictAsServer(points: Points, hash: Hash, keys: JobKeys, judge: Judge)
    requires KeysOk(keys)
  {
    forall j, w :: judge(j, w) ==> Accepts(points, hash, keys, j, w)
  }

  /** Over every such run each READY job has a result that can be redeemed. */
  lemma ReadyResultIsOwned(points: Points, hash: Hash, keys: JobKeys, judge: Judge, store: Store,
                           rates: map<Gpu, nat>, acts: seq<Act>, j: JobId)
    requires StoreOk(store) && CanRun(Initial(store, rates), acts) && ResultsJudged(store, judge)
    requires KeysOk(keys) && AsStrictAsServer(points, hash, keys, judge)
    requires JudgedRun(Initial(store, rates), acts, judge)
    ensures var st := Run(Initial(store, rates), acts).store;
      j < |st.jobs| && st.jobs[j].status.Ready? ==>
        st.jobs[j].result.Some? && Redeemable(points, hash, keys, j, st.jobs[j].result.value)
  {
    hide StoreOk, JudgedRun, CanRun, Run, Accepts, Redeemable, KeysOk;
    OneSearchingJob(store, rates, acts, j);
    StartIsJudged(store, rates, judge);
    RunKeepsJudged(Initial(store, rates), acts, judge);
    var st := Run(Initial(store, rates), acts).store;
    if j < |st.jobs| && st.jobs[j].status.Ready? {
      var w := st.jobs[j].result.value;
      assert judge(j, w);
      AcceptedIsRedeemable(points, hash, keys, j, w);
    }
  }

  lemma StartIsJudged(store: Store, rates: map<Gpu, nat>, judge: Judge)
    requires ResultsJudged(store, judge)
    ensures ResultsJudged(Initial(store, rates).store, judge)
  {
    RestartKeepsJudged(System(store, Sched({}, None, None), map g | g in rates :: FreshSlot(), [], Poll), rates, judge);
  }
}
