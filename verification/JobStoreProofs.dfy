/**
 What every committed call keeps true of the generation tables: the job life cycle, the
 disjoint tiling of scalar ranges and the attempt accounting.
 */
module JobStoreProofs {
  import opened Common
  import opened JobStore

  // ---- Ranges ---------------------------------------------------------------------------------

  /** First scalar after the shards of job `j`, which start at `origin`. */
  function EndOf(shards: seq<Shard>, j: JobId, origin: nat): nat {
    if shards == [] then origin else
      var last := shards[|shards| - 1];
      if last.job == j then last.start + last.count else EndOf(shards[..|shards| - 1], j, origin)
  }

  /** The shards of job `j`, in row order, follow one another without gap from `origin`. */
  predicate Tiles(shards: seq<Shard>, j: JobId, origin: nat) {
    shards != [] ==>
      var last, before := shards[|shards| - 1], shards[..|shards| - 1];
      && Tiles(before, j, origin)
      && (last.job == j ==> last.count >= 1 && last.start == EndOf(before, j, origin))
  }

  lemma {:induction false} TilesBelowEnd(shards: seq<Shard>, j: JobId, origin: nat)
    requires Tiles(shards, j, origin)
    ensures origin <= EndOf(shards, j, origin)
    ensures forall i | 0 <= i < |shards| && shards[i].job == j ::
      origin <= shards[i].start && shards[i].start + shards[i].count <= EndOf(shards, j, origin)
  {
    if shards != [] {
      TilesBelowEnd(shards[..|shards| - 1], j, origin);
    }
  }

  lemma {:induction false} TilesArePairwiseDisjoint(shards: seq<Shard>, j: JobId, origin: nat, i: nat, k: nat)
    requires Tiles(shards, j, origin)
    requires i < k < |shards| && shards[i].job == shards[k].job == j
    ensures shards[i].start + shards[i].count <= shards[k].start
    decreases |shards|
  {
    var before := shards[..|shards| - 1];
    if k == |shards| - 1 {
      TilesBelowEnd(before, j, origin);
      assert before[i].job == j;
    } else {
      TilesArePairwiseDisjoint(before, j, origin, i, k);
    }
  }

  lemma {:induction false} TilesCover(shards: seq<Shard>, j: JobId, origin: nat, x: nat) returns (i: nat)
    requires Tiles(shards, j, origin)
    requires origin <= x < EndOf(shards, j, origin)
    ensures i < |shards| && shards[i].job == j && shards[i].start <= x < shards[i].start + shards[i].count
  {
    var last := |shards| - 1;
    if shards[last].job == j && shards[last].start <= x {
      i := last;
    } else {
      i := TilesCover(shards[..last], j, origin, x);
    }
  }

  /** Same rows up to status and progress. */
  predicate SameRanges(a: seq<Shard>, b: seq<Shard>) {
    |a| == |b| && forall i | 0 <= i < |a| ::
      a[i].job == b[i].job && a[i].start == b[i].start && a[i].count == b[i].count
  }

  lemma {:induction false} SameRangesTile(a: seq<Shard>, b: seq<Shard>, j: JobId, origin: nat)
    requires SameRanges(a, b)
    ensures EndOf(a, j, origin) == EndOf(b, j, origin)
    ensures Tiles(a, j, origin) == Tiles(b, j, origin)
  {
    if a != [] {
      SameRangesTile(a[..|a| - 1], b[..|b| - 1], j, origin);
    }
  }

  lemma {:induction false} FreeStartIsNotOrigin(shards: seq<Shard>, j: JobId, origin: nat)
    requires Tiles(shards, j, origin)
    requires EndOf(shards, j, origin) != origin
    ensures StartTaken(shards, j, origin)
  {
    var last := |shards| - 1;
    var before := shards[..last];
    if shards[last].job == j && shards[last].start == origin {
    } else {
      if shards[last].job == j { assert EndOf(before, j, origin) != origin; }
      FreeStartIsNotOrigin(before, j, origin);
      var i :| 0 <= i < |before| && before[i].job == j && before[i].start == origin;
      assert shards[i] == before[i];
    }
  }

  lemma {:induction false} OwnedShardMovesEnd(shards: seq<Shard>, j: JobId, origin: nat, i: nat)
    requires Tiles(shards, j, origin)
    requires i < |shards| && shards[i].job == j
    ensures EndOf(shards, j, origin) > origin
  {
    var last := |shards| - 1;
    if shards[last].job == j {
      TilesBelowEnd(shards[..last], j, origin);
    } else {
      OwnedShardMovesEnd(shards[..last], j, origin, i);
    }
  }

  // ---- Accounting -----------------------------------------------------------------------------

  function Processed(shards: seq<Shard>, j: JobId): nat {
    if shards == [] then 0 else
      var last := shards[|shards| - 1];
      Processed(shards[..|shards| - 1], j) + if last.job == j then last.processed else 0
  }

  lemma {:induction false} ProcessedAfterUpdate(shards: seq<Shard>, i: nat, s: Shard, j: JobId)
    requires i < |shards| && s.job == shards[i].job
    ensures Processed(shards[i := s], j)
         == Processed(shards, j) + if s.job == j then s.processed - shards[i].processed else 0
    decreases |shards|
  {
    var last := |shards| - 1;
    if i == last {
      assert shards[i := s][..last] == shards[..last];
    } else {
      assert shards[i := s][..last] == shards[..last][i := s];
      ProcessedAfterUpdate(shards[..last], i, s, j);
    }
  }

  lemma {:induction false} ProcessedOfCopies(a: seq<Shard>, b: seq<Shard>, j: JobId)
    requires |a| == |b|
    requires forall i | 0 <= i < |a| :: a[i].job == b[i].job && a[i].processed == b[i].processed
    ensures Processed(a, j) == Processed(b, j)
  {
    if a != [] {
      ProcessedOfCopies(a[..|a| - 1], b[..|b| - 1], j);
    }
  }

  lemma {:induction false} ProcessedWithoutShards(shards: seq<Shard>, j: JobId)
    requires forall i | 0 <= i < |shards| :: shards[i].job != j
    ensures Processed(shards, j) == 0
  {
    if shards != [] {
      ProcessedWithoutShards(shards[..|shards| - 1], j);
    }
  }

  // ---- The invariant --------------------------------------------------------------------------

  predicate JobOk(job: Job) {
    && (job.result.Some? <==> job.status.Ready?)
    && !job.status.Verifying? && !job.status.OwnershipVerified?
    && (job.searchOrigin.Some? ==> 1 <= job.searchOrigin.value < SECP256K1_ORDER)
    && (job.nextOffset.Some? ==>
          job.searchOrigin.Some? && job.searchOrigin.value <= job.nextOffset.value < SECP256K1_ORDER)
    && (job.status.Searching? ==> job.nextOffset.Some?)
  }

  predicate ShardOk(st: Store, s: Shard) {
    && s.job < |st.jobs| && st.jobs[s.job].searchOrigin.Some?
    && 1 <= s.start && 1 <= s.count && s.start + s.count < SECP256K1_ORDER
    && s.processed <= s.count
  }

  predicate RangesOk(st: Store, j: JobId)
    requires j < |st.jobs|
  {
    var job := st.jobs[j];
    job.searchOrigin.Some? ==>
      var origin := job.searchOrigin.value;
      && Tiles(st.shards, j, origin)
      && (job.nextOffset.Some? ==>
          job.nextOffset.value == origin || job.nextOffset.value == EndOf(st.shards, j, origin))
  }

  predicate AccountOk(st: Store, j: JobId)
    requires j < |st.jobs|
  {
    st.jobs[j].attempts == Processed(st.shards, j)
  }

  predicate KeysUnique(jobs: seq<Job>) {
    forall j, k | 0 <= j < k < |jobs| && jobs[j].key.Some? && jobs[j].user == jobs[k].user ::
      jobs[j].key != jobs[k].key
  }

  predicate AtMostOneActive(jobs: seq<Job>) {
    forall j, k | 0 <= j < k < |jobs| :: !(jobs[j].status.Active() && jobs[k].status.Active())
  }

  predicate StoreOk(st: Store) {
    && (forall j | 0 <= j < |st.jobs| :: JobOk(st.jobs[j]))
    && (forall i | 0 <= i < |st.shards| :: ShardOk(st, st.shards[i]))
    && (forall j | 0 <= j < |st.jobs| :: RangesOk(st, j))
    && (forall j | 0 <= j < |st.jobs| :: AccountOk(st, j))
    && KeysUnique(st.jobs)
    && AtMostOneActive(st.jobs)
  }

  /** The two job tables agree except for status, deadline and result, and no job became active. */
  predicate OnlyStatus(before: seq<Job>, after: seq<Job>) {
    && |before| == |after|
    && forall j | 0 <= j < |before| ::
         && after[j] == before[j].(status := after[j].status, deadline := after[j].deadline, result := after[j].result)
         && (after[j].status.Active() ==> before[j].status.Active())
         && JobOk(after[j])
  }

  lemma StatusChangeKeepsStoreOk(st: Store, st': Store)
    requires StoreOk(st) && st'.shards == st.shards && OnlyStatus(st.jobs, st'.jobs)
    ensures StoreOk(st')
  {
    forall j | 0 <= j < |st'.jobs| ensures RangesOk(st', j) && AccountOk(st', j) {
      assert RangesOk(st, j) && AccountOk(st, j);
    }
    forall i | 0 <= i < |st'.shards| ensures ShardOk(st', st'.shards[i]) {
      assert ShardOk(st, st.shards[i]);
    }
  }

  lemma CreateJobKeepsStoreOk(st: Store, user: nat, key: Option<string>, priority: int)
    requires StoreOk(st)
    ensures StoreOk(CreateJob(st, user, key, priority).0)
  {
    var st' := CreateJob(st, user, key, priority).0;
    if st' != st {
      var n := |st.jobs|;
      forall i | 0 <= i < |st.shards| ensures ShardOk(st', st'.shards[i]) && st.shards[i].job != n {
        assert ShardOk(st, st.shards[i]);
      }
      ProcessedWithoutShards(st.shards, n);
      forall j | 0 <= j < |st'.jobs| ensures JobOk(st'.jobs[j]) && RangesOk(st', j) && AccountOk(st', j) {
        if j < n { assert JobOk(st.jobs[j]) && RangesOk(st, j) && AccountOk(st, j); }
      }
    }
  }

  lemma CancelJobKeepsStoreOk(st: Store, user: nat, j: JobId)
    requires StoreOk(st)
    ensures StoreOk(CancelJob(st, user, j).0)
  {
    var st' := CancelJob(st, user, j).0;
    if j < |st.jobs| { assert JobOk(st.jobs[j]); }
    StatusChangeKeepsStoreOk(st, st');
  }

  lemma FinalizeKeepsStoreOk(st: Store, j: JobId, w: Winner, verified: bool)
    requires StoreOk(st)
    ensures StoreOk(Finalize(st, j, w, verified).0)
  {
    var st' := Finalize(st, j, w, verified).0;
    if j < |st.jobs| { assert JobOk(st.jobs[j]); }
    StatusChangeKeepsStoreOk(st, st');
  }

  lemma CheckDeadlineKeepsStoreOk(st: Store, j: JobId, now: int)
    requires StoreOk(st)
    ensures StoreOk(CheckDeadline(st, j, now).0)
  {
    var st' := CheckDeadline(st, j, now).0;
    if j < |st.jobs| { assert JobOk(st.jobs[j]); }
    StatusChangeKeepsStoreOk(st, st');
  }

  lemma RecoverTouches(st: Store)
    ensures var st' := Recover(st);
      && |st'.jobs| == |st.jobs| && |st'.shards| == |st.shards|
      && (forall j | 0 <= j < |st.jobs| :: st'.jobs[j] == RecoverJob(st.jobs[j]))
      && (forall i | 0 <= i < |st.shards| :: st'.shards[i] == RecoverShard(st.shards[i]))
      && SameRanges(st.shards, st'.shards)
      && FirstActive(st'.jobs).None?
  {
  }

  lemma KeysStayUnique(before: seq<Job>, after: seq<Job>)
    requires KeysUnique(before) && |before| == |after|
    requires forall j | 0 <= j < |before| :: after[j].key == before[j].key && after[j].user == before[j].user
    ensures KeysUnique(after)
  {
  }

  lemma RecoverKeepsStoreOk(st: Store)
    requires StoreOk(st)
    ensures StoreOk(Recover(st))
  {
    var st' := Recover(st);
    RecoverTouches(st);
    forall i | 0 <= i < |st.shards| ensures ShardOk(st', st'.shards[i]) {
      assert ShardOk(st, st.shards[i]);
    }
    forall j | 0 <= j < |st.jobs| ensures JobOk(st'.jobs[j]) {
      assert JobOk(st.jobs[j]);
    }
    forall j | 0 <= j < |st.jobs| ensures RangesOk(st', j) {
      assert RangesOk(st, j);
      if st.jobs[j].searchOrigin.Some? {
        SameRangesTile(st.shards, st'.shards, j, st.jobs[j].searchOrigin.value);
      }
    }
    forall j | 0 <= j < |st.jobs| ensures AccountOk(st', j) {
      assert AccountOk(st, j);
      ProcessedOfCopies(st.shards, st'.shards, j);
    }
    KeysStayUnique(st.jobs, st'.jobs);
  }

  lemma ClaimKeepsStoreOk(st: Store, drawn: nat, now: int, timeout: int)
    requires StoreOk(st) && 1 <= drawn < SECP256K1_ORDER
    ensures StoreOk(Claim(st, drawn, now, timeout).0)
  {
    var (st', claimed) := Claim(st, drawn, now, timeout);
    if st' != st {
      var c := claimed.value;
      forall i | 0 <= i < |st.shards| ensures ShardOk(st', st'.shards[i]) {
        assert ShardOk(st, st.shards[i]);
      }
      forall j | 0 <= j < |st.jobs| ensures JobOk(st'.jobs[j]) && RangesOk(st', j) && AccountOk(st', j) {
        assert JobOk(st.jobs[j]) && RangesOk(st, j) && AccountOk(st, j);
        if j == c && st.jobs[c].searchOrigin.None? {
          forall i | 0 <= i < |st.shards| ensures st.shards[i].job != c {
            assert ShardOk(st, st.shards[i]);
          }
          NoShardsTile(st.shards, c, drawn);
        }
      }
    }
  }

  lemma {:induction false} NoShardsTile(shards: seq<Shard>, j: JobId, origin: nat)
    requires forall i | 0 <= i < |shards| :: shards[i].job != j
    ensures Tiles(shards, j, origin) && EndOf(shards, j, origin) == origin
  {
    if shards != [] {
      NoShardsTile(shards[..|shards| - 1], j, origin);
    }
  }

  /** Appending the next shard of job `j` extends its tiling and nobody else's. */
  lemma AppendShardTiles(shards: seq<Shard>, s: Shard, k: JobId, origin: nat)
    requires Tiles(shards, k, origin) && s.processed == 0
    requires s.job == k ==> s.count >= 1 && s.start == EndOf(shards, k, origin)
    ensures Tiles(shards + [s], k, origin)
    ensures EndOf(shards + [s], k, origin) == if s.job == k then s.start + s.count else EndOf(shards, k, origin)
    ensures Processed(shards + [s], k) == Processed(shards, k)
  {
    assert (shards + [s])[..|shards|] == shards;
  }

  lemma FreshStartIsTheEnd(st: Store, j: JobId)
    requires StoreOk(st) && j < |st.jobs| && st.jobs[j].nextOffset.Some?
    requires !StartTaken(st.shards, j, st.jobs[j].nextOffset.value)
    ensures st.jobs[j].searchOrigin.Some?
    ensures st.jobs[j].nextOffset.value == EndOf(st.shards, j, st.jobs[j].searchOrigin.value)
    ensures Tiles(st.shards, j, st.jobs[j].searchOrigin.value)
  {
    assert JobOk(st.jobs[j]) && RangesOk(st, j);
    var origin := st.jobs[j].searchOrigin.value;
    if EndOf(st.shards, j, origin) != origin {
      FreeStartIsNotOrigin(st.shards, j, origin);
    }
  }

  /** The tables after a shard was handed out. */
  lemma NewShardKeepsStoreOk(st: Store, st': Store, j: JobId, s: Shard)
    requires StoreOk(st) && j < |st.jobs| && st.jobs[j].nextOffset.Some?
    requires !StartTaken(st.shards, j, st.jobs[j].nextOffset.value)
    requires s.job == j && s.start == st.jobs[j].nextOffset.value && s.count >= 1 && s.processed == 0
    requires s.start + s.count < SECP256K1_ORDER
    requires st'.shards == st.shards + [s]
    requires st'.jobs == st.jobs[j := st.jobs[j].(nextOffset := Some(s.start + s.count))]
    ensures StoreOk(st')
  {
    FreshStartIsTheEnd(st, j);
    forall i | 0 <= i < |st'.shards| ensures ShardOk(st', st'.shards[i]) {
      assert JobOk(st.jobs[j]);
      if i < |st.shards| { assert ShardOk(st, st.shards[i]); }
    }
    forall k | 0 <= k < |st.jobs| ensures JobOk(st'.jobs[k]) && RangesOk(st', k) && AccountOk(st', k) {
      assert JobOk(st.jobs[k]) && RangesOk(st, k) && AccountOk(st, k);
      if st.jobs[k].searchOrigin.Some? {
        AppendShardTiles(st.shards, s, k, st.jobs[k].searchOrigin.value);
      } else {
        NewShardNotOf(st.shards, s, k);
      }
    }
    KeysStayUnique(st.jobs, st'.jobs);
  }

  lemma NewShardNotOf(shards: seq<Shard>, s: Shard, k: JobId)
    requires s.processed == 0
    ensures Processed(shards + [s], k) == Processed(shards, k)
  {
    assert (shards + [s])[..|shards|] == shards;
  }

  lemma AllocateKeepsStoreOk(st: Store, j: JobId, g: Gpu, lease: nat, shardSeconds: int, batchMs: nat)
    requires StoreOk(st)
    ensures StoreOk(Allocate(st, j, g, lease, shardSeconds, batchMs).0)
  {
    var (st', outcome) := Allocate(st, j, g, lease, shardSeconds, batchMs);
    if outcome.Allocated? {
      NewShardKeepsStoreOk(st, st', j, st'.shards[|st.shards|]);
    } else {
      if j < |st.jobs| { assert JobOk(st.jobs[j]); }
      StatusChangeKeepsStoreOk(st, st');
    }
  }

  /**
   A handed-out shard starts where the job's earlier shards end, becomes the last row, and moves the
   end and the next offset to its own end; no other job's range changes.
   */
  lemma AllocationExtendsTiling(st: Store, j: JobId, g: Gpu, lease: nat, shardSeconds: int, batchMs: nat, k: JobId)
    requires StoreOk(st) && Allocate(st, j, g, lease, shardSeconds, batchMs).1.Allocated?
    ensures var (st', outcome) := Allocate(st, j, g, lease, shardSeconds, batchMs);
      var a := outcome.assignment;
      && j < |st.jobs| && st.jobs[j].searchOrigin.Some?
      && var origin := st.jobs[j].searchOrigin.value;
         && a.start == EndOf(st.shards, j, origin) && a.shard == |st.shards| && a.count >= 1
         && st'.shards == st.shards + [Shard(j, g, lease, a.start, a.count, 0, ShardStatus.Assigned)]
         && EndOf(st'.shards, j, origin) == a.start + a.count && Tiles(st'.shards, j, origin)
         && st'.jobs == st.jobs[j := st.jobs[j].(nextOffset := Some(a.start + a.count))]
         && (k != j && k < |st.jobs| && st.jobs[k].searchOrigin.Some? ==>
               EndOf(st'.shards, k, st.jobs[k].searchOrigin.value)
                 == EndOf(st.shards, k, st.jobs[k].searchOrigin.value))
  {
    hide Tiles, EndOf, StartTaken;
    FreshStartIsTheEnd(st, j);
    var st' := Allocate(st, j, g, lease, shardSeconds, batchMs).0;
    AppendShardTiles(st.shards, st'.shards[|st.shards|], j, st.jobs[j].searchOrigin.value);
    if k != j && k < |st.jobs| && st.jobs[k].searchOrigin.Some? {
      assert RangesOk(st, k);
      AppendShardTiles(st.shards, st'.shards[|st.shards|], k, st.jobs[k].searchOrigin.value);
    }
  }

  // ---- Worker events --------------------------------------------------------------------------

  /** What the worker loops promise about an event that reaches its shard. */
  predicate Honest(st: Store, e: WorkerEvent) {
    var shard := MatchingShard(st.shards, e);
    shard.Some? ==>
      var s := st.shards[shard.value];
      && ((e.kind.PROGRESS? || e.kind.FOUND?) ==> e.processed <= s.count)
      && ((e.kind.EXHAUSTED? || e.kind.CANCELED?) ==> e.processed <= s.processed)
      && (e.kind.FOUND? ==> e.address.Some? && e.offset.Some?)
  }

  lemma SetShardKeepsStoreOk(st: Store, i: ShardId, status: ShardStatus)
    requires StoreOk(st) && i < |st.shards|
    ensures StoreOk(SetShard(st, i, status, st.shards[i].processed))
  {
    var st' := SetShard(st, i, status, st.shards[i].processed);
    forall k | 0 <= k < |st.shards| ensures ShardOk(st', st'.shards[k]) {
      assert ShardOk(st, st.shards[k]);
    }
    forall j | 0 <= j < |st.jobs| ensures RangesOk(st', j) && AccountOk(st', j) {
      assert RangesOk(st, j) && AccountOk(st, j);
      ProcessedOfCopies(st.shards, st'.shards, j);
      if st.jobs[j].searchOrigin.Some? {
        SameRangesTile(st.shards, st'.shards, j, st.jobs[j].searchOrigin.value);
      }
    }
  }

  /** The tables after one shard reported more progress and its job was credited with it. */
  lemma ProgressKeepsStoreOk(st: Store, st': Store, i: ShardId, s: Shard)
    requires StoreOk(st) && i < |st.shards|
    requires s == st.shards[i].(status := s.status, processed := s.processed)
    requires st.shards[i].processed <= s.processed <= s.count
    requires st'.shards == st.shards[i := s] && s.job < |st.jobs|
    requires st'.jobs == st.jobs[s.job :=
      st.jobs[s.job].(attempts := st.jobs[s.job].attempts + (s.processed - st.shards[i].processed))]
    ensures StoreOk(st')
  {
    forall k | 0 <= k < |st.shards| ensures ShardOk(st', st'.shards[k]) {
      assert ShardOk(st, st.shards[k]);
    }
    forall j | 0 <= j < |st.jobs| ensures JobOk(st'.jobs[j]) && RangesOk(st', j) && AccountOk(st', j) {
      assert JobOk(st.jobs[j]) && RangesOk(st, j) && AccountOk(st, j);
      ProcessedAfterUpdate(st.shards, i, s, j);
      if st.jobs[j].searchOrigin.Some? {
        SameRangesTile(st.shards, st'.shards, j, st.jobs[j].searchOrigin.value);
      }
    }
    KeysStayUnique(st.jobs, st'.jobs);
  }

  lemma CreditKeepsStoreOk(st: Store, i: ShardId, status: ShardStatus, total: nat)
    requires StoreOk(st) && i < |st.shards| && total <= st.shards[i].count
    ensures StoreOk(Credit(st, i, status, total))
  {
    assert ShardOk(st, st.shards[i]);
    ProgressKeepsStoreOk(st, Credit(st, i, status, total), i, Credit(st, i, status, total).shards[i]);
  }

  lemma RejectWinnerKeepsStoreOk(st: Store, i: ShardId, g: Gpu)
    requires StoreOk(st) && i < |st.shards| && g in st.devices
    requires st.shards[i].job < |st.jobs| ==> st.jobs[st.shards[i].job].status.Accepting()
    ensures StoreOk(RejectWinner(st, i, g))
  {
    var st1 := SetShard(st, i, ShardStatus.Failed, st.shards[i].processed);
    SetShardKeepsStoreOk(st, i, ShardStatus.Failed);
    var j := st.shards[i].job;
    if j < |st.jobs| { assert JobOk(st1.jobs[j]); }
    StatusChangeKeepsStoreOk(st1, RejectWinner(st, i, g));
  }

  lemma RecordFoundKeepsStoreOk(st: Store, i: ShardId, e: WorkerEvent, verified: bool)
    requires StoreOk(st) && i < |st.shards| && e.gpu in st.devices
    requires e.processed <= st.shards[i].count && e.address.Some? && e.offset.Some?
    ensures StoreOk(RecordFound(st, i, e, verified))
  {
    var st1 := Credit(st, i, ShardStatus.Found, e.processed);
    CreditKeepsStoreOk(st, i, ShardStatus.Found, e.processed);
    assert ShardOk(st1, st1.shards[i]);
    var j := st1.shards[i].job;
    assert JobOk(st1.jobs[j]);
    var w := Winner(e.address.value, e.offset.value);
    FinalizeKeepsStoreOk(st1, j, w, verified);
    match Finalize(st1, j, w, verified).1
    case StateConflict => SetShardKeepsStoreOk(st1, i, ShardStatus.Canceled);
    case VerificationFailed => RejectWinnerKeepsStoreOk(st1, i, e.gpu);
    case _ =>
  }

  lemma RecordEventKeepsStoreOk(st: Store, e: WorkerEvent, verified: bool)
    requires StoreOk(st) && Honest(st, e)
    ensures StoreOk(RecordEvent(st, e, verified))
  {
    if e.gpu in st.devices {
      var st1 := st.(devices := st.devices[e.gpu := DeviceAfter(st.devices[e.gpu], e)]);
      StatusChangeKeepsStoreOk(st, st1);
      var shard := MatchingShard(st1.shards, e);
      if shard.Some? {
        var i := shard.value;
        match e.kind
        case STARTED => SetShardKeepsStoreOk(st1, i, ShardStatus.Running);
        case PROGRESS => CreditKeepsStoreOk(st1, i, st1.shards[i].status, e.processed);
        case EXHAUSTED => SetShardKeepsStoreOk(st1, i, ShardStatus.Exhausted);
        case FOUND => RecordFoundKeepsStoreOk(st1, i, e, verified);
        case CANCELED => SetShardKeepsStoreOk(st1, i, ShardStatus.Canceled);
        case FAILED => SetShardKeepsStoreOk(st1, i, ShardStatus.Failed);
        case _ =>
      }
    }
  }
}
