/** The scheduler: which requests the next model run serves, and what happens to the others when
    pages run out. */
module Scheduling {
  import opened Wrappers
  import opened PrefixView
  import opened RadixCache
  import opened Pages
  import opened Pool
  import opened PoolSteps
  import opened PoolWrites
  import opened Compression
  import opened Allocation
  import opened Sequences
  import opened Blocks
  import opened KvReclaim
  import opened KvAdmission
  import opened Queues
  import Relevance
  import opened Progress
  import opened Finishing

  datatype PendingRestore = PendingRestore(sequence: Sequence, totalCachedBlocks: nat, restoredBlocks: nat)

  /** What came of trying to admit a waiting request. */
  datatype Admission = Go(tokens: nat, cachedBlocks: nat) | Refused | Deferred | OnlyResidents | RestoreStarted

  /** What a scheduling call hands to the engine. `Retry` and `NoRunnable` are its failures. */
  datatype Outcome = Scheduled(batch: seq<Sequence>, prefill: bool) | AwaitRestores | Retry | NoRunnable
  {
    function Batch(): seq<Sequence> {
      if Scheduled? then batch else []
    }
  }

  datatype CompressionPolicy =
    | NoCompression
    | SinkRecent(sink: nat, recent: nat)
    | QueryAware(sink: nat, recent: nat, important: nat, queryTokens: nat)

  /** The numbers of the requests in a queue. */
  ghost function Ids(ss: seq<Sequence>): (ids: seq<nat>)
    ensures |ids| == |ss| && forall k | 0 <= k < |ss| :: ids[k] == ss[k].seqId
  {
    if ss == [] then [] else Ids(ss[..|ss|-1]) + [ss[|ss|-1].seqId]
  }

  ghost function Totals(pending: map<nat, PendingRestore>): map<nat, nat> {
    map k | k in pending :: pending[k].totalCachedBlocks
  }

  lemma TotalsUpdate(pending: map<nat, PendingRestore>, k: nat, restore: PendingRestore)
    ensures Totals(pending[k := restore]) == Totals(pending)[k := restore.totalCachedBlocks]
    ensures pending[k := restore] != map[]
  {
    assert k in pending[k := restore];
  }

  lemma IdsMembers(ss: seq<Sequence>, id: nat)
    requires forall t | t in ss :: t.seqId != id
    ensures id !in Ids(ss)
  {
    forall k | 0 <= k < |ss|
      ensures Ids(ss)[k] != id
    {
      assert ss[k] in ss;
    }
  }

  lemma IdsHas(ss: seq<Sequence>, s: Sequence)
    requires s in ss
    ensures s.seqId in Ids(ss)
  {
    var k :| 0 <= k < |ss| && ss[k] == s;
    assert Ids(ss)[k] == s.seqId;
  }

  lemma TotalsRemove(pending: map<nat, PendingRestore>, k: nat)
    ensures Totals(pending - {k}) == Totals(pending) - {k}
  {
  }

  lemma IdsAppend(ss: seq<Sequence>, s: Sequence)
    ensures Ids(ss + [s]) == Ids(ss) + [s.seqId] && Ids([s] + ss) == [s.seqId] + Ids(ss)
  {
  }

  lemma {:induction false} IdsRemove(ss: seq<Sequence>, s: Sequence)
    requires forall t | t in ss :: t.seqId == s.seqId ==> t == s
    ensures Ids(Remove(ss, s)) == Remove(Ids(ss), s.seqId)
  {
    if ss != [] {
      assert ss[0] in ss && Ids(ss)[0] == ss[0].seqId;
      assert Ids(ss)[1..] == Ids(ss[1..]);
      IdsRemove(ss[1..], s);
      IdsAppend(Remove(ss[1..], s), ss[0]);
    }
  }

  lemma {:induction false} RemoveShorter(ss: seq<Sequence>, s: Sequence)
    requires s in ss
    ensures |Remove(ss, s)| == |ss| - 1
  {
    if ss[0] != s {
      RemoveShorter(ss[1..], s);
    }
  }

  lemma {:induction false} RemoveIn(ss: seq<Sequence>, s: Sequence)
    ensures forall t :: t in Remove(ss, s) ==> t in ss
  {
    if ss != [] {
      RemoveIn(ss[1..], s);
    }
  }

  /** How many tokens a batch has scheduled. */
  ghost function TokensOf(batch: seq<Sequence>): nat
    reads batch`scheduledTokens
  {
    if batch == [] then 0 else TokensOf(batch[..|batch|-1]) + batch[|batch|-1].scheduledTokens
  }

  lemma TokensOfMore(batch: seq<Sequence>, s: Sequence)
    ensures TokensOf(batch + [s]) == TokensOf(batch) + s.scheduledTokens
  {
    assert (batch + [s])[..|batch|] == batch;
  }

  lemma NothingQueued(pool: Pool)
    requires pool.Inv() && pool.bs >= 2 && pool.reqs == []
    ensures Ids([]) == [] && Totals(map[]) == map[] && Sched(pool, [], [], map[], [], {}).Inv()
  {
  }

  class Scheduler {
    const blockManager: BlockManager
    const maxSeqs: nat
    const maxBatchedTokens: nat
    const maxActiveSeqs: Option<nat>
    const admissionLookahead: nat
    const reclaimPolicy: ReclaimPolicy
    const reclaimTargetFree: nat
    const compression: CompressionPolicy
    const compressionTrigger: real
    const restores: bool      // a remote restore service is attached
    const eos: Token
    var waiting: seq<Sequence>
    var running: seq<Sequence>
    var pendingRestores: map<nat, PendingRestore>

    ghost predicate Configured() {
      && 1 <= maxSeqs && 1 <= maxBatchedTokens && (maxActiveSeqs.Some? ==> 1 <= maxActiveSeqs.value)
      && reclaimPolicy.Valid()
      && (compression.SinkRecent? ==> 1 <= compression.sink && 1 <= compression.recent)
      && (compression.QueryAware? ==> 1 <= compression.sink && 1 <= compression.recent
                                      && 1 <= compression.important && 1 <= compression.queryTokens)
    }

    ghost function State(batch: seq<Sequence>, held: set<nat>): Sched
      reads this, blockManager, blockManager.requests, blockManager.radixCache
    {
      Sched(blockManager.Snapshot(), Ids(waiting), Ids(running), Totals(pendingRestores), Ids(batch), held)
    }

    /** Everything queued is registered under its number. */
    ghost predicate Linked(batch: seq<Sequence>)
      reads this, blockManager, blockManager.requests, blockManager.radixCache, blockManager.radixCache.nodes
    {
      && Configured() && blockManager.Linked()
      && (forall s | s in waiting :: blockManager.Knows(s)) && (forall s | s in running :: blockManager.Knows(s))
      && (forall s | s in batch :: blockManager.Knows(s))
      && (forall k | k in pendingRestores ::
           blockManager.Knows(pendingRestores[k].sequence) && pendingRestores[k].sequence.seqId == k)
    }

    /** Consistent in the middle of a step: `batch` is scheduled so far, and the running requests
        `held` are off their queue. */
    ghost predicate Ready(batch: seq<Sequence>, held: set<nat>)
      reads this, blockManager, blockManager.requests, blockManager.radixCache, blockManager.radixCache.nodes
    {
      Linked(batch) && State(batch, held).Inv()
    }

    ghost predicate Valid()
      reads this, blockManager, blockManager.requests, blockManager.radixCache, blockManager.radixCache.nodes
    {
      Ready([], {})
    }

    constructor (numBlocks: nat, blockSize: nat, seqs: nat, batchedTokens: nat, activeSeqs: Option<nat>, lookahead: nat,
                 reclaim: ReclaimPolicy, targetFree: nat, compress: CompressionPolicy, trigger: real, remote: bool,
                   eosToken: Token)
      requires 2 <= blockSize && 1 <= seqs && 1 <= batchedTokens && (activeSeqs.Some? ==> 1 <= activeSeqs.value)
        && reclaim.Valid()
      requires compress.SinkRecent? ==> 1 <= compress.sink && 1 <= compress.recent
      requires compress.QueryAware? ==>
        1 <= compress.sink && 1 <= compress.recent && 1 <= compress.important && 1 <= compress.queryTokens
      ensures Valid() && waiting == [] && running == [] && pendingRestores == map[] && fresh(blockManager)
      ensures blockManager.requests == [] && |blockManager.refCounts| == numBlocks
        && blockManager.blockSize == blockSize
    {
      hide Sched.Inv, Pool.Inv, Ids, Totals, RadixPrefixCache.Valid, RadixPrefixCache.Shape;
      blockManager := new BlockManager(numBlocks, blockSize);
      maxSeqs, maxBatchedTokens, maxActiveSeqs, admissionLookahead := seqs, batchedTokens, activeSeqs, lookahead;
      reclaimPolicy, reclaimTargetFree, compression, compressionTrigger := reclaim, targetFree, compress, trigger;
      restores, eos := remote, eosToken;
      waiting, running, pendingRestores := [], [], map[];
      new;
      NothingQueued(blockManager.Snapshot());
    }

    lemma Parts(batch: seq<Sequence>, held: set<nat>)
      requires Ready(batch, held)
      ensures blockManager.Valid() && State(batch, held).QueuesOk()
    {
    }

    lemma At(batch: seq<Sequence>, held: set<nat>, s: Sequence)
      requires Ready(batch, held) && blockManager.Knows(s)
      ensures var st := State(batch, held);
        && s.seqId < |st.pool.reqs| && st.pool.reqs[s.seqId] == s.State() && st.pool.bs >= 2
        && st.Placed(s.seqId) && st.Duty(s.seqId) && s.State().TableOk(st.pool.bs)
    {
      assert State(batch, held).Placed(s.seqId) && State(batch, held).Duty(s.seqId);
      assert blockManager.Snapshot().ReqOk(s.seqId);
    }

    // ---------- making room ----------

    method ApplyReclaim(s: Sequence, keep: nat, ghost batch: seq<Sequence>, ghost held: set<nat>)
      requires Linked(batch) && blockManager.Valid() && blockManager.Knows(s) && !s.compressed
      requires keep <= |s.blockTable| && Start(keep, blockManager.blockSize) <= s.cachedTokens
      modifies blockManager`freeBlockIds, blockManager`usedBlockIds, blockManager`refCounts,
        blockManager`pendingResumeMatches
      modifies s`blockTable, s`logicalIndices, s`cachedTokens, s`physicalCachedTokens, s`compressed
      ensures Linked(batch) && blockManager.Valid() && Releasable(old(blockManager.Snapshot()), s.seqId, keep)
      ensures State(batch, held)
        == old(State(batch, held)).(pool := Release(old(blockManager.Snapshot()), s.seqId, keep))
    {
      hide RadixPrefixCache.Valid, Pool.Inv, BlockManager.Snapshot, Release, Releasable;
      var freed := blockManager.ReclaimSuffix(s, keep);
    }

    /** The waiting requests that own pages, `except` aside. */
    method Residents(except: Sequence?) returns (rs: seq<Sequence>)
      ensures forall t :: t in rs <==> t in waiting && t != except && t.blockTable != []
    {
      rs := [];
      for k := 0 to |waiting|
        invariant forall t :: t in rs <==> t in waiting[..k] && t != except && t.blockTable != []
      {
        if waiting[k] != except && waiting[k].blockTable != [] {
          rs := rs + [waiting[k]];
        }
      }
    }

    /** The waiting request `v` gives back every page. */
    method ReclaimAll(v: Sequence, ghost batch: seq<Sequence>)
      requires Ready(batch, {}) && v in waiting && v.blockTable != [] && AllRunning(batch)
      modifies blockManager`freeBlockIds, blockManager`usedBlockIds, blockManager`refCounts,
        blockManager`pendingResumeMatches
      modifies v`blockTable, v`logicalIndices, v`cachedTokens, v`physicalCachedTokens, v`compressed
      ensures Ready(batch, {}) && State(batch, {}) == old(State(batch, {})).(pool := blockManager.Snapshot())
      ensures v.blockTable == [] && SamePages(old(blockManager.Snapshot()), blockManager.Snapshot())
      ensures blockManager.Snapshot().reqs
        == old(blockManager.Snapshot()).reqs[v.seqId := Kept(old(v.State()), 0, blockManager.blockSize)]
    {
      At(batch, {}, v);
      NotInBatch(batch, v);
      Parts(batch, {});
      blockManager.Fields(v);
      var budget: Budget := *;
      var decision := ReclaimPolicy.Recompute.Plan(v.State(), blockManager.blockSize, budget, 1);
      hide RadixPrefixCache.Valid, Pool.Inv, Release, Releasable;
      StartIs(0, blockManager.blockSize);
      ghost var st := State(batch, {});
      ApplyReclaim(v, decision.keepBlocks, batch, {});
      ReclaimWaitingInv(st, v.seqId, 0);
      ReleaseView(st.pool, v.seqId, 0);
      blockManager.Fields(v);
    }

    /** A waiting request is not among running ones. */
    lemma NotInBatch(batch: seq<Sequence>, s: Sequence)
      requires Ready(batch, {}) && s in waiting && AllRunning(batch)
      ensures s.seqId !in Ids(batch)
    {
      At(batch, {}, s);
      forall k | 0 <= k < |batch|
        ensures Ids(batch)[k] != s.seqId
      {
        assert batch[k] in batch;
        var j :| 0 <= j < |running| && running[j] == batch[k];
        var i :| 0 <= i < |waiting| && waiting[i] == s;
        assert Ids(running)[j] == batch[k].seqId && Ids(waiting)[i] == s.seqId;
        At(batch, {}, batch[k]);
      }
    }

    /** Whether `s` can complete its table now. */
    method AskResume(s: Sequence, ghost batch: seq<Sequence>) returns (ready: bool)
      requires Ready(batch, {}) && s in waiting
      modifies blockManager`pendingResumeMatches, blockManager.radixCache`clock,
        blockManager.radixCache.nodes`lastAccess
      ensures Ready(batch, {}) && State(batch, {}) == old(State(batch, {}))
      ensures ready ==> s.seqId in blockManager.pendingResumeMatches
      ensures ready ==> ResumePlan(blockManager.Snapshot(), s.seqId, blockManager.pendingResumeMatches[s.seqId])
      ensures !ready ==> !CanComplete(blockManager.Snapshot(), s.seqId)
    {
      hide RadixPrefixCache.Valid, Pool.Inv, ResumePlan, ContinuesTable, Affordable;
      At(batch, {}, s);
      var r := blockManager.CanResume(s);
      return r.Ready?;
    }

    /** `v` gives back its pages so that `s` can complete its table. */
    method GiveBackFor(v: Sequence, s: Sequence, ghost before: Pool, ghost batch: seq<Sequence>)
      requires Ready(batch, {}) && v in waiting && s in waiting && v.blockTable != [] && AllRunning(batch)
      requires Made(before, blockManager.Snapshot(), s.seqId) && !CanComplete(blockManager.Snapshot(), s.seqId)
      modifies blockManager`freeBlockIds, blockManager`usedBlockIds, blockManager`refCounts,
        blockManager`pendingResumeMatches
      modifies v`blockTable, v`logicalIndices, v`cachedTokens, v`physicalCachedTokens, v`compressed
      ensures Ready(batch, {}) && State(batch, {}) == old(State(batch, {})).(pool := blockManager.Snapshot())
      ensures v.blockTable == [] && Made(before, blockManager.Snapshot(), s.seqId)
      ensures Total(blockManager.Snapshot().reqs, TableSize) < Total(old(blockManager.Snapshot()).reqs, TableSize)
    {
      At(batch, {}, v);
      At(batch, {}, s);
      StateIs(batch, {});
      hide Ready, State, BlockManager.Snapshot, Made, CanComplete;
      ghost var q := blockManager.Snapshot();
      ReclaimAll(v, batch);
      StateIs(batch, {});
      MadeMore(before, q, blockManager.Snapshot(), s.seqId, v.seqId);
    }

    lemma Known(batch: seq<Sequence>, held: set<nat>, s: Sequence)
      requires Ready(batch, held) && (s in waiting || s in running || s in batch)
      ensures blockManager.Knows(s)
    {
    }

    /** The definition of the state, part by part. */
    lemma StateIs(batch: seq<Sequence>, held: set<nat>)
      ensures var st := State(batch, held);
        && st.pool == blockManager.Snapshot() && st.pool.bs == blockManager.blockSize && st.waiting == Ids(waiting)
             && st.running == Ids(running)
        && st.pending == Totals(pendingRestores) && st.batch == Ids(batch) && st.held == held
    {
    }

    /** With everybody waiting and nobody owning pages, anybody can get its table. */
    lemma ResumesFromNothing(batch: seq<Sequence>, s: Sequence)
      requires Ready(batch, {}) && s in waiting && running == [] && pendingRestores == map[]
      requires NothingHeld()
      ensures CanComplete(blockManager.Snapshot(), s.seqId)
        && s.State().NumBlocks(blockManager.blockSize) <= |blockManager.freeBlockIds|
    {
      var st := State(batch, {});
      At(batch, {}, s);
      forall k | k in st.waiting
        ensures st.pool.reqs[k].blockTable == []
      {
        var j :| 0 <= j < |waiting| && Ids(waiting)[j] == k;
        At(batch, {}, waiting[j]);
      }
      hide Ready, Sched.Inv, CanComplete;
      NobodyOwns(st);
      FitsPool(st, s.seqId);
      EasyCompletes(st.pool, s.seqId);
    }

    /** What is scheduled so far is on the running queue. */
    ghost predicate AllRunning(batch: seq<Sequence>)
      reads `running
    {
      forall t | t in batch :: t in running
    }

    ghost predicate NothingHeld()
      reads `waiting, waiting
    {
      forall t | t in waiting :: t.blockTable == []
    }

    /** One round: `s` can complete its table, or somebody gives back pages, or nobody may. */
    method MakeRoom(s: Sequence, ghost before: Pool, ghost batch: seq<Sequence>) returns (ready: bool, stuck: bool)
      requires Ready(batch, {}) && s in waiting && s.blockTable != [] && AllRunning(batch)
      requires Made(before, blockManager.Snapshot(), s.seqId)
      modifies blockManager`freeBlockIds, blockManager`usedBlockIds, blockManager`refCounts,
        blockManager`pendingResumeMatches
      modifies blockManager.radixCache`clock, blockManager.radixCache.nodes`lastAccess
      modifies waiting
      ensures Ready(batch, {}) && State(batch, {}) == old(State(batch, {})).(pool := blockManager.Snapshot())
      ensures Made(before, blockManager.Snapshot(), s.seqId)
      ensures s.blockTable == [] ==> running == [] && NothingHeld()
      ensures ready ==>
        CanComplete(blockManager.Snapshot(), s.seqId) && blockManager.Snapshot() == old(blockManager.Snapshot())
      ensures stuck ==> running != []
      ensures !ready && !stuck ==>
        Total(blockManager.Snapshot().reqs, TableSize) < Total(old(blockManager.Snapshot()).reqs, TableSize)
    {
      hide Ready, ResumePlan, CanComplete, State, BlockManager.Snapshot, Made, Total, Linked;
      ghost var i := s.seqId;
      StateIs(batch, {});
      ready := AskResume(s, batch);
      StateIs(batch, {});
      if ready {
        InvOf(batch, {});
        PlanCompletes(blockManager.Snapshot(), i, blockManager.pendingResumeMatches[i]);
        return true, false;
      }
      var candidates := Residents(s);
      if candidates != [] {
        assert candidates[0] in candidates;
        var v :| v in candidates;
        GiveBackFor(v, s, before, batch);
      } else if running != [] {
        return false, true;
      } else {
        GiveBackFor(s, s, before, batch);
      }
      return false, false;
    }

    lemma InvOf(batch: seq<Sequence>, held: set<nat>)
      requires Ready(batch, held)
      ensures blockManager.Snapshot().Inv() && State(batch, held).Inv() && Linked(batch) && blockManager.Valid()
        && 2 <= blockManager.blockSize
    {
    }

    lemma MakeReady(batch: seq<Sequence>, held: set<nat>)
      requires Linked(batch) && State(batch, held).Inv()
      ensures Ready(batch, held)
    {
    }

    /** Round after round, until `s` can complete its table or nobody may give back any more. */
    method MakeRooms(s: Sequence, ghost batch: seq<Sequence>) returns (stuck: bool)
      requires Ready(batch, {}) && s in waiting && AllRunning(batch)
      requires Made(blockManager.Snapshot(), blockManager.Snapshot(), s.seqId)
      modifies blockManager`freeBlockIds, blockManager`usedBlockIds, blockManager`refCounts,
        blockManager`pendingResumeMatches
      modifies blockManager.radixCache`clock, blockManager.radixCache.nodes`lastAccess
      modifies waiting
      ensures Ready(batch, {}) && State(batch, {}) == old(State(batch, {})).(pool := blockManager.Snapshot())
      ensures Made(old(blockManager.Snapshot()), blockManager.Snapshot(), s.seqId)
      ensures s.blockTable == [] && old(s.blockTable) != [] ==> running == [] && NothingHeld()
      ensures if stuck then running != [] else s.blockTable == [] || CanComplete(blockManager.Snapshot(), s.seqId)
    {
      hide Ready, ResumePlan, CanComplete, State, BlockManager.Snapshot, Made, Total, NothingHeld, AllRunning;
      StateIs(batch, {});
      ghost var st := State(batch, {});
      var ready := false;
      while s.blockTable != [] && !ready
        invariant Ready(batch, {}) && State(batch, {}) == st.(pool := blockManager.Snapshot())
        invariant Made(st.pool, blockManager.Snapshot(), s.seqId)
        invariant s.blockTable == [] && old(s.blockTable) != [] ==> running == [] && NothingHeld()
        invariant ready ==> CanComplete(blockManager.Snapshot(), s.seqId)
        decreases Total(blockManager.Snapshot().reqs, TableSize), if ready then 0 else 1
      {
        ready, stuck := MakeRoom(s, st.pool, batch);
        if stuck {
          return;
        }
      }
      return false;
    }

    /** Waiting requests give back their pages until `s` can complete its table; `s` itself is the
        last to, and only when nobody is running. Fails only while somebody is running or
        restoring. */
    method EnsureResumeCapacity(s: Sequence, ghost batch: seq<Sequence>) returns (ok: bool)
      requires Ready(batch, {}) && s in waiting && s.blockTable != [] && AllRunning(batch)
      modifies blockManager`freeBlockIds, blockManager`usedBlockIds, blockManager`refCounts,
        blockManager`pendingResumeMatches
      modifies blockManager.radixCache`clock, blockManager.radixCache.nodes`lastAccess
      modifies waiting
      ensures Ready(batch, {}) && State(batch, {}) == old(State(batch, {})).(pool := blockManager.Snapshot())
      ensures Made(old(blockManager.Snapshot()), blockManager.Snapshot(), s.seqId)
      ensures s.blockTable == [] ==> running == [] && NothingHeld()
      ensures ok ==> s.seqId in blockManager.pendingResumeMatches
      ensures ok ==> ResumePlan(blockManager.Snapshot(), s.seqId, blockManager.pendingResumeMatches[s.seqId])
      ensures running == [] && pendingRestores == map[] ==> ok
    {
      hide Ready, ResumePlan, CanComplete, State, BlockManager.Snapshot, Made, NothingHeld, AllRunning, Sched.Placed,
        Sched.Duty, Request.TableOk;
      NoneMade(s, batch);
      var stuck := MakeRooms(s, batch);
      if stuck {
        return false;
      }
      ResumesWhenIdle(batch, s);
      StateIs(batch, {});
      ok := AskResume(s, batch);
      StateIs(batch, {});
    }

    lemma NoneMade(s: Sequence, batch: seq<Sequence>)
      requires Ready(batch, {}) && s in waiting
      ensures Made(blockManager.Snapshot(), blockManager.Snapshot(), s.seqId)
    {
      Known(batch, {}, s);
      At(batch, {}, s);
      MadeNothing(blockManager.Snapshot(), s.seqId);
    }

    lemma ResumesWhenIdle(batch: seq<Sequence>, s: Sequence)
      requires Ready(batch, {}) && s in waiting && (s.blockTable == [] ==> NothingHeld())
      requires s.blockTable == [] || CanComplete(blockManager.Snapshot(), s.seqId)
      ensures running == [] && pendingRestores == map[] ==> CanComplete(blockManager.Snapshot(), s.seqId)
    {
      hide Ready, CanComplete, State, BlockManager.Snapshot, NothingHeld;
      if running == [] && pendingRestores == map[] && s.blockTable == [] {
        ResumesFromNothing(batch, s);
      }
    }

    // ---------- admission ----------

    /** The pages planned for `s` are what the index has for it, and the free ones cover the rest. */
    ghost predicate Planned(s: Sequence, count: nat)
      reads blockManager, blockManager.requests, blockManager.radixCache
    {
      && Admittable(blockManager.Snapshot(), s.seqId, count)
      && (s.seqId in blockManager.pendingMatches && |blockManager.pendingMatches[s.seqId]| == count ==>
           Cached(blockManager.Snapshot(), s.seqId, blockManager.pendingMatches[s.seqId]))
    }

    /** Whether `s`, which owns nothing, can be admitted, and with how many cached pages. */
    method AskAllocate(s: Sequence, ghost batch: seq<Sequence>) returns (count: int)
      requires Ready(batch, {}) && s in waiting && s.blockTable == []
      modifies blockManager`pendingMatches, blockManager.radixCache`clock, blockManager.radixCache.nodes`lastAccess
      ensures Ready(batch, {}) && State(batch, {}) == old(State(batch, {})) && -1 <= count
      ensures count != -1 ==> Planned(s, count) && s.seqId in blockManager.pendingMatches
      ensures count == -1 ==> |blockManager.freeBlockIds| < s.State().NumBlocks(blockManager.blockSize)
    {
      hide RadixPrefixCache.Valid, Pool.Inv, Cached;
      At(batch, {}, s);
      count := blockManager.CanAllocate(s);
    }

    /** A plan that is not followed is forgotten. */
    method Forget(s: Sequence, ghost batch: seq<Sequence>)
      requires Ready(batch, {})
      modifies blockManager`pendingMatches
      ensures Ready(batch, {}) && State(batch, {}) == old(State(batch, {}))
    {
      hide BlockManager.Linked, BlockManager.Snapshot, Sched.Inv, Ids, Totals, Configured;
      blockManager.pendingMatches := blockManager.pendingMatches - {s.seqId};
    }

    /** A planned request keeps at least one token to compute. */
    lemma PlannedTokens(batch: seq<Sequence>, s: Sequence, count: nat)
      requires Ready(batch, {}) && s in waiting && Admittable(blockManager.Snapshot(), s.seqId, count)
      ensures Start(count, blockManager.blockSize) < |s.tokenIds|
    {
      At(batch, {}, s);
      var p := blockManager.Snapshot();
      var ids :| Cached(p, s.seqId, ids) && |ids| == count && Affordable(p, s.seqId, ids);
      hide Cached;
      CachedShort(p, s.seqId, ids);
      NeedsPages(s.State(), p.bs, count);
    }

    /** Try to fetch the prefix of `s` beyond its `local` cached pages from the remote store. If the
        transfer cannot be submitted, everything is as before and `s` can still be admitted with
        the same `local` pages. */
    method StartRemoteRestore(s: Sequence, local: nat, ghost batch: seq<Sequence>) returns (started: bool)
      requires Ready(batch, {}) && s in waiting && s.blockTable == [] && s.seqId !in Ids(batch) && Planned(s, local)
      modifies `waiting, `pendingRestores, blockManager, blockManager.radixCache, blockManager.radixCache.nodes, s
      ensures Ready(batch, {}) && blockManager.requests == old(blockManager.requests)
      ensures blockManager.radixCache.nodes <= old(blockManager.radixCache.nodes)
      ensures started ==> waiting == Remove(old(waiting), s) && pendingRestores != map[]
      ensures started ==> RestoreStep(old(blockManager.Snapshot()).reqs, blockManager.Snapshot().reqs)
      ensures !started ==>
        waiting == old(waiting) && pendingRestores == old(pendingRestores) && s.blockTable == [] && Planned(s, local)
      ensures !started ==> Untouched(old(blockManager.Snapshot()).reqs, blockManager.Snapshot().reqs)
    {
      hide Ready, State, BlockManager.Snapshot, Planned, RestoreStep, Admittable;
      StateIs(batch, {});
      if !restores || s.restoreAttempted {
        return false;
      }
      InvOf(batch, {});
      var found, remote := PlanRestore(s, local);
      if !found {
        return false;
      }
      started := *;
      if started {
        SubmitRestore(s, local, remote, batch);
      } else {
        FailSubmission(s, local, remote, batch);
      }
    }

    /** `s` owns its complete table, pages up to `remote` reserved, and is marked as restoring. */
    method Reserve(s: Sequence, local: nat, remote: nat, ghost batch: seq<Sequence>)
      returns (reserved: seq<BlockId>, ghost mid: Pool, ghost ids: seq<BlockId>)
      requires Ready(batch, {}) && s in waiting && s.blockTable == [] && s.seqId !in Ids(batch) && Planned(s, local)
      requires local < remote < s.State().NumBlocks(blockManager.blockSize)
      modifies blockManager, blockManager.radixCache, blockManager.radixCache.nodes, s
      ensures Linked(batch) && blockManager.Valid() && blockManager.requests == old(blockManager.requests)
      ensures blockManager.radixCache.nodes <= old(blockManager.radixCache.nodes)
      ensures mid.Inv() && Allocated(old(blockManager.Snapshot()), mid, s.seqId, ids) && Cached(mid, s.seqId, ids)
        && |ids| == local
      ensures Affordable(old(blockManager.Snapshot()), s.seqId, ids) && s.seqId !in blockManager.pendingMatches
      ensures |s.blockTable| == old(s.State()).NumBlocks(blockManager.blockSize)
        && reserved == s.blockTable[local..remote]
      ensures s.seqId < |mid.reqs| && blockManager.Snapshot() == SetReq(mid, s.seqId, Restoring(mid.reqs[s.seqId]))
      ensures State(batch, {}) == old(State(batch, {})).(pool := blockManager.Snapshot())
    {
      hide RadixPrefixCache.Valid, Pool.Inv, Cached, Affordable, Admittable;
      At(batch, {}, s);
      AdmittableAll(blockManager.Snapshot(), s.seqId, local);
      StartIs(0, blockManager.blockSize);
      var blocks;
      blocks, ids := blockManager.ReserveRestore(s, local, remote);
      mid := blockManager.Snapshot();
      blockManager.Fields(s);
      reserved := blocks.value;
      var ok := blockManager.BeginRestore(s);
    }

    method SubmitRestore(s: Sequence, local: nat, remote: nat, ghost batch: seq<Sequence>)
      requires Ready(batch, {}) && s in waiting && s.blockTable == [] && s.seqId !in Ids(batch) && Planned(s, local)
      requires local < remote < s.State().NumBlocks(blockManager.blockSize) && !s.restoreAttempted
      modifies `waiting, `pendingRestores, blockManager, blockManager.radixCache, blockManager.radixCache.nodes, s
      ensures Ready(batch, {}) && blockManager.requests == old(blockManager.requests)
      ensures blockManager.radixCache.nodes <= old(blockManager.radixCache.nodes)
      ensures waiting == Remove(old(waiting), s) && pendingRestores != map[]
      ensures RestoreStep(old(blockManager.Snapshot()).reqs, blockManager.Snapshot().reqs)
    {
      hide Ready, Linked, State, BlockManager.Valid, BlockManager.Snapshot, Planned, Allocated, RestoreStep, Sched.Inv,
        Pool.Inv, Sched.Placed, Sched.Duty, Ids, Totals, Remove, Request.TableOk, Cached, Affordable;
      ghost var st := State(batch, {});
      StateIs(batch, {});
      InvOf(batch, {});
      WaitingIs(batch, {}, s);
      ghost var mid, ids;
      var reserved;
      reserved, mid, ids := Reserve(s, local, remote, batch);
      DepartInv(st, mid, s.seqId, ids, remote);
      DepartStep(st, mid, s.seqId, ids, remote);
      StateIs(batch, {});
      Leave(s, remote, |reserved|, batch);
      StateIs(batch, {});
      assert State(batch, {}) == Depart(st, mid, s.seqId, remote);
      MakeReady(batch, {});
    }

    lemma WaitingIs(batch: seq<Sequence>, held: set<nat>, s: Sequence)
      requires Ready(batch, held) && s in waiting
      ensures blockManager.Knows(s) && s.status == Waiting && s.State() == State(batch, held).pool.reqs[s.seqId]
      ensures s.seqId < |State(batch, held).pool.reqs| && s.State().Live() && !s.compressed
    {
      At(batch, held, s);
      assert forall k | 0 <= k < |waiting| && waiting[k] == s :: Ids(waiting)[k] == s.seqId;
    }

    /** `s` moves from the waiting queue to the pending restores. */
    method Leave(s: Sequence, remote: nat, restored: nat, ghost batch: seq<Sequence>)
      requires Linked(batch) && blockManager.Knows(s)
      modifies `waiting, `pendingRestores
      ensures Linked(batch) && waiting == Remove(old(waiting), s) && pendingRestores != map[]
      ensures State(batch, {}) == old(State(batch, {})).(waiting := Remove(old(Ids(waiting)), s.seqId),
        pending := old(State(batch, {})).pending[s.seqId := remote])
    {
      hide BlockManager.Linked, BlockManager.Snapshot, Remove, Configured, Ids, Totals;
      QueueIds(batch, s);
      TotalsUpdate(pendingRestores, s.seqId, PendingRestore(s, remote, restored));
      waiting := Remove(waiting, s);
      pendingRestores := pendingRestores[s.seqId := PendingRestore(s, remote, restored)];
    }

    method FailSubmission(s: Sequence, local: nat, remote: nat, ghost batch: seq<Sequence>)
      requires Ready(batch, {}) && s in waiting && s.blockTable == [] && s.seqId !in Ids(batch) && Planned(s, local)
      requires local < remote < s.State().NumBlocks(blockManager.blockSize) && !s.restoreAttempted
      modifies blockManager, blockManager.radixCache, blockManager.radixCache.nodes, s
      ensures Ready(batch, {}) && blockManager.requests == old(blockManager.requests)
      ensures blockManager.radixCache.nodes <= old(blockManager.radixCache.nodes)
      ensures s.blockTable == [] && Planned(s, local)
      ensures RestoreStep(old(blockManager.Snapshot()).reqs, blockManager.Snapshot().reqs)
    {
      hide Ready, Linked, State, BlockManager.Valid, BlockManager.Snapshot, Allocated, RestoreStep, Sched.Inv, Pool.Inv,
        Sched.Placed, Sched.Duty, Ids, Totals, Remove, Request.TableOk, Cached, Affordable, Admittable, Release;
      ghost var st := State(batch, {});
      StateIs(batch, {});
      InvOf(batch, {});
      WaitingIs(batch, {}, s);
      ghost var mid, ids;
      var reserved;
      reserved, mid, ids := Reserve(s, local, remote, batch);
      StateIs(batch, {});
      AbortedStep(st, mid, s.seqId, ids);
      GiveUp(s, batch, mid);
      StateIs(batch, {});
      MakeReady(batch, {});
      WaitingIs(batch, {}, s);
    }

    method GiveUp(s: Sequence, ghost batch: seq<Sequence>, ghost mid: Pool)
      requires Linked(batch) && blockManager.Valid() && blockManager.Knows(s) && s.blockTable != []
        && s.seqId < |mid.reqs|
      requires blockManager.Snapshot() == SetReq(mid, s.seqId, Restoring(mid.reqs[s.seqId]))
      modifies blockManager`freeBlockIds, blockManager`usedBlockIds, blockManager`refCounts,
        blockManager`pendingResumeMatches, s
      ensures Linked(batch) && blockManager.Valid() && blockManager.requests == old(blockManager.requests)
      ensures Releasable(old(blockManager.Snapshot()), s.seqId, 0)
      ensures var q := Release(old(blockManager.Snapshot()), s.seqId, 0);
        s.seqId < |q.reqs| && State(batch, {})
          == old(State(batch, {})).(pool := SetReq(q, s.seqId, q.reqs[s.seqId].(status := Waiting)))
    {
      hide RadixPrefixCache.Valid, Pool.Inv, Release;
      blockManager.Fields(s);
      blockManager.AbortRestore(s);
      blockManager.Fields(s);
      var ok := blockManager.EndRestore(s);
    }

    /** Removing a request from the waiting queue removes its number from the numbers. */
    lemma QueueIds(batch: seq<Sequence>, s: Sequence)
      requires Linked(batch) && blockManager.Knows(s)
      ensures Ids(Remove(waiting, s)) == Remove(Ids(waiting), s.seqId)
      ensures Ids(Remove(running, s)) == Remove(Ids(running), s.seqId)
      ensures forall t :: t in Remove(waiting, s) ==> t in waiting
      ensures forall t :: t in Remove(running, s) ==> t in running
    {
      IdsRemove(waiting, s);
      IdsRemove(running, s);
      RemoveIn(waiting, s);
      RemoveIn(running, s);
    }

    /** What the catalog and the cost model offer: any prefix longer than the local one that leaves
        a page to compute, or nothing. */
    method PlanRestore(s: Sequence, local: nat) returns (found: bool, remote: nat)
      requires blockManager.blockSize > 0
      ensures found ==> local < remote < s.State().NumBlocks(blockManager.blockSize)
    {
      found := *;
      remote := *;
      if !(local < remote < s.NumBlocks(blockManager.blockSize)) {
        found := false;
      }
    }

    /** `s` completes its table, resuming from the prefix it kept. */
    method ResumeTable(s: Sequence, ghost batch: seq<Sequence>)
      requires Ready(batch, {}) && s in waiting && s.seqId !in Ids(batch)
        && s.seqId in blockManager.pendingResumeMatches
      requires ResumePlan(blockManager.Snapshot(), s.seqId, blockManager.pendingResumeMatches[s.seqId])
      modifies blockManager, blockManager.radixCache, blockManager.radixCache.nodes
      modifies s`blockTable, s`logicalIndices, s`cachedTokens, s`physicalCachedTokens
      ensures Ready(batch, {}) && State(batch, {}) == old(State(batch, {})).(pool := blockManager.Snapshot())
      ensures blockManager.requests == old(blockManager.requests)
        && blockManager.radixCache.nodes <= old(blockManager.radixCache.nodes)
      ensures blockManager.Snapshot().reqs == old(blockManager.Snapshot()).reqs[s.seqId := s.State()]
      ensures |s.blockTable| == s.State().NumBlocks(blockManager.blockSize)
        && old(s.cachedTokens) <= s.cachedTokens < |s.tokenIds|
    {
      hide RadixPrefixCache.Valid, Pool.Inv, ContinuesTable, ResumePlan, Affordable, Cached;
      ghost var st := State(batch, {});
      At(batch, {}, s);
      WaitingIs(batch, {}, s);
      ghost var suffix;
      var ok;
      ok, suffix := blockManager.Resume(s);
      blockManager.Fields(s);
      if |st.pool.reqs[s.seqId].blockTable| < s.State().NumBlocks(blockManager.blockSize) {
        ResumedShort(st.pool, s.seqId, suffix);
        StartMonotone(|st.pool.reqs[s.seqId].blockTable|, |st.pool.reqs[s.seqId].blockTable + suffix|, st.pool.bs);
        CompletedInv(st, blockManager.Snapshot(), s.seqId, st.pool.reqs[s.seqId].blockTable + suffix);
      }
    }

    /** `s`, which owns nothing, gets its whole table. */
    method AllocateTable(s: Sequence, count: nat, ghost batch: seq<Sequence>)
      requires Ready(batch, {}) && s in waiting && s.seqId !in Ids(batch) && s.blockTable == [] && Planned(s, count)
      modifies blockManager, blockManager.radixCache, blockManager.radixCache.nodes
      modifies s`blockTable, s`logicalIndices, s`cachedTokens, s`physicalCachedTokens
      ensures Ready(batch, {}) && State(batch, {}) == old(State(batch, {})).(pool := blockManager.Snapshot())
      ensures blockManager.requests == old(blockManager.requests)
        && blockManager.radixCache.nodes <= old(blockManager.radixCache.nodes)
      ensures blockManager.Snapshot().reqs == old(blockManager.Snapshot()).reqs[s.seqId := s.State()]
      ensures |s.blockTable| == s.State().NumBlocks(blockManager.blockSize)
        && s.cachedTokens == Start(count, blockManager.blockSize) < |s.tokenIds|
    {
      hide RadixPrefixCache.Valid, Pool.Inv, Affordable, Cached, Admittable;
      ghost var st := State(batch, {});
      At(batch, {}, s);
      WaitingIs(batch, {}, s);
      AdmittableAll(st.pool, s.seqId, count);
      StartIs(0, st.pool.bs);
      ghost var ids;
      var ok;
      ok, ids := blockManager.Allocate(s, count);
      blockManager.Fields(s);
      CachedShort(st.pool, s.seqId, ids);
      CompletedInv(st, blockManager.Snapshot(), s.seqId, ids);
    }

    /** `s` joins the batch with `n` of its uncomputed tokens. */
    method EnlistSequence(s: Sequence, n: nat, ghost batch: seq<Sequence>)
      requires Ready(batch, {}) && s in waiting && s.seqId !in Ids(batch)
      requires |s.blockTable| == s.State().NumBlocks(blockManager.blockSize) && 0 < n <= |s.tokenIds| - s.cachedTokens
      modifies `waiting, `running, s`status, s`scheduledTokens, s`isPrefill
      ensures Ready(batch + [s], {}) && State(batch + [s], {}) == Enlist(old(State(batch, {})), s.seqId, n)
      ensures s.State() == Enlisted(old(s.State()), n)
      ensures s.status == Running ==> waiting == Remove(old(waiting), s) && running == old(running) + [s]
      ensures s.status != Running ==> waiting == old(waiting) && running == old(running) && s.status == Waiting
    {
      hide Ready, Linked, State, BlockManager.Valid, BlockManager.Snapshot, Sched.Inv, Pool.Inv, Ids, Remove,
        Request.TableOk;
      ghost var st := State(batch, {});
      StateIs(batch, {});
      InvOf(batch, {});
      WaitingIs(batch, {}, s);
      EnlistInv(st, s.seqId, n);
      MarkLinked(s, if s.cachedTokens + n == |s.tokenIds| then Running else Waiting, n, s.isPrefill, batch, {});
      if s.status == Running {
        Promote(s, batch);
      }
      JoinBatch(s, batch, {});
      StateIs(batch + [s], {});
      MakeReady(batch + [s], {});
    }

    /** A mark on a request leaves the queues as they are. */
    method MarkLinked(s: Sequence, status: Status, scheduled: nat, prefill: bool, ghost batch: seq<Sequence>,
        ghost held: set<nat>)
      requires Linked(batch) && blockManager.Valid() && blockManager.Knows(s)
      modifies s`status, s`scheduledTokens, s`isPrefill
      ensures Linked(batch) && blockManager.Valid()
        && s.State() == old(s.State()).(status := status, scheduled := scheduled, prefill := prefill)
      ensures State(batch, held)
        == old(State(batch, held)).(pool := SetReq(old(blockManager.Snapshot()), s.seqId, s.State()))
    {
      hide RadixPrefixCache.Valid, Pool.Inv, Ids, Totals;
      blockManager.Mark(s, status, scheduled, prefill);
    }

    /** `s` moves from the waiting queue to the end of the running one. */
    method Promote(s: Sequence, ghost batch: seq<Sequence>)
      requires Linked(batch) && blockManager.Knows(s)
      modifies `waiting, `running
      ensures Linked(batch) && waiting == Remove(old(waiting), s) && running == old(running) + [s]
      ensures State(batch, {})
        == old(State(batch, {})).(waiting := Remove(old(Ids(waiting)), s.seqId),
        running := old(Ids(running)) + [s.seqId])
    {
      hide BlockManager.Linked, BlockManager.Snapshot, Remove, Configured, Ids, Totals;
      QueueIds(batch, s);
      IdsAppend(running, s);
      waiting := Remove(waiting, s);
      running := running + [s];
    }

    lemma JoinBatch(s: Sequence, batch: seq<Sequence>, held: set<nat>)
      requires Linked(batch) && blockManager.Knows(s)
      ensures Linked(batch + [s]) && State(batch + [s], held) == State(batch, held).(batch := Ids(batch) + [s.seqId])
    {
      IdsAppend(batch, s);
    }

    /** Whether to hold `s` back so that running requests can go on decoding for a while. */
    method ShouldDefer(s: Sequence) returns (defer: bool)
      requires blockManager.blockSize > 0 && s.seqId in blockManager.pendingMatches
      ensures defer ==> running != []
    {
      if admissionLookahead == 0 || running == [] {
        return false;
      }
      var required := blockManager.PlannedAllocationPages(s);
      var reserve := PriorityReservePages(s, running, admissionLookahead, blockManager.blockSize);
      return |blockManager.freeBlockIds| - required < reserve;
    }

    /** The free pages do not suffice for `s`: with nobody running the requests that own pages come
        first; otherwise `s` is held back or prefill ends. */
    method Unaffordable(s: Sequence, ghost batch: seq<Sequence>) returns (a: Admission)
      requires Ready(batch, {}) && s in waiting
        && |blockManager.freeBlockIds| < s.State().NumBlocks(blockManager.blockSize)
      ensures a.Refused? || a.Deferred? || a.OnlyResidents?
      ensures a.Deferred? ==> running != []
      ensures a.OnlyResidents? ==> running == [] && !NothingHeld()
      ensures running == [] && pendingRestores == map[] ==> a.OnlyResidents?
    {
      hide Ready, State, BlockManager.Snapshot;
      if running == [] {
        var residents := Residents(null);
        if residents != [] {
          assert residents[0] in residents;
          return OnlyResidents;
        }
        if pendingRestores == map[] {
          ResumesFromNothing(batch, s);
        }
        return Refused;
      }
      return if admissionLookahead > 0 then Deferred else Refused;
    }

    /** The number of tokens to compute for `s`, which owns nothing, should it be admitted; or why
        it is not admitted now. */
    method ConsiderFresh(s: Sequence, ghost batch: seq<Sequence>) returns (a: Admission)
      requires Ready(batch, {}) && s in waiting && s.seqId !in Ids(batch) && s.blockTable == []
      modifies `waiting, `pendingRestores, blockManager, blockManager.radixCache, blockManager.radixCache.nodes, s
      ensures Ready(batch, {}) && blockManager.requests == old(blockManager.requests)
      ensures blockManager.radixCache.nodes <= old(blockManager.radixCache.nodes)
      ensures Untouched(old(blockManager.Snapshot()).reqs, blockManager.Snapshot().reqs)
      ensures a.RestoreStarted? ==> RestoreStep(old(blockManager.Snapshot()).reqs, blockManager.Snapshot().reqs)
      ensures a.RestoreStarted? ==> waiting == Remove(old(waiting), s) && pendingRestores != map[]
      ensures !a.RestoreStarted? ==> waiting == old(waiting) && pendingRestores == old(pendingRestores)
      ensures a.Go? ==> s.blockTable == [] && Planned(s, a.cachedBlocks)
      ensures a.Go? ==> a.tokens == |s.tokenIds| - Start(a.cachedBlocks, blockManager.blockSize)
      ensures a.Deferred? ==> running != []
      ensures a.OnlyResidents? ==> running == [] && !old(NothingHeld()) && !NothingHeld()
      ensures running == [] && pendingRestores == map[] ==> a.Go? || a.OnlyResidents?
    {
      hide Ready, State, BlockManager.Snapshot, RestoreStep, BlockManager.Valid, BlockManager.Linked, Linked,
        NothingHeld, Planned, Ids, Remove, Untouched, Sched.Inv, Pool.Inv, Configured;
      UntouchedRefl(blockManager.Snapshot().reqs);
      InvOf(batch, {});
      StateIs(batch, {});
      var count := AskAllocate(s, batch);
      StateIs(batch, {});
      if count == -1 {
        a := Unaffordable(s, batch);
        return;
      }
      a := DeferOrGo(s, count, batch);
    }

    method DeferOrGo(s: Sequence, count: nat, ghost batch: seq<Sequence>) returns (a: Admission)
      requires Ready(batch, {}) && s in waiting && s.seqId !in Ids(batch) && s.blockTable == []
      requires Planned(s, count) && s.seqId in blockManager.pendingMatches && blockManager.blockSize > 0
      modifies `waiting, `pendingRestores, blockManager, blockManager.radixCache, blockManager.radixCache.nodes, s
      ensures Ready(batch, {}) && blockManager.requests == old(blockManager.requests)
      ensures blockManager.radixCache.nodes <= old(blockManager.radixCache.nodes)
      ensures Untouched(old(blockManager.Snapshot()).reqs, blockManager.Snapshot().reqs)
      ensures a.RestoreStarted? || a.Go? || (a.Deferred? && running != [])
      ensures a.RestoreStarted? ==> RestoreStep(old(blockManager.Snapshot()).reqs, blockManager.Snapshot().reqs)
      ensures a.RestoreStarted? ==> waiting == Remove(old(waiting), s) && pendingRestores != map[]
      ensures !a.RestoreStarted? ==> waiting == old(waiting) && pendingRestores == old(pendingRestores)
      ensures a.Go? ==> s.blockTable == [] && Planned(s, a.cachedBlocks)
      ensures a.Go? ==> a.tokens == |s.tokenIds| - Start(a.cachedBlocks, blockManager.blockSize)
    {
      hide Ready, State, BlockManager.Snapshot, RestoreStep, BlockManager.Valid, BlockManager.Linked, Linked,
        NothingHeld, Planned, Ids, Remove, Untouched;
      UntouchedRefl(blockManager.Snapshot().reqs);
      StateIs(batch, {});
      var defer := ShouldDefer(s);
      if defer {
        Forget(s, batch);
        StateIs(batch, {});
        return Deferred;
      }
      a := RestoreOrGo(s, count, batch);
    }

    method RestoreOrGo(s: Sequence, count: nat, ghost batch: seq<Sequence>) returns (a: Admission)
      requires Ready(batch, {}) && s in waiting && s.seqId !in Ids(batch) && s.blockTable == [] && Planned(s, count)
      modifies `waiting, `pendingRestores, blockManager, blockManager.radixCache, blockManager.radixCache.nodes, s
      ensures Ready(batch, {}) && blockManager.requests == old(blockManager.requests)
      ensures blockManager.radixCache.nodes <= old(blockManager.radixCache.nodes)
      ensures Untouched(old(blockManager.Snapshot()).reqs, blockManager.Snapshot().reqs)
      ensures a.RestoreStarted? || a.Go?
      ensures a.RestoreStarted? ==> RestoreStep(old(blockManager.Snapshot()).reqs, blockManager.Snapshot().reqs)
      ensures a.RestoreStarted? ==> waiting == Remove(old(waiting), s) && pendingRestores != map[]
      ensures a.Go? ==> waiting == old(waiting) && pendingRestores == old(pendingRestores)
      ensures a.Go? ==> s.blockTable == [] && Planned(s, a.cachedBlocks)
      ensures a.Go? ==> a.tokens == |s.tokenIds| - Start(a.cachedBlocks, blockManager.blockSize)
    {
      hide Ready, State, BlockManager.Snapshot, RestoreStep, BlockManager.Valid, BlockManager.Linked, Linked,
        Admittable, Cached, Ids, Remove;
      StateIs(batch, {});
      var started := StartRemoteRestore(s, count, batch);
      if started {
        return RestoreStarted;
      }
      PlannedTokens(batch, s, count);
      StartIs(count, blockManager.blockSize);
      return Go(|s.tokenIds| - count * blockManager.blockSize, count);
    }

    /** `s` kept a prefix: it completes its table, or is refused, or has lost the prefix. */
    method ConsiderRetained(s: Sequence, ghost batch: seq<Sequence>) returns (a: Option<Admission>)
      requires Ready(batch, {}) && s in waiting && s.seqId !in Ids(batch) && AllRunning(batch) && s.blockTable != []
      modifies blockManager, blockManager.radixCache, blockManager.radixCache.nodes
      modifies waiting
      ensures Ready(batch, {}) && blockManager.requests == old(blockManager.requests)
      ensures blockManager.radixCache.nodes <= old(blockManager.radixCache.nodes)
      ensures blockManager.blockSize > 0
        && Ahead(old(blockManager.Snapshot()).reqs, blockManager.Snapshot().reqs, s.seqId, blockManager.blockSize)
      ensures a.None? ==> s.blockTable == [] && NothingHeld() && running == []
      ensures a.Some? ==> a.value.Go? || a.value.Refused?
      ensures a == Some(Refused) ==> running != [] || pendingRestores != map[]
      ensures a.Some? && a.value.Go? ==>
        s.blockTable != [] && |s.blockTable| == s.State().NumBlocks(blockManager.blockSize)
      ensures a.Some? && a.value.Go? ==> a.value.tokens == |s.tokenIds| - s.cachedTokens
    {
      hide Ready, State, BlockManager.Snapshot, Planned, BlockManager.Valid, BlockManager.Linked, Linked, NothingHeld,
        Ahead, AllRunning, Made, ResumePlan, Ids, Sched.Inv, Pool.Inv, Configured;
      StateIs(batch, {});
      InvOf(batch, {});
      WaitingIs(batch, {}, s);
      ghost var st, i := State(batch, {}), s.seqId;
      var ok := EnsureResumeCapacity(s, batch);
      StateIs(batch, {});
      MadeAhead(st.pool, blockManager.Snapshot(), i);
      if !ok {
        return Some(Refused);
      }
      if s.blockTable == [] {
        return None;
      }
      ghost var mid := blockManager.Snapshot().reqs;
      WaitingIs(batch, {}, s);
      ResumeTable(s, batch);
      StateIs(batch, {});
      AheadMore(st.pool.reqs, mid, blockManager.Snapshot().reqs, i, st.pool.bs);
      NonEmptyTable(s.State(), blockManager.blockSize);
      return Some(Go(|s.tokenIds| - s.cachedTokens, 0));
    }

    /** First half of admitting `s`: find out how many of its tokens are to be computed. A request
        that kept a prefix completes its table at once; one that owns nothing only learns what it
        would attach, and may leave for a remote restore instead. */
    method Consider(s: Sequence, ghost batch: seq<Sequence>) returns (a: Admission)
      requires Ready(batch, {}) && s in waiting && s.seqId !in Ids(batch) && AllRunning(batch)
      modifies `waiting, `pendingRestores, blockManager, blockManager.radixCache, blockManager.radixCache.nodes, s
      modifies waiting
      ensures Ready(batch, {}) && blockManager.requests == old(blockManager.requests) && AllRunning(batch)
      ensures blockManager.radixCache.nodes <= old(blockManager.radixCache.nodes)
      ensures blockManager.blockSize > 0
        && Considered(old(blockManager.Snapshot()).reqs, blockManager.Snapshot().reqs, s.seqId, a,
        blockManager.blockSize)
      ensures a.RestoreStarted? ==> waiting == Remove(old(waiting), s) && pendingRestores != map[]
      ensures !a.RestoreStarted? ==> waiting == old(waiting) && pendingRestores == old(pendingRestores)
      ensures a.Go? && s.blockTable == [] ==>
        Planned(s, a.cachedBlocks) && a.tokens == |s.tokenIds| - Start(a.cachedBlocks, blockManager.blockSize)
      ensures a.Go? && s.blockTable != [] ==>
        |s.blockTable| == s.State().NumBlocks(blockManager.blockSize) && a.tokens == |s.tokenIds| - s.cachedTokens
      ensures a.Deferred? ==> running != []
      ensures a.OnlyResidents? ==> running == [] && old(s.blockTable) == [] && !NothingHeld()
      ensures running == [] && pendingRestores == map[] ==> a.Go? || a.OnlyResidents?
    {
      hide Ready, State, BlockManager.Snapshot, Considered, Planned, BlockManager.Valid, BlockManager.Linked, Linked,
        NothingHeld, Ahead, AllRunning, Ids, Remove, Untouched;
      StateIs(batch, {});
      InvOf(batch, {});
      WaitingIs(batch, {}, s);
      ghost var p, i, bs := blockManager.Snapshot().reqs, s.seqId, blockManager.blockSize;
      AheadRefl(p, i, bs);
      if s.blockTable != [] {
        var r := ConsiderRetained(s, batch);
        if r.Some? {
          MakeConsidered(p, blockManager.Snapshot().reqs, i, r.value, bs);
          return r.value;
        }
      }
      ghost var mid := blockManager.Snapshot().reqs;
      a := ConsiderFresh(s, batch);
      AheadRestore(p, mid, blockManager.Snapshot().reqs, i, bs);
      AheadTrans(p, mid, blockManager.Snapshot().reqs, i, bs);
      MakeConsidered(p, blockManager.Snapshot().reqs, i, a, bs);
    }

    /** Second half of admitting `s`: it owns its whole table. */
    method TakeTable(s: Sequence, a: Admission, ghost batch: seq<Sequence>)
      requires Ready(batch, {}) && s in waiting && s.seqId !in Ids(batch) && a.Go?
      requires s.blockTable == [] ==>
        Planned(s, a.cachedBlocks) && a.tokens == |s.tokenIds| - Start(a.cachedBlocks, blockManager.blockSize)
      requires s.blockTable != [] ==>
        |s.blockTable| == s.State().NumBlocks(blockManager.blockSize) && a.tokens == |s.tokenIds| - s.cachedTokens
      modifies blockManager, blockManager.radixCache, blockManager.radixCache.nodes
      modifies s`blockTable, s`logicalIndices, s`cachedTokens, s`physicalCachedTokens
      ensures Ready(batch, {}) && State(batch, {}) == old(State(batch, {})).(pool := blockManager.Snapshot())
      ensures blockManager.requests == old(blockManager.requests)
        && blockManager.radixCache.nodes <= old(blockManager.radixCache.nodes)
      ensures blockManager.Snapshot().reqs == old(blockManager.Snapshot()).reqs[s.seqId := s.State()]
      ensures |s.blockTable| == s.State().NumBlocks(blockManager.blockSize) && old(s.cachedTokens) <= s.cachedTokens
      ensures a.tokens == |s.tokenIds| - s.cachedTokens && 0 < a.tokens
    {
      hide Ready, State, BlockManager.Snapshot, Planned, BlockManager.Valid, BlockManager.Linked, Linked, Ids;
      StateIs(batch, {});
      WaitingIs(batch, {}, s);
      At(batch, {}, s);
      if s.blockTable == [] {
        StartIs(0, blockManager.blockSize);
        AllocateTable(s, a.cachedBlocks, batch);
      }
      StateIs(batch, {});
    }

    method Join(s: Sequence, n: nat, ghost batch: seq<Sequence>, ghost p: seq<Request>)
      requires Ready(batch, {}) && s in waiting && s.seqId !in Ids(batch) && blockManager.blockSize > 0
      requires |s.blockTable| == s.State().NumBlocks(blockManager.blockSize) && 0 < n <= |s.tokenIds| - s.cachedTokens
      requires Ahead(p, blockManager.Snapshot().reqs, s.seqId, blockManager.blockSize)
      modifies `waiting, `running, s`status, s`scheduledTokens, s`isPrefill
      ensures Ready(batch + [s], {}) && AllGentle(p, blockManager.Snapshot().reqs)
      ensures s.status == if old(s.cachedTokens) + n == |s.tokenIds| then Running else Waiting
      ensures s.scheduledTokens == n && !s.compressed
      ensures s.status == Running ==> waiting == Remove(old(waiting), s) && running == old(running) + [s]
      ensures s.status == Waiting ==> waiting == old(waiting) && running == old(running)
      ensures s.status == Waiting ==> Partway(p, blockManager.Snapshot().reqs, s.seqId, blockManager.blockSize)
    {
      hide Ready, State, BlockManager.Snapshot, BlockManager.Valid, BlockManager.Linked, Linked, Ids, Ahead, AllGentle,
        Partway, Remove;
      StateIs(batch, {});
      WaitingIs(batch, {}, s);
      ghost var q, i := blockManager.Snapshot().reqs, s.seqId;
      EnlistSequence(s, n, batch);
      StateIs(batch + [s], {});
      JoinGentle(p, q, blockManager.Snapshot().reqs, i, n, blockManager.blockSize);
    }

    /** `s` is admitted for at most `remaining` of its tokens: it gets its table and joins the batch. */
    method Enter(s: Sequence, a: Admission, remaining: nat, ghost batch: seq<Sequence>, ghost p: seq<Request>)
        returns (n: nat)
      requires Ready(batch, {}) && s in waiting && s.seqId !in Ids(batch) && a.Go? && 0 < remaining
      requires s.blockTable == [] ==>
        Planned(s, a.cachedBlocks) && a.tokens == |s.tokenIds| - Start(a.cachedBlocks, blockManager.blockSize)
      requires s.blockTable != [] ==>
        |s.blockTable| == s.State().NumBlocks(blockManager.blockSize) && a.tokens == |s.tokenIds| - s.cachedTokens
      requires blockManager.blockSize > 0
        && Ahead(p, blockManager.Snapshot().reqs, s.seqId, blockManager.blockSize)
      modifies `waiting, `running, blockManager, blockManager.radixCache, blockManager.radixCache.nodes, s
      ensures Ready(batch + [s], {}) && AllGentle(p, blockManager.Snapshot().reqs)
      ensures blockManager.requests == old(blockManager.requests)
        && blockManager.radixCache.nodes <= old(blockManager.radixCache.nodes)
      ensures 0 < n == (if a.tokens < remaining then a.tokens else remaining)
      ensures s.status == (if n == a.tokens then Running else Waiting) && s.scheduledTokens == n && !s.compressed
      ensures s.status == Running ==> waiting == Remove(old(waiting), s) && running == old(running) + [s]
      ensures s.status == Waiting ==> waiting == old(waiting) && running == old(running)
      ensures s.status == Waiting ==> Partway(p, blockManager.Snapshot().reqs, s.seqId, blockManager.blockSize)
    {
      hide Ready, State, BlockManager.Snapshot, Planned, BlockManager.Valid, BlockManager.Linked, Linked, Ahead, Ids,
        Remove, Partway, AllGentle, Start, Configured;
      n := if a.tokens < remaining then a.tokens else remaining;
      ghost var mid := blockManager.Snapshot().reqs;
      WaitingIs(batch, {}, s);
      StateIs(batch, {});
      TakeTable(s, a, batch);
      StateIs(batch, {});
      WaitingIs(batch, {}, s);
      AheadMore(p, mid, blockManager.Snapshot().reqs, s.seqId, blockManager.blockSize);
      Join(s, n, batch, p);
    }

    /** Try to admit `s` with at most `remaining` tokens. Only the first request of a batch may be
        admitted for a part of its tokens. */
    method Admit(s: Sequence, remaining: nat, batch: seq<Sequence>) returns (a: Admission, scheduled: nat)
      requires Ready(batch, {}) && s in waiting && s.seqId !in Ids(batch) && AllRunning(batch) && 0 < remaining
      modifies `waiting, `running, `pendingRestores, blockManager, blockManager.radixCache,
        blockManager.radixCache.nodes, s
      modifies waiting
      ensures Ready(if a.Go? then batch + [s] else batch, {}) && AllRunning(batch)
      ensures blockManager.requests == old(blockManager.requests)
        && blockManager.radixCache.nodes <= old(blockManager.radixCache.nodes)
      ensures AllGentle(old(blockManager.Snapshot()).reqs, blockManager.Snapshot().reqs)
      ensures a.OnlyResidents? || a.RestoreStarted? || a.Deferred? ==>
        Untouched(old(blockManager.Snapshot()).reqs, blockManager.Snapshot().reqs)
      ensures a.RestoreStarted? || (a.Go? && s.status == Running) ==> waiting == Remove(old(waiting), s)
      ensures a.Go? && s.status == Running ==> running == old(running) + [s]
      ensures !(a.Go? && s.status == Running) ==> running == old(running)
      ensures a.RestoreStarted? ==> pendingRestores != map[]
      ensures !a.RestoreStarted? ==> pendingRestores == old(pendingRestores)
      ensures a.Refused? || a.Deferred? || a.OnlyResidents? || (a.Go? && s.status != Running) ==>
        waiting == old(waiting)
      ensures a.Deferred? ==> running != []
      ensures a.OnlyResidents? ==> running == [] && old(s.blockTable) == [] && !NothingHeld()
      ensures batch == [] && running == [] && pendingRestores == map[] ==> a.Go? || a.OnlyResidents?
      ensures a.Go? ==>
        0 < scheduled <= remaining && s.scheduledTokens == scheduled && (s.status == Running || s.status == Waiting)
      ensures a.Go? ==> !s.compressed
      ensures a.Go? && s.status == Waiting ==> batch == [] && scheduled == remaining && blockManager.blockSize > 0
      ensures a.Go? && s.status == Waiting ==>
        Partway(old(blockManager.Snapshot()).reqs, blockManager.Snapshot().reqs, s.seqId, blockManager.blockSize)
    {
      hide Ready, State, BlockManager.Snapshot, Considered, Planned, BlockManager.Valid, BlockManager.Linked, Linked,
        NothingHeld, Ahead, Ids, Remove, Untouched, Partway, AllGentle, Sched.Inv, Pool.Inv, Configured,
        Start, Request.TableOk, Fits;
      ghost var p, i := blockManager.Snapshot().reqs, s.seqId;
      a := Consider(s, batch);
      scheduled := 0;
      WhatConsidered(p, blockManager.Snapshot().reqs, i, a, blockManager.blockSize);
      AheadGentle(p, blockManager.Snapshot().reqs, i, blockManager.blockSize);
      if !a.Go? {
        return;
      }
      if remaining < a.tokens && batch != [] {
        return Refused, 0;
      }
      scheduled := Enter(s, a, remaining, batch, p);
    }

    // ---------- prefill ----------

    /** The policy: anything, as long as it does not ask for prefill with nobody eligible, and does
        ask for it when somebody is eligible and nobody is running. */
    method ShouldPrefill(eligible: seq<Sequence>) returns (prefill: bool)
      ensures eligible == [] ==> !prefill
      ensures eligible != [] && running == [] ==> prefill
    {
      prefill := *;
      if eligible == [] {
        prefill := false;
      } else if running == [] {
        prefill := true;
      }
    }

    method WithTables(ss: seq<Sequence>) returns (rs: seq<Sequence>)
      ensures forall t :: t in rs <==> t in ss && t.blockTable != []
    {
      rs := [];
      for k := 0 to |ss|
        invariant forall t :: t in rs <==> t in ss[..k] && t.blockTable != []
      {
        if ss[k].blockTable != [] {
          rs := rs + [ss[k]];
        }
      }
    }

    method Without(ss: seq<Sequence>, deferred: set<nat>) returns (rs: seq<Sequence>)
      ensures forall t :: t in rs <==> t in ss && t.seqId !in deferred
    {
      rs := [];
      for k := 0 to |ss|
        invariant forall t :: t in rs <==> t in ss[..k] && t.seqId !in deferred
      {
        if ss[k].seqId !in deferred {
          rs := rs + [ss[k]];
        }
      }
    }

    /** The waiting requests that may be admitted now; none when prefill should stop. */
    method Eligible(residentOnly: bool, deferred: set<nat>) returns (eligible: seq<Sequence>)
      requires Configured() && waiting != []
      ensures forall t | t in eligible :: t in waiting && t.seqId !in deferred && (residentOnly ==> t.blockTable != [])
      ensures running == [] && pendingRestores == map[] && deferred == {} && (residentOnly ==> !NothingHeld()) ==>
        eligible != []
    {
      eligible := waiting;
      if residentOnly {
        eligible := WithTables(eligible);
        if eligible == [] {
          return;
        }
      }
      if deferred != {} {
        eligible := Without(eligible, deferred);
        var prefill := ShouldPrefill(eligible);
        if !prefill {
          return [];
        }
      }
      var residents := WithTables(waiting);
      if maxActiveSeqs.Some? && |running| + |pendingRestores| + |residents| >= maxActiveSeqs.value {
        eligible := WithTables(eligible);
        assert residents != [] ==> residents[0] in residents;
        var prefill := ShouldPrefill(eligible);
        if !prefill {
          return [];
        }
      }
    }

    ghost function Open(deferred: set<nat>): set<nat>
      reads `waiting
    {
      OpenIds(Ids(waiting), deferred)
    }

    /** How far the prefill phase has come: `batch` holds running requests only, unless its one
        request was admitted for a part of its tokens. */
    ghost predicate Prefilled(p: seq<Request>, batch: seq<Sequence>, partial: bool)
      reads this, blockManager, blockManager.requests, blockManager.radixCache, blockManager.radixCache.nodes
    {
      && Ready(batch, {}) && AllGentle(p, blockManager.Snapshot().reqs)
      && if partial then |batch| == 1 && batch[0] in waiting && blockManager.blockSize > 0
                         && Partway(p, blockManager.Snapshot().reqs, batch[0].seqId, blockManager.blockSize)
         else AllRunning(batch)
    }

    lemma PrefilledIs(p: seq<Request>, batch: seq<Sequence>, partial: bool)
      requires Prefilled(p, batch, partial)
      ensures Ready(batch, {}) && AllGentle(p, blockManager.Snapshot().reqs) && (!partial ==> AllRunning(batch))
    {
    }

    lemma StartsPrefilled()
      requires Valid()
      ensures Prefilled(blockManager.Snapshot().reqs, [], false) && Configured()
      ensures forall t | t in waiting :: t in blockManager.requests
    {
      GentleRefl(blockManager.Snapshot().reqs);
    }

    lemma QueuedKnown(batch: seq<Sequence>, held: set<nat>)
      requires Ready(batch, held)
      ensures Configured()
      ensures forall k | 0 <= k < |waiting| ::
        waiting[k].seqId < |blockManager.requests| && blockManager.requests[waiting[k].seqId] == waiting[k]
      ensures forall k | 0 <= k < |running| ::
        running[k].seqId < |blockManager.requests| && blockManager.requests[running[k].seqId] == running[k]
      ensures forall k | 0 <= k < |batch| ::
        batch[k].seqId < |blockManager.requests| && blockManager.requests[batch[k].seqId] == batch[k]
    {
      assert forall k | 0 <= k < |waiting| :: waiting[k] in waiting;
      assert forall k | 0 <= k < |running| :: running[k] in running;
      assert forall k | 0 <= k < |batch| :: batch[k] in batch;
    }

    /** One admission attempt of the prefill phase. */
    method PrefillRound(ghost p: seq<Request>, batch: seq<Sequence>, tokens: nat, resident: bool, deferred: set<nat>)
      returns (more: bool, batch': seq<Sequence>, tokens': nat, resident': bool, deferred': set<nat>,
        ghost partial: bool)
      requires Prefilled(p, batch, false) && waiting != [] && tokens < maxBatchedTokens
      requires batch == [] ==> Untouched(p, blockManager.Snapshot().reqs)
      requires deferred != {} ==> running != []
      requires batch == [] && running == [] && pendingRestores == map[] && resident ==> !NothingHeld()
      modifies `waiting, `running, `pendingRestores, blockManager, blockManager.radixCache,
        blockManager.radixCache.nodes, blockManager.requests
      ensures Prefilled(p, batch', partial)
      ensures blockManager.requests == old(blockManager.requests)
        && blockManager.radixCache.nodes <= old(blockManager.radixCache.nodes)
      ensures batch' == [] ==> batch == [] && running == old(running) && tokens' == tokens
      ensures batch' == [] && more ==> Untouched(p, blockManager.Snapshot().reqs)
      ensures tokens <= tokens' <= maxBatchedTokens
        && (partial ==> tokens' == maxBatchedTokens && running == old(running) && batch == [])
      ensures |batch'| <= |batch| + 1 && TokensOf(batch') == old(TokensOf(batch)) + tokens' - tokens
      ensures (forall t | t in batch :: !old(t.compressed)) ==> forall t | t in batch' :: !t.compressed
      ensures deferred' != {} ==> running != []
      ensures batch' == [] && running == [] && pendingRestores == map[] ==> more && (resident' ==> !NothingHeld())
      ensures more && tokens' < maxBatchedTokens ==>
        Open(deferred') < old(Open(deferred)) || (Open(deferred') == old(Open(deferred)) && resident' && !resident)
    {
      hide Ready, State, BlockManager.Snapshot, BlockManager.Valid, BlockManager.Linked, Linked, Ids, Remove, Untouched,
        Partway, AllGentle, NothingHeld, Configured, Prefilled, TokensOf;
      more, batch', tokens', resident', deferred', partial := false, batch, tokens, resident, deferred, false;
      PrefilledIs(p, batch, false);
      QueuedKnown(batch, {});
      var eligible := Eligible(resident, deferred);
      if eligible == [] {
        return;
      }
      assert eligible[0] in eligible;
      var s :| s in eligible;
      more, batch', tokens', resident', deferred', partial := TryRequest(s, p, batch, tokens, resident, deferred);
    }

    method TryRequest(s: Sequence, ghost p: seq<Request>, batch: seq<Sequence>, tokens: nat, resident: bool,
        deferred: set<nat>)
      returns (more: bool, batch': seq<Sequence>, tokens': nat, resident': bool, deferred': set<nat>,
        ghost partial: bool)
      requires Prefilled(p, batch, false) && s in waiting && tokens < maxBatchedTokens
      requires batch == [] ==> Untouched(p, blockManager.Snapshot().reqs)
      requires deferred != {} ==> running != []
      requires batch == [] && running == [] && pendingRestores == map[] && resident ==> !NothingHeld()
      requires s.seqId !in deferred && (resident ==> s.blockTable != [])
      modifies `waiting, `running, `pendingRestores, blockManager, blockManager.radixCache,
        blockManager.radixCache.nodes, waiting
      ensures Prefilled(p, batch', partial)
      ensures blockManager.requests == old(blockManager.requests)
        && blockManager.radixCache.nodes <= old(blockManager.radixCache.nodes)
      ensures batch' == [] ==> batch == [] && running == old(running) && tokens' == tokens
      ensures batch' == [] && more ==> Untouched(p, blockManager.Snapshot().reqs)
      ensures tokens <= tokens' <= maxBatchedTokens
        && (partial ==> tokens' == maxBatchedTokens && running == old(running) && batch == [])
      ensures |batch'| <= |batch| + 1 && TokensOf(batch') == old(TokensOf(batch)) + tokens' - tokens
      ensures (forall t | t in batch :: !old(t.compressed)) ==> forall t | t in batch' :: !t.compressed
      ensures deferred' != {} ==> running != []
      ensures batch' == [] && running == [] && pendingRestores == map[] ==> more && (resident' ==> !NothingHeld())
      ensures more && tokens' < maxBatchedTokens ==>
        Open(deferred') < old(Open(deferred)) || (Open(deferred') == old(Open(deferred)) && resident' && !resident)
    {
      hide Ready, State, BlockManager.Snapshot, BlockManager.Valid, BlockManager.Linked, Linked, Ids, Remove, Untouched,
        Partway, AllGentle, NothingHeld, Configured, Prefilled, TokensOf, Sched.Inv, Pool.Inv, OpenIds;
      batch', tokens', resident', deferred', partial := batch, tokens, resident, deferred, false;
      PrefilledIs(p, batch, false);
      InvOf(batch, {});
      ghost var q := blockManager.Snapshot().reqs;
      Choosing(s, deferred, batch);
      NoneWaits(batch);
      var a, n := Admit(s, maxBatchedTokens - tokens, batch);
      GentleThen(p, q, blockManager.Snapshot().reqs, s.seqId, blockManager.blockSize);
      if a.Go? {
        batch', tokens', partial := batch + [s], tokens + n, s.status == Waiting;
        TokensOfMore(batch, s);
      }
      if a.Deferred? {
        deferred' := deferred + {s.seqId};
      }
      resident' := resident || a.OnlyResidents?;
      more := !a.Refused? && !(a.Deferred? && maxSeqs <= |deferred'|);
      MakePrefilled(p, batch', partial);
    }

    lemma NoneWaits(batch: seq<Sequence>)
      requires Ready(batch, {}) && AllRunning(batch)
      ensures forall k | 0 <= k < |batch| :: batch[k] !in waiting
    {
      forall k | 0 <= k < |batch|
        ensures batch[k] !in waiting
      {
        assert Ids(batch)[k] == batch[k].seqId;
        if batch[k] in waiting {
          NotInBatch(batch, batch[k]);
        }
      }
    }

    /** A request about to be tried is not scheduled yet, and is open for admission. */
    lemma Choosing(s: Sequence, deferred: set<nat>, batch: seq<Sequence>)
      requires Ready(batch, {}) && AllRunning(batch) && s in waiting && s.seqId !in deferred
      ensures s.seqId !in Ids(batch)
      ensures OpenIds(Ids(Remove(waiting, s)), deferred) < OpenIds(Ids(waiting), deferred)
      ensures OpenIds(Ids(waiting), deferred + {s.seqId}) < OpenIds(Ids(waiting), deferred)
    {
      NotInBatch(batch, s);
      QueueIds(batch, s);
      var k :| 0 <= k < |waiting| && waiting[k] == s;
      assert Ids(waiting)[k] == s.seqId;
      OpenShrinks(Ids(waiting), s.seqId, deferred);
    }

    /** Admit waiting requests until the budgets are used up or nobody can be admitted. With nobody
        running and no restore pending, somebody is admitted if anybody waits. */
    method PrefillPhase() returns (batch: seq<Sequence>, ghost partial: bool)
      requires Valid()
      modifies `waiting, `running, `pendingRestores, blockManager, blockManager.radixCache,
        blockManager.radixCache.nodes, blockManager.requests
      ensures Prefilled(old(blockManager.Snapshot()).reqs, batch, partial)
      ensures |batch| <= maxSeqs && TokensOf(batch) <= maxBatchedTokens && forall t | t in batch :: !t.compressed
      ensures blockManager.requests == old(blockManager.requests)
        && blockManager.radixCache.nodes <= old(blockManager.radixCache.nodes)
      ensures batch == [] || partial ==> running == old(running)
      ensures batch == [] && running == [] && pendingRestores == map[] ==> waiting == []
    {
      hide Ready, State, BlockManager.Snapshot, BlockManager.Valid, BlockManager.Linked, Linked, Ids, Remove, Untouched,
        Partway, AllGentle, NothingHeld, Prefilled, Valid, Open;
      ghost var p := blockManager.Snapshot().reqs;
      StartsPrefilled();
      UntouchedRefl(p);
      var tokens, resident, deferred := 0, false, {};
      batch, partial := [], false;
      var more := ShouldPrefill(waiting);
      while more && waiting != [] && |batch| < maxSeqs && tokens < maxBatchedTokens
        invariant Prefilled(p, batch, partial) && |batch| <= maxSeqs && TokensOf(batch) == tokens <= maxBatchedTokens
        invariant forall t | t in batch :: !t.compressed
        invariant blockManager.requests == old(blockManager.requests)
          && blockManager.radixCache.nodes <= old(blockManager.radixCache.nodes)
        invariant batch == [] ==>
          running == old(running) && tokens == 0 && (more ==> Untouched(p, blockManager.Snapshot().reqs))
        invariant partial ==> tokens == maxBatchedTokens && running == old(running)
        invariant deferred != {} ==> running != []
        invariant batch == [] && running == [] && pendingRestores == map[] ==>
          (more || waiting == []) && (resident ==> !NothingHeld())
        decreases if more then 1 else 0, if tokens < maxBatchedTokens then 1 else 0, Open(deferred), if resident then 0
          else 1
      {
        more, batch, tokens, resident, deferred, partial := PrefillRound(p, batch, tokens, resident, deferred);
      }
    }

    lemma MakePrefilled(p: seq<Request>, batch: seq<Sequence>, partial: bool)
      requires Ready(batch, {}) && AllGentle(p, blockManager.Snapshot().reqs)
      requires if partial
        then |batch| == 1 && batch[0] in waiting && blockManager.blockSize > 0
        && Partway(p, blockManager.Snapshot().reqs, batch[0].seqId, blockManager.blockSize) else AllRunning(batch)
      ensures Prefilled(p, batch, partial)
    {
    }

    // ---------- decode ----------

    /** `s` is taken off the running queue. */
    method TakeOff(s: Sequence, ghost batch: seq<Sequence>, ghost held: set<nat>)
      requires Ready(batch, held) && s in running && Elements(Ids(batch)) <= held
      modifies `running
      ensures Ready(batch, held + {s.seqId}) && running == Remove(old(running), s) && |running| < |old(running)|
      ensures State(batch, held + {s.seqId}) == Hold(old(State(batch, held)), s.seqId)
      ensures s.seqId !in held && s.seqId !in Ids(batch) && s.status == Running
    {
      hide Ready, Linked, State, BlockManager.Valid, BlockManager.Snapshot, Sched.Inv, Pool.Inv, Ids, Remove;
      ghost var st := State(batch, held);
      StateIs(batch, held);
      RunningIs(batch, held, s);
      assert s.seqId !in Ids(batch);
      InvOf(batch, held);
      HoldInv(st, s.seqId);
      Dequeue(s, batch, held);
      StateIs(batch, held + {s.seqId});
      MakeReady(batch, held + {s.seqId});
    }

    method Dequeue(s: Sequence, ghost batch: seq<Sequence>, ghost held: set<nat>)
      requires Linked(batch) && blockManager.Knows(s) && s in running
      modifies `running
      ensures Linked(batch) && running == Remove(old(running), s) && |running| < |old(running)|
      ensures State(batch, held + {s.seqId})
        == old(State(batch, held)).(running := Remove(old(Ids(running)), s.seqId), held := held + {s.seqId})
    {
      hide BlockManager.Linked, BlockManager.Snapshot, Configured, Ids, Totals, Remove;
      QueueIds(batch, s);
      RemoveShorter(running, s);
      running := Remove(running, s);
    }

    lemma RunningIs(batch: seq<Sequence>, held: set<nat>, s: Sequence)
      requires Ready(batch, held) && s in running
      ensures blockManager.Knows(s) && s.status == Running && s.seqId in Ids(running) && s.seqId !in held
    {
      At(batch, held, s);
      var k :| 0 <= k < |running| && running[k] == s;
      assert Ids(running)[k] == s.seqId;
    }

    /** Lossy compression of a request about to decode, when free pages are scarce. */
    method MaybeCompress(s: Sequence, ghost batch: seq<Sequence>, ghost held: set<nat>) returns (ghost kept: set<nat>)
      requires Ready(batch, held) && blockManager.Knows(s) && s.seqId in held && s.seqId !in Ids(batch)
      modifies blockManager`freeBlockIds, blockManager`usedBlockIds, blockManager`refCounts
      modifies s`blockTable, s`logicalIndices, s`physicalCachedTokens, s`compressed
      ensures Ready(batch, held) && State(batch, held) == old(State(batch, held)).(pool := blockManager.Snapshot())
      ensures if old(CompressionDue()) && |old(s.blockTable)| > PageBudget()
        then blockManager.Snapshot() == Compress(old(blockManager.Snapshot()), s.seqId, kept)
          && |s.blockTable| == PageBudget()
        else blockManager.Snapshot() == old(blockManager.Snapshot())
      ensures AllGentle(old(blockManager.Snapshot()).reqs, blockManager.Snapshot().reqs)
    {
      hide Ready, State, BlockManager.Snapshot, BlockManager.Valid, AllGentle;
      StateIs(batch, held);
      GentleRefl(blockManager.Snapshot().reqs);
      kept := {};
      if compression.NoCompression? {
        return;
      }
      PoolNotEmpty(batch, held, s);
      var ratio := |blockManager.freeBlockIds| as real / |blockManager.refCounts| as real;
      if ratio > compressionTrigger {
        return;
      }
      kept := CompressNow(s, batch, held);
    }

    lemma PoolNotEmpty(batch: seq<Sequence>, held: set<nat>, s: Sequence)
      requires Ready(batch, held) && blockManager.Knows(s) && s.seqId in held
      ensures 0 < |blockManager.refCounts|
    {
      At(batch, held, s);
      FitsPool(State(batch, held), s.seqId);
    }

    /** How many pages a compressed request is left with. */
    function PageBudget(): nat {
      match compression
      case NoCompression => 0
      case SinkRecent(sink, recent) => sink + recent
      case QueryAware(sink, recent, important, _) => sink + recent + important
    }

    /** Compression happens when it is configured and the free pages have run low. */
    predicate CompressionDue()
      reads blockManager`freeBlockIds, blockManager`refCounts
    {
      !compression.NoCompression? && |blockManager.refCounts| > 0
      && |blockManager.freeBlockIds| as real / |blockManager.refCounts| as real <= compressionTrigger
    }

    method CompressNow(s: Sequence, ghost batch: seq<Sequence>, ghost held: set<nat>) returns (ghost kept: set<nat>)
      requires Ready(batch, held) && blockManager.Knows(s) && s.seqId in held && s.seqId !in Ids(batch)
        && !compression.NoCompression?
      modifies blockManager`freeBlockIds, blockManager`usedBlockIds, blockManager`refCounts
      modifies s`blockTable, s`logicalIndices, s`physicalCachedTokens, s`compressed
      ensures Ready(batch, held) && State(batch, held) == old(State(batch, held)).(pool := blockManager.Snapshot())
      ensures if |old(s.blockTable)| > PageBudget()
        then blockManager.Snapshot() == Compress(old(blockManager.Snapshot()), s.seqId, kept)
          && |s.blockTable| == PageBudget()
        else blockManager.Snapshot() == old(blockManager.Snapshot())
      ensures AllGentle(old(blockManager.Snapshot()).reqs, blockManager.Snapshot().reqs)
    {
      hide Sched.Inv, Pool.Inv, Ids, RadixPrefixCache.Valid, Compress, KeepSet, Interval, Start, Request.TableOk,
        Relevance.Scores, Relevance.Candidates, Relevance.QueryTokens;
      ghost var st, n := State(batch, held), |s.blockTable|;
      At(batch, held, s);
      InvOf(batch, held);
      GentleRefl(st.pool.reqs);
      kept := {};
      if compression.SinkRecent? {
        var dropped := blockManager.CompressSinkRecent(s, compression.sink, compression.recent);
        if compression.sink + compression.recent < n {
          kept := KeepSet(n, compression.sink, compression.recent, {});
          KeepsLast(st.pool.reqs[s.seqId], compression.sink, compression.recent, {}, st.pool.bs);
          CompressedInv(st, s.seqId, kept);
        }
      } else {
        ghost var chosen;
        var dropped;
        dropped, chosen := blockManager.CompressQueryAware(s, compression.sink, compression.recent,
          compression.important, compression.queryTokens);
        if compression.sink + compression.recent + compression.important < n {
          kept := KeepSet(n, compression.sink, compression.recent, chosen);
          KeepsLast(st.pool.reqs[s.seqId], compression.sink, compression.recent, chosen, st.pool.bs);
          CompressedInv(st, s.seqId, kept);
        }
      }
    }

    /** How many pages a preempted request keeps: what the reclaim policy decides, given that enough
        pages should become free, and none once the request was compressed. */
    ghost function PagesKept(r: Request, free: nat, budget: Budget): nat
      requires Configured() && blockManager.blockSize > 0
    {
      if r.compressed then 0
      else reclaimPolicy.Plan(r, blockManager.blockSize, budget,
        if free + 1 < reclaimTargetFree then reclaimTargetFree - free else 1).keepBlocks
    }

    /** The held request `s` gives back the pages it may not keep, and goes to the front of the
        waiting queue; nothing else changes. */
    method Preempt(s: Sequence, ghost batch: seq<Sequence>, ghost held: set<nat>) returns (ghost budget: Budget)
      requires Ready(batch, held) && blockManager.Knows(s) && s.seqId in held && s.seqId !in Ids(batch)
      modifies `waiting, blockManager`freeBlockIds, blockManager`usedBlockIds, blockManager`refCounts,
        blockManager`pendingResumeMatches, s
      ensures Ready(batch, held - {s.seqId}) && waiting == [s] + old(waiting)
      ensures Configured() && blockManager.blockSize > 0
      ensures Releasable(old(blockManager.Snapshot()), s.seqId,
        PagesKept(old(s.State()), |old(blockManager.freeBlockIds)|, budget))
      ensures State(batch, held - {s.seqId})
        == Preempted(old(State(batch, held)), s.seqId,
          PagesKept(old(s.State()), |old(blockManager.freeBlockIds)|, budget))
      ensures AllGentle(old(blockManager.Snapshot()).reqs, blockManager.Snapshot().reqs)
    {
      hide Ready, Linked, State, BlockManager.Valid, BlockManager.Snapshot, Sched.Inv, Pool.Inv, Ids, Release,
        Releasable, Kept, AllGentle, PagesKept, Configured;
      ghost var st, r, free := State(batch, held), s.State(), |blockManager.freeBlockIds|;
      StateIs(batch, held);
      InvOf(batch, held);
      QueuedKnown(batch, held);
      At(batch, held, s);
      budget := GiveBackPages(s, batch, held);
      ghost var keep := PagesKept(r, free, budget);
      StateIs(batch, held);
      blockManager.SnapshotAt(s);
      PreemptInv(st, s.seqId, keep);
      ReleaseView(st.pool, s.seqId, keep);
      MarkLinked(s, Waiting, s.scheduledTokens, true, batch, held);
      Requeue(s, batch, held);
      StateIs(batch, held - {s.seqId});
      assert State(batch, held - {s.seqId}) == Preempted(st, s.seqId, keep);
      MakeReady(batch, held - {s.seqId});
    }

    method GiveBackPages(s: Sequence, ghost batch: seq<Sequence>, ghost held: set<nat>) returns (ghost budget: Budget)
      requires Linked(batch) && blockManager.Valid() && blockManager.Knows(s) && blockManager.blockSize > 0
      modifies blockManager`freeBlockIds, blockManager`usedBlockIds, blockManager`refCounts,
        blockManager`pendingResumeMatches
      modifies s`blockTable, s`logicalIndices, s`cachedTokens, s`physicalCachedTokens, s`compressed
      ensures Linked(batch) && blockManager.Valid() && Configured()
      ensures Releasable(old(blockManager.Snapshot()), s.seqId,
        PagesKept(old(s.State()), |old(blockManager.freeBlockIds)|, budget))
      ensures State(batch, held) == old(State(batch, held)).(pool :=
        Release(old(blockManager.Snapshot()), s.seqId,
          PagesKept(old(s.State()), |old(blockManager.freeBlockIds)|, budget)))
    {
      hide State, BlockManager.Valid, BlockManager.Snapshot, Pool.Inv, Ids, Release, Releasable;
      var someBudget: Budget := *;
      budget := someBudget;
      if s.compressed {
        DeallocateLinked(s, batch, held);
        return;
      }
      var missing := if |blockManager.freeBlockIds| + 1 < reclaimTargetFree
        then reclaimTargetFree - |blockManager.freeBlockIds| else 1;
      var decision := reclaimPolicy.Plan(s.State(), blockManager.blockSize, someBudget, missing);
      reclaimPolicy.PlanIsSafe(s.State(), blockManager.blockSize, someBudget, missing);
      ApplyReclaim(s, decision.keepBlocks, batch, held);
    }

    method DeallocateLinked(s: Sequence, ghost batch: seq<Sequence>, ghost held: set<nat>)
      requires Linked(batch) && blockManager.Valid() && blockManager.Knows(s)
      modifies blockManager`freeBlockIds, blockManager`usedBlockIds, blockManager`refCounts,
        blockManager`pendingResumeMatches
      modifies s`blockTable, s`logicalIndices, s`cachedTokens, s`physicalCachedTokens, s`compressed
      ensures Linked(batch) && blockManager.Valid() && Releasable(old(blockManager.Snapshot()), s.seqId, 0)
      ensures State(batch, held) == old(State(batch, held)).(pool := Release(old(blockManager.Snapshot()), s.seqId, 0))
    {
      hide RadixPrefixCache.Valid, Pool.Inv, BlockManager.Snapshot, Release, Releasable;
      blockManager.Deallocate(s);
    }

    method Requeue(s: Sequence, ghost batch: seq<Sequence>, ghost held: set<nat>)
      requires Linked(batch) && blockManager.Knows(s)
      modifies `waiting
      ensures Linked(batch) && waiting == [s] + old(waiting)
      ensures State(batch, held - {s.seqId})
        == old(State(batch, held)).(waiting := [s.seqId] + old(Ids(waiting)), held := held - {s.seqId})
    {
      hide BlockManager.Linked, BlockManager.Snapshot, Configured, Ids, Totals;
      IdsAppend(waiting, s);
      waiting := [s] + waiting;
    }

    /** Running requests are preempted until `s` can take its next token; `s` itself when it is the
        last one. */
    method RoomToAppend(s: Sequence, ghost batch: seq<Sequence>, ghost held: set<nat>) returns (ok: bool)
      requires Ready(batch, held) && blockManager.Knows(s) && s.seqId in held && s.seqId !in Ids(batch)
        && Elements(Ids(batch)) <= held
      modifies `waiting, `running, blockManager`freeBlockIds, blockManager`usedBlockIds, blockManager`refCounts,
        blockManager`pendingResumeMatches
      modifies blockManager.requests
      ensures |running| <= |old(running)| && AllGentle(old(blockManager.Snapshot()).reqs, blockManager.Snapshot().reqs)
      ensures ok ==>
        Ready(batch, held) && (|s.tokenIds| % blockManager.blockSize == 1 ==> blockManager.freeBlockIds != [])
      ensures !ok ==> Ready(batch, held - {s.seqId}) && running == [] && waiting != []
      ensures blockManager.blockSize > 0
    {
      hide Ready, State, Linked, BlockManager.Snapshot, BlockManager.Valid, BlockManager.Linked, AllGentle, Ids, Remove,
        Elements, Sched.Inv, Pool.Inv, Configured;
      ghost var p := blockManager.Snapshot().reqs;
      GentleRefl(p);
      InvOf(batch, held);
      ok := blockManager.CanAppend(s);
      while !ok
        invariant Ready(batch, held) && AllGentle(p, blockManager.Snapshot().reqs) && |running| <= |old(running)|
        invariant ok ==> (|s.tokenIds| % blockManager.blockSize == 1 ==> blockManager.freeBlockIds != [])
        decreases |running|, if ok then 0 else 1
      {
        ghost var q := blockManager.Snapshot().reqs;
        QueuedKnown(batch, held);
        if running == [] {
          ghost var _ := Preempt(s, batch, held);
          GentleTrans(p, q, blockManager.Snapshot().reqs);
          return false;
        }
        assert running[0] in running;
        var victim :| victim in running;
        PreemptVictim(victim, s, batch, held);
        GentleTrans(p, q, blockManager.Snapshot().reqs);
        ok := blockManager.CanAppend(s);
      }
    }

    method PreemptVictim(victim: Sequence, s: Sequence, ghost batch: seq<Sequence>, ghost held: set<nat>)
      requires Ready(batch, held) && victim in running && s.seqId in held && Elements(Ids(batch)) <= held
      modifies `waiting, `running, blockManager`freeBlockIds, blockManager`usedBlockIds, blockManager`refCounts,
        blockManager`pendingResumeMatches
      modifies victim
      ensures Ready(batch, held) && |running| < |old(running)| && s.tokenIds == old(s.tokenIds)
      ensures AllGentle(old(blockManager.Snapshot()).reqs, blockManager.Snapshot().reqs)
    {
      hide Ready, State, Linked, BlockManager.Snapshot, BlockManager.Valid, BlockManager.Linked, AllGentle, Ids, Remove,
        Elements;
      RunningIs(batch, held, victim);
      StateIs(batch, held);
      TakeOff(victim, batch, held);
      StateIs(batch, held + {victim.seqId});
      assert held + {victim.seqId} - {victim.seqId} == held;
      ghost var _ := Preempt(victim, batch, held + {victim.seqId});
    }

    /** `s` joins the batch for its next token, with a fresh page if that token needs one. */
    method JoinDecode(s: Sequence, ghost batch: seq<Sequence>, ghost held: set<nat>)
      requires Ready(batch, held) && blockManager.Knows(s) && s.seqId in held && s.seqId !in Ids(batch)
      requires |s.tokenIds| % blockManager.blockSize == 1 ==> blockManager.freeBlockIds != []
      modifies blockManager, blockManager.radixCache, blockManager.radixCache.nodes, s
      ensures Ready(batch + [s], held) && blockManager.requests == old(blockManager.requests)
      ensures blockManager.radixCache.nodes <= old(blockManager.radixCache.nodes)
      ensures AllGentle(old(blockManager.Snapshot()).reqs, blockManager.Snapshot().reqs)
    {
      hide Ready, State, Linked, BlockManager.Snapshot, BlockManager.Valid, BlockManager.Linked, AllGentle, Ids,
        Sched.Inv, Pool.Inv, DecodeMarked, GrewIf, RunningOk, Request.TableOk, Sched.Placed, Sched.Duty;
      ghost var st := State(batch, held);
      StateIs(batch, held);
      InvOf(batch, held);
      DecodingIs(batch, held, s);
      MarkLinked(s, Running, 1, false, batch, held);
      blockManager.SnapshotAt(s);
      StateIs(batch, held);
      ghost var marked := s.State();
      AppendLinked(s, batch, held);
      StateIs(batch, held);
      GrewMarked(st.pool.reqs[s.seqId], marked, s.State(), blockManager.blockSize);
      DecodeJoinInv(st, blockManager.Snapshot(), s.seqId);
      JoinBatch(s, batch, held);
      MakeReady(batch + [s], held);
    }

    lemma DecodingIs(batch: seq<Sequence>, held: set<nat>, s: Sequence)
      requires Ready(batch, held) && blockManager.Knows(s) && s.seqId in held && s.seqId !in Ids(batch)
      ensures s.seqId < |State(batch, held).pool.reqs| && s.State() == State(batch, held).pool.reqs[s.seqId]
      ensures s.status == Running && 2 <= blockManager.blockSize
      ensures |s.tokenIds| % blockManager.blockSize == 1 ==> s.State().NoGap(blockManager.blockSize)
      ensures |s.tokenIds| % blockManager.blockSize == 1 ==>
        s.State().NumBlocks(blockManager.blockSize) == s.State().Span() + 1
    {
      At(batch, held, s);
      DecodeRoom(s.State(), blockManager.blockSize);
    }

    method AppendLinked(s: Sequence, ghost batch: seq<Sequence>, ghost held: set<nat>)
      requires Linked(batch) && blockManager.Valid() && blockManager.Knows(s)
      requires |s.tokenIds| % blockManager.blockSize == 1 ==>
        blockManager.freeBlockIds != [] && s.State().NoGap(blockManager.blockSize)
      requires |s.tokenIds| % blockManager.blockSize == 1 ==>
        s.State().NumBlocks(blockManager.blockSize) == s.State().Span() + 1
      modifies blockManager, blockManager.radixCache, blockManager.radixCache.nodes, s`blockTable, s`logicalIndices
      ensures Linked(batch) && blockManager.Valid() && blockManager.requests == old(blockManager.requests)
      ensures blockManager.radixCache.nodes <= old(blockManager.radixCache.nodes)
      ensures State(batch, held) == old(State(batch, held)).(pool := blockManager.Snapshot())
      ensures SamePages(old(blockManager.Snapshot()), blockManager.Snapshot())
      ensures blockManager.Snapshot().reqs == old(blockManager.Snapshot()).reqs[s.seqId := s.State()]
      ensures GrewIf(old(s.State()), s.State(), blockManager.blockSize) && blockManager.Snapshot().Inv()
    {
      hide RadixPrefixCache.Valid, Pool.Inv, Ids, Totals;
      FreeOk(blockManager.Snapshot());
      ghost var r := s.State();
      blockManager.SnapshotAt(s);
      blockManager.MayAppend(s);
      blockManager.SnapshotAt(s);
      if |r.tokens| % blockManager.blockSize == 1 {
        assert s.State() == Push(r, s.blockTable[|s.blockTable|-1], r.Span());
      }
    }

    /** One request of the decode phase: it joins the batch, or has to wait because not even the
        pages of everybody else suffice. */
    method DecodeRound(s: Sequence, ghost batch: seq<Sequence>, ghost held: set<nat>) returns (ok: bool)
      requires Ready(batch, held) && s in running && Elements(Ids(batch)) <= held
      modifies `waiting, `running, blockManager, blockManager.radixCache, blockManager.radixCache.nodes,
        blockManager.requests
      ensures blockManager.requests == old(blockManager.requests)
        && blockManager.radixCache.nodes <= old(blockManager.radixCache.nodes)
      ensures AllGentle(old(blockManager.Snapshot()).reqs, blockManager.Snapshot().reqs) && |running| < |old(running)|
      ensures if ok then Ready(batch + [s], held + {s.seqId}) else Ready(batch, held) && running == [] && waiting != []
    {
      hide Ready, State, Linked, BlockManager.Snapshot, BlockManager.Valid, BlockManager.Linked, AllGentle, Ids, Remove,
        Elements;
      ghost var p, now := blockManager.Snapshot().reqs, held + {s.seqId};
      QueuedKnown(batch, held);
      RunningIs(batch, held, s);
      StateIs(batch, held);
      TakeOff(s, batch, held);
      StateIs(batch, now);
      assert now - {s.seqId} == held;
      ghost var _ := MaybeCompress(s, batch, now);
      ghost var q := blockManager.Snapshot().reqs;
      ok := RoomToAppend(s, batch, now);
      GentleTrans(p, q, blockManager.Snapshot().reqs);
      if ok {
        ghost var t := blockManager.Snapshot().reqs;
        JoinDecode(s, batch, now);
        GentleTrans(p, t, blockManager.Snapshot().reqs);
      }
    }

    /** Give each running request its next token, up to the batch limit. Either somebody is
        scheduled, or everybody has been sent back to wait. */
    method DecodePhase() returns (batch: seq<Sequence>, retry: bool)
      requires Valid()
      modifies `waiting, `running, blockManager, blockManager.radixCache, blockManager.radixCache.nodes,
        blockManager.requests
      ensures Ready(batch, {}) && AllRunning(batch) && |batch| <= maxSeqs
      ensures batch <= running && forall t | t in batch :: t.scheduledTokens == 1
      ensures blockManager.requests == old(blockManager.requests)
        && blockManager.radixCache.nodes <= old(blockManager.radixCache.nodes)
      ensures AllGentle(old(blockManager.Snapshot()).reqs, blockManager.Snapshot().reqs)
      ensures batch == [] && retry ==> old(running) != [] && running == [] && waiting != []
      ensures batch == [] && !retry ==> old(running) == [] && waiting == old(waiting) && running == []
    {
      hide Ready, State, Linked, BlockManager.Snapshot, BlockManager.Valid, BlockManager.Linked, AllGentle, Remove,
        Valid;
      ghost var p := blockManager.Snapshot().reqs;
      StartsDecoding();
      batch, retry := [], false;
      while running != [] && |batch| < maxSeqs
        invariant Ready(batch, Elements(Ids(batch))) && AllGentle(p, blockManager.Snapshot().reqs) && |batch| <= maxSeqs
        invariant blockManager.requests == old(blockManager.requests)
          && blockManager.radixCache.nodes <= old(blockManager.radixCache.nodes)
        invariant retry ==> old(running) != [] && running == [] && waiting != []
        invariant batch == [] && !retry ==> running == old(running) && waiting == old(waiting)
        decreases |running|
      {
        assert running[0] in running;
        var s :| s in running;
        ghost var q, held := blockManager.Snapshot().reqs, Elements(Ids(batch));
        var ok := DecodeRound(s, batch, held);
        GentleTrans(p, q, blockManager.Snapshot().reqs);
        if ok {
          IdsAppend(batch, s);
          ElementsAppend(Ids(batch), s.seqId);
          batch := batch + [s];
        } else {
          retry := true;
        }
      }
      Return(batch);
    }

    lemma StartsDecoding()
      requires Valid()
      ensures Ready([], Elements(Ids([]))) && AllGentle(blockManager.Snapshot().reqs, blockManager.Snapshot().reqs)
        && 1 <= maxSeqs
    {
      GentleRefl(blockManager.Snapshot().reqs);
      assert Elements(Ids([])) == {};
    }

    lemma OneTokenEach(batch: seq<Sequence>)
      requires Ready(batch, Elements(Ids(batch)))
      ensures forall t | t in batch :: t.scheduledTokens == 1
    {
      forall t | t in batch
        ensures t.scheduledTokens == 1
      {
        Known(batch, Elements(Ids(batch)), t);
        At(batch, Elements(Ids(batch)), t);
        var k :| 0 <= k < |batch| && batch[k] == t;
        assert Ids(batch)[k] == t.seqId;
      }
    }

    /** The decoded requests go back to the front of the running queue, in their order. */
    method Return(batch: seq<Sequence>)
      requires Ready(batch, Elements(Ids(batch)))
      modifies `running
      ensures Ready(batch, {}) && running == batch + old(running) && AllRunning(batch)
      ensures forall t | t in batch :: t.scheduledTokens == 1
    {
      hide BlockManager.Linked, BlockManager.Snapshot, Configured, Ids, Totals, Sched.Inv;
      OneTokenEach(batch);
      ghost var held := Elements(Ids(batch));
      StateIs(batch, held);
      ReturnInv(State(batch, held));
      IdsConcat(batch, running);
      running := batch + running;
      StateIs(batch, {});
    }

    // ---------- scheduling ----------

    predicate IsFinished()
      reads this
    {
      waiting == [] && running == [] && pendingRestores == map[]
    }

    method ScheduleOnce() returns (o: Outcome, ghost partial: bool)
      requires Valid()
      modifies `waiting, `running, `pendingRestores, blockManager, blockManager.radixCache,
        blockManager.radixCache.nodes, blockManager.requests
      ensures Ready(o.Batch(), {}) && (o.Scheduled? ==> o.batch != [])
      ensures o.Scheduled? ==> |o.batch| <= maxSeqs && (o.prefill ==> TokensOf(o.batch) <= maxBatchedTokens)
      ensures o.Scheduled? ==> forall t | t in o.batch :: if o.prefill then !t.compressed else t.scheduledTokens == 1
      ensures blockManager.requests == old(blockManager.requests)
        && blockManager.radixCache.nodes <= old(blockManager.radixCache.nodes)
      ensures AllGentle(old(blockManager.Snapshot()).reqs, blockManager.Snapshot().reqs)
      ensures if partial then o.Scheduled? && o.prefill && running == old(running)
        && Prefilled(old(blockManager.Snapshot()).reqs, o.batch, true)
              else AllRunning(o.Batch())
      ensures o.Retry? ==> old(running) != [] && running == [] && waiting != [] && pendingRestores == map[]
      ensures o.AwaitRestores? ==> pendingRestores != map[]
      ensures o.NoRunnable? ==> IsFinished()
    {
      hide Ready, State, Linked, BlockManager.Snapshot, BlockManager.Valid, BlockManager.Linked, AllGentle, Remove,
        Prefilled;
      ghost var p := blockManager.Snapshot().reqs;
      var batch;
      batch, partial := PrefillPhase();
      PrefilledIs(p, batch, partial);
      if batch != [] {
        return Scheduled(batch, true), partial;
      }
      NotPartial(p, batch, partial);
      ghost var q := blockManager.Snapshot().reqs;
      var retry;
      batch, retry := DecodePhase();
      GentleTrans(p, q, blockManager.Snapshot().reqs);
      if batch != [] {
        return Scheduled(batch, false), false;
      } else if pendingRestores != map[] {
        return AwaitRestores, false;
      } else if retry {
        return Retry, false;
      } else {
        return NoRunnable, false;
      }
    }

    lemma NotPartial(p: seq<Request>, batch: seq<Sequence>, partial: bool)
      requires Prefilled(p, batch, partial) && batch == []
      ensures !partial
    {
    }

    /** The next batch. A scheduler with anything queued never fails: it schedules somebody, or
        waits for a restore. When all it could schedule is a part of one prompt, that brings this
        request forward, or everybody running had to give way to it. */
    method Schedule() returns (o: Outcome, ghost partial: bool)
      requires Valid()
      modifies `waiting, `running, `pendingRestores, blockManager, blockManager.radixCache,
        blockManager.radixCache.nodes, blockManager.requests
      ensures Ready(o.Batch(), {}) && !o.Retry? && (o.Scheduled? ==> o.batch != [])
      ensures o.Scheduled? ==> |o.batch| <= maxSeqs && (o.prefill ==> TokensOf(o.batch) <= maxBatchedTokens)
      ensures o.Scheduled? ==> forall t | t in o.batch :: if o.prefill then !t.compressed else t.scheduledTokens == 1
      ensures blockManager.requests == old(blockManager.requests)
        && blockManager.radixCache.nodes <= old(blockManager.radixCache.nodes)
      ensures AllGentle(old(blockManager.Snapshot()).reqs, blockManager.Snapshot().reqs)
      ensures o.AwaitRestores? ==> pendingRestores != map[]
      ensures o.NoRunnable? ==> old(IsFinished())
      ensures !partial ==> AllRunning(o.Batch())
      ensures partial ==>
        o.Scheduled? && o.prefill && |o.batch| == 1 && o.batch[0] in waiting && blockManager.blockSize > 0
      ensures partial ==>
        Forward(old(blockManager.Snapshot()).reqs, blockManager.Snapshot().reqs, o.batch[0].seqId,
        blockManager.blockSize)
    {
      hide Ready, State, Linked, BlockManager.Snapshot, BlockManager.Valid, BlockManager.Linked, AllGentle, Remove,
        Forward;
      ghost var p := blockManager.Snapshot().reqs;
      WhoIsQueued([]);
      ghost var before := running != [];
      o, partial := ScheduleOnce();
      ghost var q := blockManager.Snapshot().reqs;
      WhoIsQueued(o.Batch());
      if partial {
        PartialForward(p, o.batch);
      }
      if o.Retry? {
        o, partial := ScheduleOnce();
        GentleTrans(p, q, blockManager.Snapshot().reqs);
        WhoIsQueued(o.Batch());
        if partial {
          PartialAfterRetry(p, q, o.batch);
        }
      }
      NobodyAppears(p, blockManager.Snapshot().reqs);
    }

    /** Who is live is queued, and who runs is on the running queue. */
    lemma WhoIsQueued(batch: seq<Sequence>)
      requires Ready(batch, {})
      ensures AnyRunning(blockManager.Snapshot().reqs) <==> running != []
      ensures AnyLive(blockManager.Snapshot().reqs) <==> !IsFinished()
    {
      StateIs(batch, {});
      InvOf(batch, {});
      SomebodyQueued(State(batch, {}));
      if pendingRestores != map[] {
        var k :| k in pendingRestores;
        assert k in Totals(pendingRestores);
      }
    }

    lemma PartialForward(p: seq<Request>, batch: seq<Sequence>)
      requires Prefilled(p, batch, true)
      ensures |batch| == 1 && blockManager.blockSize > 0 && batch[0] in waiting
      ensures Forward(p, blockManager.Snapshot().reqs, batch[0].seqId, blockManager.blockSize)
    {
      PartialIs(batch);
    }

    lemma PartialIs(batch: seq<Sequence>)
      requires Ready(batch, {}) && |batch| == 1 && batch[0] in waiting
      ensures var q := blockManager.Snapshot().reqs; var i := batch[0].seqId;
        i < |q| && 0 < q[i].scheduled && q[i].status == Waiting
    {
      WaitingIs(batch, {}, batch[0]);
      At(batch, {}, batch[0]);
      assert Ids(batch)[0] == batch[0].seqId;
    }

    lemma PartialAfterRetry(p: seq<Request>, mid: seq<Request>, batch: seq<Sequence>)
      requires Prefilled(mid, batch, true) && AllGentle(p, blockManager.Snapshot().reqs)
      requires AnyRunning(p) && !AnyRunning(blockManager.Snapshot().reqs)
      ensures |batch| == 1 && blockManager.blockSize > 0 && batch[0] in waiting
      ensures Forward(p, blockManager.Snapshot().reqs, batch[0].seqId, blockManager.blockSize)
    {
      PartialIs(batch);
    }

    // ---------- after the model run ----------

    /** The model runs the batch: it computes the KV of every scheduled position. */
    ghost method Execute(batch: seq<Sequence>)
      requires Ready(batch, {})
      modifies blockManager`kv
      ensures Ready(batch, {}) && RanAll(blockManager.Snapshot(), Ids(batch))
      ensures blockManager.blockSize > 0
        && State(batch, {}) == old(State(batch, {})).(pool := RunBatch(old(blockManager.Snapshot()), Ids(batch)))
    {
      hide Ids, Totals, Sched.Inv, Pool.Inv, RunBatch, RadixPrefixCache.Valid;
      ghost var st := State(batch, {});
      InvOf(batch, {});
      RunBatchSched(st);
      blockManager.kv := RunBatch(st.pool, st.batch).kv;
      assert State(batch, {}) == st.(pool := RunBatch(st.pool, st.batch));
    }

    /** Whether `token` is the last one of `s`. */
    predicate IsLast(s: Sequence, token: Token)
      reads s`tokenIds
    {
      (!s.ignoreEos && token == eos) || |s.tokenIds| + 1 - s.promptTokens == s.maxTokens
    }

    /** The end of the step for the first request of what remains of the batch. */
    method Settle(s: Sequence, token: Token, prefill: bool, ghost batch: seq<Sequence>)
      requires Ready(batch, {}) && batch != [] && s == batch[0] && RanAll(blockManager.Snapshot(), Ids(batch))
      requires prefill || s.status == Running
      modifies `running, blockManager, blockManager.radixCache, blockManager.radixCache.nodes, s
      ensures Ready(batch[1..], {}) && RanAll(blockManager.Snapshot(), Ids(batch[1..]))
      ensures blockManager.requests == old(blockManager.requests)
        && fresh(blockManager.radixCache.nodes - old(blockManager.radixCache.nodes))
      ensures blockManager.Snapshot().reqs
        == old(blockManager.Snapshot()).reqs[s.seqId := After(old(s.State()), token, old(IsLast(s, token)))]
    {
      hide Ready, State, Linked, BlockManager.Snapshot, BlockManager.Valid, BlockManager.Linked, Ids, Remove, Sched.Inv,
        Pool.Inv, RanAll, Ran, After, ScheduledOk, Request.TableOk, Sched.Placed, Sched.Duty, Settled, Complete,
        Release, Releasable;
      ghost var st, i, last := State(batch, {}), s.seqId, IsLast(s, token);
      StateIs(batch, {});
      InvOf(batch, {});
      FirstIs(batch);
      RanFirst(st.pool, Ids(batch));
      AdvanceIs(st, i);
      FinishLinked(s, batch);
      StateIs(batch, {});
      if s.status == Running {
        EmitToken(s, token, batch, st);
      } else {
        PartSettles(st, i, token, last);
        Rest(batch);
        assert State(batch[1..], {}) == st.(pool := Advance(st, i), batch := Ids(batch)[1..]);
        MakeReady(batch[1..], {});
      }
      StateIs(batch[1..], {});
      SettledRan(st, State(batch[1..], {}), token, last);
      WhatSettled(st, State(batch[1..], {}), token, last);
    }

    /** A running request gets its token, and leaves if that is its last one. */
    method EmitToken(s: Sequence, token: Token, ghost batch: seq<Sequence>, ghost st: Sched)
      requires Linked(batch) && blockManager.Valid() && blockManager.Knows(s) && s in running && s.status == Running
      requires st.Inv() && st.pool.Inv() && st.batch == Ids(batch) && Ids(batch) != [] && Ids(batch)[0] == s.seqId
        && Ids(batch[1..]) == Ids(batch)[1..] && st.held == {}
      requires s.seqId < |st.pool.reqs| && Ran(st.pool, s.seqId, st.pool.reqs[s.seqId].scheduled) && batch != []
      requires s.State() == Advanced(st.pool.reqs[s.seqId], st.pool.reqs[s.seqId].scheduled)
        && |s.tokenIds| < s.promptTokens + s.maxTokens
      requires State(batch, {}) == st.(pool := Advance(st, s.seqId))
      modifies `running, blockManager, s
      ensures Ready(batch[1..], {}) && Settled(st, State(batch[1..], {}), token, old(IsLast(s, token)))
      ensures blockManager.requests == old(blockManager.requests)
    {
      hide Ready, State, Linked, BlockManager.Snapshot, BlockManager.Valid, BlockManager.Linked, Ids, Remove, Sched.Inv,
        Pool.Inv, RanAll, Ran, Advance, After, ScheduledOk, Request.TableOk, Sched.Placed, Sched.Duty, Settled,
        Complete, Release, Releasable;
      ghost var i := s.seqId;
      StateIs(batch, {});
      AdvanceIs(st, i);
      var last := IsLast(s, token);
      AppendTokenLinked(s, token, batch);
      StateIs(batch, {});
      assert s.State() == Emitted(st.pool.reqs[i], token);
      if last {
        FinishLast(s, token, batch, st);
      } else {
        TokenSettles(st, i, token);
        Rest(batch);
        MakeReady(batch[1..], {});
      }
    }

    method FinishLast(s: Sequence, token: Token, ghost batch: seq<Sequence>, ghost st: Sched)
      requires Linked(batch) && blockManager.Valid() && blockManager.Knows(s) && s.status == Running && batch != []
      requires st.batch == Ids(batch) && Emits(st, State(batch, {}), s.seqId, s.State(), token)
      modifies `running, blockManager, s
      ensures Ready(batch[1..], {}) && Settled(st, State(batch[1..], {}), token, true)
      ensures blockManager.requests == old(blockManager.requests)
    {
      hide Ready, State, Linked, BlockManager.Snapshot, BlockManager.Valid, BlockManager.Linked, Ids, Remove, Sched.Inv,
        Pool.Inv, RanAll, Ran, Advance, ScheduledOk, Request.TableOk, Settled, Complete, Release, Releasable;
      ghost var i, q := s.seqId, Advance(st, s.seqId);
      StateIs(batch, {});
      AdvanceIs(st, i);
      LastSettles(st, i, token);
      MarkLinked(s, Finished, s.scheduledTokens, s.isPrefill, batch, {});
      StateIs(batch, {});
      assert SetReq(SetReq(q, i, Emitted(st.pool.reqs[i], token)), i, s.State()) == SetReq(q, i, s.State());
      DeallocateLinked(s, batch, {});
      Retire(s, batch);
      Rest(batch);
      MakeReady(batch[1..], {});
    }

    method AppendTokenLinked(s: Sequence, token: Token, ghost batch: seq<Sequence>)
      requires Linked(batch) && blockManager.Valid() && blockManager.Knows(s)
      modifies s`tokenIds
      ensures Linked(batch) && blockManager.Valid() && s.State() == old(s.State()).(tokens := old(s.tokenIds) + [token])
      ensures State(batch, {})
        == old(State(batch, {})).(pool := SetReq(old(blockManager.Snapshot()), s.seqId, s.State()))
    {
      hide RadixPrefixCache.Valid, Pool.Inv, Ids, Totals;
      blockManager.AppendToken(s, token);
    }

    method Retire(s: Sequence, ghost batch: seq<Sequence>)
      requires Linked(batch) && blockManager.Knows(s)
      modifies `running
      ensures Linked(batch) && running == Remove(old(running), s)
      ensures State(batch, {}) == old(State(batch, {})).(running := Remove(old(Ids(running)), s.seqId))
    {
      hide BlockManager.Linked, BlockManager.Snapshot, Configured, Ids, Totals, Remove;
      QueueIds(batch, s);
      running := Remove(running, s);
    }

    lemma Rest(batch: seq<Sequence>)
      requires Linked(batch) && batch != []
      ensures Linked(batch[1..]) && State(batch[1..], {}) == State(batch, {}).(batch := Ids(batch)[1..])
    {
      assert Ids(batch[1..]) == Ids(batch)[1..];
      assert forall t | t in batch[1..] :: t in batch;
    }

    lemma BatchIs(batch: seq<Sequence>)
      requires Ready(batch, {})
      ensures Distinct(Ids(batch)) && forall k | 0 <= k < |batch| :: Ids(batch)[k] < |blockManager.Snapshot().reqs|
      ensures AllRunning(batch) ==> forall k | 0 <= k < |batch| ::
        blockManager.Snapshot().reqs[Ids(batch)[k]].status == Running
      ensures forall k | 0 <= k < |batch| ::
        ScheduledOk(blockManager.Snapshot().reqs[Ids(batch)[k]], blockManager.blockSize)
      ensures forall k | 0 <= k < |batch| :: Unfinished(blockManager.Snapshot().reqs[Ids(batch)[k]])
      ensures blockManager.blockSize > 0
    {
      forall k | 0 <= k < |batch|
        ensures Ids(batch)[k] < |blockManager.Snapshot().reqs|
        ensures AllRunning(batch) ==> blockManager.Snapshot().reqs[Ids(batch)[k]].status == Running
        ensures ScheduledOk(blockManager.Snapshot().reqs[Ids(batch)[k]], blockManager.blockSize)
        ensures Unfinished(blockManager.Snapshot().reqs[Ids(batch)[k]])
      {
        assert batch[k] in batch;
        At(batch, {}, batch[k]);
        if AllRunning(batch) {
          RunningIs(batch, {}, batch[k]);
        }
      }
    }

    /** The end of the step: every request of the batch is settled with its own token, and nobody else
        changes. */
    method Postprocess(batch: seq<Sequence>, tokens: seq<Token>, prefill: bool) returns (ghost endings: seq<Ending>)
      requires Ready(batch, {}) && RanAll(blockManager.Snapshot(), Ids(batch)) && |tokens| == |batch|
      requires !prefill ==> AllRunning(batch)
      modifies `running, blockManager, blockManager.radixCache, blockManager.radixCache.nodes, blockManager.requests
      ensures Valid() && blockManager.requests == old(blockManager.requests)
      ensures fresh(blockManager.radixCache.nodes - old(blockManager.radixCache.nodes))
      ensures |endings| == |batch| && forall k | 0 <= k < |batch| ::
        endings[k] == Ending(tokens[k], old(IsLast(batch[k], tokens[k])))
      ensures SettledAll(old(blockManager.Snapshot()).reqs, blockManager.Snapshot().reqs, Ids(batch), endings, |batch|)
    {
      hide Ready, State, Linked, BlockManager.Snapshot, BlockManager.Valid, BlockManager.Linked, Remove, RanAll,
        SettledAll, ScheduledOk, After, Ids, Sched.Inv, Pool.Inv, Configured, IsLast;
      ghost var p := blockManager.Snapshot().reqs;
      endings := EndingsOf(batch, tokens);
      ghost var expected := endings;
      NothingSettled(p, Ids(batch), expected);
      ghost var unsettled := batch;
      BatchIs(batch);
      BatchKnown(batch);
      var k := 0;
      while k < |batch|
        invariant k <= |batch| && unsettled == batch[k..] && Ready(unsettled, {})
          && RanAll(blockManager.Snapshot(), Ids(unsettled))
        invariant blockManager.requests == old(blockManager.requests)
          && fresh(blockManager.radixCache.nodes - old(blockManager.radixCache.nodes))
        invariant SettledAll(p, blockManager.Snapshot().reqs, Ids(batch), expected, k)
      {
        FirstIs(unsettled);
        QueuedKnown(unsettled, {});
        ghost var q := blockManager.Snapshot().reqs;
        blockManager.SnapshotAt(batch[k]);
        NotYetSettled(p, q, Ids(batch), expected, k);
        Settle(batch[k], tokens[k], prefill, unsettled);
        SettledMore(p, q, blockManager.Snapshot().reqs, Ids(batch), expected, k);
        unsettled := unsettled[1..];
        k := k + 1;
      }
    }

    ghost function EndingsOf(batch: seq<Sequence>, tokens: seq<Token>): (endings: seq<Ending>)
      requires |tokens| == |batch|
      reads batch
      ensures |endings| == |batch| && forall k | 0 <= k < |batch| ::
        endings[k] == Ending(tokens[k], IsLast(batch[k], tokens[k]))
    {
      seq(|batch|, k requires 0 <= k < |batch| reads batch => Ending(tokens[k], IsLast(batch[k], tokens[k])))
    }

    lemma BatchKnown(batch: seq<Sequence>)
      requires Ready(batch, {})
      ensures forall k | 0 <= k < |batch| ::
        Ids(batch)[k] < |blockManager.Snapshot().reqs|
          && blockManager.Snapshot().reqs[Ids(batch)[k]].tokens == batch[k].tokenIds
    {
      forall k | 0 <= k < |batch|
        ensures Ids(batch)[k] < |blockManager.Snapshot().reqs|
          && blockManager.Snapshot().reqs[Ids(batch)[k]].tokens == batch[k].tokenIds
      {
        assert batch[k] in batch;
        At(batch, {}, batch[k]);
      }
    }

    lemma FirstIs(batch: seq<Sequence>)
      requires Ready(batch, {}) && batch != []
      ensures var s := batch[0];
        && blockManager.Knows(s) && Ids(batch) != [] && Ids(batch)[0] == s.seqId
             && s.seqId < |State(batch, {}).pool.reqs|
        && State(batch, {}).pool.reqs[s.seqId] == s.State() && (s.status == Running || s.status == Waiting)
             && Ids(batch[1..]) == Ids(batch)[1..]
        && Distinct(Ids(batch)) && |s.tokenIds| < s.promptTokens + s.maxTokens
             && ScheduledOk(s.State(), blockManager.blockSize) && (s.status == Running ==> s in running)
    {
      hide Sched.Inv, Sched.Placed, Sched.Duty, ScheduledOk, BlockManager.Snapshot, BlockManager.Linked;
      var s := batch[0];
      Known(batch, {}, s);
      StateIs(batch, {});
      InvOf(batch, {});
      blockManager.SnapshotAt(s);
      FirstDuty(State(batch, {}));
      if s.status == Running {
        var j :| 0 <= j < |running| && Ids(running)[j] == s.seqId;
        Known(batch, {}, running[j]);
      }
    }

    method FinishLinked(s: Sequence, ghost batch: seq<Sequence>)
      requires Linked(batch) && blockManager.Valid() && blockManager.Knows(s)
        && Ran(blockManager.Snapshot(), s.seqId, s.scheduledTokens)
      modifies blockManager.radixCache, blockManager.radixCache.nodes, s`cachedTokens, s`physicalCachedTokens,
        s`scheduledTokens
      ensures Linked(batch) && blockManager.Valid()
        && fresh(blockManager.radixCache.nodes - old(blockManager.radixCache.nodes))
      ensures State(batch, {})
        == old(State(batch, {})).(pool := Complete(old(blockManager.Snapshot()), s.seqId, old(s.scheduledTokens)))
      ensures s.State() == Advanced(old(s.State()), old(s.scheduledTokens))
    {
      hide RadixPrefixCache.Valid, Pool.Inv, Complete, Ids, Totals, Ran;
      blockManager.FinishRun(s);
    }

    // ---------- restores end ----------

    /** Fetched pages of a restore are imported, up to the first `pages` of its table. */
    ghost method ImportRestored(id: nat, pages: nat)
      requires Valid() && id in pendingRestores && blockManager.blockSize > 0
      requires var r := pendingRestores[id];
        Full(r.sequence.cachedTokens, blockManager.blockSize) <= pages <= r.totalCachedBlocks
      modifies blockManager`kv
      ensures Valid() && id < |old(blockManager.Snapshot()).reqs| && old(State([], {})).pool.bs > 0
      ensures State([], {}) == old(State([], {})).(pool := Import(old(State([], {})), id, pages))
      ensures blockManager.Snapshot().reqs == old(blockManager.Snapshot()).reqs
      ensures var s, n := pendingRestores[id].sequence, Start(pages, blockManager.blockSize);
        s.cachedTokens <= n && Ran(blockManager.Snapshot(), id, n - s.cachedTokens)
    {
      hide Ran, Ids, Sched.Inv, Pool.Inv, Import, RadixPrefixCache.Valid;
      ghost var st := State([], {});
      PendingIs(id);
      ImportInv(st, id, pages);
      blockManager.kv := Import(st, id, pages).kv;
      assert State([], {}) == st.(pool := Import(st, id, pages));
    }

    lemma PendingIs(id: nat)
      requires Valid() && id in pendingRestores
      ensures id in State([], {}).pending && State([], {}).pending[id] == pendingRestores[id].totalCachedBlocks
      ensures var s := pendingRestores[id].sequence;
        && blockManager.Knows(s) && s.seqId == id && s.status == WaitingForKv && s in blockManager.requests
        && id < |State([], {}).pool.reqs| && State([], {}).pool.reqs[id] == s.State()
        && PendingOk(s.State(), blockManager.blockSize, pendingRestores[id].totalCachedBlocks) && s.scheduledTokens == 0
    {
      At([], {}, pendingRestores[id].sequence);
    }

    lemma PendingPages(id: nat)
      requires Valid() && id in pendingRestores
      ensures blockManager.blockSize > 0
      ensures var r := pendingRestores[id];
        Full(r.sequence.cachedTokens, blockManager.blockSize) < r.totalCachedBlocks
    {
      PendingIs(id);
    }

    /** A restore whose pages have been imported is committed: its whole prefix becomes matchable in
        one step, and the request waits to compute the rest. */
    method CompleteRemoteRestore(id: nat)
      requires Valid() && id in pendingRestores
      requires var s := pendingRestores[id].sequence;
        var n := Start(pendingRestores[id].totalCachedBlocks, blockManager.blockSize);
        s.cachedTokens <= n && Ran(blockManager.Snapshot(), id, n - s.cachedTokens)
      modifies `waiting, `pendingRestores, blockManager.radixCache, blockManager.radixCache.nodes,
        pendingRestores[id].sequence
      ensures Valid() && fresh(blockManager.radixCache.nodes - old(blockManager.radixCache.nodes))
      ensures pendingRestores == old(pendingRestores) - {id}
        && waiting == old(waiting) + [old(pendingRestores)[id].sequence]
      ensures var s, n := old(pendingRestores)[id].sequence, old(pendingRestores)[id].totalCachedBlocks;
        && Start(n, blockManager.blockSize) <= |s.tokenIds|
        && Indexed(blockManager.radixCache.view, PathOfTokens(s.tokenIds, n, blockManager.blockSize))
      ensures RestoreStep(old(blockManager.Snapshot()).reqs, blockManager.Snapshot().reqs)
    {
      hide Ready, State, Linked, BlockManager.Snapshot, BlockManager.Valid, BlockManager.Linked, Ids, Totals, Remove,
        Sched.Inv, Pool.Inv, Ran, Request.TableOk, Sched.Placed, Sched.Duty, Release, Releasable, Indexed, PathOfTokens,
        Configured, Restored, Complete, RestoreStep, Start, PendingOk;
      ghost var st, n := State([], {}), Start(pendingRestores[id].totalCachedBlocks, blockManager.blockSize);
      var s := pendingRestores[id].sequence;
      StateIs([], {});
      InvOf([], {});
      PendingIs(id);
      RestoredInv(st, id);
      RestoredIs(st, id, n - s.cachedTokens);
      CommitLinked(s, pendingRestores[id].totalCachedBlocks);
      StateIs([], {});
      EndLinked(s);
      StateIs([], {});
      Rejoin(s, false);
      StateIs([], {});
      assert State([], {}) == Restored(st, id);
      MakeReady([], {});
    }

    method CommitLinked(s: Sequence, pages: nat)
      requires Linked([]) && blockManager.Valid() && blockManager.Knows(s) && s.scheduledTokens == 0
        && blockManager.blockSize > 0
      requires PendingOk(s.State(), blockManager.blockSize, pages)
        && s.cachedTokens <= Start(pages, blockManager.blockSize)
      requires Ran(blockManager.Snapshot(), s.seqId, Start(pages, blockManager.blockSize) - s.cachedTokens)
      modifies blockManager.radixCache, blockManager.radixCache.nodes, s`cachedTokens, s`physicalCachedTokens
      ensures Linked([]) && blockManager.Valid()
        && fresh(blockManager.radixCache.nodes - old(blockManager.radixCache.nodes))
      ensures State([], {})
        == old(State([], {})).(pool := Complete(old(blockManager.Snapshot()), s.seqId,
        Start(pages, blockManager.blockSize) - old(s.cachedTokens)))
      ensures s.State() == Advanced(old(s.State()), Start(pages, blockManager.blockSize) - old(s.cachedTokens))
      ensures Start(pages, blockManager.blockSize) <= |s.tokenIds|
      ensures Indexed(blockManager.radixCache.view, PathOfTokens(s.tokenIds, pages, blockManager.blockSize))
    {
      hide RadixPrefixCache.Valid, Pool.Inv, Ids, Totals, Ran, Start, Full, Indexed, PathOfTokens;
      ghost var p, k := blockManager.Snapshot(), Start(pages, blockManager.blockSize) - s.cachedTokens;
      blockManager.SnapshotAt(s);
      CompleteReq(p, s.seqId, k);
      hide Complete;
      var outcome := blockManager.CommitRestoredPrefix(s, pages);
      blockManager.SnapshotAt(s);
    }

    method EndLinked(s: Sequence)
      requires Linked([]) && blockManager.Valid() && blockManager.Knows(s) && s.status == WaitingForKv
      modifies s`status
      ensures Linked([]) && blockManager.Valid() && s.State() == old(s.State()).(status := Waiting)
      ensures State([], {}) == old(State([], {})).(pool := SetReq(old(blockManager.Snapshot()), s.seqId, s.State()))
    {
      hide RadixPrefixCache.Valid, Pool.Inv, Ids, Totals;
      var ok := blockManager.EndRestore(s);
    }

    /** `s` leaves the pending restores for one end of the waiting queue. */
    method Rejoin(s: Sequence, front: bool)
      requires Linked([]) && blockManager.Knows(s)
      modifies `waiting, `pendingRestores
      ensures Linked([]) && waiting == (if front then [s] + old(waiting) else old(waiting) + [s])
        && pendingRestores == old(pendingRestores) - {s.seqId}
      ensures State([], {}) == old(State([], {})).(pending := old(State([], {})).pending - {s.seqId},
        waiting := if front then [s.seqId] + old(Ids(waiting)) else old(Ids(waiting)) + [s.seqId])
    {
      hide BlockManager.Linked, BlockManager.Snapshot, Configured, Ids, Totals;
      IdsAppend(waiting, s);
      TotalsRemove(pendingRestores, s.seqId);
      waiting := if front then [s] + waiting else waiting + [s];
      pendingRestores := pendingRestores - {s.seqId};
    }

    /** A restore that failed is abandoned: every page reserved for it is given back. */
    method FailRemoteRestore(id: nat)
      requires Valid() && id in pendingRestores
      modifies `waiting, `pendingRestores, blockManager, pendingRestores[id].sequence
      ensures Valid() && blockManager.requests == old(blockManager.requests)
      ensures pendingRestores == old(pendingRestores) - {id}
        && waiting == [old(pendingRestores)[id].sequence] + old(waiting)
      ensures old(pendingRestores)[id].sequence.blockTable == []
      ensures RestoreStep(old(blockManager.Snapshot()).reqs, blockManager.Snapshot().reqs)
    {
      hide Ready, State, Linked, BlockManager.Snapshot, BlockManager.Valid, BlockManager.Linked, Ids, Totals, Remove,
        Sched.Inv, Pool.Inv, Ran, Request.TableOk, Sched.Placed, Sched.Duty, Release, Releasable;
      ghost var st := State([], {});
      var s := pendingRestores[id].sequence;
      StateIs([], {});
      InvOf([], {});
      PendingIs(id);
      AbandonedInv(st, id);
      ReleaseView(st.pool, id, 0);
      DeallocateLinked(s, [], {});
      StateIs([], {});
      blockManager.SnapshotAt(s);
      EndLinked(s);
      StateIs([], {});
      Rejoin(s, true);
      StateIs([], {});
      assert State([], {}) == Abandoned(st, id);
      MakeReady([], {});
    }

    // ---------- arrival and cancellation ----------

    /** A new request, numbered by arrival, joins the waiting queue. */
    method Add(s: Sequence)
      requires Valid() && s !in blockManager.requests && s.seqId == |blockManager.requests| && s.status == Waiting
        && s.scheduledTokens == 0
      requires s.blockTable == [] && s.logicalIndices == [] && s.cachedTokens == 0 && s.physicalCachedTokens == 0
        && !s.compressed
      requires Fits(s.State(), blockManager.blockSize, |blockManager.refCounts|)
      modifies `waiting, blockManager`requests
      ensures Valid() && waiting == old(waiting) + [s] && blockManager.requests == old(blockManager.requests) + [s]
      ensures blockManager.Snapshot() == Arrive(old(blockManager.Snapshot()), s.State())
    {
      hide Ids, Totals, Sched.Inv, Pool.Inv, RadixPrefixCache.Valid, Configured;
      ghost var st := State([], {});
      InvOf([], {});
      JoinedInv(st, s.State());
      IdsAppend(waiting, s);
      waiting := waiting + [s];
      blockManager.requests := blockManager.requests + [s];
      assert State([], {}) == Joined(st, s.State());
    }

    method Find(ss: seq<Sequence>, id: nat) returns (s: Sequence?)
      ensures s == null ==> forall t | t in ss :: t.seqId != id
      ensures s != null ==> s in ss && s.seqId == id
    {
      for k := 0 to |ss|
        invariant forall t | t in ss[..k] :: t.seqId != id
      {
        if ss[k].seqId == id {
          return ss[k];
        }
      }
      return null;
    }

    /** A queued request is cancelled, wherever it is: it leaves its queue and owns nothing any
        more. Fails only for a request that is not queued. */
    method Cancel(id: nat) returns (ok: bool)
      requires Valid()
      modifies this, blockManager, blockManager.requests
      ensures Valid() && blockManager.requests == old(blockManager.requests)
      ensures ok <==> id < |old(blockManager.Snapshot()).reqs| && old(blockManager.Snapshot()).reqs[id].Live()
      ensures !ok ==> State([], {}) == old(State([], {}))
      ensures ok ==>
        Releasable(old(blockManager.Snapshot()), id, 0) && State([], {}) == Cancelling(old(State([], {})), id)
    {
      hide Ready, State, Linked, BlockManager.Snapshot, BlockManager.Valid, BlockManager.Linked, Ids, Totals, Remove,
        Sched.Inv, Pool.Inv, Request.TableOk, Sched.Placed, Sched.Duty, Release, Releasable;
      ghost var st := State([], {});
      StateIs([], {});
      InvOf([], {});
      QueuedKnown([], {});
      var s := Find(waiting, id);
      if s == null {
        s := Find(running, id);
      }
      if s == null && id in pendingRestores {
        s := pendingRestores[id].sequence;
      }
      WhereIs(id, s);
      if s == null {
        return false;
      }
      Withdraw(s);
      return true;
    }

    /** The queued request `s` leaves, and gives back its pages. */
    method Withdraw(s: Sequence)
      requires Valid() && blockManager.Knows(s) && s.State().Live()
      modifies this, blockManager, s
      ensures Valid() && blockManager.requests == old(blockManager.requests)
        && Releasable(old(blockManager.Snapshot()), s.seqId, 0)
      ensures State([], {}) == Cancelling(old(State([], {})), s.seqId)
    {
      hide Ready, State, Linked, BlockManager.Snapshot, BlockManager.Valid, BlockManager.Linked, Ids, Totals, Remove,
        Sched.Inv, Pool.Inv, Request.TableOk, Sched.Placed, Sched.Duty, Release, Releasable;
      ghost var st, id := State([], {}), s.seqId;
      StateIs([], {});
      InvOf([], {});
      blockManager.SnapshotAt(s);
      CancelInv(st, id);
      CancelTable(st, id);
      ReleaseView(st.pool, id, 0);
      ForgetPlans(s.seqId);
      LeaveQueues(s);
      StateIs([], {});
      if s.blockTable != [] {
        DeallocateLinked(s, [], {});
      } else {
        ReleaseNothing(st.pool, id);
      }
      StateIs([], {});
      blockManager.SnapshotAt(s);
      CancelLinked(s);
      StateIs([], {});
      assert State([], {}) == Cancelling(st, id);
      MakeReady([], {});
    }

    method ForgetPlans(id: nat)
      requires Linked([]) && blockManager.Valid()
      modifies blockManager`pendingMatches, blockManager`pendingResumeMatches
      ensures Linked([]) && blockManager.Valid() && State([], {}) == old(State([], {}))
    {
      hide RadixPrefixCache.Valid, Pool.Inv, Ids, Totals, Configured;
      blockManager.pendingMatches := blockManager.pendingMatches - {id};
      blockManager.pendingResumeMatches := blockManager.pendingResumeMatches - {id};
    }

    method CancelLinked(s: Sequence)
      requires Linked([]) && blockManager.Valid() && blockManager.Knows(s) && s.State().Live()
      modifies s`status, s`scheduledTokens
      ensures Linked([]) && blockManager.Valid() && s.State() == old(s.State()).(scheduled := 0, status := Cancelled)
      ensures State([], {}) == old(State([], {})).(pool := SetReq(old(blockManager.Snapshot()), s.seqId, s.State()))
    {
      hide RadixPrefixCache.Valid, Pool.Inv, Ids, Totals;
      blockManager.Cancel(s);
    }

    /** A request is live exactly when one of the queues has it. */
    lemma WhereIs(id: nat, s: Sequence?)
      requires Valid()
      requires s == null ==>
        (forall t | t in waiting :: t.seqId != id) && (forall t | t in running :: t.seqId != id)
        && id !in pendingRestores
      requires s != null ==>
        s.seqId == id && (s in waiting || s in running || (id in pendingRestores && s == pendingRestores[id].sequence))
      ensures s == null ==> !(id < |blockManager.Snapshot().reqs| && blockManager.Snapshot().reqs[id].Live())
      ensures s != null ==>
        blockManager.Knows(s) && id < |blockManager.Snapshot().reqs| && blockManager.Snapshot().reqs[id] == s.State()
        && s.State().Live()
    {
      hide Sched.Inv, BlockManager.Snapshot, BlockManager.Linked, Configured;
      StateIs([], {});
      InvOf([], {});
      LiveIsPlaced(State([], {}), id);
      if s == null {
        IdsMembers(waiting, id);
        IdsMembers(running, id);
      } else {
        if s in waiting {
          IdsHas(waiting, s);
        } else if s in running {
          IdsHas(running, s);
        } else {
          PendingIs(id);
        }
        blockManager.SnapshotAt(s);
      }
    }

    method LeaveQueues(s: Sequence)
      requires Linked([]) && blockManager.Knows(s)
      modifies `waiting, `running, `pendingRestores
      ensures Linked([])
      ensures State([], {})
        == old(State([], {})).(waiting := Remove(old(Ids(waiting)), s.seqId),
        running := Remove(old(Ids(running)), s.seqId),
        pending := old(State([], {})).pending - {s.seqId})
    {
      hide BlockManager.Linked, BlockManager.Snapshot, Configured, Ids, Totals, Remove;
      QueueIds([], s);
      TotalsRemove(pendingRestores, s.seqId);
      waiting := Remove(waiting, s);
      running := Remove(running, s);
      pendingRestores := pendingRestores - {s.seqId};
    }
  }

  lemma ElementsAppend(ids: seq<nat>, i: nat)
    ensures Elements(ids + [i]) == Elements(ids) + {i}
  {
  }

  lemma IdsConcat(ss: seq<Sequence>, ts: seq<Sequence>)
    ensures Ids(ss + ts) == Ids(ss) + Ids(ts)
  {
  }

  ghost predicate GrewIf(r: Request, s: Request, bs: nat) {
    bs > 0 && if |r.tokens| % bs == 1 then exists b {:trigger Push(r, b, r.Span())} ::
      s == Push(r, b, r.Span()) else s == r
  }

  lemma GrewMarked(r: Request, m: Request, s: Request, bs: nat)
    requires GrewIf(m, s, bs) && m == r.(scheduled := 1, prefill := false)
    ensures DecodeMarked(r, s, bs)
  {
    if |r.tokens| % bs == 1 {
      var b :| s == Push(m, b, m.Span());
      assert s == Push(m, b, r.Span());
    }
  }

  lemma UntouchedRefl(p: seq<Request>)
    ensures Untouched(p, p)
  {
  }

  lemma GentleThen(p: seq<Request>, q: seq<Request>, t: seq<Request>, i: nat, bs: nat)
    requires bs > 0 && AllGentle(p, q) && AllGentle(q, t)
    ensures AllGentle(p, t)
    ensures Untouched(p, q) && Untouched(q, t) ==> Untouched(p, t)
    ensures Untouched(p, q) && Partway(q, t, i, bs) ==> Partway(p, t, i, bs)
  {
    GentleTrans(p, q, t);
  }

  /** The numbers of the waiting requests that were not held back. */
  ghost function OpenIds(ids: seq<nat>, deferred: set<nat>): set<nat> {
    Elements(ids) - deferred
  }

  lemma OpenShrinks(ids: seq<nat>, i: nat, deferred: set<nat>)
    requires Distinct(ids) && i in ids && i !in deferred
    ensures OpenIds(Remove(ids, i), deferred) < OpenIds(ids, deferred)
    ensures OpenIds(ids, deferred + {i}) < OpenIds(ids, deferred)
  {
    RemoveElements(ids, i);
    assert i in OpenIds(ids, deferred);
  }

  lemma NonEmptyTable(r: Request, bs: nat)
    requires bs > 0 && |r.blockTable| == r.NumBlocks(bs) && r.tokens != []
    ensures r.blockTable != []
  {
    PagesForBounds(|r.tokens|, bs);
  }

  /** Considering request `i` only did what brings its scheduling nearer. */
  ghost predicate Considered(p: seq<Request>, q: seq<Request>, i: nat, a: Admission, bs: nat)
    requires bs > 0
  {
    Ahead(p, q, i, bs) && (a.OnlyResidents? || a.RestoreStarted? || a.Deferred? ==> Untouched(p, q))
  }

  lemma MakeConsidered(p: seq<Request>, q: seq<Request>, i: nat, a: Admission, bs: nat)
    requires bs > 0 && Ahead(p, q, i, bs) && (a.OnlyResidents? || a.RestoreStarted? || a.Deferred? ==> Untouched(p, q))
    ensures Considered(p, q, i, a, bs)
  {
  }

  lemma WhatConsidered(p: seq<Request>, q: seq<Request>, i: nat, a: Admission, bs: nat)
    requires bs > 0 && Considered(p, q, i, a, bs)
    ensures Ahead(p, q, i, bs) && (a.OnlyResidents? || a.RestoreStarted? || a.Deferred? ==> Untouched(p, q))
  {
  }
}
