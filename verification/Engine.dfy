/** The engine's loop: schedule, run the model, settle, until every request is done. */
module Engine {
  import opened PrefixView
  import opened Pages
  import opened Pool
  import opened PoolWrites
  import opened Sequences
  import opened Blocks
  import opened Queues
  import opened Progress
  import opened Finishing
  import opened Termination
  import opened Scheduling
  import opened ModelRunner

  class LLMEngine {
    const scheduler: Scheduler

    constructor (s: Scheduler)
      requires s.Valid()
      ensures scheduler == s
    {
      scheduler := s;
    }

    /** Some restores in flight have ended since the last look, well or badly. */
    method ProcessRestores(ready: set<nat>)
      requires scheduler.Valid() && ready <= scheduler.pendingRestores.Keys
      modifies scheduler, scheduler.blockManager, scheduler.blockManager.radixCache,
        scheduler.blockManager.radixCache.nodes, scheduler.blockManager.requests
      ensures scheduler.Valid() && scheduler.blockManager.requests == old(scheduler.blockManager.requests)
      ensures fresh(scheduler.blockManager.radixCache.nodes - old(scheduler.blockManager.radixCache.nodes))
      ensures if ready == {} then scheduler.blockManager.Snapshot().reqs == old(scheduler.blockManager.Snapshot()).reqs
              else RestoreStep(old(scheduler.blockManager.Snapshot()).reqs, scheduler.blockManager.Snapshot().reqs)
    {
      hide Scheduler.Ready, BlockManager.Snapshot, AllGentle, RestoreStep;
      ghost var p := scheduler.blockManager.Snapshot().reqs;
      GentleRefl(p);
      var todo := ready;
      while todo != {}
        invariant scheduler.Valid() && todo <= scheduler.pendingRestores.Keys && todo <= ready
        invariant scheduler.blockManager.requests == old(scheduler.blockManager.requests)
        invariant fresh(scheduler.blockManager.radixCache.nodes - old(scheduler.blockManager.radixCache.nodes))
        invariant if todo == ready then scheduler.blockManager.Snapshot().reqs == p
          else RestoreStep(p, scheduler.blockManager.Snapshot().reqs)
      {
        ghost var q := scheduler.blockManager.Snapshot().reqs;
        var id :| id in todo;
        var imported: nat := *;
        EndRestore(id, imported);
        todo := todo - {id};
        RestoreTrans(p, q, scheduler.blockManager.Snapshot().reqs);
      }
    }

    /** One restore in flight ends: its pages are imported one by one, and it is committed if all of
        them are. If the transfer fails, or the import after `imported` pages, it is abandoned. */
    method EndRestore(id: nat, imported: nat)
      requires scheduler.Valid() && id in scheduler.pendingRestores
      modifies scheduler, scheduler.blockManager, scheduler.blockManager.radixCache,
        scheduler.blockManager.radixCache.nodes, scheduler.blockManager.requests
      ensures scheduler.Valid() && scheduler.blockManager.requests == old(scheduler.blockManager.requests)
      ensures fresh(scheduler.blockManager.radixCache.nodes - old(scheduler.blockManager.radixCache.nodes))
      ensures scheduler.pendingRestores == old(scheduler.pendingRestores) - {id}
      ensures RestoreStep(old(scheduler.blockManager.Snapshot()).reqs, scheduler.blockManager.Snapshot().reqs)
      ensures scheduler.blockManager.blockSize > 0
      ensures var (s, n) :=
        (old(scheduler.pendingRestores)[id].sequence, old(scheduler.pendingRestores)[id].totalCachedBlocks);
        if Full(old(s.cachedTokens), scheduler.blockManager.blockSize) + imported < n then
          && scheduler.waiting == [s] + old(scheduler.waiting) && s.blockTable == []
        else
          && scheduler.waiting == old(scheduler.waiting) + [s]
          && Start(n, scheduler.blockManager.blockSize) <= |s.tokenIds|
          && Indexed(scheduler.blockManager.radixCache.view,
                     PathOfTokens(s.tokenIds, n, scheduler.blockManager.blockSize))
    {
      hide Scheduler.Ready, Scheduler.Valid, Scheduler.State, BlockManager.Snapshot, RestoreStep, Ran, PendingOk, Start,
        Import, Full, Request.TableOk, Indexed, PathOfTokens;
      scheduler.PendingIs(id);
      scheduler.PendingPages(id);
      var r := scheduler.pendingRestores[id];
      var local := Full(r.sequence.cachedTokens, scheduler.blockManager.blockSize);
      if local + imported < r.totalCachedBlocks {
        scheduler.ImportRestored(id, local + imported);
        Fail(id);
      } else {
        scheduler.ImportRestored(id, r.totalCachedBlocks);
        scheduler.CompleteRemoteRestore(id);
      }
    }

    method Fail(id: nat)
      requires scheduler.Valid() && id in scheduler.pendingRestores
      modifies scheduler, scheduler.blockManager, scheduler.blockManager.radixCache,
        scheduler.blockManager.radixCache.nodes, scheduler.blockManager.requests
      ensures scheduler.Valid() && scheduler.blockManager.requests == old(scheduler.blockManager.requests)
      ensures fresh(scheduler.blockManager.radixCache.nodes - old(scheduler.blockManager.radixCache.nodes))
      ensures scheduler.pendingRestores == old(scheduler.pendingRestores) - {id}
      ensures RestoreStep(old(scheduler.blockManager.Snapshot()).reqs, scheduler.blockManager.Snapshot().reqs)
      ensures var s := old(scheduler.pendingRestores)[id].sequence;
        scheduler.waiting == [s] + old(scheduler.waiting) && s.blockTable == []
    {
      scheduler.PendingIs(id);
      hide Scheduler.Ready, Scheduler.State, BlockManager.Snapshot, RestoreStep, PendingOk;
      scheduler.FailRemoteRestore(id);
    }

    /** Which of the restores in flight have ended; at least one if the engine waited for it. */
    method EndedRestores(waited: bool) returns (ready: set<nat>)
      requires waited ==> scheduler.pendingRestores != map[]
      ensures ready <= scheduler.pendingRestores.Keys && (waited ==> ready != {})
    {
      ready := {};
      if waited {
        var id :| id in scheduler.pendingRestores;
        ready := {id};
      }
      var more: set<nat> := *;
      ready := ready + more * scheduler.pendingRestores.Keys;
    }

    /** The tokens the model samples for a batch: any tokens. */
    method Sample(n: nat) returns (tokens: seq<Token>)
      ensures |tokens| == n
    {
      tokens := [];
      while |tokens| < n
        invariant |tokens| <= n
      {
        var token: Token := *;
        tokens := tokens + [token];
      }
    }

    /** One step: a batch is scheduled, run and settled. It always gets that far, and it lowers the
        measure. */
    method Step()
      requires scheduler.Valid() && !scheduler.IsFinished()
      modifies scheduler, scheduler.blockManager, scheduler.blockManager.radixCache,
        scheduler.blockManager.radixCache.nodes, scheduler.blockManager.requests
      ensures scheduler.Valid() && scheduler.blockManager.requests == old(scheduler.blockManager.requests)
      ensures fresh(scheduler.blockManager.radixCache.nodes - old(scheduler.blockManager.radixCache.nodes))
      ensures Below(scheduler.blockManager.Snapshot().reqs, old(scheduler.blockManager.Snapshot()).reqs,
        scheduler.blockManager.blockSize)
    {
      hide Scheduler.Ready, Scheduler.Valid, Scheduler.IsFinished, BlockManager.Snapshot, AllGentle, RestoreStep,
        Untouched, Below, Forward, SettledAll;
      ghost var p := scheduler.blockManager.Snapshot().reqs;
      ghost var q, partial;
      var batch, prefill;
      batch, prefill, q, partial := NextBatch();
      RunBatchAndSettle(batch, prefill, partial, q);
      BelowAfterRestores(p, q, scheduler.blockManager.Snapshot().reqs, scheduler.blockManager.blockSize);
    }

    /** Schedule, waiting for restores as long as nothing else can be done. `q` is what the
        requests were when the batch was chosen. */
    method NextBatch() returns (batch: seq<Sequence>, prefill: bool, ghost q: seq<Request>, ghost partial: bool)
      requires scheduler.Valid() && !scheduler.IsFinished()
      modifies scheduler, scheduler.blockManager, scheduler.blockManager.radixCache,
        scheduler.blockManager.radixCache.nodes, scheduler.blockManager.requests
      ensures scheduler.blockManager.requests == old(scheduler.blockManager.requests)
      ensures fresh(scheduler.blockManager.radixCache.nodes - old(scheduler.blockManager.radixCache.nodes))
      ensures scheduler.Ready(batch, {}) && batch != [] && Untouched(old(scheduler.blockManager.Snapshot()).reqs, q)
      ensures Chosen(q, batch, prefill, partial)
    {
      hide Scheduler.Ready, BlockManager.Snapshot, AllGentle, RestoreStep, Untouched, Forward;
      ghost var p := scheduler.blockManager.Snapshot().reqs;
      scheduler.WhoIsQueued([]);
      GentleRefl(p);
      batch, prefill, partial, q := [], false, false, p;
      var waited := false;
      while batch == []
        invariant if batch == [] then scheduler.Valid()
          else scheduler.Ready(batch, {}) && Chosen(q, batch, prefill, partial)
        invariant batch == [] ==> !scheduler.IsFinished() && (waited ==> scheduler.pendingRestores != map[])
        invariant scheduler.blockManager.requests == old(scheduler.blockManager.requests)
        invariant fresh(scheduler.blockManager.radixCache.nodes - old(scheduler.blockManager.radixCache.nodes))
        invariant batch == [] ==>
          AllGentle(p, scheduler.blockManager.Snapshot().reqs)
          && (waited || scheduler.blockManager.Snapshot().reqs == p)
        invariant batch != [] ==> Untouched(p, q)
        decreases if batch == [] then 1 else 0, Total(scheduler.blockManager.Snapshot().reqs, RestoreRank),
          if waited then 0 else 1
      {
        batch, prefill, q, partial := TryBatch(p, waited);
        waited := true;
      }
    }

    /** What the runner relies on: a prefill batch was never compressed, and a decode batch runs for one
        token each. */
    ghost predicate Runnable(batch: seq<Sequence>, prefill: bool)
      reads batch
    {
      forall t | t in batch :: if prefill then !t.compressed else t.scheduledTokens == 1 && t.status == Running
    }

    /** What is known of a batch chosen when the requests were `q`. */
    ghost predicate Chosen(q: seq<Request>, batch: seq<Sequence>, prefill: bool, partial: bool)
      reads scheduler, scheduler.blockManager, scheduler.blockManager.requests, scheduler.blockManager.radixCache, batch
    {
      && AllGentle(q, scheduler.blockManager.Snapshot().reqs) && (partial ==> prefill) && batch != []
           && Runnable(batch, prefill)
      && if partial then |batch| == 1 && scheduler.blockManager.blockSize > 0
                         && Forward(q, scheduler.blockManager.Snapshot().reqs, batch[0].seqId,
                              scheduler.blockManager.blockSize)
         else scheduler.AllRunning(batch)
    }

    /** One round: restores that have ended are dealt with, then the scheduler is asked. */
    method TryBatch(ghost p: seq<Request>, waited: bool)
        returns (batch: seq<Sequence>, prefill: bool, ghost q: seq<Request>, ghost partial: bool)
      requires scheduler.Valid() && !scheduler.IsFinished() && (waited ==> scheduler.pendingRestores != map[])
      requires AllGentle(p, scheduler.blockManager.Snapshot().reqs)
        && (waited || scheduler.blockManager.Snapshot().reqs == p)
      modifies scheduler, scheduler.blockManager, scheduler.blockManager.radixCache,
        scheduler.blockManager.radixCache.nodes, scheduler.blockManager.requests
      ensures scheduler.blockManager.requests == old(scheduler.blockManager.requests)
      ensures fresh(scheduler.blockManager.radixCache.nodes - old(scheduler.blockManager.radixCache.nodes))
      ensures if batch == [] then scheduler.Valid()
        else scheduler.Ready(batch, {}) && Chosen(q, batch, prefill, partial)
      ensures batch == [] ==> !scheduler.IsFinished() && scheduler.pendingRestores != map[]
      ensures batch == [] ==> AllGentle(p, scheduler.blockManager.Snapshot().reqs)
      ensures batch == [] ==>
        Total(scheduler.blockManager.Snapshot().reqs, RestoreRank)
        <= Total(old(scheduler.blockManager.Snapshot()).reqs, RestoreRank)
      ensures batch == [] && waited ==>
        Total(scheduler.blockManager.Snapshot().reqs, RestoreRank)
        < Total(old(scheduler.blockManager.Snapshot()).reqs, RestoreRank)
      ensures batch != [] ==> Untouched(p, q)
    {
      hide Scheduler.Ready, BlockManager.Snapshot, AllGentle, RestoreStep, Forward, AnyLive, Runnable;
      ghost var r := scheduler.blockManager.Snapshot().reqs;
      scheduler.WhoIsQueued([]);
      var ready := EndedRestores(waited);
      ProcessRestores(ready);
      q := scheduler.blockManager.Snapshot().reqs;
      Processed(p, r, q, ready != {});
      scheduler.WhoIsQueued([]);
      var o;
      o, partial := scheduler.Schedule();
      scheduler.WhoIsQueued(o.Batch());
      ghost var t := scheduler.blockManager.Snapshot().reqs;
      NobodyAppears(q, t);
      GentleTrans(p, q, t);
      GentleTotals(q, t);
      batch, prefill := o.Batch(), o.Scheduled? && o.prefill;
      IsRunnable(batch, prefill);
    }

    lemma Processed(p: seq<Request>, r: seq<Request>, q: seq<Request>, ended: bool)
      requires AllGentle(p, r) && (if ended then RestoreStep(r, q) else q == r)
      ensures AllGentle(p, q) && (ended || r == p ==> Untouched(p, q)) && (AnyLive(q) <==> AnyLive(r))
      ensures Total(q, RestoreRank) <= Total(r, RestoreRank)
        && (ended ==> Total(q, RestoreRank) < Total(r, RestoreRank))
    {
      GentleRefl(r);
      GentleTrans(p, r, q);
      GentleTotals(r, q);
      NobodyAppears(r, q);
    }

    /** The slots that the run of the batch is to write: whatever the scheduler chose, each is written
        once, and lies in a page of one request alone that the index does not know. */
    method PrepareSlots(batch: seq<Sequence>, prefill: bool) returns (slots: seq<nat>)
      requires scheduler.Ready(batch, {}) && Runnable(batch, prefill)
      ensures Isolated(scheduler.State(batch, {}), slots)
    {
      hide *;
      if prefill {
        slots := PrefillBatch(batch);
      } else {
        slots := DecodeBatch(batch);
      }
    }

    method PrefillBatch(batch: seq<Sequence>) returns (slots: seq<nat>)
      requires scheduler.Ready(batch, {}) && Runnable(batch, true)
      ensures Isolated(scheduler.State(batch, {}), slots)
    {
      hide Scheduler.Ready, Scheduler.State, BlockManager.Snapshot, Isolated, Sched.Inv, Prefillable, PrefillSlots,
        Runnable, AreBatch, States, Pool.Inv, Scheduler.Configured;
      ghost var st := scheduler.State(batch, {});
      scheduler.InvOf(batch, {});
      scheduler.StateIs(batch, {});
      BatchStates(batch, true);
      PrefillIsolated(st, States(batch));
      slots := PreparePrefill(batch, scheduler.blockManager.blockSize);
    }

    method DecodeBatch(batch: seq<Sequence>) returns (slots: seq<nat>)
      requires scheduler.Ready(batch, {}) && Runnable(batch, false)
      ensures Isolated(scheduler.State(batch, {}), slots)
    {
      hide Scheduler.Ready, Scheduler.State, BlockManager.Snapshot, Isolated, Sched.Inv, Decodable, DecodeEntry,
        Runnable, AreBatch, States, Pool.Inv, Scheduler.Configured;
      ghost var st, rs := scheduler.State(batch, {}), States(batch);
      scheduler.InvOf(batch, {});
      scheduler.StateIs(batch, {});
      BatchStates(batch, false);
      DecodeRuns(st, rs);
      assert forall k {:trigger batch[k]} | 0 <= k < |batch| :: rs[k] == batch[k].State();
      var contextLengths;
      slots, contextLengths := PrepareDecode(batch, scheduler.blockManager.blockSize);
      DecodeIsolated(st, rs, slots, contextLengths);
    }

    lemma IsRunnable(batch: seq<Sequence>, prefill: bool)
      requires scheduler.Ready(batch, {}) && (prefill || scheduler.AllRunning(batch))
      requires forall t | t in batch :: if prefill then !t.compressed else t.scheduledTokens == 1
      ensures Runnable(batch, prefill)
    {
      forall t | t in batch && !prefill
        ensures t.status == Running
      {
        scheduler.RunningIs(batch, {}, t);
      }
    }

    lemma BatchStates(batch: seq<Sequence>, prefill: bool)
      requires scheduler.Ready(batch, {}) && Runnable(batch, prefill)
      ensures AreBatch(scheduler.State(batch, {}), States(batch))
      ensures forall k {:trigger States(batch)[k]} | 0 <= k < |batch| ::
        if prefill then !States(batch)[k].compressed
          else States(batch)[k].status == Running && States(batch)[k].scheduled == 1
    {
      forall k | 0 <= k < |batch|
        ensures var st := scheduler.State(batch, {});
          |st.batch| == |batch| && st.batch[k] < |st.pool.reqs| && batch[k].State() == st.pool.reqs[st.batch[k]]
      {
        assert batch[k] in batch;
        scheduler.Known(batch, {}, batch[k]);
        scheduler.At(batch, {}, batch[k]);
      }
    }

    /** The batch is run and settled. */
    method RunBatchAndSettle(batch: seq<Sequence>, prefill: bool, ghost partial: bool, ghost q: seq<Request>)
      requires scheduler.Ready(batch, {}) && batch != [] && Chosen(q, batch, prefill, partial)
      modifies scheduler, scheduler.blockManager, scheduler.blockManager.radixCache,
        scheduler.blockManager.radixCache.nodes, scheduler.blockManager.requests
      ensures scheduler.blockManager.requests == old(scheduler.blockManager.requests)
      ensures fresh(scheduler.blockManager.radixCache.nodes - old(scheduler.blockManager.radixCache.nodes))
      ensures scheduler.Valid() && Below(scheduler.blockManager.Snapshot().reqs, q, scheduler.blockManager.blockSize)
    {
      hide Scheduler.Ready, Scheduler.State, BlockManager.Snapshot, AllGentle, RestoreStep, Forward, Below, Ids,
        SettledAll, RanAll, ScheduledOk, Unfinished, RunBatch, Isolated, Runnable, Sched.Inv, Pool.Inv;
      ghost var s := scheduler.blockManager.Snapshot().reqs;
      scheduler.BatchIs(batch);
      scheduler.StateIs(batch, {});
      var slots := PrepareSlots(batch, prefill);
      scheduler.Execute(batch);
      scheduler.StateIs(batch, {});
      var tokens := Sample(|batch|);
      ghost var endings := scheduler.Postprocess(batch, tokens, prefill);
      ghost var t, ids, bs := scheduler.blockManager.Snapshot().reqs, Ids(batch), scheduler.blockManager.blockSize;
      if partial {
        assert ids == [batch[0].seqId];
        PartStepBelow(q, s, t, batch[0].seqId, endings, bs);
      } else {
        TokenStepBelow(q, s, t, ids, endings, bs);
      }
    }

    /** Whatever the policy chooses, whatever the model samples and however restores end: every
        request is finished after finitely many steps. */
    method Generate()
      requires scheduler.Valid()
      modifies scheduler, scheduler.blockManager, scheduler.blockManager.radixCache,
        scheduler.blockManager.radixCache.nodes, scheduler.blockManager.requests
      ensures scheduler.blockManager.requests == old(scheduler.blockManager.requests)
      ensures fresh(scheduler.blockManager.radixCache.nodes - old(scheduler.blockManager.radixCache.nodes))
      ensures scheduler.Valid() && scheduler.IsFinished()
    {
      hide Scheduler.Ready, BlockManager.Snapshot, AllGentle;
      while !scheduler.IsFinished()
        invariant scheduler.Valid() && scheduler.blockManager.requests == old(scheduler.blockManager.requests)
        invariant fresh(scheduler.blockManager.radixCache.nodes - old(scheduler.blockManager.radixCache.nodes))
        decreases Total(scheduler.blockManager.Snapshot().reqs, RestoreRank),
          Total(scheduler.blockManager.Snapshot().reqs, TokensLeft),
          RunningRank(scheduler.blockManager.Snapshot().reqs),
            Total(scheduler.blockManager.Snapshot().reqs, Half(scheduler.blockManager.blockSize)),
          Total(scheduler.blockManager.Snapshot().reqs, Uncached)
      {
        Step();
      }
    }
  }
}
