/** After the model run: computed pages are published, sampled tokens appended, finished requests
    leave. Also how restores and cancellations end. */
module Finishing {
  import opened PrefixView
  import opened Pages
  import opened Pool
  import opened PoolSteps
  import opened PoolWrites
  import opened Compression
  import opened Allocation
  import opened Progress
  import opened Queues

  // ---------- the model run ----------

  /** The model run over a batch, one request after the other; it writes KV and nothing else. */
  ghost function RunBatch(p: Pool, ids: seq<nat>): (q: Pool)
    requires p.bs > 0
    ensures q == p.(kv := q.kv) && |q.kv| == |p.kv|
  {
    if ids == [] then p else
      var i, rest := ids[|ids|-1], RunBatch(p, ids[..|ids|-1]);
      if i < |p.reqs| then Run(rest, i, p.reqs[i].scheduled) else rest
  }

  /** The table of request `i` has room for what it is scheduled for. */
  ghost predicate Roomy(p: Pool, i: nat) {
    && i < |p.reqs| && p.reqs[i].cached + p.reqs[i].scheduled <= |p.reqs[i].tokens|
    && p.reqs[i].physical + p.reqs[i].scheduled <= Start(|p.reqs[i].blockTable|, p.bs)
  }

  /** Everything scheduled for the requests `ids` is computed. */
  ghost predicate RanAll(p: Pool, ids: seq<nat>) {
    forall k | 0 <= k < |ids| :: ids[k] < |p.reqs| && Ran(p, ids[k], p.reqs[ids[k]].scheduled)
  }

  /** The run keeps the pool consistent and computes everything that was scheduled: no request of
      the batch disturbs another. */
  lemma {:induction false} RunBatchInv(p: Pool, ids: seq<nat>)
    requires p.Inv() && p.bs > 0 && Distinct(ids) && forall k | 0 <= k < |ids| :: Roomy(p, ids[k])
    ensures RunBatch(p, ids).Inv()
    ensures RanAll(RunBatch(p, ids), ids)
  {
    if ids != [] {
      var rest, i := ids[..|ids|-1], ids[|ids|-1];
      assert i in ids && i !in rest;
      RunBatchInv(p, rest);
      hide Pool.Inv, Run, Distinct, RanAll, Ran;
      RunOneMore(RunBatch(p, rest), rest, i);
      assert ids == rest + [i];
    }
  }

  lemma RunOneMore(p: Pool, ids: seq<nat>, i: nat)
    requires p.Inv() && p.bs > 0 && RanAll(p, ids) && Roomy(p, i) && i !in ids
    ensures Run(p, i, p.reqs[i].scheduled).Inv() && RanAll(Run(p, i, p.reqs[i].scheduled), ids + [i])
  {
    var n := p.reqs[i].scheduled;
    RunInv(p, i, n);
    hide Pool.Inv, Run;
    forall k | 0 <= k < |ids|
      ensures Ran(Run(p, i, n), ids[k], p.reqs[ids[k]].scheduled)
    {
      assert ids[k] in ids;
      RanStill(p, i, n, ids[k], p.reqs[ids[k]].scheduled);
    }
  }

  lemma RanStill(p: Pool, i: nat, n: nat, m: nat, k: nat)
    requires p.Inv() && p.bs > 0 && Roomy(p, i) && n == p.reqs[i].scheduled && m != i && Ran(p, m, k)
    ensures Ran(Run(p, i, n), m, k)
  {
    if !p.reqs[m].compressed {
      hide Pool.Inv, Run, Pool.Computed;
      RunOthers(p, i, n, m, p.reqs[m].cached + k);
    }
  }

  lemma RunBatchSched(s: Sched)
    requires s.Inv()
    ensures forall k | 0 <= k < |s.batch| :: Roomy(s.pool, s.batch[k])
    ensures var q := RunBatch(s.pool, s.batch); s.(pool := q).Inv() && RanAll(q, s.batch)
  {
    forall k | 0 <= k < |s.batch|
      ensures Roomy(s.pool, s.batch[k])
    {
      assert s.batch[k] in s.batch && s.Duty(s.batch[k]);
    }
    FreeOk(s.pool);
    RunBatchInv(s.pool, s.batch);
    hide Pool.Inv, RunBatch, Ran;
    OnlyKv(s, RunBatch(s.pool, s.batch));
  }

  /** What the slots hold does not concern the queues. */
  lemma OnlyKv(s: Sched, q: Pool)
    requires s.Inv() && q.Inv() && q == s.pool.(kv := q.kv)
    ensures s.(pool := q).Inv()
  {
    var t := s.(pool := q);
    hide Pool.Inv;
    forall k: nat | k < |t.pool.reqs|
      ensures t.Placed(k) && t.Duty(k)
    {
      assert s.Placed(k) && s.Duty(k);
    }
  }

  // ---------- one request of the batch ----------

  /** Request `i` has been run: what it filled is published and its counters move on. */
  ghost function Advance(s: Sched, i: nat): Pool
    requires s.pool.Inv() && i < |s.pool.reqs| && Ran(s.pool, i, s.pool.reqs[i].scheduled)
  {
    Complete(s.pool, i, s.pool.reqs[i].scheduled)
  }

  lemma CompleteIs(p: Pool, i: nat, k: nat)
    requires p.Inv() && Ran(p, i, k)
    ensures var q := Complete(p, i, k);
      q.Inv() && q == p.(view := q.view, reqs := p.reqs[i := Advanced(p.reqs[i], k)])
  {
    CompleteInv(p, i, k);
  }

  lemma AdvanceIs(s: Sched, i: nat)
    requires s.pool.Inv() && i < |s.pool.reqs| && Ran(s.pool, i, s.pool.reqs[i].scheduled)
    ensures var q, r := Advance(s, i), Advanced(s.pool.reqs[i], s.pool.reqs[i].scheduled);
      q.Inv() && q == s.pool.(view := q.view, reqs := s.pool.reqs[i := r])
  {
    CompleteInv(s.pool, i, s.pool.reqs[i].scheduled);
  }

  /** What others were run for stays computed. */
  lemma OthersRan(p: Pool, q: Pool, i: nat, m: nat)
    requires q.bs == p.bs && q.kv == p.kv && |q.reqs| == |p.reqs| && m < |p.reqs| && m != i && q.reqs[m] == p.reqs[m]
    requires Ran(p, m, p.reqs[m].scheduled)
    ensures Ran(q, m, q.reqs[m].scheduled)
  {
    if !p.reqs[m].compressed {
      SameTable(p, q, m, p.reqs[m].cached + p.reqs[m].scheduled);
    }
  }

  /** Part of a prompt is done: the request keeps waiting. */
  lemma PartDone(s: Sched, i: nat)
    requires s.Inv() && s.batch != [] && i == s.batch[0] && i < |s.pool.reqs| && s.pool.reqs[i].status == Waiting
      && Ran(s.pool, i, s.pool.reqs[i].scheduled)
    ensures s.(pool := Advance(s, i), batch := s.batch[1..]).Inv()
  {
    var t := s.(pool := Advance(s, i), batch := s.batch[1..]);
    AdvanceIs(s, i);
    assert s.Placed(i) && s.Duty(i);
    TableOf(s.pool, i);
    RanOn(s.pool.reqs[i], s.pool.bs, 0);
    hide Pool.Inv, Advance, ScheduledOk, WaitingOk, Ran, Request.TableOk;
    BatchTail(s.batch);
    OnlyInv(s, t, i);
  }

  lemma BatchTail(ids: seq<nat>)
    requires ids != [] && Distinct(ids)
    ensures Distinct(ids[1..]) && ids[0] !in ids[1..] && forall k :: k in ids <==> k == ids[0] || k in ids[1..]
  {
  }

  function Emitted(r: Request, token: Token): Request {
    Advanced(r, r.scheduled).(tokens := r.tokens + [token])
  }

  /** From `s` to `t`: the first request of the batch has its run counted and `token` appended. */
  ghost predicate Emits(s: Sched, t: Sched, i: nat, r: Request, token: Token) {
    && s.Inv() && s.pool.Inv() && s.held == {} && s.batch != [] && i == s.batch[0] && i < |s.pool.reqs|
    && Ran(s.pool, i, s.pool.reqs[i].scheduled) && s.pool.reqs[i].status == Running
    && r == Emitted(s.pool.reqs[i], token) && t == s.(pool := SetReq(Advance(s, i), i, r))
  }

  /** A token is appended and the request goes on. */
  lemma TokenDone(s: Sched, i: nat, token: Token)
    requires s.Inv() && s.batch != [] && i == s.batch[0] && i < |s.pool.reqs| && s.pool.reqs[i].status == Running
      && Ran(s.pool, i, s.pool.reqs[i].scheduled)
    requires |s.pool.reqs[i].tokens| + 1 < s.pool.reqs[i].promptTokens + s.pool.reqs[i].maxTokens
    ensures s.(pool := SetReq(Advance(s, i), i, Emitted(s.pool.reqs[i], token)), batch := s.batch[1..]).Inv()
  {
    hide Sched.Inv, Pool.Inv, Advance, Ran, Request.TableOk;
    PlaceOf(s, i);
    AdvanceIs(s, i);
    var q := Advance(s, i);
    var t := s.(pool := SetReq(q, i, Emitted(s.pool.reqs[i], token)), batch := s.batch[1..]);
    SetReqInv(q, i, Emitted(s.pool.reqs[i], token));
    RanOn(s.pool.reqs[i], s.pool.bs, token);
    BatchTail(s.batch);
    OnlyInv(s, t, i);
  }

  /** The last token is appended: the request leaves, and all its pages are given back. */
  lemma RequestDone(s: Sched, i: nat, token: Token)
    requires s.Inv() && s.batch != [] && i == s.batch[0] && i < |s.pool.reqs| && s.pool.reqs[i].status == Running
      && Ran(s.pool, i, s.pool.reqs[i].scheduled)
    requires s.held == {}
    ensures var q := SetReq(Advance(s, i), i, Emitted(s.pool.reqs[i], token).(status := Finished));
      q.Inv() && Releasable(q, i, 0)
        && s.(pool := Release(q, i, 0), batch := s.batch[1..], running := Remove(s.running, i)).Inv()
  {
    hide Sched.Inv, Pool.Inv, Advance, Ran, Request.TableOk, Release, Releasable, Remove;
    PlaceOf(s, i);
    AdvanceIs(s, i);
    var q := SetReq(Advance(s, i), i, Emitted(s.pool.reqs[i], token).(status := Finished));
    DoneReleases(s, i, token);
    RemoveElements(s.running, i);
    BatchTail(s.batch);
    OnlyInv(s, s.(pool := Release(q, i, 0), batch := s.batch[1..], running := Remove(s.running, i)), i);
  }

  /** What the pool looks like once the last token is there and the pages are given back. */
  lemma DoneReleases(s: Sched, i: nat, token: Token)
    requires s.Inv() && s.batch != [] && i == s.batch[0] && i < |s.pool.reqs| && s.pool.reqs[i].status == Running
      && Ran(s.pool, i, s.pool.reqs[i].scheduled)
    requires s.held == {}
    ensures var r := Emitted(s.pool.reqs[i], token).(status := Finished);
      var q := SetReq(Advance(s, i), i, r);
      && q.Inv() && Releasable(q, i, 0) && Release(q, i, 0).Inv()
      && Release(q, i, 0).bs == s.pool.bs && |Release(q, i, 0).refs| == |s.pool.refs|
      && Release(q, i, 0).reqs == s.pool.reqs[i := Kept(r, 0, s.pool.bs)]
  {
    var r := Emitted(s.pool.reqs[i], token).(status := Finished);
    var q := SetReq(Advance(s, i), i, r);
    AdvanceIs(s, i);
    SetReqInv(Advance(s, i), i, r);
    TableOf(q, i);
    ReleaseInv(q, i, 0);
    ReleaseView(q, i, 0);
  }

  lemma StillRanAll(p: Pool, q: Pool, ids: seq<nat>)
    requires RanAll(p, ids) && ids != [] && Distinct(ids)
    requires q.bs == p.bs && q.kv == p.kv && |q.reqs| == |p.reqs| && q.reqs == p.reqs[ids[0] := q.reqs[ids[0]]]
    ensures RanAll(q, ids[1..])
  {
    hide Ran;
    forall k | 0 <= k < |ids[1..]|
      ensures ids[1..][k] < |q.reqs| && Ran(q, ids[1..][k], q.reqs[ids[1..][k]].scheduled)
    {
      OthersRan(p, q, ids[0], ids[k + 1]);
    }
  }

  /** What the end of a step makes of a scheduled request: a part of a prompt moves the counters; a
      completed run also appends the sampled token, and may be the last. */
  function After(r: Request, token: Token, last: bool): Request {
    if r.status != Running then Advanced(r, r.scheduled)
    else if last then Emitted(r, token).(status := Finished, blockTable := [], logical := [], cached := 0,
      physical := 0, compressed := false)
    else Emitted(r, token)
  }

  /** Every token brings its request nearer to its end. */
  lemma AfterRanks(r: Request, token: Token, last: bool, bs: nat)
    requires bs > 0 && ScheduledOk(r, bs) && r.Live() && |r.tokens| < r.promptTokens + r.maxTokens
    ensures var s := After(r, token, last);
      && RestoreRank(s) == RestoreRank(r) && TokensLeft(s) <= TokensLeft(r)
      && (r.status == Running ==> TokensLeft(s) < TokensLeft(r))
      && (r.status == Waiting ==> Uncached(s) < Uncached(r) && PartialRank(s, bs) == PartialRank(r, bs) == 0)
  {
  }

  lemma GivesBackAll(p: Pool, i: nat)
    requires p.Inv() && Releasable(p, i, 0)
    ensures Release(p, i, 0).reqs
      == p.reqs[i := p.reqs[i].(blockTable := [], logical := [], cached := 0, physical := 0, compressed := false)]
    ensures Release(p, i, 0).bs == p.bs && Release(p, i, 0).kv == p.kv
  {
    ReleaseView(p, i, 0);
    StartIs(0, p.bs);
  }

  lemma RanFirst(p: Pool, ids: seq<nat>)
    requires RanAll(p, ids) && ids != []
    ensures ids[0] < |p.reqs| && Ran(p, ids[0], p.reqs[ids[0]].scheduled)
  {
  }

  /** The state after the first request of the batch is settled. */
  ghost predicate Settled(s: Sched, t: Sched, token: Token, last: bool) {
    && s.batch != [] && s.batch[0] < |s.pool.reqs| && t.batch == s.batch[1..]
    && t.pool.bs == s.pool.bs && t.pool.kv == s.pool.kv && |t.pool.reqs| == |s.pool.reqs|
    && t.pool.reqs == s.pool.reqs[s.batch[0] := After(s.pool.reqs[s.batch[0]], token, last)]
  }

  lemma SettledRan(s: Sched, t: Sched, token: Token, last: bool)
    requires Settled(s, t, token, last) && RanAll(s.pool, s.batch) && Distinct(s.batch)
    ensures RanAll(t.pool, t.batch)
  {
    StillRanAll(s.pool, t.pool, s.batch);
  }

  lemma PartSettles(s: Sched, i: nat, token: Token, last: bool)
    requires s.Inv() && s.batch != [] && i == s.batch[0] && i < |s.pool.reqs| && s.pool.reqs[i].status == Waiting
      && Ran(s.pool, i, s.pool.reqs[i].scheduled)
    ensures var t := s.(pool := Advance(s, i), batch := s.batch[1..]); t.Inv() && Settled(s, t, token, last)
  {
    AdvanceIs(s, i);
    PartDone(s, i);
  }

  lemma TokenSettles(s: Sched, i: nat, token: Token)
    requires s.Inv() && s.batch != [] && i == s.batch[0] && i < |s.pool.reqs| && s.pool.reqs[i].status == Running
      && Ran(s.pool, i, s.pool.reqs[i].scheduled)
    requires |s.pool.reqs[i].tokens| + 1 < s.pool.reqs[i].promptTokens + s.pool.reqs[i].maxTokens
    ensures var t := s.(pool := SetReq(Advance(s, i), i, Emitted(s.pool.reqs[i], token)), batch := s.batch[1..]);
      t.Inv() && Settled(s, t, token, false)
  {
    AdvanceIs(s, i);
    TokenDone(s, i, token);
  }

  lemma LastSettles(s: Sched, i: nat, token: Token)
    requires s.Inv() && s.batch != [] && i == s.batch[0] && i < |s.pool.reqs| && s.pool.reqs[i].status == Running
      && Ran(s.pool, i, s.pool.reqs[i].scheduled)
    requires s.held == {}
    ensures var q := SetReq(Advance(s, i), i, Emitted(s.pool.reqs[i], token).(status := Finished));
      q.Inv() && Releasable(q, i, 0)
      && var t := s.(pool := Release(q, i, 0), batch := s.batch[1..], running := Remove(s.running, i));
           t.Inv() && Settled(s, t, token, true)
  {
    AdvanceIs(s, i);
    RequestDone(s, i, token);
    GivesBackAll(SetReq(Advance(s, i), i, Emitted(s.pool.reqs[i], token).(status := Finished)), i);
  }

  lemma WhatSettled(s: Sched, t: Sched, token: Token, last: bool)
    requires Settled(s, t, token, last)
    ensures s.batch != [] && s.batch[0] < |s.pool.reqs|
    ensures t.pool.reqs == s.pool.reqs[s.batch[0] := After(s.pool.reqs[s.batch[0]], token, last)]
  {
  }

  lemma FirstDuty(s: Sched)
    requires s.Inv() && s.batch != [] && s.held == {}
    ensures var i := s.batch[0];
      && i < |s.pool.reqs| && ScheduledOk(s.pool.reqs[i], s.pool.bs)
           && (s.pool.reqs[i].status == Running || s.pool.reqs[i].status == Waiting)
      && |s.pool.reqs[i].tokens| < s.pool.reqs[i].promptTokens + s.pool.reqs[i].maxTokens
      && (s.pool.reqs[i].status == Running ==> i in s.running) && Distinct(s.batch)
  {
    assert s.batch[0] in s.batch && s.Placed(s.batch[0]) && s.Duty(s.batch[0]);
  }

  // ---------- the whole batch ----------

  // The token sampled for a request of the batch, and whether it is its last one.
  datatype Ending = Ending(token: Token, last: bool)

  /** Requests `p` became `q`: those of `ids[..n]` were settled, each with its own token, and the others
      are as before. */
  ghost predicate SettledAll(p: seq<Request>, q: seq<Request>, ids: seq<nat>, endings: seq<Ending>, n: nat) {
    && |q| == |p| && n <= |ids| == |endings|
    && (forall k: nat {:trigger q[k]} | k < |p| && k !in ids[..n] :: q[k] == p[k])
    && forall k {:trigger ids[k]} | 0 <= k < n ::
         ids[k] < |p| && q[ids[k]] == After(p[ids[k]], endings[k].token, endings[k].last)
  }

  ghost predicate Unfinished(r: Request) {
    r.Live() && |r.tokens| < r.promptTokens + r.maxTokens
  }

  lemma NothingSettled(p: seq<Request>, ids: seq<nat>, endings: seq<Ending>)
    requires |endings| == |ids|
    ensures SettledAll(p, p, ids, endings, 0)
  {
  }

  /** What is not settled yet is as it was. */
  lemma NotYetSettled(p: seq<Request>, q: seq<Request>, ids: seq<nat>, endings: seq<Ending>, n: nat)
    requires SettledAll(p, q, ids, endings, n) && n < |ids| && ids[n] < |p| && Distinct(ids)
    ensures q[ids[n]] == p[ids[n]]
  {
    assert ids[n] !in ids[..n];
  }

  lemma SettledMore(p: seq<Request>, q: seq<Request>, t: seq<Request>, ids: seq<nat>, endings: seq<Ending>, n: nat)
    requires SettledAll(p, q, ids, endings, n) && n < |ids| && ids[n] < |q| && Distinct(ids)
    requires t == q[ids[n] := After(q[ids[n]], endings[n].token, endings[n].last)]
    ensures SettledAll(p, t, ids, endings, n + 1)
  {
    hide After;
    assert ids[..n + 1] == ids[..n] + [ids[n]];
    assert ids[n] !in ids[..n];
    forall k | 0 <= k < n + 1
      ensures ids[k] < |p| && t[ids[k]] == After(p[ids[k]], endings[k].token, endings[k].last)
    {
      if k < n {
        assert ids[k] in ids[..n] by { assert ids[..n][k] == ids[k]; }
      }
    }
  }

  // ---------- the end of a restore ----------

  /** Fetched pages are imported for request `i`, in order: its first `pages` pages now hold the KV of
      the prefix being restored, exactly as if it had been computed. */
  ghost function Import(s: Sched, i: nat, pages: nat): Pool
    requires s.pool.bs > 0 && i < |s.pool.reqs|
  {
    var n := Start(pages, s.pool.bs);
    if s.pool.reqs[i].cached <= n then Run(s.pool, i, n - s.pool.reqs[i].cached) else s.pool
  }

  /** However many of the pages are imported, nobody else is concerned. */
  lemma ImportInv(s: Sched, i: nat, pages: nat)
    requires s.Inv() && i in s.pending && i < |s.pool.reqs| && s.pool.bs > 0
    requires Full(s.pool.reqs[i].cached, s.pool.bs) <= pages <= s.pending[i]
    ensures var q, r, n := Import(s, i, pages), s.pool.reqs[i], Start(pages, s.pool.bs);
      && s.(pool := q).Inv() && q == s.pool.(kv := q.kv) && r.cached <= n && Ran(q, i, n - r.cached)
  {
    hide Pool.Inv, Sched.Inv, Ran, Run, PendingOk, Start;
    PendingFacts(s, i, pages);
    RanWhole(s.pool, i, Start(pages, s.pool.bs) - s.pool.reqs[i].cached);
    OnlyKv(s, Import(s, i, pages));
  }

  lemma PendingFacts(s: Sched, i: nat, pages: nat)
    requires s.Inv() && i in s.pending && i < |s.pool.reqs| && s.pool.bs > 0
    requires Full(s.pool.reqs[i].cached, s.pool.bs) <= pages <= s.pending[i]
    ensures s.pool.Inv()
    ensures var r, n := s.pool.reqs[i], Start(pages, s.pool.bs);
      && r.physical == r.cached <= n <= |r.tokens| && n <= Start(|r.blockTable|, s.pool.bs)
  {
    hide Sched.Inv, Pool.Inv, Start, Request.TableOk;
    PlaceOf(s, i);
    TableOf(s.pool, i);
    PendingRoom(s.pool.reqs[i], s.pool.bs, s.pending[i]);
    StartMonotone(Full(s.pool.reqs[i].cached, s.pool.bs), pages, s.pool.bs);
    StartMonotone(pages, s.pending[i], s.pool.bs);
  }

  lemma RanWhole(p: Pool, i: nat, k: nat)
    requires p.Inv() && i < |p.reqs| && p.reqs[i].cached + k <= |p.reqs[i].tokens|
    requires p.reqs[i].physical + k <= Start(|p.reqs[i].blockTable|, p.bs)
    ensures p.bs > 0 && Run(p, i, k).Inv() && Ran(Run(p, i, k), i, k)
  {
    hide Pool.Inv, Run, RunDone;
    RunInv(p, i, k);
  }

  /** The table of a restoring request has room for the restored prefix, and its tokens cover it. */
  lemma PendingRoom(r: Request, bs: nat, remote: nat)
    requires bs > 0 && r.TableOk(bs) && PendingOk(r, bs, remote) && r.tokens != []
    ensures r.physical == r.cached <= Start(remote, bs) && Start(remote, bs) <= Start(|r.blockTable|, bs)
      && Start(remote, bs) <= |r.tokens|
  {
    StartMonotone(Full(r.cached, bs), remote, bs);
    StartMonotone(remote, |r.blockTable|, bs);
    CompleteCovers(r, bs);
    NeedsPages(r, bs, remote);
  }

  /** A restore succeeds: the whole restored prefix is published at once and the request waits. */
  ghost function Restored(s: Sched, i: nat): Sched
    requires s.pool.Inv() && i < |s.pool.reqs| && s.pool.reqs[i].cached <= Start(s.Remote(i), s.pool.bs)
    requires Ran(s.pool, i, Start(s.Remote(i), s.pool.bs) - s.pool.reqs[i].cached)
  {
    var k := Start(s.Remote(i), s.pool.bs) - s.pool.reqs[i].cached;
    s.(pool := SetReq(Complete(s.pool, i, k), i, Advanced(s.pool.reqs[i], k).(status := Waiting)),
       waiting := s.waiting + [i], pending := s.pending - {i})
  }

  lemma RestoredIs(s: Sched, i: nat, k: nat)
    requires s.Inv() && i in s.pending && i < |s.pool.reqs|
    requires s.pool.reqs[i].cached + k == Start(s.pending[i], s.pool.bs) && Ran(s.pool, i, k)
    ensures s.pool.Inv() && s.Remote(i) == s.pending[i]
    ensures Restored(s, i) == s.(
        pool := SetReq(Complete(s.pool, i, k), i, Advanced(s.pool.reqs[i], k).(status := Waiting)),
        waiting := s.waiting + [i], pending := s.pending - {i})
  {
    hide Sched.Inv, Pool.Inv, Ran, Complete, Request.TableOk;
    PlaceOf(s, i);
  }

  lemma RestoredInv(s: Sched, i: nat)
    requires s.Inv() && i in s.pending && i !in s.batch && i < |s.pool.reqs|
      && s.pool.reqs[i].cached <= Start(s.pending[i], s.pool.bs)
    requires Ran(s.pool, i, Start(s.pending[i], s.pool.bs) - s.pool.reqs[i].cached)
    ensures Restored(s, i).Inv() && RestoreStep(s.pool.reqs, Restored(s, i).pool.reqs)
  {
    hide Sched.Inv, Pool.Inv, Distinct, Complete, Ran;
    PlaceOf(s, i);
    var t, r := Restored(s, i), s.pool.reqs[i];
    var k := Start(s.pending[i], s.pool.bs) - r.cached;
    CompleteIs(s.pool, i, k);
    SetReqInv(Complete(s.pool, i, k), i, Advanced(r, k).(status := Waiting));
    NeedsPages(r, s.pool.bs, s.pending[i]);
    ConsDistinct(i, s.waiting);
    OneGentle(s.pool.reqs, t.pool.reqs, i);
    OnlyInv(s, t, i);
  }

  /** Until a restore ends, the pages it is to fill are its request's alone and cannot be matched. */
  lemma ReservedAreExclusive(s: Sched, i: nat, j: nat)
    requires s.Inv() && i in s.pending && i < |s.pool.reqs| && s.pool.bs > 0
    requires Full(s.pool.reqs[i].cached, s.pool.bs) <= j < s.pending[i]
    ensures j < |s.pool.reqs[i].blockTable|
    ensures s.pool.Owners(s.pool.reqs[i].blockTable[j]) == {i} && s.pool.reqs[i].blockTable[j] !in s.pool.view.Values
  {
    var r, bs := s.pool.reqs[i], s.pool.bs;
    assert s.Placed(i) && s.Duty(i);
    TableOf(s.pool, i);
    PageAndOffset(r.cached, bs);
    StartMonotone(Full(r.cached, bs) + 1, j + 1, bs);
    assert s.pool.ExclusiveOk(i, j);
  }

  /** A restore fails: the reserved pages are given back and the request waits, first in line. */
  function Abandoned(s: Sched, i: nat): Sched
    requires Releasable(s.pool, i, 0)
  {
    var q := Release(s.pool, i, 0);
    s.(pool := SetReq(q, i, Kept(s.pool.reqs[i], 0, s.pool.bs).(status := Waiting)), waiting := [i] + s.waiting,
      pending := s.pending - {i})
  }

  lemma AbandonedInv(s: Sched, i: nat)
    requires s.Inv() && i in s.pending && i !in s.batch
    ensures Releasable(s.pool, i, 0) && Abandoned(s, i).Inv() && RestoreStep(s.pool.reqs, Abandoned(s, i).pool.reqs)
  {
    hide Sched.Inv, Pool.Inv, Release, Distinct, Request.TableOk;
    PlaceOf(s, i);
    TableOf(s.pool, i);
    var t, q, r := Abandoned(s, i), Release(s.pool, i, 0), Kept(s.pool.reqs[i], 0, s.pool.bs).(status := Waiting);
    ReclaimedWaits(s.pool.reqs[i], s.pool.bs, 0);
    ReleaseInv(s.pool, i, 0);
    ReleaseView(s.pool, i, 0);
    ConsDistinct(i, s.waiting);
    KeptFits(s.pool.reqs[i], 0, s.pool.bs, |s.pool.refs|);
    SetReqInv(q, i, r);
    OneGentle(s.pool.reqs, t.pool.reqs, i);
    OnlyInv(s, t, i);
  }

  // ---------- cancellation and arrival ----------

  /** A queued request is cancelled: it leaves its queue and gives back every page. */
  function Cancelling(s: Sched, i: nat): Sched
    requires Releasable(s.pool, i, 0)
  {
    var q := Release(s.pool, i, 0);
    s.(pool := SetReq(q, i, Kept(s.pool.reqs[i], 0, s.pool.bs).(scheduled := 0, status := Cancelled)),
       waiting := Remove(s.waiting, i), running := Remove(s.running, i), pending := s.pending - {i})
  }

  lemma CancelInv(s: Sched, i: nat)
    requires s.Inv() && i < |s.pool.reqs| && s.pool.reqs[i].Live() && i !in s.batch && s.held == {}
    ensures Releasable(s.pool, i, 0) && Cancelling(s, i).Inv()
  {
    hide Pool.Inv, Release, Distinct, Request.TableOk, Remove, Sched.QueuesOk, Sched.Placed, SamePlace;
    assert s.Placed(i) && s.Duty(i);
    TableOf(s.pool, i);
    var t, q, r := Cancelling(s, i), Release(s.pool, i, 0),
      Kept(s.pool.reqs[i], 0, s.pool.bs).(scheduled := 0, status := Cancelled);
    ReleaseInv(s.pool, i, 0);
    ReleaseView(s.pool, i, 0);
    KeptFits(s.pool.reqs[i], 0, s.pool.bs, |s.pool.refs|);
    CancelQueues(s, t, i);
    SetReqInv(q, i, r);
    OnlyInv(s, t, i);
  }

  lemma CancelQueues(s: Sched, t: Sched, i: nat)
    requires s.Inv() && i < |s.pool.reqs| && i !in s.batch && s.held == {}
    requires t == s.(pool := t.pool, waiting := Remove(s.waiting, i), running := Remove(s.running, i),
      pending := s.pending - {i})
    requires |t.pool.reqs| == |s.pool.reqs|
    ensures t.QueuesOk() && i !in t.waiting && i !in t.running && i !in t.pending
    ensures forall k: nat | k < |s.pool.reqs| && k != i :: SamePlace(s, t, k)
  {
    RemoveElements(s.waiting, i);
    RemoveElements(s.running, i);
    hide Pool.Inv, Distinct, Remove, Sched.Placed, Sched.Duty;
  }

  /** A new request joins the end of the waiting queue. */
  function Joined(s: Sched, r: Request): Sched {
    s.(pool := Arrive(s.pool, r), waiting := s.waiting + [|s.pool.reqs|])
  }

  lemma JoinedInv(s: Sched, r: Request)
    requires s.Inv() && r.status == Waiting && Fits(r, s.pool.bs, |s.pool.refs|) && r.scheduled == 0
    requires r.blockTable == [] && r.logical == [] && r.cached == 0 && r.physical == 0 && !r.compressed
    ensures Joined(s, r).Inv()
  {
    var t, i := Joined(s, r), |s.pool.reqs|;
    ArriveInv(s.pool, r);
    StartIs(0, s.pool.bs);
    ConsDistinct(i, s.waiting);
    hide Pool.Inv, Distinct;
    forall k: nat | k < |t.pool.reqs|
      ensures t.Placed(k) && t.Duty(k)
    {
      if k < i {
        assert s.Placed(k) && s.Duty(k);
      }
    }
  }

  lemma CompleteReq(p: Pool, i: nat, k: nat)
    requires p.Inv() && Ran(p, i, k)
    ensures Complete(p, i, k).reqs == p.reqs[i := Advanced(p.reqs[i], k)]
  {
  }

  /** Giving back an empty table changes nothing. */
  lemma ReleaseNothing(p: Pool, i: nat)
    requires p.Inv() && i < |p.reqs| && p.reqs[i].blockTable == [] && p.reqs[i].cached == 0
    ensures Releasable(p, i, 0) && Release(p, i, 0) == p
  {
    TableOf(p, i);
    StartIs(0, p.bs);
    assert p.reqs[i].blockTable[0..] == [];
    assert Kept(p.reqs[i], 0, p.bs) == p.reqs[i];
    assert p.reqs[i := p.reqs[i]] == p.reqs;
  }

  lemma CancelTable(s: Sched, i: nat)
    requires s.Inv() && i < |s.pool.reqs| && s.pool.reqs[i].Live() && i !in s.batch
    ensures s.pool.reqs[i].blockTable == [] ==> s.pool.reqs[i].cached == 0
  {
    assert s.Placed(i) && s.Duty(i);
    PagesForBounds(|s.pool.reqs[i].tokens|, s.pool.bs);
    StartIs(0, s.pool.bs);
  }

  lemma LiveIsPlaced(s: Sched, i: nat)
    requires s.Inv() && s.held == {}
    ensures i < |s.pool.reqs| && s.pool.reqs[i].Live() <==> i in s.waiting || i in s.running || i in s.pending
  {
    if i < |s.pool.reqs| {
      assert s.Placed(i);
    }
  }
}
