/** The scheduler's state as a value: the pool, the queues, and what each request must satisfy
    where it is. */
module Queues {
  import opened PrefixView
  import opened Pages
  import opened Pool
  import opened PoolSteps
  import opened PoolWrites
  import opened Compression
  import opened Allocation
  import opened Progress

  // ---------- what a request satisfies in each place ----------

  /** The request is not empty, and prompt and completion together fit the pool. */
  ghost predicate Fits(r: Request, bs: nat, pages: nat) {
    && 1 <= r.promptTokens <= |r.tokens| && 1 <= r.maxTokens && r.promptTokens + r.maxTokens <= Start(pages, bs)
    && (r.Live() ==> |r.tokens| < r.promptTokens + r.maxTokens)
  }

  /** Waiting: either the table is complete, or it holds a fully computed prefix. */
  ghost predicate WaitingOk(r: Request, bs: nat)
    requires bs > 0
  {
    && !r.compressed && |r.blockTable| <= r.NumBlocks(bs) && r.cached < |r.tokens|
    && (|r.blockTable| < r.NumBlocks(bs) ==> r.cached == Start(|r.blockTable|, bs))
  }

  /** Waiting for a restore: the table is complete, and pages up to `remote` are being fetched. */
  ghost predicate PendingOk(r: Request, bs: nat, remote: nat)
    requires bs > 0
  {
    && !r.compressed && r.attempted && |r.blockTable| == r.NumBlocks(bs) && r.cached == Start(Full(r.cached, bs), bs)
    && Full(r.cached, bs) < remote < r.NumBlocks(bs)
  }

  /** Running between steps: everything but the last token is computed. */
  ghost predicate RunningOk(r: Request, bs: nat) {
    r.cached + 1 == |r.tokens| && r.blockTable != [] && Start(|r.blockTable| - 1, bs) < r.physical
  }

  /** Scheduled: the table has room for what the run computes. A run that completes the request's
      known tokens makes it running, and ends in the last page of the table. */
  ghost predicate ScheduledOk(r: Request, bs: nat)
    requires bs > 0
  {
    && 0 < r.scheduled && r.cached + r.scheduled <= |r.tokens| && r.blockTable != []
    && r.physical + r.scheduled <= Start(|r.blockTable|, bs)
    && (r.status == Running ==>
         r.cached + r.scheduled == |r.tokens| && Start(|r.blockTable| - 1, bs) < r.physical + r.scheduled)
    && (r.status != Running ==> r.status == Waiting && WaitingOk(r, bs) && |r.blockTable| == r.NumBlocks(bs)
                                && r.cached + r.scheduled < |r.tokens|)
  }

  ghost predicate ReqDuty(r: Request, bs: nat, pages: nat, inBatch: bool, remote: nat)
    requires bs > 0
  {
    && Fits(r, bs, pages)
    && if inBatch then ScheduledOk(r, bs) else
       r.scheduled == 0 && match r.status
         case Waiting => WaitingOk(r, bs)
         case WaitingForKv => PendingOk(r, bs, remote)
         case Running => RunningOk(r, bs)
         case Finished | Cancelled => r.blockTable == []
  }

  // ---------- how requests move between places ----------

  lemma NeedsPages(r: Request, bs: nat, keep: nat)
    requires bs > 0
    ensures Start(keep, bs) < |r.tokens| <==> keep < r.NumBlocks(bs)
  {
    PagesForAtMost(|r.tokens|, keep, bs);
  }

  /** Giving back a suffix leaves a request that can wait. */
  lemma ReclaimedWaits(r: Request, bs: nat, keep: nat)
    requires bs > 0 && r.TableOk(bs) && r.tokens != [] && keep <= |r.blockTable|
    requires keep > 0 ==> !r.compressed && Start(keep, bs) <= r.cached < |r.tokens|
    ensures WaitingOk(Kept(r, keep, bs), bs) && keep < r.NumBlocks(bs)
  {
    NeedsPages(r, bs, keep);
    StartIs(0, bs);
  }

  /** A complete table whose computed prefix comes from the index leaves something to compute. */
  lemma AllocatedWaits(p: Pool, q: Pool, i: nat, ids: seq<BlockId>)
    requires Allocated(p, q, i, ids) && !p.reqs[i].compressed && |ids| < p.reqs[i].NumBlocks(p.bs)
    ensures WaitingOk(q.reqs[i], q.bs) && q.reqs[i].NumBlocks(q.bs) == p.reqs[i].NumBlocks(p.bs)
  {
    NeedsPages(p.reqs[i], p.bs, |ids|);
  }

  lemma CachedShort(p: Pool, i: nat, ids: seq<BlockId>)
    requires p.Inv() && Cached(p, i, ids) && p.reqs[i].tokens != []
    ensures |ids| < p.reqs[i].NumBlocks(p.bs)
  {
    CachedIds(p, i, ids);
    PagesForBounds(|p.reqs[i].tokens|, p.bs);
  }

  /** A complete table has room for every known token, and ends in the page of the last one. */
  lemma CompleteCovers(r: Request, bs: nat)
    requires bs > 0 && r.TableOk(bs) && !r.compressed && r.tokens != [] && |r.blockTable| == r.NumBlocks(bs)
    ensures r.physical == r.cached && r.blockTable != []
    ensures Start(|r.blockTable| - 1, bs) < |r.tokens| <= Start(|r.blockTable|, bs)
  {
    PagesForBounds(|r.tokens|, bs);
    StartIs(0, bs);
  }

  /** The next token of a running request needs a fresh page exactly when the last page is full,
      also after compression. */
  lemma DecodeRoom(r: Request, bs: nat)
    requires 2 <= bs && r.TableOk(bs) && RunningOk(r, bs)
    ensures |r.tokens| % bs == 1 <==> r.physical == Start(|r.blockTable|, bs)
    ensures |r.tokens| % bs == 1 ==> r.NumBlocks(bs) == r.Span() + 1 && r.NoGap(bs)
    ensures r.NumBlocks(bs) == if |r.tokens| % bs == 1 then r.Span() + 1 else r.Span()
  {
    var t, g := |r.blockTable|, r.Span() - |r.blockTable|;
    StartSum(t, g, bs);
    StartSum(t - 1, g, bs);
    assert Start(r.Span() - 1, bs) <= r.cached <= Start(r.Span(), bs);
    if r.physical == Start(t, bs) {
      PageUnique(|r.tokens|, r.Span(), bs);
      PagesForIs(|r.tokens|, r.Span() + 1, bs);
    } else {
      PagesForIs(|r.tokens|, r.Span(), bs);
      LastPage(|r.tokens|, r.Span(), bs);
    }
  }

  lemma LastPage(n: nat, k: nat, bs: nat)
    requires 2 <= bs && 0 < k && Start(k - 1, bs) + 1 < n <= Start(k, bs)
    ensures n % bs != 1
  {
    if n == Start(k, bs) {
      FullPages(k, bs);
    } else {
      PageUnique(n, k - 1, bs);
    }
  }

  /** A waiting request with a complete table can be scheduled for any number of its uncomputed
      tokens; scheduling all of them makes it running. */
  lemma PrefillScheduled(r: Request, bs: nat, n: nat)
    requires bs > 0 && r.TableOk(bs) && WaitingOk(r, bs) && |r.blockTable| == r.NumBlocks(bs)
    requires r.status == Waiting && 0 < n <= |r.tokens| - r.cached
    ensures ScheduledOk(r.(scheduled := n, status := if r.cached + n == |r.tokens| then Running else Waiting), bs)
  {
    CompleteCovers(r, bs);
  }

  lemma DecodeScheduled(r: Request, bs: nat)
    requires 2 <= bs && r.TableOk(bs) && RunningOk(r, bs) && r.status == Running && |r.tokens| % bs != 1
    ensures ScheduledOk(r.(scheduled := 1, prefill := false), bs)
  {
    DecodeRoom(r, bs);
  }

  lemma DecodeGrown(r: Request, bs: nat, b: BlockId)
    requires 2 <= bs && r.TableOk(bs) && RunningOk(r, bs) && r.status == Running && |r.tokens| % bs == 1
    ensures ScheduledOk(Push(r, b, r.Span()).(scheduled := 1, prefill := false), bs)
  {
    DecodeRoom(r, bs);
  }

  lemma SqueezedRuns(r: Request, bs: nat, kept: set<nat>)
    requires r.TableOk(bs) && RunningOk(r, bs) && Compressible(r, kept, bs)
    ensures RunningOk(Squeezed(r, kept, bs), bs)
  {
    SqueezedSizes(r, kept, bs);
  }

  /** After the run a running request has everything computed but the token just sampled. */
  lemma RanOn(r: Request, bs: nat, token: Token)
    requires bs > 0 && ScheduledOk(r, bs)
    ensures r.status == Running ==> RunningOk(Advanced(r, r.scheduled).(tokens := r.tokens + [token]), bs)
    ensures r.status == Waiting && r.TableOk(bs) ==> WaitingOk(Advanced(r, r.scheduled), bs)
  {
  }

  // ---------- the scheduler's state ----------

  datatype Sched = Sched(
    pool: Pool,
    waiting: seq<nat>,
    running: seq<nat>,
    pending: map<nat, nat>,   // restores in flight, and how many pages each restores
    batch: seq<nat>,          // requests scheduled in the current step
    held: set<nat>)           // running requests taken off the running queue
  {
    ghost predicate Placed(k: nat)
      requires k < |pool.reqs|
    {
      && (k in waiting <==> pool.reqs[k].status == Waiting)
      && (k in running <==> pool.reqs[k].status == Running && k !in held)
      && (k in held ==> pool.reqs[k].status == Running && (k in batch ==> pool.reqs[k].scheduled == 1))
      && (k in pending <==> pool.reqs[k].status == WaitingForKv)
    }

    function Remote(k: nat): nat {
      if k in pending then pending[k] else 0
    }

    ghost predicate Duty(k: nat)
      requires k < |pool.reqs| && pool.bs > 0
    {
      ReqDuty(pool.reqs[k], pool.bs, |pool.refs|, k in batch, Remote(k))
    }

    ghost predicate QueuesOk() {
      && Distinct(waiting) && Distinct(running) && Distinct(batch)
      && (forall k | k in waiting :: k < |pool.reqs|) && (forall k | k in running :: k < |pool.reqs|)
      && (forall k | k in pending :: k < |pool.reqs|) && (forall k | k in batch :: k < |pool.reqs|)
      && (forall k | k in held :: k < |pool.reqs|)
    }

    /** Every request is in exactly one place, in a state that fits the place, and the pool is
        consistent. */
    ghost predicate Inv() {
      && pool.Inv() && pool.bs >= 2 && QueuesOk()
      && (forall k: nat {:trigger Placed(k)} | k < |pool.reqs| :: Placed(k))
      && (forall k: nat {:trigger Duty(k)} | k < |pool.reqs| :: Duty(k))
    }
  }

  lemma PlaceOf(s: Sched, i: nat)
    requires s.Inv()
    ensures s.pool.Inv() && 2 <= s.pool.bs && s.QueuesOk()
    ensures i in s.pending || i in s.waiting || i in s.running || i in s.held ==> i < |s.pool.reqs|
    ensures i < |s.pool.reqs| ==> s.Placed(i) && s.Duty(i)
  {
  }

  /** At most request `i` changed, or changed place. */
  ghost predicate Only(s: Sched, t: Sched, i: nat) {
    && t.pool.bs == s.pool.bs && |t.pool.refs| == |s.pool.refs|
    && i < |s.pool.reqs| == |t.pool.reqs| && t.pool.reqs == s.pool.reqs[i := t.pool.reqs[i]]
    && forall k: nat | k < |s.pool.reqs| && k != i :: SamePlace(s, t, k)
  }

  ghost predicate SamePlace(s: Sched, t: Sched, k: nat) {
    && (k in t.waiting <==> k in s.waiting) && (k in t.running <==> k in s.running)
    && (k in t.batch <==> k in s.batch) && (k in t.held <==> k in s.held)
    && (k in t.pending <==> k in s.pending) && t.Remote(k) == s.Remote(k)
  }

  lemma OnlyInv(s: Sched, t: Sched, i: nat)
    requires s.Inv() && Only(s, t, i) && t.pool.Inv() && t.QueuesOk() && t.Placed(i) && t.Duty(i)
    ensures t.Inv()
  {
    forall k: nat | k < |t.pool.reqs|
      ensures t.Placed(k) && t.Duty(k)
    {
      if k != i {
        assert s.Placed(k) && s.Duty(k) && SamePlace(s, t, k);
      }
    }
  }

  // ---------- the moves ----------

  /** A waiting request gives back a suffix of its table. */
  lemma ReclaimWaitingInv(s: Sched, i: nat, keep: nat)
    requires s.Inv() && i < |s.pool.reqs| && i !in s.batch && s.pool.reqs[i].status == Waiting
    requires Releasable(s.pool, i, keep)
    ensures s.(pool := Release(s.pool, i, keep)).Inv()
  {
    var t := s.(pool := Release(s.pool, i, keep));
    assert s.Placed(i) && s.Duty(i);
    TableOf(s.pool, i);
    ReclaimedWaits(s.pool.reqs[i], s.pool.bs, keep);
    ReleaseInv(s.pool, i, keep);
    ReleaseView(s.pool, i, keep);
    hide Pool.Inv, Release, WaitingOk, Kept, Releasable;
    assert t.pool.reqs[i] == Kept(s.pool.reqs[i], keep, s.pool.bs);
    KeptFits(s.pool.reqs[i], keep, s.pool.bs, |s.pool.refs|);
    OnlyInv(s, t, i);
  }

  lemma KeptFits(r: Request, keep: nat, bs: nat, pages: nat)
    requires keep <= |r.blockTable| && keep <= |r.logical|
    ensures var t := Kept(r, keep, bs);
      && t.status == r.status && t.scheduled == r.scheduled && t.tokens == r.tokens
           && (Fits(r, bs, pages) ==> Fits(t, bs, pages))
  {
  }

  /** When the waiting requests own nothing and nobody is running or restoring, every page is
      free. */
  lemma NobodyOwns(s: Sched)
    requires s.Inv() && s.running == [] && s.pending == map[] && s.held == {}
    requires forall k | k in s.waiting :: s.pool.reqs[k].blockTable == []
    ensures |s.pool.free| == |s.pool.refs|
  {
    forall i: nat | i < |s.pool.reqs|
      ensures s.pool.reqs[i].blockTable == []
    {
      assert s.Placed(i) && s.Duty(i);
    }
    assert forall b: BlockId :: s.pool.Owners(b) == {};
    FreeOk(s.pool);
    s.pool.Conservation();
    assert s.pool.used == {};
  }

  lemma FitsPool(s: Sched, i: nat)
    requires s.Inv() && i < |s.pool.reqs| && s.pool.reqs[i].Live()
    ensures 0 < s.pool.reqs[i].NumBlocks(s.pool.bs) <= |s.pool.refs|
  {
    assert s.Duty(i);
    PagesForAtMost(|s.pool.reqs[i].tokens|, |s.pool.refs|, s.pool.bs);
    PagesForBounds(|s.pool.reqs[i].tokens|, s.pool.bs);
  }

  /** Requests `p` became `q` by some waiting ones giving back every page. */
  ghost predicate Reclaimed(p: seq<Request>, q: seq<Request>, bs: nat) {
    && |p| == |q|
    && forall k {:trigger q[k]} | 0 <= k < |p| :: q[k] == p[k] || GaveBack(p[k], q[k], bs)
  }

  ghost predicate GaveBack(r: Request, s: Request, bs: nat) {
    && r.status == Waiting && r.blockTable != [] && s.blockTable == [] && s.cached == 0
    && s == r.(blockTable := [], logical := [], cached := 0, physical := 0, compressed := false)
  }

  lemma ReclaimedNext(p: seq<Request>, q: seq<Request>, i: nat, bs: nat)
    requires Reclaimed(p, q, bs) && i < |q| && q[i].status == Waiting && q[i].blockTable != []
    ensures Reclaimed(p, q[i := Kept(q[i], 0, bs)], bs) && q[i := Kept(q[i], 0, bs)] != p
  {
    StartIs(0, bs);
    var now := q[i];
  }

  predicate SamePages(p: Pool, q: Pool) {
    q.bs == p.bs && |q.refs| == |p.refs|
  }

  /** Requests gave back pages for request `i`, and only if it lacked some. */
  ghost predicate Made(p: Pool, q: Pool, i: nat) {
    && q.bs == p.bs > 0 && |q.refs| == |p.refs| && i < |p.reqs| && Reclaimed(p.reqs, q.reqs, p.bs)
    && (q.reqs != p.reqs ==> |p.reqs[i].blockTable| < p.reqs[i].NumBlocks(p.bs))
  }

  lemma MadeNothing(p: Pool, i: nat)
    requires p.bs > 0 && i < |p.reqs|
    ensures Made(p, p, i)
  {
  }

  lemma MadeMore(p: Pool, q: Pool, t: Pool, i: nat, k: nat)
    requires Made(p, q, i) && !CanComplete(q, i) && k < |q.reqs| && q.reqs[k].status == Waiting
      && q.reqs[k].blockTable != []
    requires t.bs == q.bs && |t.refs| == |q.refs| && t.reqs == q.reqs[k := Kept(q.reqs[k], 0, q.bs)]
    requires |q.reqs[i].blockTable| <= q.reqs[i].NumBlocks(q.bs)
    ensures Made(p, t, i) && Total(t.reqs, TableSize) < Total(q.reqs, TableSize)
  {
    if q.reqs == p.reqs && q.reqs[i].NumBlocks(q.bs) <= |q.reqs[i].blockTable| {
      EasyCompletes(q, i);
    }
    ReclaimedNext(p.reqs, q.reqs, k, p.bs);
    TotalFalls(q.reqs, t.reqs, TableSize);
    assert TableSize(t.reqs[k]) < TableSize(q.reqs[k]);
  }

  function TableSize(r: Request): nat {
    |r.blockTable|
  }

  // ---------- admission ----------

  /** A waiting request completes its table. */
  lemma CompletedInv(s: Sched, q: Pool, i: nat, ids: seq<BlockId>)
    requires s.Inv() && i < |s.pool.reqs| && i !in s.batch && s.pool.reqs[i].status == Waiting
    requires q.Inv() && Allocated(s.pool, q, i, ids) && |ids| < s.pool.reqs[i].NumBlocks(s.pool.bs)
    ensures s.(pool := q).Inv() && q.reqs[i].status == Waiting && q.reqs[i].TableOk(q.bs)
    ensures |q.reqs[i].blockTable| == q.reqs[i].NumBlocks(q.bs)
      && q.reqs[i].cached == Start(|ids|, q.bs) < |q.reqs[i].tokens|
  {
    assert s.Placed(i) && s.Duty(i);
    AllocatedWaits(s.pool, q, i, ids);
    TableOf(q, i);
    var t := s.(pool := q);
    hide Pool.Inv, WaitingOk, Cached, Request.TableOk;
    OnlyInv(s, t, i);
  }

  /** The pages attached or kept are fewer than the request needs. */
  lemma ResumedShort(p: Pool, i: nat, suffix: seq<BlockId>)
    requires p.Inv() && ContinuesTable(p, i, suffix) && |p.reqs[i].blockTable| < p.reqs[i].NumBlocks(p.bs)
      && p.reqs[i].tokens != []
    ensures |p.reqs[i].blockTable + suffix| < p.reqs[i].NumBlocks(p.bs)
  {
    if suffix != [] {
      ContinuesCached(p, i, suffix);
      CachedShort(p, i, p.reqs[i].blockTable + suffix);
    }
  }

  function Enlisted(r: Request, n: nat): Request {
    r.(scheduled := n, status := if r.cached + n == |r.tokens| then Running else Waiting)
  }

  /** Request `i` joins the batch with `n` tokens, and the running queue if they complete it. */
  function Enlist(s: Sched, i: nat, n: nat): Sched
    requires i < |s.pool.reqs|
  {
    var r := s.pool.reqs[i];
    var t := s.(pool := SetReq(s.pool, i, Enlisted(r, n)), batch := s.batch + [i]);
    if r.cached + n == |r.tokens| then t.(waiting := Remove(s.waiting, i), running := s.running + [i]) else t
  }

  lemma EnlistInv(s: Sched, i: nat, n: nat)
    requires s.Inv() && i < |s.pool.reqs| && i !in s.batch && s.pool.reqs[i].status == Waiting
    requires |s.pool.reqs[i].blockTable| == s.pool.reqs[i].NumBlocks(s.pool.bs)
      && 0 < n <= |s.pool.reqs[i].tokens| - s.pool.reqs[i].cached
    ensures Enlist(s, i, n).Inv()
  {
    var r, t := s.pool.reqs[i], Enlist(s, i, n);
    assert s.Placed(i) && s.Duty(i);
    TableOf(s.pool, i);
    PrefillScheduled(r, s.pool.bs, n);
    SetReqInv(s.pool, i, Enlisted(r, n));
    EnlistQueues(s, i, n);
    hide Pool.Inv, WaitingOk, ScheduledOk, Request.TableOk, Remove, Distinct;
    OnlyInv(s, t, i);
  }

  lemma EnlistQueues(s: Sched, i: nat, n: nat)
    requires s.Inv() && i < |s.pool.reqs| && i !in s.batch && s.pool.reqs[i].status == Waiting
    ensures Enlist(s, i, n).QueuesOk() && Only(s, Enlist(s, i, n), i)
    ensures i in Enlist(s, i, n).batch && i !in s.running
    ensures i in Remove(s.waiting, i) <==> false
  {
    hide Sched.Inv, Remove, Distinct, Pool.Inv;
    PlaceOf(s, i);
    RemoveElements(s.waiting, i);
    ConsDistinct(i, s.batch);
    ConsDistinct(i, s.running);
  }

  /** Request `i`, whose table was just completed, leaves for a restore of `remote` pages. */
  function Depart(s: Sched, q: Pool, i: nat, remote: nat): Sched
    requires i < |q.reqs|
  {
    s.(pool := SetReq(q, i, q.reqs[i].(status := WaitingForKv, attempted := true)),
       waiting := Remove(s.waiting, i), pending := s.pending[i := remote])
  }

  lemma DepartStep(s: Sched, q: Pool, i: nat, ids: seq<BlockId>, remote: nat)
    requires i < |s.pool.reqs| && Allocated(s.pool, q, i, ids) && !s.pool.reqs[i].attempted && s.pool.reqs[i].Live()
    ensures i < |q.reqs| && RestoreStep(s.pool.reqs, Depart(s, q, i, remote).pool.reqs)
  {
    OneGentle(s.pool.reqs, Depart(s, q, i, remote).pool.reqs, i);
  }

  lemma DepartInv(s: Sched, q: Pool, i: nat, ids: seq<BlockId>, remote: nat)
    requires s.Inv() && i < |s.pool.reqs| && i !in s.batch && s.pool.reqs[i].status == Waiting
    requires q.Inv() && Allocated(s.pool, q, i, ids) && |ids| < remote < s.pool.reqs[i].NumBlocks(s.pool.bs)
    ensures i < |q.reqs| && Depart(s, q, i, remote).Inv()
  {
    hide Sched.Inv, Pool.Inv, Remove, Distinct;
    var r := q.reqs[i].(status := WaitingForKv, attempted := true);
    PlaceOf(s, i);
    FullPages(|ids|, s.pool.bs);
    SetReqInv(q, i, r);
    RemoveElements(s.waiting, i);
    OnlyInv(s, Depart(s, q, i, remote), i);
  }

  /** Giving up the reservation of a request that was already marked comes to the same. */
  lemma ReleaseMarked(p: Pool, i: nat, r: Request)
    requires i < |p.reqs| && r == p.reqs[i].(status := WaitingForKv, attempted := true) && |r.logical| == |r.blockTable|
    ensures var q := Release(SetReq(p, i, r), i, 0);
      i < |q.reqs| && SetReq(q, i, q.reqs[i].(status := p.reqs[i].status))
        == SetReq(Release(p, i, 0), i, Release(p, i, 0).reqs[i].(attempted := true))
  {
    UnrefEachReqs(p, Reversed(r.blockTable[0..]), p.reqs[i := r]);
  }

  /** A restore that could not be submitted leaves everything as before, but for the mark that it
      was tried: the same pages are owned by the same requests, and the same prefix is cached. */
  lemma AbortedInv(s: Sched, mid: Pool, i: nat, ids: seq<BlockId>)
    requires s.Inv() && i < |s.pool.reqs| && i !in s.batch && s.pool.reqs[i].status == Waiting
      && s.pool.reqs[i].blockTable == []
    requires mid.Inv() && Allocated(s.pool, mid, i, ids) && Cached(mid, i, ids) && Affordable(s.pool, i, ids)
    ensures Releasable(mid, i, 0)
    ensures var q := Release(mid, i, 0);
      && q.Inv() && q.reqs == s.pool.reqs && q.refs == s.pool.refs && q.used == s.pool.used && |q.free| == |s.pool.free|
      && var t := SetReq(q, i, q.reqs[i].(attempted := true)); s.(pool := t).Inv() && Admittable(t, i, |ids|)
  {
    hide Sched.Inv, Pool.Inv, Release, Cached, Affordable, Request.TableOk;
    PlaceOf(s, i);
    TableOf(s.pool, i);
    TableOf(mid, i);
    StartIs(0, s.pool.bs);
    AbortedReservation(s.pool, mid, i, ids);
    var q := Release(mid, i, 0);
    var r := q.reqs[i].(attempted := true);
    SetReqInv(q, i, r);
    ReleaseView(mid, i, 0);
    var t := SetReq(q, i, r);
    AffordsAlike(s.pool, t, i, ids);
    CachedAlike(q, t, i, ids);
    OnlyInv(s, s.(pool := t), i);
  }

  function Restoring(r: Request): Request {
    r.(status := WaitingForKv, attempted := true)
  }

  /** The same, from the state in which the submission fails. */
  lemma AbortedStep(s: Sched, mid: Pool, i: nat, ids: seq<BlockId>)
    requires s.Inv() && i < |s.pool.reqs| && i !in s.batch && s.pool.reqs[i].status == Waiting
      && s.pool.reqs[i].blockTable == []
    requires mid.Inv() && Allocated(s.pool, mid, i, ids) && Cached(mid, i, ids) && Affordable(s.pool, i, ids)
      && !s.pool.reqs[i].attempted
    ensures i < |mid.reqs| && Releasable(SetReq(mid, i, Restoring(mid.reqs[i])), i, 0)
    ensures var q := Release(SetReq(mid, i, Restoring(mid.reqs[i])), i, 0);
      && i < |q.reqs| && q.reqs[i].status == WaitingForKv
      && var t := SetReq(q, i, q.reqs[i].(status := Waiting));
        s.(pool := t).Inv() && Admittable(t, i, |ids|) && t.reqs[i].blockTable == [] && RestoreStep(s.pool.reqs, t.reqs)
  {
    AbortedInv(s, mid, i, ids);
    TableOf(mid, i);
    ReleaseMarked(mid, i, Restoring(mid.reqs[i]));
    hide Pool.Inv, Sched.Inv, Release, Cached, Affordable, Admittable;
    var q := Release(mid, i, 0);
    OneGentle(s.pool.reqs, SetReq(q, i, q.reqs[i].(attempted := true)).reqs, i);
  }

  lemma MadeAhead(p: Pool, q: Pool, i: nat)
    requires Made(p, q, i) && p.reqs[i].status == Waiting && p.reqs[i].blockTable != []
    ensures Ahead(p.reqs, q.reqs, i, p.bs)
  {
    forall k | 0 <= k < |p.reqs|
      ensures Gentle(p.reqs[k], q.reqs[k])
    {
      assert q.reqs[k] == p.reqs[k] || GaveBack(p.reqs[k], q.reqs[k], p.bs);
    }
  }

  lemma JoinGentle(p: seq<Request>, q: seq<Request>, t: seq<Request>, i: nat, n: nat, bs: nat)
    requires bs > 0 && Ahead(p, q, i, bs) && |t| == |q| && t == q[i := Enlisted(q[i], n)]
    requires q[i].status == Waiting && |q[i].blockTable| == q[i].NumBlocks(bs) && 0 < n
    ensures AllGentle(p, t) && (t[i].status == Waiting ==> Partway(p, t, i, bs))
  {
    OneGentle(q, t, i);
    GentleTrans(p, q, t);
    if t[i].status == Waiting {
      AheadMore(p, q, t, i, bs);
      AheadDone(p, t, i, bs);
    }
  }

  // ---------- decoding ----------

  /** A running request is taken off its queue. */
  function Hold(s: Sched, i: nat): Sched {
    s.(running := Remove(s.running, i), held := s.held + {i})
  }

  lemma HoldInv(s: Sched, i: nat)
    requires s.Inv() && i in s.running && i !in s.batch
    ensures Hold(s, i).Inv()
  {
    assert s.Placed(i) && s.Duty(i);
    RemoveElements(s.running, i);
    hide Pool.Inv, Remove, Distinct;
    OnlyInv(s, Hold(s, i), i);
  }

  /** A running request loses full pages from its middle. */
  lemma CompressedInv(s: Sched, i: nat, kept: set<nat>)
    requires s.Inv() && i < |s.pool.reqs| && i !in s.batch && s.pool.reqs[i].status == Running
      && Compressible(s.pool.reqs[i], kept, s.pool.bs)
    ensures var q := Compress(s.pool, i, kept); s.(pool := q).Inv() && AllGentle(s.pool.reqs, q.reqs)
  {
    var q := Compress(s.pool, i, kept);
    assert s.Placed(i) && s.Duty(i);
    TableOf(s.pool, i);
    SqueezedRuns(s.pool.reqs[i], s.pool.bs, kept);
    CompressInv(s.pool, i, kept);
    CompressSizes(s.pool, i, kept);
    OneGentle(s.pool.reqs, q.reqs, i);
    hide Pool.Inv, Compress, RunningOk, Squeezed;
    OnlyInv(s, s.(pool := q), i);
  }

  /** The last page is always kept, so only full pages are dropped. */
  lemma KeepsLast(r: Request, sink: nat, recent: nat, chosen: set<nat>, bs: nat)
    requires RunningOk(r, bs) && 0 < recent && sink + recent <= |r.blockTable|
      && chosen <= Interval(sink, |r.blockTable| - recent)
    ensures Compressible(r, KeepSet(|r.blockTable|, sink, recent, chosen), bs)
  {
    KeepsBudget(r.blockTable, sink, recent, chosen);
  }

  lemma CompressSizes(p: Pool, i: nat, kept: set<nat>)
    requires p.Inv() && i < |p.reqs| && Compressible(p.reqs[i], kept, p.bs)
    ensures SamePages(p, Compress(p, i, kept))
      && Compress(p, i, kept).reqs == p.reqs[i := Squeezed(p.reqs[i], kept, p.bs)]
  {
    CompressDropping(p, i, kept);
    hide Pool.Inv;
    Droppable(p, i, DropAt(p.reqs[i].blockTable, kept));
    UnrefEachIs(p, DropAt(p.reqs[i].blockTable, kept));
  }

  /** A held request gives back pages and waits again, at the front of the queue. */
  function Preempted(s: Sched, i: nat, keep: nat): Sched
    requires Releasable(s.pool, i, keep)
  {
    var q := Release(s.pool, i, keep);
    s.(pool := SetReq(q, i, Kept(s.pool.reqs[i], keep, s.pool.bs).(status := Waiting, prefill := true)),
       waiting := [i] + s.waiting, held := s.held - {i})
  }

  lemma PreemptInv(s: Sched, i: nat, keep: nat)
    requires s.Inv() && i in s.held && i !in s.batch && Releasable(s.pool, i, keep)
    ensures Preempted(s, i, keep).Inv() && AllGentle(s.pool.reqs, Preempted(s, i, keep).pool.reqs)
  {
    var t := Preempted(s, i, keep);
    var r := Kept(s.pool.reqs[i], keep, s.pool.bs).(status := Waiting, prefill := true);
    assert s.Placed(i) && s.Duty(i);
    PreemptedPool(s.pool, i, keep, r);
    PreemptedWaits(s.pool.reqs[i], s.pool.bs, |s.pool.refs|, keep, r) by { TableOf(s.pool, i); }
    ConsDistinct(i, s.waiting);
    hide Pool.Inv, Release, WaitingOk, Kept, Distinct, Releasable, Request.TableOk, Fits;
    OneGentle(s.pool.reqs, t.pool.reqs, i);
    OnlyInv(s, t, i);
  }

  lemma PreemptedPool(p: Pool, i: nat, keep: nat, r: Request)
    requires p.Inv() && Releasable(p, i, keep) && r == Kept(p.reqs[i], keep, p.bs).(status := Waiting, prefill := true)
    ensures var q := SetReq(Release(p, i, keep), i, r);
      q.Inv() && q.bs == p.bs && |q.refs| == |p.refs| && q.reqs == p.reqs[i := r]
  {
    ReleaseInv(p, i, keep);
    ReleaseView(p, i, keep);
    hide Pool.Inv, Release;
    SetReqInv(Release(p, i, keep), i, r);
  }

  lemma PreemptedWaits(r: Request, bs: nat, pages: nat, keep: nat, t: Request)
    requires bs > 0 && r.TableOk(bs) && RunningOk(r, bs) && Fits(r, bs, pages) && r.status == Running
      && r.scheduled == 0
    requires keep <= |r.blockTable| && (keep > 0 ==> !r.compressed && Start(keep, bs) <= r.cached)
    requires t == Kept(r, keep, bs).(status := Waiting, prefill := true)
    ensures WaitingOk(t, bs) && Fits(t, bs, pages) && Gentle(r, t)
  {
    ReclaimedWaits(r, bs, keep);
    KeptFits(r, keep, bs, pages);
  }

  /** Request `r`, scheduled for its next token, with a fresh page if that token needs one. */
  ghost predicate DecodeMarked(r: Request, s: Request, bs: nat)
    requires bs > 0
  {
    var marked := r.(scheduled := 1, prefill := false);
    if |r.tokens| % bs == 1 then exists b {:trigger Push(marked, b, r.Span())} ::
      s == Push(marked, b, r.Span()) else s == marked
  }

  lemma DecodeDuty(r: Request, s: Request, bs: nat, pages: nat)
    requires 2 <= bs && r.TableOk(bs) && RunningOk(r, bs) && r.status == Running && DecodeMarked(r, s, bs)
    ensures ScheduledOk(s, bs) && s.status == Running && Gentle(r, s) && (Fits(r, bs, pages) ==> Fits(s, bs, pages))
  {
    if |r.tokens| % bs == 1 {
      var b :| s == Push(r.(scheduled := 1, prefill := false), b, r.Span());
      DecodeGrown(r, bs, b);
    } else {
      DecodeScheduled(r, bs);
    }
  }

  /** A held request joins the batch for one token. */
  lemma DecodeJoinInv(s: Sched, q: Pool, i: nat)
    requires s.Inv() && i in s.held && i !in s.batch && q.Inv() && SamePages(s.pool, q)
    requires |q.reqs| == |s.pool.reqs| && q.reqs == s.pool.reqs[i := q.reqs[i]]
    requires DecodeMarked(s.pool.reqs[i], q.reqs[i], s.pool.bs)
    ensures s.(pool := q, batch := s.batch + [i]).Inv() && AllGentle(s.pool.reqs, q.reqs)
  {
    hide Sched.Inv, Pool.Inv, Distinct, Fits, Gentle, Request.TableOk, RunningOk, ScheduledOk;
    PlaceOf(s, i);
    TableOf(s.pool, i);
    DecodeDuty(s.pool.reqs[i], q.reqs[i], s.pool.bs, |s.pool.refs|);
    ConsDistinct(i, s.batch);
    OneGentle(s.pool.reqs, q.reqs, i);
    OnlyInv(s, s.(pool := q, batch := s.batch + [i]), i);
  }

  /** The decoded requests go back to the front of the running queue. */
  lemma ReturnInv(s: Sched)
    requires s.Inv() && s.held == Elements(s.batch)
    ensures s.(running := s.batch + s.running, held := {}).Inv()
  {
    var t := s.(running := s.batch + s.running, held := {});
    forall k: nat | k < |s.pool.reqs|
      ensures t.Placed(k) && t.Duty(k)
    {
      assert s.Placed(k) && s.Duty(k);
    }
    forall k | k in s.batch
      ensures k !in s.running
    {
      assert s.Placed(k);
    }
    DistinctAppend(s.batch, s.running);
  }

  lemma DistinctAppend(s: seq<nat>, t: seq<nat>)
    requires Distinct(s) && Distinct(t) && forall k | k in s :: k !in t
    ensures Distinct(s + t)
  {
    forall i, j | 0 <= i < |s + t| && 0 <= j < |s + t| && (s + t)[i] == (s + t)[j]
      ensures i == j
    {
      if i < |s| {
        assert (s + t)[i] in s;
      } else {
        assert (s + t)[i] == t[i - |s|];
      }
      if j < |s| {
        assert (s + t)[j] in s;
      } else {
        assert (s + t)[j] == t[j - |s|];
      }
    }
  }

  lemma SomebodyQueued(s: Sched)
    requires s.Inv() && s.held == {}
    ensures AnyRunning(s.pool.reqs) <==> s.running != []
    ensures AnyLive(s.pool.reqs) <==> s.waiting != [] || s.running != [] || s.pending != map[]
  {
    if s.running != [] {
      assert s.running[0] in s.running && s.Placed(s.running[0]);
    }
    if s.waiting != [] {
      assert s.waiting[0] in s.waiting && s.Placed(s.waiting[0]);
    }
    if s.pending != map[] {
      var k :| k in s.pending;
      assert s.Placed(k);
    }
    hide Pool.Inv;
    if AnyRunning(s.pool.reqs) {
      var k :| 0 <= k < |s.pool.reqs| && s.pool.reqs[k].status == Running;
      assert s.Placed(k);
    }
    if AnyLive(s.pool.reqs) {
      var k :| 0 <= k < |s.pool.reqs| && s.pool.reqs[k].Live();
      assert s.Placed(k);
    }
  }
}
