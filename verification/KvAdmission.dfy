/** Soft page reservation for the decode steps ahead. */
module KvAdmission {
  import opened PrefixView
  import opened Pages
  import opened Pool
  import opened PoolSteps
  import opened PoolWrites
  import opened Sequences
  import opened Queues

  /** Pages that `futureTokens` more tokens need beyond those owned. */
  function GrowthPages(cachedTokens: nat, ownedPages: nat, futureTokens: nat, bs: nat): nat
    requires bs > 0
  {
    var needed := PagesFor(cachedTokens + futureTokens, bs);
    if ownedPages < needed then needed - ownedPages else 0
  }

  // ---------- the closed form counts the pages of step-by-step decoding ----------

  /** A running request one decode step later. */
  function NextDecode(r: Request, bs: nat, token: Token): Request
    requires bs > 0
  {
    var grown := if |r.tokens| % bs == 1 then Push(r, 0, r.Span()) else r;
    Advanced(grown, 1).(tokens := r.tokens + [token])
  }

  /** The pages allocated over the next decode steps, one per sampled token. */
  function DecodePages(r: Request, bs: nat, sampled: seq<Token>): nat
    requires bs > 0
    decreases |sampled|
  {
    if sampled == [] then 0
    else (if |r.tokens| % bs == 1 then 1 else 0) + DecodePages(NextDecode(r, bs, sampled[0]), bs, sampled[1..])
  }

  /** What decoding relies on, stated on sizes: the last owned page is begun, and compression
      removed whole pages. */
  ghost predicate Decoding(r: Request, bs: nat) {
    && 2 <= bs && r.cached + 1 == |r.tokens| && r.blockTable != []
    && Start(|r.blockTable| - 1, bs) < r.physical <= Start(|r.blockTable|, bs)
    && |r.logical| == |r.blockTable| <= r.Span() && r.cached == r.physical + Start(r.Span() - |r.blockTable|, bs)
  }

  lemma NextPage(r: Request, bs: nat)
    requires Decoding(r, bs)
    ensures |r.tokens| % bs == 1 <==> r.physical == Start(|r.blockTable|, bs)
  {
    var t, g := |r.blockTable|, r.Span() - |r.blockTable|;
    StartSum(t, g, bs);
    StartSum(t - 1, g, bs);
    if r.physical == Start(t, bs) {
      PageUnique(|r.tokens|, r.Span(), bs);
    } else {
      LastPage(|r.tokens|, r.Span(), bs);
    }
  }

  lemma NextDecodes(r: Request, bs: nat, token: Token)
    requires Decoding(r, bs)
    ensures Decoding(NextDecode(r, bs, token), bs)
  {
    NextPage(r, bs);
  }

  /** For every request whose pages are fully owned, compressed or not, and every horizon: the
      closed form is the number of pages that decoding token by token allocates. */
  lemma {:induction false} GrowthIsStepByStep(r: Request, bs: nat, sampled: seq<Token>)
    requires Decoding(r, bs)
    ensures GrowthPages(r.physical, |r.blockTable|, |sampled|, bs) == DecodePages(r, bs, sampled)
    decreases |sampled|
  {
    var n := |r.blockTable|;
    if sampled == [] {
      PagesForIs(r.physical, n, bs);
    } else {
      var s := NextDecode(r, bs, sampled[0]);
      NextPage(r, bs);
      NextDecodes(r, bs, sampled[0]);
      GrowthIsStepByStep(s, bs, sampled[1..]);
      hide Start, Decoding;
      assert s.physical + |sampled[1..]| == r.physical + |sampled|;
      PagesForAtMost(r.physical + |sampled|, n, bs);
    }
  }

  /** In every state of the scheduler that applies to whoever runs and is not part of a batch. */
  lemma RunningGrowth(s: Sched, i: nat, sampled: seq<Token>)
    requires s.Inv() && i in s.running && i !in s.batch
    ensures i < |s.pool.reqs| && s.pool.bs > 0
    ensures var r := s.pool.reqs[i];
      GrowthPages(r.physical, |r.blockTable|, |sampled|, s.pool.bs) == DecodePages(r, s.pool.bs, sampled)
  {
    assert s.Placed(i) && s.Duty(i) && s.pool.ReqOk(i);
    hide Sched.Inv, Pool.Inv;
    GrowthIsStepByStep(s.pool.reqs[i], s.pool.bs, sampled);
  }

  // ---------- reservation ----------

  function Remaining(r: Request, pendingPrefill: bool): nat {
    var left := r.promptTokens + r.maxTokens - |r.tokens| - (if pendingPrefill then 1 else 0);
    if left < 0 then 0 else left
  }

  function Horizon(horizon: nat, remaining: nat): nat {
    if remaining < horizon then remaining else horizon
  }

  /** The growth of one running request within the horizon. */
  function Growth(r: Request, horizon: nat, bs: nat): nat
    requires bs > 0
  {
    GrowthPages(r.physical + r.scheduled, |r.blockTable|, Horizon(horizon, Remaining(r, r.scheduled > 0)), bs)
  }

  function ReserveFor(running: seq<Sequence>, priority: int, horizon: nat, bs: nat): nat
    requires bs > 0
    reads running
  {
    if running == [] then 0 else
      var last := running[|running|-1];
      var rest := ReserveFor(running[..|running|-1], priority, horizon, bs);
      if last.priority < priority then rest else rest + Growth(last.State(), horizon, bs)
  }

  /** Pages to leave for the candidate's own decoding and for that of every running request whose
      priority is not lower. */
  method PriorityReservePages(candidate: Sequence, running: seq<Sequence>, horizon: nat, bs: nat) returns (reserve: nat)
    requires bs > 0
    ensures reserve == ReserveFor(running, candidate.priority, horizon, bs)
      + GrowthPages(|candidate.tokenIds|, candidate.NumBlocks(bs),
        Horizon(horizon, Remaining(candidate.State(), true)), bs)
  {
    reserve := 0;
    for k := 0 to |running|
      invariant reserve == ReserveFor(running[..k], candidate.priority, horizon, bs)
    {
      assert running[..k + 1][..k] == running[..k];
      if running[k].priority >= candidate.priority {
        reserve := reserve + Growth(running[k].State(), horizon, bs);
      }
    }
    assert running[..|running|] == running;
    reserve := reserve
      + GrowthPages(|candidate.tokenIds|, candidate.NumBlocks(bs),
        Horizon(horizon, Remaining(candidate.State(), true)), bs);
  }
}
