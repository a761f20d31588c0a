/** Every step of the engine lowers a lexicographic measure of the requests, whatever the policy
    chooses and whatever tokens the model samples. */
module Termination {
  import opened PrefixView
  import opened Pool
  import opened PoolWrites
  import opened Progress
  import opened Queues
  import opened Finishing

  ghost function Half(bs: nat): Request -> nat {
    r => if bs > 0 then PartialRank(r, bs) else 0
  }

  ghost function RunningRank(reqs: seq<Request>): nat {
    if AnyRunning(reqs) then 1 else 0
  }

  /** `q` is below `p`: first by restores still to come, then by tokens left, then by whether
      anybody runs, then by half-kept tables, then by tokens left to compute. */
  ghost predicate Below(q: seq<Request>, p: seq<Request>, bs: nat) {
    || Total(q, RestoreRank) < Total(p, RestoreRank)
    || (Total(q, RestoreRank) == Total(p, RestoreRank)
        && (|| Total(q, TokensLeft) < Total(p, TokensLeft)
            || (Total(q, TokensLeft) == Total(p, TokensLeft)
                && (|| RunningRank(q) < RunningRank(p)
                    || (RunningRank(q) == RunningRank(p)
                        && (|| Total(q, Half(bs)) < Total(p, Half(bs))
                            || (Total(q, Half(bs)) == Total(p, Half(bs))
                                 && Total(q, Uncached) < Total(p, Uncached))))))))
  }

  /** Scheduling never raises the first two ranks, and lowers the first when a restore moves. */
  lemma GentleTotals(p: seq<Request>, q: seq<Request>)
    requires AllGentle(p, q)
    ensures Total(q, RestoreRank) <= Total(p, RestoreRank) && Total(q, TokensLeft) == Total(p, TokensLeft)
    ensures RestoreStep(p, q) ==> Total(q, RestoreRank) < Total(p, RestoreRank)
  {
    forall k | 0 <= k < |p|
      ensures RestoreRank(q[k]) <= RestoreRank(p[k]) && TokensLeft(q[k]) == TokensLeft(p[k])
    {
      assert Gentle(p[k], q[k]);
    }
    TotalFalls(p, q, RestoreRank);
    TotalFalls(p, q, TokensLeft);
    TotalFalls(q, p, TokensLeft);
  }

  /** The requests of the batch, as scheduled. */
  ghost predicate Batched(q: seq<Request>, ids: seq<nat>, bs: nat) {
    && bs > 0 && Distinct(ids)
    && forall k {:trigger ids[k]} | 0 <= k < |ids| ::
         ids[k] < |q| && ScheduledOk(q[ids[k]], bs) && Unfinished(q[ids[k]])
  }

  /** Settling the batch raises neither rank, and lowers the second if anybody got a token. */
  lemma SettledTotals(q: seq<Request>, t: seq<Request>, ids: seq<nat>, endings: seq<Ending>, bs: nat)
    requires Batched(q, ids, bs) && SettledAll(q, t, ids, endings, |ids|)
    ensures Total(t, RestoreRank) <= Total(q, RestoreRank) && Total(t, TokensLeft) <= Total(q, TokensLeft)
    ensures ids != [] && q[ids[0]].status == Running ==> Total(t, TokensLeft) < Total(q, TokensLeft)
  {
    forall k | 0 <= k < |q|
      ensures RestoreRank(t[k]) <= RestoreRank(q[k]) && TokensLeft(t[k]) <= TokensLeft(q[k])
      ensures k in ids && q[k].status == Running ==> TokensLeft(t[k]) < TokensLeft(q[k])
    {
      assert ids[..|ids|] == ids;
      if k in ids {
        var j :| 0 <= j < |ids| && ids[j] == k;
        AfterRanks(q[k], endings[j].token, endings[j].last, bs);
      }
    }
    TotalFalls(q, t, RestoreRank);
    TotalFalls(q, t, TokensLeft);
    if ids != [] && q[ids[0]].status == Running {
      assert ids[0] in ids && TokensLeft(t[ids[0]]) < TokensLeft(q[ids[0]]);
    }
  }

  /** A step in which somebody gets a token. */
  lemma TokenStepBelow(p: seq<Request>, q: seq<Request>, t: seq<Request>, ids: seq<nat>, endings: seq<Ending>, bs: nat)
    requires AllGentle(p, q) && Batched(q, ids, bs) && SettledAll(q, t, ids, endings, |ids|) && ids != []
      && q[ids[0]].status == Running
    ensures Below(t, p, bs)
  {
    GentleTotals(p, q);
    SettledTotals(q, t, ids, endings, bs);
  }

  /** A step that only schedules a part of one prompt. */
  lemma PartStepBelow(p: seq<Request>, q: seq<Request>, t: seq<Request>, i: nat, endings: seq<Ending>, bs: nat)
    requires Batched(q, [i], bs) && SettledAll(q, t, [i], endings, 1) && Forward(p, q, i, bs)
    ensures Below(t, p, bs)
  {
    GentleTotals(p, q);
    SettledTotals(q, t, [i], endings, bs);
    OnePart(q, t, i, endings, bs);
    if RestoreStep(p, q) {
    } else if PartialProgress(p, q, i, bs) {
      PartRanks(p, q, t, i, bs);
    } else {
      assert !AnyRunning(t);
    }
  }

  lemma OnePart(q: seq<Request>, t: seq<Request>, i: nat, endings: seq<Ending>, bs: nat)
    requires i < |q| && Batched(q, [i], bs) && SettledAll(q, t, [i], endings, 1) && q[i].status == Waiting
    ensures i < |q| == |t| && t == q[i := Advanced(q[i], q[i].scheduled)]
    ensures Uncached(t[i]) < Uncached(q[i]) && PartialRank(t[i], bs) == PartialRank(q[i], bs) == 0
    ensures AnyRunning(t) <==> AnyRunning(q)
  {
    assert [i][0] == i;
    AfterRanks(q[i], endings[0].token, endings[0].last, bs);
    assert [i][..1] == [i];
    assert forall k: nat | k < |q| && k != i :: t[k] == q[k];
    assert AnyRunning(t) ==> AnyRunning(q) by {
      if AnyRunning(t) {
        var k :| 0 <= k < |t| && t[k].status == Running;
        assert q[k].status == Running;
      }
    }
    assert AnyRunning(q) ==> AnyRunning(t) by {
      if AnyRunning(q) {
        var k :| 0 <= k < |q| && q[k].status == Running;
        assert t[k].status == Running;
      }
    }
  }

  lemma PartRanks(p: seq<Request>, q: seq<Request>, t: seq<Request>, i: nat, bs: nat)
    requires bs > 0 && PartialProgress(p, q, i, bs) && |t| == |q| && t == q[i := t[i]]
    requires Uncached(t[i]) < Uncached(q[i]) && PartialRank(t[i], bs) == PartialRank(q[i], bs) == 0
    requires AnyRunning(t) <==> AnyRunning(q)
    ensures RunningRank(t) == RunningRank(p)
    ensures Total(t, Half(bs)) < Total(p, Half(bs))
      || (Total(t, Half(bs)) <= Total(p, Half(bs)) && Total(t, Uncached) < Total(p, Uncached))
  {
    SameRunning(p, q);
    assert forall k | 0 <= k < |p| :: Half(bs)(t[k]) <= Half(bs)(p[k]);
    TotalFalls(p, t, Half(bs));
    if PartialRank(q[i], bs) < PartialRank(p[i], bs) {
      assert Half(bs)(t[i]) < Half(bs)(p[i]);
    } else {
      assert Gentle(p[i], q[i]);
      TotalFalls(p, t, Uncached);
    }
  }

  lemma SameRunning(p: seq<Request>, q: seq<Request>)
    requires |p| == |q| && forall k | 0 <= k < |p| :: q[k].status == p[k].status
    ensures AnyRunning(p) <==> AnyRunning(q)
  {
    if AnyRunning(p) {
      var k :| 0 <= k < |p| && p[k].status == Running;
      assert q[k].status == Running;
    }
    if AnyRunning(q) {
      var k :| 0 <= k < |q| && q[k].status == Running;
      assert p[k].status == Running;
    }
  }

  /** Restores that ended before the step only lower the measure further. */
  lemma BelowAfterRestores(p: seq<Request>, q: seq<Request>, t: seq<Request>, bs: nat)
    requires Untouched(p, q) && Below(t, q, bs)
    ensures Below(t, p, bs)
  {
    if q != p {
      GentleTotals(p, q);
    }
  }
}
