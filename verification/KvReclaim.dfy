/** How much of its KV a preempted request may keep. */
module KvReclaim {
  import opened Pages
  import opened Pool

  datatype Decision = Decision(urgency: real, ownedBlocks: nat, cachedBlocks: nat, keepBlocks: nat, reclaimBlocks: nat,
    invalidatedTokens: nat)

  datatype ReclaimPolicy =
    | Recompute
    | SloAware(minKeepRatio: real, maxKeepRatio: real, budgetScaleMs: real)
  {
    /** The configuration the policy accepts. */
    predicate Valid() {
      SloAware? ==> 0.0 <= minKeepRatio <= maxKeepRatio <= 1.0 && 0.0 < budgetScaleMs
    }

    function Decide(r: Request, bs: nat, urgency: real, keep: int): Decision
      requires bs > 0
    {
      var owned, cachedBlocks := |r.blockTable|, Full(r.cached, bs);
      var bounded := if keep < cachedBlocks then keep else cachedBlocks;
      var kept := if bounded < 0 then 0 else if bounded < owned then bounded else owned;
      StartIs(kept, bs);
      var retained := kept * bs;
      Decision(urgency, owned, cachedBlocks, kept, owned - kept, if retained < r.cached then r.cached - retained else 0)
    }

    // No budget at all means the request is best effort: not urgent.
    function Urgency(budget: Budget): (u: real)
      requires Valid() && SloAware?
      ensures 0.0 <= u <= 1.0
    {
      if budget.Unlimited? then 0.0
      else if budget.ms <= 0.0 then 1.0
      else 1.0 / (1.0 + budget.ms / budgetScaleMs)
    }

    function DesiredKeep(r: Request, bs: nat, budget: Budget): int
      requires Valid() && SloAware? && bs > 0
    {
      Share(Full(r.cached, bs) as real, minKeepRatio, maxKeepRatio - minKeepRatio, Urgency(budget)).Floor
    }

    function Plan(r: Request, bs: nat, budget: Budget, minReclaim: nat): Decision
      requires Valid() && bs > 0
    {
      match this
      case Recompute => Decide(r, bs, 0.0, 0)
      case SloAware(_, _, _) =>
        var maxKeep := if minReclaim <= |r.blockTable| then |r.blockTable| - minReclaim else 0;
        var desired := DesiredKeep(r, bs, budget);
        Decide(r, bs, Urgency(budget), if desired < maxKeep then desired else maxKeep)
    }

    /** Whatever the policy: only pages whose KV is complete are kept, at least the requested
        number is reclaimed as far as there are that many, and the invalidated tokens are exactly
        those computed beyond the kept pages. */
    lemma PlanIsSafe(r: Request, bs: nat, budget: Budget, minReclaim: nat)
      requires Valid() && bs > 0
      ensures var d := Plan(r, bs, budget, minReclaim);
        && d.keepBlocks <= |r.blockTable| && Start(d.keepBlocks, bs) <= r.cached
        && d.keepBlocks + d.reclaimBlocks == |r.blockTable|
        && (minReclaim <= d.reclaimBlocks || d.keepBlocks == 0)
        && d.invalidatedTokens + Start(d.keepBlocks, bs) == r.cached
    {
      var d := Plan(r, bs, budget, minReclaim);
      PageOf(r.cached, bs);
      StartMonotone(d.keepBlocks, Full(r.cached, bs), bs);
      StartIs(d.keepBlocks, bs);
    }

    /** A request with less time left keeps no fewer pages. */
    lemma UrgentKeepsMore(r: Request, bs: nat, sooner: real, later: real, minReclaim: nat)
      requires Valid() && SloAware? && bs > 0 && sooner <= later
      ensures Plan(r, bs, Budget.Ms(later), minReclaim).keepBlocks
        <= Plan(r, bs, Budget.Ms(sooner), minReclaim).keepBlocks
      ensures Plan(r, bs, Budget.Unlimited, minReclaim).keepBlocks
        <= Plan(r, bs, Budget.Ms(later), minReclaim).keepBlocks
    {
      MoreUrgent(Budget.Ms(later), Budget.Ms(sooner));
      MoreUrgent(Budget.Unlimited, Budget.Ms(later));
      hide Urgency;
      KeepsMore(r, bs, Budget.Ms(later), Budget.Ms(sooner), minReclaim);
      KeepsMore(r, bs, Budget.Unlimited, Budget.Ms(later), minReclaim);
    }

    lemma MoreUrgent(less: Budget, more: Budget)
      requires Valid() && SloAware? && more.Ms? && (less.Ms? ==> more.ms <= less.ms)
      ensures Urgency(less) <= Urgency(more)
    {
      if less.Ms? && 0.0 < more.ms {
        QuotientsOrdered(more.ms, less.ms, budgetScaleMs);
      }
    }

    lemma KeepsMore(r: Request, bs: nat, less: Budget, more: Budget, minReclaim: nat)
      requires Valid() && SloAware? && bs > 0 && Urgency(less) <= Urgency(more)
      ensures Plan(r, bs, less, minReclaim).keepBlocks <= Plan(r, bs, more, minReclaim).keepBlocks
    {
      hide DesiredKeep, Urgency, Full;
      DesiresMore(r, bs, less, more);
    }

    lemma DesiresMore(r: Request, bs: nat, less: Budget, more: Budget)
      requires Valid() && SloAware? && bs > 0 && Urgency(less) <= Urgency(more)
      ensures DesiredKeep(r, bs, less) <= DesiredKeep(r, bs, more)
    {
      hide Urgency, Full, Share;
      ScaledOrdered(Full(r.cached, bs) as real, minKeepRatio, maxKeepRatio - minKeepRatio, Urgency(less),
        Urgency(more));
    }
  }

  datatype Budget = Unlimited | Ms(ms: real)

  lemma QuotientsOrdered(a: real, b: real, scale: real)
    requires 0.0 < a <= b && 0.0 < scale
    ensures 1.0 / (1.0 + b / scale) <= 1.0 / (1.0 + a / scale)
  {
    var x, y := 1.0 + a / scale, 1.0 + b / scale;
    assert a / scale <= b / scale;
    assert 0.0 < a / scale;
    ReciprocalsOrdered(x, y);
  }

  lemma ReciprocalsOrdered(x: real, y: real)
    requires 0.0 < x <= y
    ensures 1.0 / y <= 1.0 / x
  {
  }

  // `n` times the ratio that lies `u` of the way through a range of `width` from `low`.
  function Share(n: real, low: real, width: real, u: real): real {
    n * (low + width * u)
  }

  lemma ScaledOrdered(n: real, low: real, width: real, u: real, v: real)
    requires 0.0 <= n && 0.0 <= width && u <= v
    ensures Share(n, low, width, u) <= Share(n, low, width, v)
  {
    assert width * u <= width * v;
    ProductOrdered(n, low + width * u, low + width * v);
  }

  lemma ProductOrdered(n: real, x: real, y: real)
    requires 0.0 <= n && x <= y
    ensures n * x <= n * y
  {
  }
}
