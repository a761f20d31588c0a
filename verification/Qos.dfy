/** The scheduling policies: first come first served, and priority-aware latency budgets (PALS), which
    serve the request with the smallest latency budget first. Times are in milliseconds. */
module Qos {
  import opened Wrappers

  datatype Request = Request(
    seqId: nat,
    arrivalTime: real,
    arrivalStep: nat,
    priority: nat,
    ttftSlo: Option<real>,
    tpotSlo: Option<real>,
    e2eSlo: Option<real>,
    firstTokenTime: Option<real>,
    numTokens: nat,
    cachedTokens: nat,
    completionTokens: nat,
    maxTokens: nat,
    isPrefill: bool)

  function Max(a: real, b: real): real {
    if a >= b then a else b
  }

  function Min(a: real, b: real): real {
    if a <= b then a else b
  }

  function AtLeastZero(n: int): nat {
    if n > 0 then n else 0
  }

  datatype Policy = Policy(prefillMs: real, decodeMs: real, bestEffortSlo: real, priorityBoost: real, aging: real)
  {
    function RemainingPrefill(r: Request): real {
      AtLeastZero(r.numTokens - r.cachedTokens) as real * prefillMs
    }

    function RemainingToFinish(r: Request): real {
      var left := AtLeastZero(r.maxTokens - r.completionTokens);
      if r.isPrefill then RemainingPrefill(r) + AtLeastZero(left - 1) as real * decodeMs else left as real * decodeMs
    }

    /** The first or next token's target, if the request has one. */
    function TokenBudget(r: Request, elapsed: real): Option<real> {
      if r.firstTokenTime.None? then
        if r.ttftSlo.Some? then Some(r.ttftSlo.value - elapsed - RemainingPrefill(r)) else None
      else if r.tpotSlo.Some? then
        var target := (r.firstTokenTime.value - r.arrivalTime) * 1000.0 + r.completionTokens as real * r.tpotSlo.value;
        Some(target - elapsed - if r.isPrefill then RemainingPrefill(r) else decodeMs)
      else None
    }

    function RawBudget(r: Request, elapsed: real): real {
      var token := TokenBudget(r, elapsed);
      if r.e2eSlo.Some? then
        var whole := r.e2eSlo.value - elapsed - RemainingToFinish(r);
        if token.Some? then Min(token.value, whole) else whole
      else if token.Some? then token.value
      else bestEffortSlo - elapsed - RemainingToFinish(r)
    }

    function Budget(r: Request, step: nat, now: real): real {
      var elapsed := Max(0.0, (now - r.arrivalTime) * 1000.0);
      RawBudget(r, elapsed) - r.priority as real * priorityBoost - AtLeastZero(step - r.arrivalStep) as real * aging
    }

    /** The key that `min` and `max` compare: budget, then arrival, then request number. */
    predicate Before(r: Request, s: Request, step: nat, now: real) {
      var (b, c) := (Budget(r, step, now), Budget(s, step, now));
      b < c || (b == c && (r.arrivalStep < s.arrivalStep || (r.arrivalStep == s.arrivalStep && r.seqId < s.seqId)))
    }

    /** What a request's budget was when it arrived. */
    function ArrivalBudget(r: Request): real {
      RawBudget(r, 0.0) - r.priority as real * priorityBoost
    }
  }

  predicate Arrived(r: Request, step: nat, now: real) {
    r.arrivalStep <= step && r.arrivalTime <= now
  }

  /** While a request's state and the estimates stay as they are, its budget only runs down, at the
      same pace as every other request's. */
  lemma BudgetsRunDownTogether(p: Policy, r: Request, step: nat, now: real)
    requires Arrived(r, step, now)
    ensures p.Budget(r, step, now) ==
      p.ArrivalBudget(r) - (now - r.arrivalTime) * 1000.0 - (step - r.arrivalStep) as real * p.aging
  {
    var elapsed := (now - r.arrivalTime) * 1000.0;
    assert Max(0.0, elapsed) == elapsed;
    assert p.RawBudget(r, elapsed) == p.RawBudget(r, 0.0) - elapsed;
  }

  /** What orders the requests: arrival budgets, put off by the time and the step of arrival. */
  function Deadline(p: Policy, r: Request): real {
    p.ArrivalBudget(r) + r.arrivalTime * 1000.0 + r.arrivalStep as real * p.aging
  }

  lemma BudgetFromDeadline(p: Policy, r: Request, step: nat, now: real)
    requires Arrived(r, step, now)
    ensures p.Budget(r, step, now) == Deadline(p, r) - now * 1000.0 - step as real * p.aging
  {
    BudgetsRunDownTogether(p, r, step, now);
    hide Policy.Budget, Policy.ArrivalBudget;
    assert (step - r.arrivalStep) as real == step as real - r.arrivalStep as real;
  }

  /** The order of two requests never changes by waiting. */
  lemma OrderNeverChanges(p: Policy, r: Request, s: Request, step: nat, now: real, later: nat, at: real)
    requires Arrived(r, step, now) && Arrived(s, step, now) && step <= later && now <= at
    ensures p.Before(r, s, step, now) <==> p.Before(r, s, later, at)
  {
    hide Policy.Budget, Deadline;
    BudgetFromDeadline(p, r, step, now);
    BudgetFromDeadline(p, s, step, now);
    BudgetFromDeadline(p, r, later, at);
    BudgetFromDeadline(p, s, later, at);
  }

  /** Exactly when the later request `s` goes before `r`: its arrival budget is smaller by more than
      the time and aging that `r` has on it, or by just as much and the tie is broken for it. */
  lemma OvertakesExactly(p: Policy, r: Request, s: Request, step: nat, now: real)
    requires Arrived(r, step, now) && Arrived(s, step, now) && r.arrivalStep <= s.arrivalStep
    ensures var lead := (s.arrivalTime - r.arrivalTime) * 1000.0 + (s.arrivalStep - r.arrivalStep) as real * p.aging;
      var gap := p.ArrivalBudget(r) - p.ArrivalBudget(s);
      && (p.Before(s, r, step, now) <==>
           lead < gap || (lead == gap && r.arrivalStep == s.arrivalStep && s.seqId < r.seqId))
      && (lead > gap ==> p.Before(r, s, step, now))
  {
    hide Policy.Budget, Policy.ArrivalBudget;
    BudgetFromDeadline(p, r, step, now);
    BudgetFromDeadline(p, s, step, now);
    assert (s.arrivalStep - r.arrivalStep) as real == s.arrivalStep as real - r.arrivalStep as real;
  }

  /** Bounded overtaking: with aging, no request that arrives more than the spread of arrival budgets
      divided by the aging rate steps later ever goes first. */
  lemma OvertakingIsBounded(p: Policy, r: Request, s: Request, spread: real, step: nat, now: real)
    requires p.aging > 0.0 && Arrived(r, step, now) && Arrived(s, step, now)
    requires p.ArrivalBudget(r) - p.ArrivalBudget(s) <= spread
    requires r.arrivalTime <= s.arrivalTime && r.arrivalStep <= s.arrivalStep
    requires (s.arrivalStep - r.arrivalStep) as real > spread / p.aging
    ensures p.Before(r, s, step, now) && !p.Before(s, r, step, now)
  {
    Outweighs((s.arrivalStep - r.arrivalStep) as real, spread, p.aging);
    OvertakesExactly(p, r, s, step, now);
  }

  lemma Outweighs(d: real, spread: real, aging: real)
    requires aging > 0.0 && d > spread / aging
    ensures d * aging > spread
  {
    var q := spread / aging;
    assert q * aging == spread;
    assert (d - q) * aging > 0.0;
  }

  // ---------- selection ----------

  lemma BeforeIsStrictOrder(p: Policy, r: Request, s: Request, t: Request, step: nat, now: real)
    ensures !p.Before(r, r, step, now)
    ensures p.Before(r, s, step, now) && p.Before(s, t, step, now) ==> p.Before(r, t, step, now)
    ensures r.seqId != s.seqId ==> p.Before(r, s, step, now) || p.Before(s, r, step, now)
  {
  }

  ghost predicate IsFirst(p: Policy, queue: seq<Request>, i: nat, step: nat, now: real) {
    i < |queue| && forall j | 0 <= j < |queue| :: !p.Before(queue[j], queue[i], step, now)
  }

  ghost predicate IsLast(p: Policy, queue: seq<Request>, i: nat, step: nat, now: real) {
    i < |queue| && forall j | 0 <= j < |queue| :: !p.Before(queue[i], queue[j], step, now)
  }

  /** `select_waiting` and `select_running`. */
  method Select(p: Policy, queue: seq<Request>, step: nat, now: real) returns (i: nat)
    requires queue != []
    ensures IsFirst(p, queue, i, step, now)
  {
    i := 0;
    BeforeIsStrictOrder(p, queue[0], queue[0], queue[0], step, now);
    hide Policy.Before;
    var n := 1;
    while n < |queue|
      invariant i < n <= |queue|
      invariant forall j | 0 <= j < n :: !p.Before(queue[j], queue[i], step, now)
    {
      if p.Before(queue[n], queue[i], step, now) {
        forall j | 0 <= j < n + 1
          ensures !p.Before(queue[j], queue[n], step, now)
        {
          BeforeIsStrictOrder(p, queue[j], queue[n], queue[i], step, now);
        }
        i := n;
      }
      n := n + 1;
    }
  }

  method SelectPreemptionVictim(p: Policy, running: seq<Request>, step: nat, now: real) returns (victim: Option<nat>)
    ensures victim.None? <==> running == []
    ensures victim.Some? ==> IsLast(p, running, victim.value, step, now)
  {
    if running == [] {
      return None;
    }
    var i := 0;
    BeforeIsStrictOrder(p, running[0], running[0], running[0], step, now);
    hide Policy.Before;
    var n := 1;
    while n < |running|
      invariant i < n <= |running|
      invariant forall j | 0 <= j < n :: !p.Before(running[i], running[j], step, now)
    {
      if p.Before(running[i], running[n], step, now) {
        forall j | 0 <= j < n + 1
          ensures !p.Before(running[n], running[j], step, now)
        {
          BeforeIsStrictOrder(p, running[i], running[n], running[j], step, now);
        }
        i := n;
      }
      n := n + 1;
    }
    return Some(i);
  }

  /** Prefill goes first if nothing runs, or if the most urgent waiting request is at least as urgent
      as the most urgent running one; never if nothing waits. */
  method ShouldSchedulePrefill(p: Policy, waiting: seq<Request>, running: seq<Request>, step: nat, now: real)
      returns (prefill: bool)
    ensures waiting == [] ==> !prefill
    ensures waiting != [] && running == [] ==> prefill
    ensures waiting != [] && running != [] ==>
      (prefill <==> exists i | 0 <= i < |waiting| :: forall j | 0 <= j < |running| ::
        p.Budget(waiting[i], step, now) <= p.Budget(running[j], step, now))
  {
    if waiting == [] {
      return false;
    }
    if running == [] {
      return true;
    }
    var w := Select(p, waiting, step, now);
    var r := Select(p, running, step, now);
    FirstHasLeastBudget(p, waiting, w, step, now);
    FirstHasLeastBudget(p, running, r, step, now);
    return p.Budget(waiting[w], step, now) <= p.Budget(running[r], step, now);
  }

  lemma FirstHasLeastBudget(p: Policy, queue: seq<Request>, i: nat, step: nat, now: real)
    requires IsFirst(p, queue, i, step, now)
    ensures forall j | 0 <= j < |queue| :: p.Budget(queue[i], step, now) <= p.Budget(queue[j], step, now)
  {
    hide Policy.Budget;
  }

  /** The victim of a preemption is the request that would be served last: it is the one served first
      only if it runs alone. */
  lemma VictimIsNotFirst(p: Policy, running: seq<Request>, first: nat, victim: nat, step: nat, now: real)
    requires IsFirst(p, running, first, step, now) && IsLast(p, running, victim, step, now)
    requires forall i, j | 0 <= i < j < |running| :: running[i].seqId != running[j].seqId
    ensures first == victim <==> |running| == 1
  {
    if first == victim && |running| > 1 {
      var other := if first == 0 then 1 else 0;
      BeforeIsStrictOrder(p, running[first], running[other], running[other], step, now);
    }
  }

  /** A request that came early enough is never passed over for one that came too late: as long as it
      waits, the policy does not select the other. */
  lemma LateRequestIsNotSelected(p: Policy, waiting: seq<Request>, i: nat, j: nat, k: nat, spread: real, step: nat,
      now: real)
    requires i < |waiting| && j < |waiting| && p.aging > 0.0
    requires forall r | r in waiting :: Arrived(r, step, now)
    requires p.ArrivalBudget(waiting[i]) - p.ArrivalBudget(waiting[j]) <= spread
    requires waiting[i].arrivalTime <= waiting[j].arrivalTime && waiting[i].arrivalStep <= waiting[j].arrivalStep
    requires (waiting[j].arrivalStep - waiting[i].arrivalStep) as real > spread / p.aging
    requires IsFirst(p, waiting, k, step, now)
    ensures k != j
  {
    OvertakingIsBounded(p, waiting[i], waiting[j], spread, step, now);
  }
}
