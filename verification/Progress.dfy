/** What a scheduling step brings closer to the end: the ranks that every step lowers, in
    lexicographic order, and how the phases of a step act on them. */
module Progress {
  import opened Pool

  // ---------- the ranks ----------

  /** A remote restore is tried once, and ends. */
  function RestoreRank(r: Request): nat {
    if !r.attempted then 2 else if r.status == WaitingForKv then 1 else 0
  }

  function TokensLeft(r: Request): nat {
    if r.Live() && |r.tokens| < r.promptTokens + r.maxTokens then r.promptTokens + r.maxTokens - |r.tokens| else 0
  }

  /** A waiting request that kept a prefix but not its whole table. */
  function PartialRank(r: Request, bs: nat): nat
    requires bs > 0
  {
    if r.status == Waiting && r.blockTable != [] && |r.blockTable| < r.NumBlocks(bs) then 1 else 0
  }

  function Uncached(r: Request): nat {
    if r.status == Waiting && r.cached < |r.tokens| then |r.tokens| - r.cached else 0
  }

  ghost predicate AnyRunning(reqs: seq<Request>) {
    exists k :: 0 <= k < |reqs| && reqs[k].status == Running
  }

  ghost function Total(reqs: seq<Request>, rank: Request -> nat): nat {
    if reqs == [] then 0 else Total(reqs[..|reqs|-1], rank) + rank(reqs[|reqs|-1])
  }

  /** A rank that falls for no request less than it rises falls in total. */
  lemma {:induction false} TotalFalls(p: seq<Request>, q: seq<Request>, rank: Request -> nat)
    requires |p| == |q| && forall k | 0 <= k < |p| :: rank(q[k]) <= rank(p[k])
    ensures Total(q, rank) <= Total(p, rank)
    ensures (exists k :: 0 <= k < |p| && rank(q[k]) < rank(p[k])) ==> Total(q, rank) < Total(p, rank)
  {
    if p != [] {
      var n := |p| - 1;
      TotalFalls(p[..n], q[..n], rank);
      if rank(q[n]) == rank(p[n]) && exists k :: 0 <= k < |p| && rank(q[k]) < rank(p[k]) {
        var k :| 0 <= k < |p| && rank(q[k]) < rank(p[k]);
        assert p[..n][k] == p[k] && q[..n][k] == q[k];
      }
    }
  }

  // ---------- what the phases of a step do to the requests ----------

  /** No step of the scheduler itself produces tokens, ends a request or revives a restore. */
  ghost predicate Gentle(r: Request, s: Request) {
    && s.tokens == r.tokens && s.promptTokens == r.promptTokens && s.maxTokens == r.maxTokens
    && (s.Live() <==> r.Live()) && RestoreRank(s) <= RestoreRank(r)
  }

  ghost predicate AllGentle(p: seq<Request>, q: seq<Request>) {
    |p| == |q| && forall k {:trigger Gentle(p[k], q[k])} | 0 <= k < |p| :: Gentle(p[k], q[k])
  }

  /** Some restore was begun or ended. */
  ghost predicate RestoreStep(p: seq<Request>, q: seq<Request>) {
    AllGentle(p, q) && exists k {:trigger Gentle(p[k], q[k])} :: 0 <= k < |p| && RestoreRank(q[k]) < RestoreRank(p[k])
  }

  ghost predicate Untouched(p: seq<Request>, q: seq<Request>) {
    q == p || RestoreStep(p, q)
  }

  /** Request `i` was scheduled for a part of its prompt: either it stopped being a waiting request
      with half a table, or nothing happened to the others and it kept what it had computed. */
  ghost predicate PartialProgress(p: seq<Request>, q: seq<Request>, i: nat, bs: nat)
    requires bs > 0
  {
    && AllGentle(p, q) && i < |p| && (forall k | 0 <= k < |p| :: q[k].status == p[k].status)
    && (forall k | 0 <= k < |p| :: PartialRank(q[k], bs) <= PartialRank(p[k], bs))
    && 0 < q[i].scheduled && q[i].status == Waiting
    && (PartialRank(q[i], bs) < PartialRank(p[i], bs)
        || ((forall k | 0 <= k < |p| && k != i :: q[k] == p[k]) && p[i].cached <= q[i].cached))
  }

  lemma GentleRefl(p: seq<Request>)
    ensures AllGentle(p, p)
  {
  }

  lemma GentleTrans(p: seq<Request>, m: seq<Request>, q: seq<Request>)
    requires AllGentle(p, m) && AllGentle(m, q)
    ensures AllGentle(p, q)
    ensures RestoreStep(p, m) || RestoreStep(m, q) ==> RestoreStep(p, q)
  {
    forall k | 0 <= k < |p|
      ensures Gentle(p[k], q[k])
    {
      assert Gentle(p[k], m[k]) && Gentle(m[k], q[k]);
    }
    if RestoreStep(p, m) {
      var k :| 0 <= k < |p| && RestoreRank(m[k]) < RestoreRank(p[k]);
      assert Gentle(p[k], q[k]) && Gentle(m[k], q[k]);
    } else if RestoreStep(m, q) {
      var k :| 0 <= k < |m| && RestoreRank(q[k]) < RestoreRank(m[k]);
      assert Gentle(p[k], q[k]) && Gentle(p[k], m[k]);
    }
  }

  lemma RestoreTrans(p: seq<Request>, m: seq<Request>, q: seq<Request>)
    requires (m == p || RestoreStep(p, m)) && RestoreStep(m, q)
    ensures RestoreStep(p, q) && AllGentle(p, q)
  {
    if m != p {
      GentleTrans(p, m, q);
    }
  }

  /** Only request `i` changed, gently. */
  lemma OneGentle(p: seq<Request>, q: seq<Request>, i: nat)
    requires i < |p| == |q| && q == p[i := q[i]] && Gentle(p[i], q[i])
    ensures AllGentle(p, q)
    ensures RestoreRank(q[i]) < RestoreRank(p[i]) ==> RestoreStep(p, q)
  {
    forall k | 0 <= k < |p|
      ensures Gentle(p[k], q[k])
    {
    }
  }

  // ---------- on the way to scheduling request `i` ----------

  /** Between `p` and `q` the scheduler worked for request `i`: it either finished off a restore
      attempt, or took pages only because request `i` had half a table, or left the others alone. */
  ghost predicate Ahead(p: seq<Request>, q: seq<Request>, i: nat, bs: nat)
    requires bs > 0
  {
    && AllGentle(p, q) && i < |p|
    && (RestoreStep(p, q)
        || (&& (forall k | 0 <= k < |p| :: q[k].status == p[k].status)
            && (forall k | 0 <= k < |p| && k != i :: PartialRank(q[k], bs) <= PartialRank(p[k], bs))
            && (PartialRank(p[i], bs) == 1
                || ((forall k | 0 <= k < |p| && k != i :: q[k] == p[k]) && p[i].cached <= q[i].cached))))
  }

  lemma AheadRefl(p: seq<Request>, i: nat, bs: nat)
    requires bs > 0 && i < |p|
    ensures Ahead(p, p, i, bs)
  {
    GentleRefl(p);
  }

  /** More work on request `i` itself. */
  lemma AheadMore(p: seq<Request>, q: seq<Request>, t: seq<Request>, i: nat, bs: nat)
    requires bs > 0 && Ahead(p, q, i, bs) && |t| == |q| && t == q[i := t[i]]
    requires Gentle(q[i], t[i]) && t[i].status == q[i].status && q[i].cached <= t[i].cached
    ensures Ahead(p, t, i, bs)
  {
    OneGentle(q, t, i);
    GentleTrans(p, q, t);
  }

  lemma AheadRestore(p: seq<Request>, q: seq<Request>, t: seq<Request>, i: nat, bs: nat)
    requires bs > 0 && Ahead(p, q, i, bs) && Untouched(q, t)
    ensures Ahead(p, t, i, bs)
  {
    if t != q {
      GentleTrans(p, q, t);
    }
  }

  lemma AheadTrans(p: seq<Request>, q: seq<Request>, t: seq<Request>, i: nat, bs: nat)
    requires bs > 0 && Ahead(p, q, i, bs)
    ensures RestoreStep(q, t) ==> RestoreStep(p, t) && Untouched(p, t)
    ensures q == p && Untouched(q, t) ==> Untouched(p, t)
  {
    if RestoreStep(q, t) {
      GentleTrans(p, q, t);
    }
  }

  lemma AheadDone(p: seq<Request>, q: seq<Request>, i: nat, bs: nat)
    requires bs > 0 && Ahead(p, q, i, bs) && q[i].status == Waiting && 0 < q[i].scheduled
      && |q[i].blockTable| == q[i].NumBlocks(bs)
    ensures Partway(p, q, i, bs)
  {
  }

  ghost predicate Partway(p: seq<Request>, q: seq<Request>, i: nat, bs: nat)
    requires bs > 0
  {
    RestoreStep(p, q) || PartialProgress(p, q, i, bs)
  }

  lemma AheadGentle(p: seq<Request>, q: seq<Request>, i: nat, bs: nat)
    requires bs > 0 && Ahead(p, q, i, bs)
    ensures AllGentle(p, q)
  {
  }

  /** A step that could only schedule part of one prompt moved things forward: either that request
      did, or the requests that were running gave way to it. */
  ghost predicate Forward(p: seq<Request>, q: seq<Request>, i: nat, bs: nat)
    requires bs > 0
  {
    AllGentle(p, q) && i < |q| && 0 < q[i].scheduled && q[i].status == Waiting
      && (Partway(p, q, i, bs) || (AnyRunning(p) && !AnyRunning(q)))
  }

  ghost predicate AnyLive(reqs: seq<Request>) {
    exists k :: 0 <= k < |reqs| && reqs[k].Live()
  }

  lemma NobodyAppears(p: seq<Request>, q: seq<Request>)
    requires AllGentle(p, q)
    ensures AnyLive(q) <==> AnyLive(p)
  {
    forall k | 0 <= k < |p|
      ensures q[k].Live() <==> p[k].Live()
    {
      assert Gentle(p[k], q[k]);
    }
  }
}
