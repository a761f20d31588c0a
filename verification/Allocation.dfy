/** Giving a request its pages: the cached ones it can attach first, then fresh ones. */
module Allocation {
  import opened PrefixView
  import opened RadixTree
  import opened Pages
  import opened Pool
  import opened PoolSteps

  /** The last page is never looked up: it stays writable. */
  function CacheablePages(r: Request, bs: nat): nat
    requires bs > 0
  {
    if r.NumBlocks(bs) > 0 then r.NumBlocks(bs) - 1 else 0
  }

  lemma CacheableFull(r: Request, bs: nat)
    requires bs > 0
    ensures Start(CacheablePages(r, bs), bs) <= |r.tokens|
    ensures r.tokens != [] ==> Start(CacheablePages(r, bs), bs) < |r.tokens|
  {
    PagesForBounds(|r.tokens|, bs);
    StartIs(0, bs);
  }

  /** The index keys of a request. */
  ghost function CacheKeys(r: Request, bs: nat): Path
    requires bs > 0
  {
    CacheableFull(r, bs);
    PathOfTokens(r.tokens, CacheablePages(r, bs), bs)
  }

  /** `ids` is what the index has for request `i`. */
  ghost predicate Cached(p: Pool, i: nat, ids: seq<BlockId>) {
    p.bs > 0 && i < |p.reqs| && IsMatch(p.view, CacheKeys(p.reqs[i], p.bs), ids)
  }

  /** Request `i` holds a computed prefix that is also the beginning of what the index has. */
  ghost predicate Resumable(p: Pool, i: nat, ids: seq<BlockId>) {
    && Cached(p, i, ids) && !p.reqs[i].compressed
    && p.reqs[i].cached == Start(|p.reqs[i].blockTable|, p.bs) && p.reqs[i].blockTable <= ids
  }

  lemma FromNothing(p: Pool, i: nat, ids: seq<BlockId>)
    requires Cached(p, i, ids) && !p.reqs[i].compressed && p.reqs[i].cached == 0 && p.reqs[i].blockTable == []
    ensures Resumable(p, i, ids)
  {
    StartIs(0, p.bs);
  }

  /** Request `i` attaches cached pages until it holds `ids[..n]`. */
  function AttachTo(p: Pool, i: nat, ids: seq<BlockId>, n: nat): (q: Pool)
    requires i < |p.reqs| && n <= |ids| && forall b | b in ids :: b < |p.refs|
    ensures |q.reqs| == |p.reqs| && |q.refs| == |p.refs|
  {
    if n <= |p.reqs[i].blockTable| then p else
      assert ids[n - 1] in ids;
      Attach(AttachTo(p, i, ids, n - 1), i, ids[n - 1])
  }

  lemma AttachToNothing(p: Pool, i: nat, ids: seq<BlockId>)
    requires i < |p.reqs| && |p.reqs[i].blockTable| <= |ids| && forall b | b in ids :: b < |p.refs|
    ensures AttachTo(p, i, ids, |p.reqs[i].blockTable|) == p
  {
  }

  lemma AttachToStep(p: Pool, i: nat, ids: seq<BlockId>, n: nat)
    requires i < |p.reqs| && |p.reqs[i].blockTable| <= n < |ids| && forall b | b in ids :: b < |p.refs|
    ensures ids[n] in ids && AttachTo(p, i, ids, n + 1) == Attach(AttachTo(p, i, ids, n), i, ids[n])
  {
  }

  /** How many of `ids` are referred to already. */
  function InUse(ids: seq<BlockId>, used: set<BlockId>): nat {
    if ids == [] then 0 else InUse(ids[..|ids|-1], used) + if ids[|ids|-1] in used then 1 else 0
  }

  lemma {:induction false} InUseBound(ids: seq<BlockId>, used: set<BlockId>)
    ensures InUse(ids, used) <= |ids|
  {
    if ids != [] {
      InUseBound(ids[..|ids|-1], used);
    }
  }

  lemma CachedIds(p: Pool, i: nat, ids: seq<BlockId>)
    requires p.Inv() && Cached(p, i, ids)
    ensures Distinct(ids) && |ids| <= CacheablePages(p.reqs[i], p.bs) && forall b | b in ids ::
      b < |p.refs| && b in p.view.Values
  {
    var keys := CacheKeys(p.reqs[i], p.bs);
    MatchedIdsDistinct(p.view, keys, ids);
    forall k | 0 <= k < |ids|
      ensures ids[k] < |p.refs| && ids[k] in p.view.Values
    {
      MatchAt(p.view, keys, ids, k);
      assert p.PathOk(keys[..k + 1]);
    }
  }

  /** A cached page beyond the table is the next one to attach. */
  lemma NextAttachable(p: Pool, i: nat, ids: seq<BlockId>)
    requires p.Inv() && Resumable(p, i, ids) && |p.reqs[i].blockTable| < |ids|
    ensures ids[|p.reqs[i].blockTable|] < |p.refs| && Attachable(p, i, ids[|p.reqs[i].blockTable|])
  {
    var r := p.reqs[i];
    var n := |r.blockTable|;
    CachedIds(p, i, ids);
    CacheableFull(r, p.bs);
    p.MatchedPagesHoldTheirKv(r.tokens, CacheablePages(r, p.bs), ids, n);
    assert forall k | 0 <= k < n :: r.blockTable[k] == ids[k];
  }

  /** What attaching up to `n` pages amounts to. */
  ghost predicate Attached(p: Pool, q: Pool, i: nat, ids: seq<BlockId>, n: nat) {
    && Resumable(q, i, ids) && i < |p.reqs|
    && q == p.(free := q.free, used := q.used, refs := q.refs, reqs := p.reqs[i := q.reqs[i]])
    && q.reqs[i] == p.reqs[i].(blockTable := ids[..|q.reqs[i].blockTable|], logical := q.reqs[i].logical,
                               cached := q.reqs[i].cached, physical := q.reqs[i].physical)
    && |q.reqs[i].blockTable| == n && |q.refs| == |p.refs|
  }

  ghost predicate Spent(p: Pool, q: Pool, ids: seq<BlockId>) {
    && |q.free| + |ids| == |p.free| + InUse(ids, p.used)
    && forall b | b !in ids :: (b in q.free <==> b in p.free) && (b in q.used <==> b in p.used)
  }

  lemma {:induction false} AttachToInv(p: Pool, i: nat, ids: seq<BlockId>, n: nat)
    requires p.Inv() && Resumable(p, i, ids) && |p.reqs[i].blockTable| <= n <= |ids|
    ensures forall b | b in ids :: b < |p.refs|
    ensures var q := AttachTo(p, i, ids, n);
      q.Inv() && Attached(p, q, i, ids, n) && Spent(p, q, ids[|p.reqs[i].blockTable|..n])
    decreases n
  {
    hide Pool.Inv, IsMatch, CacheKeys, Attach, Spent, Pool.PageHolds, Start;
    CachedIds(p, i, ids);
    FreeOk(p);
    var m := |p.reqs[i].blockTable|;
    if n == m {
      NothingSpent(p, ids[m..n]);
    } else {
      AttachToInv(p, i, ids, n - 1);
      var q := AttachTo(p, i, ids, n - 1);
      AttachNext(p, q, i, ids, n - 1);
      FreeOk(q);
      SpentNext(p, q, i, ids, m, n - 1);
    }
  }

  lemma Plain(p: Pool, i: nat)
    requires p.Inv() && i < |p.reqs| && !p.reqs[i].compressed
    ensures var r := p.reqs[i];
      r.Span() == |r.blockTable| == |r.logical| && r.physical == r.cached <= |r.tokens|
        && r.cached <= Start(|r.blockTable|, p.bs)
  {
    assert p.ReqOk(i);
    StartIs(0, p.bs);
  }

  lemma FreeOk(p: Pool)
    requires p.Inv()
    ensures p.OwnershipOk() && p.FreeListOk()
  {
  }

  lemma ContentOf(p: Pool)
    requires p.Inv()
    ensures p.ContentOk()
  {
  }

  lemma NothingSpent(p: Pool, none: seq<BlockId>)
    requires none == []
    ensures Spent(p, p, none)
  {
  }

  lemma AttachNext(p: Pool, q: Pool, i: nat, ids: seq<BlockId>, n: nat)
    requires q.Inv() && Attached(p, q, i, ids, n) && n < |ids|
    ensures ids[n] < |q.refs| && Attach(q, i, ids[n]).Inv() && Attached(p, Attach(q, i, ids[n]), i, ids, n + 1)
  {
    NextAttachable(q, i, ids);
    hide Pool.Inv, Attachable, Attached, Attach;
    AttachInv(q, i, ids[n]);
    AttachedNext(p, q, i, ids, n);
  }

  lemma AttachedNext(p: Pool, q: Pool, i: nat, ids: seq<BlockId>, n: nat)
    requires Attached(p, q, i, ids, n) && n < |ids| && ids[n] < |q.refs|
    ensures Attached(p, Attach(q, i, ids[n]), i, ids, n + 1)
  {
    hide IsMatch, Start, Remove;
    assert ids[..n] + [ids[n]] == ids[..n + 1];
    assert CacheKeys(Attach(q, i, ids[n]).reqs[i], q.bs) == CacheKeys(q.reqs[i], q.bs);
  }

  lemma NotBefore(ids: seq<BlockId>, m: nat, n: nat)
    requires Distinct(ids) && m <= n < |ids|
    ensures ids[n] !in ids[m..n]
  {
    forall k | 0 <= k < n - m
      ensures ids[m..n][k] != ids[n]
    {
      assert ids[m..n][k] == ids[m + k];
    }
  }

  lemma SpentNext(p: Pool, q: Pool, i: nat, ids: seq<BlockId>, m: nat, n: nat)
    requires m <= n < |ids| && i < |q.reqs| && ids[n] < |q.refs| && Distinct(ids) && q.FreeListOk() && p.FreeListOk()
    requires Spent(p, q, ids[m..n]) && |p.refs| == |q.refs|
    ensures Spent(p, Attach(q, i, ids[n]), ids[m..n + 1])
  {
    hide Start, Distinct, Remove, InUse;
    NotBefore(ids, m, n);
    assert ids[m..n + 1] == ids[m..n] + [ids[n]];
    RemoveElements(q.free, ids[n]);
    InUseNext(ids[m..n], ids[n], p.used);
    SharedNext(p, q, ids[m..n], ids[n]);
  }

  lemma InUseNext(ids: seq<BlockId>, b: BlockId, used: set<BlockId>)
    ensures InUse(ids + [b], used) == InUse(ids, used) + if b in used then 1 else 0
  {
    assert (ids + [b])[..|ids|] == ids;
  }

  /** Sharing `b` concerns nobody but `b`. */
  lemma SharedNext(p: Pool, q: Pool, ids: seq<BlockId>, b: BlockId)
    requires b < |q.refs| && b !in ids && q.FreeListOk() && p.FreeListOk() && Spent(p, q, ids) && |p.refs| == |q.refs|
    ensures b in q.used <==> b in p.used
    ensures forall c | c !in ids + [b] ::
      (c in Share(q, b).free <==> c in p.free) && (c in Share(q, b).used <==> c in p.used)
  {
    hide Distinct, Remove;
    RemoveElements(q.free, b);
  }

  // ---------- fresh pages ----------

  /** What is in use stays indexed as it was. */
  ghost predicate KeepsMatches(p: Pool, q: Pool) {
    forall keys, ids {:trigger IsMatch(p.view, keys, ids)} |
      IsMatch(p.view, keys, ids) && (forall b | b in ids :: b !in p.free) :: IsMatch(q.view, keys, ids)
  }

  /** Request `i` went on taking free pages until its table had `n`. */
  ghost predicate Grown(p: Pool, q: Pool, i: nat, n: nat) {
    && q.bs == p.bs && q.kv == p.kv && |q.refs| == |p.refs|
    && i < |p.reqs| == |q.reqs| && q.reqs == p.reqs[i := q.reqs[i]]
    && q.reqs[i] == p.reqs[i].(blockTable := q.reqs[i].blockTable, logical := q.reqs[i].logical)
    && p.reqs[i].blockTable <= q.reqs[i].blockTable && |q.reqs[i].blockTable| == n
    && |q.free| + n == |p.free| + |p.reqs[i].blockTable|
    && (forall b | b in q.free :: b in p.free)
    && KeepsMatches(p, q)
  }

  lemma GrowKeepsMatch(p: Pool, i: nat, b: BlockId, keys: Path, ids: seq<BlockId>)
    requires p.ContentOk() && i < |p.reqs| && b < |p.refs| && b !in ids
    requires IsMatch(p.view, keys, ids)
    ensures IsMatch(Grow(p, i, b).view, keys, ids)
  {
    hide IsMatch;
    if b in p.view.Values {
      var q := PathOf(p.view, b);
      assert p.PathOk(q);
      if q <= keys && |q| <= |ids| {
        assert keys[..|q|] == q;
        MatchAt(p.view, keys, ids, |q| - 1);
        assert false;
      }
      MatchAfterRemove(p.view, q, keys, ids);
    }
  }

  lemma GrownNext(p: Pool, q: Pool, i: nat, n: nat, b: BlockId)
    requires Grown(p, q, i, n) && q.Inv() && b in q.free && b < |q.refs| && |p.reqs[i].blockTable| <= n
    ensures Grown(p, Grow(q, i, b), i, n + 1)
  {
    var t := Grow(q, i, b);
    FreeOk(q);
    RemoveElements(q.free, b);
    hide Pool.OwnershipOk, Pool.IsolationOk, IsMatch, Remove, Pool.FreeListOk;
    forall keys, ids | IsMatch(p.view, keys, ids) && (forall c | c in ids :: c !in p.free)
      ensures IsMatch(t.view, keys, ids)
    {
      GrowKeepsMatch(q, i, b, keys, ids);
    }
  }

  lemma GrownNothing(p: Pool, i: nat)
    requires i < |p.reqs|
    ensures Grown(p, p, i, |p.reqs[i].blockTable|)
  {
  }

  // ---------- a complete table ----------

  /** The free pages cover what request `i` still needs beyond the pages of `ids`. */
  ghost predicate Affordable(p: Pool, i: nat, ids: seq<BlockId>) {
    && p.bs > 0 && i < |p.reqs| && |p.reqs[i].blockTable| <= |ids|
    && p.reqs[i].NumBlocks(p.bs) <= |p.free| + |p.reqs[i].blockTable| + InUse(ids[|p.reqs[i].blockTable|..], p.used)
  }

  /** Request `i` now owns its complete table, which begins with the pages of `ids` and is
      computed that far. What was in use is still indexed. */
  ghost predicate Allocated(p: Pool, q: Pool, i: nat, ids: seq<BlockId>) {
    && q.bs == p.bs > 0 && q.kv == p.kv && |q.refs| == |p.refs|
    && i < |p.reqs| == |q.reqs| && q.reqs == p.reqs[i := q.reqs[i]]
    && q.reqs[i] == p.reqs[i].(blockTable := q.reqs[i].blockTable, logical := q.reqs[i].logical,
                               cached := Start(|ids|, p.bs), physical := Start(|ids|, p.bs))
    && ids <= q.reqs[i].blockTable && |q.reqs[i].blockTable| == p.reqs[i].NumBlocks(p.bs)
    && |p.reqs[i].blockTable| <= |ids|
    && |q.free| + p.reqs[i].NumBlocks(p.bs)
         == |p.free| + |p.reqs[i].blockTable| + InUse(ids[|p.reqs[i].blockTable|..], p.used)
  }

  /** Following a plan takes as many free pages as were planned: all but those shared already. */
  lemma PlanSpends(p: Pool, q: Pool, i: nat, ids: seq<BlockId>)
    requires Allocated(p, q, i, ids) && p.reqs[i].blockTable == []
    ensures |p.free| - |q.free| == p.reqs[i].NumBlocks(p.bs) - InUse(ids, p.used)
  {
    assert ids[0..] == ids;
  }

  lemma AttachedAffords(p: Pool, q: Pool, i: nat, ids: seq<BlockId>)
    requires p.Inv() && Affordable(p, i, ids) && Cached(p, i, ids)
    requires Attached(p, q, i, ids, |ids|) && Spent(p, q, ids[|p.reqs[i].blockTable|..])
    ensures |ids| <= q.reqs[i].NumBlocks(q.bs) <= |q.free| + |ids| && q.reqs[i].blockTable == ids
  {
    CachedIds(p, i, ids);
  }

  /** Attaching and then growing completes the table, and the index still has `ids` for it. */
  lemma AttachedGrown(p: Pool, mid: Pool, q: Pool, i: nat, ids: seq<BlockId>)
    requires Attached(p, mid, i, ids, |ids|) && mid.Inv() && p.bs > 0 && Grown(mid, q, i, p.reqs[i].NumBlocks(p.bs))
    requires |p.reqs[i].blockTable| <= |ids| && Spent(p, mid, ids[|p.reqs[i].blockTable|..])
    ensures Allocated(p, q, i, ids) && Cached(q, i, ids)
  {
    forall b | b in ids
      ensures b !in mid.free
    {
      assert mid.reqs[i].blockTable == ids;
      assert mid.ReqOk(i) && mid.RefOk(b) && i in mid.Owners(b);
    }
    Plain(mid, i);
    hide Pool.Inv, IsMatch, Start;
    assert CacheKeys(q.reqs[i], q.bs) == CacheKeys(mid.reqs[i], mid.bs);
    assert IsMatch(mid.view, CacheKeys(mid.reqs[i], mid.bs), ids);
  }

  /** Who refers to which page determines the reference counts and the free pages. */
  lemma OwnershipDetermined(p: Pool, q: Pool)
    requires p.OwnershipOk() && q.OwnershipOk() && |p.refs| == |q.refs| && |p.reqs| == |q.reqs|
    requires forall k | 0 <= k < |p.reqs| :: q.reqs[k].blockTable == p.reqs[k].blockTable
    ensures q.refs == p.refs && q.used == p.used && |q.free| == |p.free| && forall b :: b in q.free <==> b in p.free
  {
    forall b: BlockId | b < |p.refs|
      ensures q.refs[b] == p.refs[b] && (b in q.free <==> b in p.free)
    {
      assert p.RefOk(b) && q.RefOk(b);
      assert q.Owners(b) == p.Owners(b);
    }
    p.Conservation();
    q.Conservation();
    hide Pool.RefOk, Pool.ReqOk, Distinct;
    assert forall b: BlockId :: b in q.used <==> b in p.used;
  }

  /** Giving up a reservation restores the ownership of every page, and the index has for the
      request what it had before. */
  lemma AbortedReservation(p: Pool, q: Pool, i: nat, ids: seq<BlockId>)
    requires p.Inv() && q.Inv() && Allocated(p, q, i, ids) && Cached(q, i, ids)
    requires p.reqs[i].blockTable == [] && p.reqs[i].logical == [] && p.reqs[i].cached == 0 == p.reqs[i].physical
    requires !p.reqs[i].compressed && Releasable(q, i, 0)
    ensures var t := Release(q, i, 0);
      && t.Inv() && t.reqs == p.reqs && t.refs == p.refs && t.used == p.used && |t.free| == |p.free|
      && (forall b :: b in t.free <==> b in p.free) && Cached(t, i, ids)
  {
    var t := Release(q, i, 0);
    ReleaseInv(q, i, 0);
    assert Start(0, q.bs) == 0;
    ReleaseView(q, i, 0);
    assert t.reqs[i] == p.reqs[i] && t.reqs == p.reqs;
    hide IsMatch, Pool.ContentOk, Pool.IsolationOk, Pool.OwnershipOk, Release, Start;
    OwnershipDetermined(p, t);
  }

  lemma ReleaseView(p: Pool, i: nat, keep: nat)
    requires p.Inv() && Releasable(p, i, keep)
    ensures var q := Release(p, i, keep);
      q == p.(refs := q.refs, free := q.free, used := q.used, reqs := p.reqs[i := Kept(p.reqs[i], keep, p.bs)])
        && |q.refs| == |p.refs|
  {
    var r := p.reqs[i];
    assert p.ReqOk(i);
    KeptTable(r, keep, p.bs);
    SuffixDropped(r, keep);
    Droppable(p, i, Reversed(r.blockTable[keep..]));
    hide Pool.Inv, Request.TableOk, Distinct;
    FreeOk(p);
    UnrefEachIs(p, Reversed(r.blockTable[keep..]));
  }

  lemma ReleaseDrops(p: Pool, i: nat, keep: nat)
    requires p.Inv() && i < |p.reqs| && keep <= |p.reqs[i].blockTable|
    ensures Distinct(Reversed(p.reqs[i].blockTable[keep..]))
    ensures forall b | b in Reversed(p.reqs[i].blockTable[keep..]) :: b < |p.refs| && p.refs[b] > 0 && b !in p.free
  {
    var r := p.reqs[i];
    assert p.ReqOk(i);
    SuffixDropped(r, keep);
    Droppable(p, i, Reversed(r.blockTable[keep..]));
  }

  /** The index has `n` pages for request `i`, and the free pages cover the rest. */
  ghost predicate Admittable(p: Pool, i: nat, n: nat) {
    exists ids {:trigger Cached(p, i, ids)} :: Cached(p, i, ids) && |ids| == n && Affordable(p, i, ids)
  }

  lemma AdmittableAll(p: Pool, i: nat, n: nat)
    requires p.Inv() && Admittable(p, i, n)
    ensures forall ids {:trigger Cached(p, i, ids)} | Cached(p, i, ids) :: |ids| == n && Affordable(p, i, ids)
  {
    var ids :| Cached(p, i, ids) && |ids| == n && Affordable(p, i, ids);
    forall other | Cached(p, i, other)
      ensures |other| == n && Affordable(p, i, other)
    {
      CachedUnique(p, i, ids, other);
    }
  }

  /** Equal requests, used pages and numbers of free pages admit alike. */
  lemma AffordsAlike(p: Pool, q: Pool, i: nat, ids: seq<BlockId>)
    requires Affordable(p, i, ids) && q.bs == p.bs && |q.reqs| == |p.reqs| && q.used == p.used && |q.free| == |p.free|
    requires q.reqs[i].blockTable == p.reqs[i].blockTable && q.reqs[i].tokens == p.reqs[i].tokens
    ensures Affordable(q, i, ids)
  {
  }

  lemma CachedAlike(p: Pool, q: Pool, i: nat, ids: seq<BlockId>)
    requires Cached(p, i, ids) && q.bs == p.bs && |q.reqs| == |p.reqs| && q.view == p.view
      && q.reqs[i].tokens == p.reqs[i].tokens
    ensures Cached(q, i, ids)
  {
  }

  // ---------- resuming ----------

  /** What comes after `table` in `ids`, nothing when `ids` does not begin with it. */
  function Beyond(ids: seq<BlockId>, table: seq<BlockId>): seq<BlockId> {
    if table <= ids then ids[|table|..] else []
  }

  /** The index continues the table of request `i` with the pages `suffix`: none when it does not
      begin with that table. */
  ghost predicate ContinuesTable(p: Pool, i: nat, suffix: seq<BlockId>) {
    i < |p.reqs| && exists ids {:trigger Cached(p, i, ids)} ::
      Cached(p, i, ids) && suffix == Beyond(ids, p.reqs[i].blockTable)
  }

  lemma ContinuesUnique(p: Pool, i: nat, s: seq<BlockId>, t: seq<BlockId>)
    requires p.Inv() && ContinuesTable(p, i, s) && ContinuesTable(p, i, t)
    ensures s == t
  {
    var ids :| Cached(p, i, ids) && s == Beyond(ids, p.reqs[i].blockTable);
    var other :| Cached(p, i, other) && t == Beyond(other, p.reqs[i].blockTable);
    CachedUnique(p, i, ids, other);
  }

  lemma CachedUnique(p: Pool, i: nat, ids: seq<BlockId>, other: seq<BlockId>)
    requires p.Inv() && Cached(p, i, ids) && Cached(p, i, other)
    ensures ids == other
  {
    MatchIsLongest(p.view, CacheKeys(p.reqs[i], p.bs), ids, other);
  }

  lemma ContinuesCached(p: Pool, i: nat, suffix: seq<BlockId>)
    requires ContinuesTable(p, i, suffix) && suffix != []
    ensures Cached(p, i, p.reqs[i].blockTable + suffix)
  {
    var ids :| Cached(p, i, ids) && suffix == Beyond(ids, p.reqs[i].blockTable);
    assert p.reqs[i].blockTable + suffix == ids;
  }

  ghost predicate ResumePlan(p: Pool, i: nat, suffix: seq<BlockId>) {
    && ContinuesTable(p, i, suffix) && p.bs > 0 && |p.reqs[i].blockTable| <= p.reqs[i].NumBlocks(p.bs)
    && Affordable(p, i, p.reqs[i].blockTable + suffix)
  }

  lemma PlanContinues(p: Pool, i: nat, suffix: seq<BlockId>)
    requires ResumePlan(p, i, suffix)
    ensures ContinuesTable(p, i, suffix)
  {
  }

  /** The free pages suffice to complete the table of request `i`. */
  ghost predicate CanComplete(p: Pool, i: nat) {
    forall t {:trigger ContinuesTable(p, i, t)} | ContinuesTable(p, i, t) :: Affordable(p, i, p.reqs[i].blockTable + t)
  }

  /** One plan settles the question. */
  lemma PlanCompletes(p: Pool, i: nat, suffix: seq<BlockId>)
    requires p.Inv() && ResumePlan(p, i, suffix)
    ensures CanComplete(p, i)
  {
    forall t | ContinuesTable(p, i, t)
      ensures Affordable(p, i, p.reqs[i].blockTable + t)
    {
      ContinuesUnique(p, i, suffix, t);
    }
  }

  /** Enough free pages for the whole table, or a table that is complete, always suffice. */
  lemma EasyCompletes(p: Pool, i: nat)
    requires p.bs > 0 && i < |p.reqs|
    requires p.reqs[i].NumBlocks(p.bs) <= |p.free| || p.reqs[i].NumBlocks(p.bs) <= |p.reqs[i].blockTable|
    ensures CanComplete(p, i)
  {
  }

  lemma NothingContinues(p: Pool, i: nat)
    requires ResumePlan(p, i, [])
    ensures |p.reqs[i].blockTable| <= p.reqs[i].NumBlocks(p.bs) <= |p.free| + |p.reqs[i].blockTable|
  {
    var t := p.reqs[i].blockTable;
    assert (t + [])[|t|..] == [];
  }

  lemma GrewAlone(p: Pool, q: Pool, i: nat)
    requires p.bs > 0 && i < |p.reqs| && Grown(p, q, i, p.reqs[i].NumBlocks(p.bs))
      && |p.reqs[i].blockTable| <= p.reqs[i].NumBlocks(p.bs)
    requires p.reqs[i].physical == p.reqs[i].cached
    ensures
      |p.reqs[i].blockTable| < p.reqs[i].NumBlocks(p.bs) && p.reqs[i].cached == Start(|p.reqs[i].blockTable|, p.bs) ==>
        Allocated(p, q, i, p.reqs[i].blockTable)
  {
  }
}
