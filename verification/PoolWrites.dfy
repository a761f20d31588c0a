/** Steps that compute KV and publish it: model runs, imports, index insertion, new tokens. */
module PoolWrites {
  import opened PrefixView
  import opened Pages
  import opened Pool
  import opened PoolSteps

  // ---------- request fields that the pool does not depend on ----------

  /** `r` and `s` agree on everything that concerns pages and KV. */
  ghost predicate SameKv(r: Request, s: Request) {
    && r.tokens <= s.tokens && s.cached == r.cached && s.physical == r.physical
    && s.blockTable == r.blockTable && s.logical == r.logical && s.compressed == r.compressed
  }

  /** Status changes, new tokens and scheduling marks do not concern the pool. */
  lemma SetReqInv(p: Pool, i: nat, r: Request)
    requires p.Inv() && i < |p.reqs| && SameKv(p.reqs[i], r)
    ensures SetReq(p, i, r).Inv()
  {
    var q := SetReq(p, i, r);
    assert p.ReqOk(i) && p.ComputedOk(i);
    if !r.compressed {
      SameTable(p, q, i, r.cached);
    }
    SameOwners(p, q, i);
    hide Pool.FreeListOk, Pool.Computed, Pool.PageHolds, Distinct;
    ContentFrame(p, q, i);
    forall j: nat | j < |r.blockTable|
      ensures q.ExclusiveOk(i, j)
    {
      assert p.ExclusiveOk(i, j);
    }
    IsolationFrame(p, q, i);
  }

  /** Ownership survives any change to a request that leaves its table alone. */
  lemma SameOwners(p: Pool, q: Pool, i: nat)
    requires Changes(p, q, i) && p.OwnershipOk() && q.ReqOk(i)
    requires q.free == p.free && q.used == p.used && q.refs == p.refs
    requires q.reqs[i].blockTable == p.reqs[i].blockTable
    ensures q.OwnershipOk() && forall b :: q.Owners(b) == p.Owners(b)
  {
    forall b
      ensures q.Owners(b) == p.Owners(b)
    {
      OwnersOf(p, q, i, b);
    }
    forall b: BlockId | b < |q.refs|
      ensures q.RefOk(b)
    {
      assert p.RefOk(b);
    }
    forall k: nat | k < |q.reqs|
      ensures q.ReqOk(k)
    {
      assert p.ReqOk(k);
    }
  }

  /** A request that owns no page joins. */
  function Arrive(p: Pool, r: Request): Pool {
    p.(reqs := p.reqs + [r])
  }

  lemma ArriveInv(p: Pool, r: Request)
    requires p.Inv() && r.blockTable == [] && r.logical == [] && r.cached == 0 && r.physical == 0 && !r.compressed
    ensures Arrive(p, r).Inv()
  {
    var q := Arrive(p, r);
    forall b
      ensures q.Owners(b) == p.Owners(b)
    {
    }
    forall b: BlockId | b < |q.refs|
      ensures q.RefOk(b)
    {
      assert p.RefOk(b);
    }
    forall k: nat | k < |q.reqs|
      ensures q.ReqOk(k)
    {
      assert k < |p.reqs| ==> p.ReqOk(k);
    }
    ArriveContent(p, r);
    hide Pool.OwnershipOk, Pool.ContentOk;
    forall k: nat, j: nat | k < |q.reqs| && j < |q.reqs[k].blockTable|
      ensures q.ExclusiveOk(k, j)
    {
      assert p.ExclusiveOk(k, j);
    }
  }

  lemma ArriveContent(p: Pool, r: Request)
    requires p.ContentOk() && r.blockTable == [] && r.cached == 0 && !r.compressed
    ensures Arrive(p, r).ContentOk()
  {
    hide Pool.PageHolds, Pool.Computed, PageSized, WellFormed, Flat;
    NothingComputed(Arrive(p, r), |p.reqs|);
    var q := Arrive(p, r);
    forall path | path in q.view
      ensures q.PathOk(path)
    {
      assert p.PathOk(path);
      SamePage(p, q, q.view[path], Flat(path), |path| - 1);
    }
    forall k: nat | k < |q.reqs|
      ensures q.ComputedOk(k)
    {
      assert k < |p.reqs| ==> p.ComputedOk(k);
      if k < |p.reqs| && !p.reqs[k].compressed {
        SameTable(p, q, k, p.reqs[k].cached);
      }
    }
  }

  lemma NothingComputed(p: Pool, i: nat)
    requires i < |p.reqs| && p.reqs[i].blockTable == []
    ensures p.Computed(i, 0)
  {
  }

  // ---------- computing KV ----------

  /** A model run computes position `cached + k` of request `i` and stores it at the physical
      position `physical + k`. The result is that position's KV when the table holds the KV of
      everything before it, and is not known otherwise. */
  ghost function WriteSlot(p: Pool, i: nat, k: nat): Pool
    requires i < |p.reqs| && p.bs > 0
    ensures var q := WriteSlot(p, i, k); q == p.(kv := q.kv) && |q.kv| == |p.kv|
  {
    var r := p.reqs[i];
    var q, n := r.physical + k, r.cached + k;
    if Full(q, p.bs) < |r.blockTable| && r.blockTable[Full(q, p.bs)] < |p.kv|
      && Offset(q, p.bs) < |p.kv[r.blockTable[Full(q, p.bs)]]| then
      var b := r.blockTable[Full(q, p.bs)];
      p.(kv := p.kv[b := p.kv[b][Offset(q, p.bs) := SlotValue(p, i, n)]])
    else p
  }

  ghost function SlotValue(p: Pool, i: nat, n: nat): Kv
    requires i < |p.reqs|
  {
    var r := p.reqs[i];
    if !r.compressed && n < |r.tokens| && p.Computed(i, n) then r.tokens[..n + 1] else []
  }

  ghost function Run(p: Pool, i: nat, k: nat): Pool
    requires i < |p.reqs| && p.bs > 0
    ensures var q := Run(p, i, k); q == p.(kv := q.kv) && |q.kv| == |p.kv|
  {
    if k == 0 then p else WriteSlot(Run(p, i, k - 1), i, k - 1)
  }

  /** The slot written for offset `k` is in an own, writable page. */
  lemma SlotPage(p: Pool, i: nat, k: nat)
    requires p.Inv() && i < |p.reqs| && p.reqs[i].physical + k < Start(|p.reqs[i].blockTable|, p.bs)
    ensures var r, j := p.reqs[i], Full(p.reqs[i].physical + k, p.bs);
      && p.bs > 0 && j < |r.blockTable| && r.blockTable[j] < |p.kv| && |p.kv[r.blockTable[j]]| == p.bs
      && Start(j, p.bs) + Offset(r.physical + k, p.bs) == r.physical + k
      && r.blockTable[j] !in p.view.Values && p.Owners(r.blockTable[j]) == {i} && Distinct(r.blockTable)
  {
    var r, q := p.reqs[i], p.reqs[i].physical + k;
    var j := Full(q, p.bs);
    PageAndOffset(q, p.bs);
    if |r.blockTable| <= j {
      StartMonotone(|r.blockTable|, j, p.bs);
    }
    assert p.ReqOk(i) && p.ExclusiveOk(i, j);
  }

  lemma WriteSlotInv(p: Pool, i: nat, k: nat)
    requires p.Inv() && i < |p.reqs| && p.reqs[i].physical + k < Start(|p.reqs[i].blockTable|, p.bs)
    ensures p.bs > 0 && WriteSlot(p, i, k).Inv()
    ensures forall n: nat | n <= p.reqs[i].cached + k && !p.reqs[i].compressed && p.Computed(i, n) ::
      WriteSlot(p, i, k).Computed(i, n)
  {
    SlotPage(p, i, k);
    var q := WriteSlot(p, i, k);
    var b := p.reqs[i].blockTable[Full(p.reqs[i].physical + k, p.bs)];
    forall n: nat | n <= p.reqs[i].cached + k && !p.reqs[i].compressed && p.Computed(i, n)
      ensures q.Computed(i, n)
    {
      WriteComputed(p, i, k, n);
    }
    WriteOwnership(p, q);
    WriteContent(p, q, i, k, b);
    assert q.IsolationOk() by {
      forall m: nat, j: nat | m < |q.reqs| && j < |q.reqs[m].blockTable|
        ensures q.ExclusiveOk(m, j)
      {
        assert p.ExclusiveOk(m, j);
      }
    }
  }

  lemma WriteOwnership(p: Pool, q: Pool)
    requires p.OwnershipOk() && q == p.(kv := q.kv) && |q.kv| == |p.kv|
    ensures q.OwnershipOk() && forall b :: q.Owners(b) == p.Owners(b)
  {
    forall b
      ensures q.Owners(b) == p.Owners(b)
    {
    }
    forall b: BlockId | b < |q.refs|
      ensures q.RefOk(b)
    {
      assert p.RefOk(b);
    }
    forall k: nat | k < |q.reqs|
      ensures q.ReqOk(k)
    {
      assert p.ReqOk(k);
    }
  }

  lemma WriteContent(p: Pool, q: Pool, i: nat, k: nat, b: BlockId)
    requires p.ContentOk() && i < |p.reqs| && p.bs > 0 && q == WriteSlot(p, i, k) && b < |p.kv|
    requires forall c | 0 <= c < |p.kv| && c != b :: q.kv[c] == p.kv[c]
    requires |q.kv| == |p.kv| && |q.kv[b]| == p.bs
    requires b !in p.view.Values && p.Owners(b) == {i}
    requires forall n: nat | n <= p.reqs[i].cached + k && !p.reqs[i].compressed && p.Computed(i, n) :: q.Computed(i, n)
    ensures q.ContentOk()
  {
    hide Pool.Computed, WriteSlot;
    forall path | path in q.view
      ensures q.PathOk(path)
    {
      assert p.PathOk(path);
      assert p.view[path] != b;
      hide Pool.PageHolds;
      SamePage(p, q, q.view[path], Flat(path), |path| - 1);
    }
    forall m: nat | m < |q.reqs|
      ensures q.ComputedOk(m)
    {
      assert p.ComputedOk(m);
      if m != i && !p.reqs[m].compressed {
        assert m !in p.Owners(b);
        OthersComputed(p, q, m, b, p.reqs[m].cached);
      }
    }
  }

  /** Writing a page leaves alone what other requests have computed. */
  lemma OthersComputed(p: Pool, q: Pool, m: nat, b: BlockId, n: nat)
    requires q == p.(kv := q.kv) && |q.kv| == |p.kv| && m < |p.reqs| && b !in p.reqs[m].blockTable
    requires forall c | 0 <= c < |p.kv| && c != b :: q.kv[c] == p.kv[c]
    requires p.Computed(m, n)
    ensures q.Computed(m, n)
  {
  }

  lemma KvSized(p: Pool, b: BlockId)
    requires p.OwnershipOk() && p.ContentOk() && b < |p.refs|
    ensures b < |p.kv| && |p.kv[b]| == p.bs > 0
  {
  }

  /** Writing a slot leaves alone the other slots of the table. */
  lemma OtherSlot(p: Pool, i: nat, k: nat, j: nat, off: nat)
    requires p.Inv() && i < |p.reqs| && p.reqs[i].physical + k < Start(|p.reqs[i].blockTable|, p.bs)
    requires j < |p.reqs[i].blockTable| && p.reqs[i].blockTable[j] < |p.kv| && off < |p.kv[p.reqs[i].blockTable[j]]|
    requires Start(j, p.bs) + off != p.reqs[i].physical + k
    ensures p.bs > 0 && var b, q := p.reqs[i].blockTable[j], WriteSlot(p, i, k);
      |q.kv[b]| == |p.kv[b]| && q.kv[b][off] == p.kv[b][off]
  {
    SlotPage(p, i, k);
    hide Pool.Inv, Pool.Owners, SlotValue, Start, Full, Offset, Distinct;
  }

  lemma OwnSlot(p: Pool, i: nat, k: nat)
    requires p.Inv() && i < |p.reqs| && p.reqs[i].physical + k < Start(|p.reqs[i].blockTable|, p.bs)
    ensures var r, j, off := p.reqs[i], Full(p.reqs[i].physical + k, p.bs), Offset(p.reqs[i].physical + k, p.bs);
      && j < |r.blockTable| && r.blockTable[j] < |p.kv| && off < |p.kv[r.blockTable[j]]|
      && |WriteSlot(p, i, k).kv[r.blockTable[j]]| == |p.kv[r.blockTable[j]]|
      && WriteSlot(p, i, k).kv[r.blockTable[j]][off] == SlotValue(p, i, r.cached + k)
      && forall c | 0 <= c < |p.kv| && c != r.blockTable[j] :: WriteSlot(p, i, k).kv[c] == p.kv[c]
  {
    SlotPage(p, i, k);
    hide Pool.Inv, Pool.Owners, SlotValue, Start, Full, Offset, Distinct;
  }

  lemma SlotBound(p: Pool, i: nat, k: nat, j: nat)
    requires p.Inv() && i < |p.reqs| && p.reqs[i].physical + k < Start(|p.reqs[i].blockTable|, p.bs)
    requires j < |p.reqs[i].blockTable|
    ensures p.bs > 0 && p.reqs[i].blockTable[j] < |p.kv| && |p.kv[p.reqs[i].blockTable[j]]| == p.bs
    ensures |WriteSlot(p, i, k).kv[p.reqs[i].blockTable[j]]| == p.bs
    ensures !p.reqs[i].compressed ==> p.reqs[i].physical == p.reqs[i].cached <= |p.reqs[i].tokens|
  {
    assert p.ReqOk(i) && p.reqs[i].blockTable[j] in p.reqs[i].blockTable;
    KvSized(p, p.reqs[i].blockTable[j]);
    hide Pool.Inv, SlotValue;
    OwnSlot(p, i, k);
  }

  /** Writing position `cached + k` leaves alone what is computed before it. */
  lemma WriteComputed(p: Pool, i: nat, k: nat, n: nat)
    requires p.Inv() && i < |p.reqs| && p.reqs[i].physical + k < Start(|p.reqs[i].blockTable|, p.bs)
    requires n <= p.reqs[i].cached + k && !p.reqs[i].compressed && p.Computed(i, n)
    ensures p.bs > 0 && WriteSlot(p, i, k).Computed(i, n)
  {
    var r := p.reqs[i];
    SlotPage(p, i, k);
    var q := WriteSlot(p, i, k);
    hide Pool.Inv, WriteSlot, Start, Full, Offset;
    forall j, off | 0 <= j < |r.blockTable| && r.blockTable[j] < |q.kv| && 0 <= off < q.bs
        && off < |q.kv[r.blockTable[j]]| && Start(j, q.bs) + off < n
      ensures q.kv[r.blockTable[j]][off] == r.tokens[..Start(j, q.bs) + off + 1]
    {
      SlotBound(p, i, k, j);
      OtherSlot(p, i, k, j, off);
    }
  }

  /** Computing the next position extends what is computed. */
  lemma WriteNext(p: Pool, i: nat, k: nat)
    requires p.Inv() && i < |p.reqs| && p.reqs[i].physical + k < Start(|p.reqs[i].blockTable|, p.bs)
    requires !p.reqs[i].compressed && p.reqs[i].cached + k < |p.reqs[i].tokens| && p.Computed(i, p.reqs[i].cached + k)
    ensures p.bs > 0 && WriteSlot(p, i, k).Computed(i, p.reqs[i].cached + k + 1)
  {
    hide Pool.Inv, WriteSlot, Start, Full, Offset;
    var r, n := p.reqs[i], p.reqs[i].cached + k;
    PlaceInPool(p, i);
    OwnSlot(p, i, k);
    var q := WriteSlot(p, i, k);
    forall j, off | 0 <= j < |r.blockTable| && r.blockTable[j] < |q.kv| && 0 <= off < q.bs
        && off < |q.kv[r.blockTable[j]]| && Start(j, q.bs) + off < n + 1
      ensures q.kv[r.blockTable[j]][off] == r.tokens[..Start(j, q.bs) + off + 1]
    {
      SlotBound(p, i, k, j);
      if Start(j, q.bs) + off == n {
        PageFixed(n, j, off, p.bs);
      } else {
        OtherSlot(p, i, k, j, off);
      }
    }
  }

  /** What is computed once the first `k` positions of a run are done. */
  ghost predicate RunDone(p: Pool, i: nat, k: nat)
    requires i < |p.reqs|
  {
    !p.reqs[i].compressed && p.reqs[i].cached + k <= |p.reqs[i].tokens| ==> p.Computed(i, p.reqs[i].cached + k)
  }

  lemma WriteOne(p: Pool, i: nat, k: nat)
    requires p.Inv() && i < |p.reqs| && p.reqs[i].physical + k < Start(|p.reqs[i].blockTable|, p.bs) && RunDone(p, i, k)
    ensures p.bs > 0 && WriteSlot(p, i, k).Inv() && RunDone(WriteSlot(p, i, k), i, k + 1)
  {
    hide Pool.Inv, Pool.Computed;
    WriteSlotInv(p, i, k);
    if !p.reqs[i].compressed && p.reqs[i].cached + k < |p.reqs[i].tokens| {
      WriteNext(p, i, k);
    }
  }

  lemma NothingRun(p: Pool, i: nat)
    requires p.Inv() && i < |p.reqs|
    ensures p.bs > 0 && RunDone(p, i, 0)
  {
    assert p.ComputedOk(i);
  }

  /** A model run over positions that the table covers keeps the pool consistent, and leaves the
      KV of all of them in the table. */
  lemma {:induction false} RunInv(p: Pool, i: nat, k: nat)
    requires p.Inv() && i < |p.reqs| && p.reqs[i].physical + k <= Start(|p.reqs[i].blockTable|, p.bs)
    ensures p.bs > 0 && Run(p, i, k).Inv() && RunDone(Run(p, i, k), i, k)
  {
    hide Pool.Inv, RunDone, WriteSlot, Start;
    if k == 0 {
      NothingRun(p, i);
    } else {
      RunInv(p, i, k - 1);
      WriteOne(Run(p, i, k - 1), i, k - 1);
    }
  }

  lemma WriteOthers(p: Pool, i: nat, k: nat, m: nat, n: nat)
    requires p.Inv() && i < |p.reqs| && p.reqs[i].physical + k < Start(|p.reqs[i].blockTable|, p.bs)
    requires m < |p.reqs| && m != i && p.Computed(m, n)
    ensures p.bs > 0 && WriteSlot(p, i, k).Computed(m, n)
  {
    SlotPage(p, i, k);
    var b := p.reqs[i].blockTable[Full(p.reqs[i].physical + k, p.bs)];
    assert m !in p.Owners(b);
    hide Pool.Inv, Pool.Computed, Start, SlotValue;
    OthersComputed(p, WriteSlot(p, i, k), m, b, n);
  }

  /** A run for one request leaves alone what the other requests have computed. */
  lemma {:induction false} RunOthers(p: Pool, i: nat, k: nat, m: nat, n: nat)
    requires p.Inv() && i < |p.reqs| && p.reqs[i].physical + k <= Start(|p.reqs[i].blockTable|, p.bs)
    requires m < |p.reqs| && m != i && p.Computed(m, n)
    ensures p.bs > 0 && Run(p, i, k).Computed(m, n)
  {
    hide Pool.Inv, Pool.Computed, WriteSlot, RunDone, Start;
    if k == 0 {
      NothingRun(p, i);
    } else {
      RunInv(p, i, k - 1);
      RunOthers(p, i, k - 1, m, n);
      WriteOthers(Run(p, i, k - 1), i, k - 1, m, n);
    }
  }

  // ---------- publishing computed pages ----------

  /** The first `n` pages of request `i` enter the index; prefixes already there keep theirs. */
  ghost function Publish(p: Pool, i: nat, n: nat): Pool
    requires i < |p.reqs| && n <= |p.reqs[i].blockTable| && Start(n, p.bs) <= |p.reqs[i].tokens|
  {
    p.(view := InsertView(p.view, PathOfTokens(p.reqs[i].tokens, n, p.bs), p.reqs[i].blockTable[..n]))
  }

  ghost predicate Publishable(p: Pool, i: nat, n: nat) {
    && i < |p.reqs| && n <= |p.reqs[i].blockTable| && Start(n, p.bs) <= |p.reqs[i].tokens|
    && p.Computed(i, Start(n, p.bs))
  }

  /** A computed page spells out the prefix it was computed for. */
  lemma ComputedHolds(p: Pool, i: nat, n: nat, m: nat)
    requires p.OwnershipOk() && p.ContentOk() && Publishable(p, i, n) && m < n
    ensures p.PageHolds(p.reqs[i].blockTable[m], p.reqs[i].tokens, m)
  {
    assert p.ReqOk(i);
    StartMonotone(m, n, p.bs);
    assert p.reqs[i].blockTable[m] in p.reqs[i].blockTable;
    hide Pool.ContentOk, Pool.FreeListOk;
    assert |p.kv[p.reqs[i].blockTable[m]]| == p.bs by { KvSized(p, p.reqs[i].blockTable[m]); }
  }

  /** A page holds the KV of one prefix only. */
  lemma HeldPrefix(p: Pool, b: BlockId, s: seq<Token>, j: nat, t: seq<Token>, k: nat)
    requires p.bs > 0 && p.PageHolds(b, s, j) && p.PageHolds(b, t, k)
    ensures j == k && s[..Start(j + 1, p.bs)] == t[..Start(j + 1, p.bs)]
  {
    var off := p.bs - 1;
    assert p.kv[b][off] == s[..Start(j, p.bs) + off + 1] && p.kv[b][off] == t[..Start(k, p.bs) + off + 1];
    assert |p.kv[b][off]| == Start(j + 1, p.bs) == Start(k + 1, p.bs);
    StartOrder(j + 1, k + 1, p.bs);
  }

  /** An indexed page that also sits computed in a table is indexed under that table's prefix. */
  lemma IndexedAsComputed(p: Pool, i: nat, n: nat, m: nat, path: Path)
    requires p.OwnershipOk() && p.ContentOk() && Publishable(p, i, n) && m < n
    requires path in p.view && p.view[path] == p.reqs[i].blockTable[m]
    ensures path == PathOfTokens(p.reqs[i].tokens, n, p.bs)[..m + 1]
  {
    var b, tokens := p.reqs[i].blockTable[m], p.reqs[i].tokens;
    ComputedHolds(p, i, n, m);
    assert p.PathOk(path);
    KvSized(p, p.view[path]);
    hide Pool.OwnershipOk, Pool.ContentOk, Pool.PageHolds, Pool.Computed;
    HeldPrefix(p, b, tokens, m, Flat(path), |path| - 1);
    PathOfFlat(path, p.bs);
    PathPrefix(tokens, n, m + 1, p.bs);
    SamePath(Flat(path), tokens, m + 1, p.bs);
  }

  /** The index can take the pages: none of those it would add stands for another prefix. */
  lemma PublishFresh(p: Pool, i: nat, n: nat)
    requires p.OwnershipOk() && p.ContentOk() && Publishable(p, i, n)
    ensures FreshSuffix(p.view, PathOfTokens(p.reqs[i].tokens, n, p.bs), p.reqs[i].blockTable[..n])
    ensures Distinct(p.reqs[i].blockTable[..n])
  {
    var keys, ids := PathOfTokens(p.reqs[i].tokens, n, p.bs), p.reqs[i].blockTable[..n];
    assert p.ReqOk(i);
    hide Pool.OwnershipOk, Pool.ContentOk, Pool.Computed, PathOfTokens;
    forall m | 0 < m <= |keys| && keys[..m] !in p.view
      ensures ids[m-1] !in p.view.Values
    {
      if ids[m-1] in p.view.Values {
        var path :| path in p.view && p.view[path] == ids[m-1];
        IndexedAsComputed(p, i, n, m - 1, path);
      }
    }
  }

  lemma PublishContent(p: Pool, i: nat, n: nat)
    requires p.OwnershipOk() && p.ContentOk() && Publishable(p, i, n)
    ensures Publish(p, i, n).ContentOk()
  {
    var q := Publish(p, i, n);
    var keys, ids := PathOfTokens(p.reqs[i].tokens, n, p.bs), p.reqs[i].blockTable[..n];
    PublishFresh(p, i, n);
    InsertKeepsWellFormed(p.view, keys, ids);
    hide InsertView;
    forall path | path in q.view
      ensures q.PathOk(path)
    {
      PublishedPath(p, i, n, path);
    }
    forall k: nat | k < |q.reqs|
      ensures q.ComputedOk(k)
    {
      assert p.ComputedOk(k);
      if !p.reqs[k].compressed {
        SameTable(p, q, k, p.reqs[k].cached);
      }
    }
  }

  /** A newly published page holds the KV of the prefix it is published under. */
  lemma NewPath(p: Pool, i: nat, n: nat, m: nat)
    requires p.OwnershipOk() && p.ContentOk() && Publishable(p, i, n) && m < n
    ensures var path := PathOfTokens(p.reqs[i].tokens, n, p.bs)[..m + 1];
      PageSized(path, p.bs) && p.reqs[i].blockTable[m] < |p.refs| && p.PageHolds(p.reqs[i].blockTable[m], Flat(path), m)
  {
    var tokens := p.reqs[i].tokens;
    ComputedHolds(p, i, n, m);
    PathPrefix(tokens, n, m + 1, p.bs);
    FlatOfPath(tokens, m + 1, p.bs);
    assert p.ReqOk(i) && p.reqs[i].blockTable[m] in p.reqs[i].blockTable;
    hide Pool.OwnershipOk, Pool.ContentOk, Pool.PageHolds, Pool.Computed, Flat, PageSized;
    p.PageOfPrefix(p.reqs[i].blockTable[m], tokens, tokens[..Start(m + 1, p.bs)], m);
  }

  lemma OldPath(p: Pool, q: Pool, path: Path)
    requires p.ContentOk() && q == p.(view := q.view) && path in p.view && path in q.view
      && q.view[path] == p.view[path]
    ensures q.PathOk(path)
  {
    assert p.PathOk(path);
    SamePage(p, q, q.view[path], Flat(path), |path| - 1);
  }

  /** Every prefix of the new index is one of the old, or one just computed. */
  lemma PublishedPath(p: Pool, i: nat, n: nat, path: Path)
    requires p.OwnershipOk() && p.ContentOk() && Publishable(p, i, n) && path in Publish(p, i, n).view
    ensures Publish(p, i, n).PathOk(path)
  {
    var q := Publish(p, i, n);
    PublishFresh(p, i, n);
    NoEmptyPath(p);
    hide Pool.OwnershipOk, Pool.ContentOk, Publishable, InsertView, FreshSuffix, PathOfTokens, Start, Flat;
    InsertedId(p.view, PathOfTokens(p.reqs[i].tokens, n, p.bs), p.reqs[i].blockTable[..n], path);
    if path in p.view {
      OldPath(p, q, path);
    } else {
      NewPath(p, i, n, |path| - 1);
      SamePage(p, q, q.view[path], Flat(path), |path| - 1);
    }
  }

  lemma NoEmptyPath(p: Pool)
    requires p.ContentOk()
    ensures [] !in p.view
  {
  }

  /** Publishing pages that will not be written again keeps the pool consistent. */
  lemma PublishInv(p: Pool, i: nat, n: nat)
    requires p.Inv() && Publishable(p, i, n) && Start(n, p.bs) <= p.reqs[i].physical
    ensures Publish(p, i, n).Inv()
  {
    var q := Publish(p, i, n);
    PublishContent(p, i, n);
    PublishOwnership(p, q);
    PublishFresh(p, i, n);
    hide Pool.ContentOk, Pool.Computed, PathOfTokens, InsertView;
    forall k: nat, j: nat | k < |q.reqs| && j < |q.reqs[k].blockTable|
      ensures q.ExclusiveOk(k, j)
    {
      PublishExclusive(p, i, n, k, j);
    }
  }

  lemma PublishOwnership(p: Pool, q: Pool)
    requires p.OwnershipOk() && q == p.(view := q.view)
    ensures q.OwnershipOk() && forall b :: q.Owners(b) == p.Owners(b)
  {
    forall b
      ensures q.Owners(b) == p.Owners(b)
    {
    }
    forall b: BlockId | b < |q.refs|
      ensures q.RefOk(b)
    {
      assert p.RefOk(b);
    }
    forall k: nat | k < |q.reqs|
      ensures q.ReqOk(k)
    {
      assert p.ReqOk(k);
    }
  }

  /** A page enters the index only as one of the published ones. */
  lemma PublishedId(p: Pool, i: nat, n: nat, b: BlockId)
    requires p.OwnershipOk() && p.ContentOk() && Publishable(p, i, n)
    requires b in Publish(p, i, n).view.Values && b !in p.view.Values
    ensures exists m :: 0 <= m < n && p.reqs[i].blockTable[m] == b
  {
    var v := Publish(p, i, n).view;
    PublishFresh(p, i, n);
    NoEmptyPath(p);
    hide Pool.OwnershipOk, Pool.ContentOk, Pool.Computed, InsertView, FreshSuffix, PathOfTokens, Start;
    var path :| path in v && v[path] == b;
    InsertedId(p.view, PathOfTokens(p.reqs[i].tokens, n, p.bs), p.reqs[i].blockTable[..n], path);
    assert p.reqs[i].blockTable[|path| - 1] == b;
  }

  lemma PublishExclusive(p: Pool, i: nat, n: nat, k: nat, j: nat)
    requires p.Inv() && Publishable(p, i, n) && Start(n, p.bs) <= p.reqs[i].physical
    requires k < |p.reqs| && j < |p.reqs[k].blockTable|
    ensures Publish(p, i, n).ExclusiveOk(k, j)
  {
    var q, b := Publish(p, i, n), p.reqs[k].blockTable[j];
    PublishOwnership(p, q);
    if p.reqs[k].Writable(j, p.bs) && b in q.view.Values {
      assert p.ExclusiveOk(k, j);
      PublishedId(p, i, n, b);
      var m :| 0 <= m < n && p.reqs[i].blockTable[m] == b;
      hide Pool.Inv, Publish;
      assert i in p.Owners(b);
      WrittenOut(p, i, n, m, j);
      assert false;
    }
  }

  /** A full page of a table is not written again. */
  lemma WrittenOut(p: Pool, i: nat, n: nat, m: nat, j: nat)
    requires p.Inv() && i < |p.reqs| && m < n <= |p.reqs[i].blockTable| && Start(n, p.bs) <= p.reqs[i].physical
    requires j < |p.reqs[i].blockTable| && p.reqs[i].blockTable[j] == p.reqs[i].blockTable[m]
    ensures !p.reqs[i].Writable(j, p.bs)
  {
    assert p.ReqOk(i);
    StartMonotone(m + 1, n, p.bs);
  }

  // ---------- finishing a run ----------

  function Advanced(r: Request, k: nat): Request {
    r.(cached := r.cached + k, physical := r.physical + k, scheduled := 0)
  }

  /** `k` more positions of request `i` are computed, and its table has room for them. */
  ghost predicate Ran(p: Pool, i: nat, k: nat) {
    && i < |p.reqs| && p.reqs[i].cached + k <= |p.reqs[i].tokens|
    && p.reqs[i].physical + k <= Start(|p.reqs[i].blockTable|, p.bs) && RunDone(p, i, k)
  }

  lemma AdvanceInv(p: Pool, i: nat, k: nat)
    requires p.Inv() && Ran(p, i, k)
    ensures SetReq(p, i, Advanced(p.reqs[i], k)).Inv()
  {
    hide Pool.Computed, Pool.FreeListOk, Distinct, Start;
    var q := SetReq(p, i, Advanced(p.reqs[i], k));
    assert p.ReqOk(i);
    if !p.reqs[i].compressed {
      SameTable(p, q, i, p.reqs[i].cached + k);
    }
    SameOwners(p, q, i);
    hide Pool.ReqOk, Request.TableOk;
    ContentFrame(p, q, i);
    forall j: nat | j < |q.reqs[i].blockTable|
      ensures q.ExclusiveOk(i, j)
    {
      assert p.ExclusiveOk(i, j);
    }
    IsolationFrame(p, q, i);
  }

  /** The pages that `k` more positions fill, counted from the start. */
  lemma FilledPages(p: Pool, i: nat, k: nat)
    requires p.Inv() && Ran(p, i, k) && !p.reqs[i].compressed
    ensures p.bs > 0 && Publishable(p, i, Full(p.reqs[i].cached + k, p.bs))
    ensures Start(Full(p.reqs[i].cached + k, p.bs), p.bs) <= p.reqs[i].cached + k == p.reqs[i].physical + k
  {
    var n := Full(p.reqs[i].cached + k, p.bs);
    PageOf(p.reqs[i].cached + k, p.bs);
    assert p.ReqOk(i);
    if |p.reqs[i].blockTable| < n {
      StartOrder(|p.reqs[i].blockTable|, n, p.bs);
    }
    FewerComputed(p, i, p.reqs[i].cached + k, Start(n, p.bs));
  }

  lemma FewerComputed(p: Pool, i: nat, n: nat, m: nat)
    requires i < |p.reqs| && p.Computed(i, n) && m <= n
    ensures p.Computed(i, m)
  {
  }

  /** Request `i` has `k` more positions computed: the pages they fill are published, then the
      request's counters move on. */
  ghost function Complete(p: Pool, i: nat, k: nat): Pool
    requires p.Inv() && Ran(p, i, k)
  {
    FilledPagesIf(p, i, k);
    SetReq(if Publishes(p, i, k) then Publish(p, i, Full(p.reqs[i].cached + k, p.bs)) else p, i, Advanced(p.reqs[i], k))
  }

  predicate Publishes(p: Pool, i: nat, k: nat)
    requires i < |p.reqs| && p.bs > 0
  {
    !p.reqs[i].compressed && Full(p.reqs[i].cached, p.bs) != Full(p.reqs[i].cached + k, p.bs)
  }

  lemma FilledPagesIf(p: Pool, i: nat, k: nat)
    requires p.Inv() && Ran(p, i, k)
    ensures p.bs > 0 && (Publishes(p, i, k) ==> Publishable(p, i, Full(p.reqs[i].cached + k, p.bs)))
  {
    if !p.reqs[i].compressed {
      FilledPages(p, i, k);
    }
  }

  lemma CompleteInv(p: Pool, i: nat, k: nat)
    requires p.Inv() && Ran(p, i, k)
    ensures Complete(p, i, k).Inv()
  {
    var q := SetReq(p, i, Advanced(p.reqs[i], k));
    AdvanceInv(p, i, k);
    FilledPagesIf(p, i, k);
    if Publishes(p, i, k) {
      var n := Full(p.reqs[i].cached + k, p.bs);
      FilledPages(p, i, k);
      SameTable(p, q, i, Start(n, p.bs));
      hide Pool.Inv, Pool.Computed, Start;
      PublishInv(q, i, n);
      assert Complete(p, i, k) == Publish(q, i, n);
    }
  }

  /** Everything up to the last filled page can be matched once it is published. */
  lemma CompletedMatches(p: Pool, i: nat, k: nat)
    requires p.Inv() && Ran(p, i, k) && Publishes(p, i, k)
    ensures var n := Full(p.reqs[i].cached + k, p.bs);
      Start(n, p.bs) <= |p.reqs[i].tokens| && Indexed(Complete(p, i, k).view, PathOfTokens(p.reqs[i].tokens, n, p.bs))
  {
    FilledPagesIf(p, i, k);
    var n := Full(p.reqs[i].cached + k, p.bs);
    var keys := PathOfTokens(p.reqs[i].tokens, n, p.bs);
    hide Pool.Inv, Pool.Computed, PathOfTokens, Ran;
    forall m | 0 < m <= |keys|
      ensures keys[..m] in Publish(p, i, n).view
    {
      PrefixMember(keys, keys[..m]);
    }
  }
}
