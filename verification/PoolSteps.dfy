/** The steps the managers take on the pool, and that each of them keeps the pool's invariant. */
module PoolSteps {
  import opened PrefixView
  import opened RadixTree
  import opened Pages
  import opened Pool

  // ---------- the steps ----------

  /** `s` without the first occurrence of `b`, as a deque removes it. */
  function Remove<T(==)>(s: seq<T>, b: T): seq<T> {
    if s == [] then [] else if s[0] == b then s[1..] else [s[0]] + Remove(s[1..], b)
  }

  function SetReq(p: Pool, i: nat, r: Request): Pool
    requires i < |p.reqs|
  {
    p.(reqs := p.reqs[i := r])
  }

  function Push(r: Request, b: BlockId, l: nat): Request {
    r.(blockTable := r.blockTable + [b], logical := r.logical + [l])
  }

  /** A free page is taken for reuse; whatever the index kept below it is invalidated. */
  ghost function Take(p: Pool, b: BlockId): Pool
    requires b < |p.refs|
  {
    p.(free := Remove(p.free, b), used := p.used + {b}, refs := p.refs[b := 1],
       view := if b in p.view.Values then RemoveView(p.view, PathOf(p.view, b)) else p.view)
  }

  /** Request `i` gets the fresh page `b` at the end of its table. */
  ghost function Grow(p: Pool, i: nat, b: BlockId): Pool
    requires b < |p.refs| && i < |p.reqs|
  {
    SetReq(Take(p, b), i, Push(p.reqs[i], b, p.reqs[i].Span()))
  }

  /** One more table refers to the cached page `b`. */
  function Share(p: Pool, b: BlockId): Pool
    requires b < |p.refs|
  {
    if b in p.used then p.(refs := p.refs[b := p.refs[b] + 1])
    else p.(free := Remove(p.free, b), used := p.used + {b}, refs := p.refs[b := 1])
  }

  /** Request `i` attaches the cached page `b` as its next page, KV included. */
  function Attach(p: Pool, i: nat, b: BlockId): Pool
    requires b < |p.refs| && i < |p.reqs|
  {
    var r := p.reqs[i];
    var n := Start(|r.blockTable| + 1, p.bs);
    SetReq(Share(p, b), i, Push(r, b, |r.blockTable|).(cached := n, physical := n))
  }

  /** One table fewer refers to `b`; an unreferenced page becomes free, its content kept. */
  function Unref(p: Pool, b: BlockId): Pool
    requires b < |p.refs| && p.refs[b] > 0
  {
    if p.refs[b] == 1 then p.(refs := p.refs[b := 0], used := p.used - {b}, free := p.free + [b])
    else p.(refs := p.refs[b := p.refs[b] - 1])
  }

  // ---------- ownership lemmas ----------

  lemma {:induction false} RemoveElements(s: seq<BlockId>, b: BlockId)
    requires Distinct(s)
    ensures Distinct(Remove(s, b))
    ensures forall c :: c in Remove(s, b) <==> c in s && c != b
    ensures b in s ==> |Remove(s, b)| == |s| - 1
    ensures b !in s ==> Remove(s, b) == s
  {
    if s != [] {
      var t := s[1..];
      assert forall c :: c in s <==> c == s[0] || c in t;
      RemoveElements(t, b);
      if s[0] == b {
        assert b !in t;
      } else {
        var u := Remove(t, b);
        assert s[0] !in t;
        forall i, j | 0 <= i < |[s[0]] + u| && 0 <= j < |[s[0]] + u| && ([s[0]] + u)[i] == ([s[0]] + u)[j]
          ensures i == j
        {
          assert i > 0 ==> ([s[0]] + u)[i] == u[i-1];
          assert j > 0 ==> ([s[0]] + u)[j] == u[j-1];
        }
      }
    }
  }

  /** Only the changed request's ownership of a page can change. */
  lemma OwnersOf(p: Pool, q: Pool, i: nat, b: BlockId)
    requires i < |p.reqs| == |q.reqs| && q.reqs == p.reqs[i := q.reqs[i]]
    ensures b in q.reqs[i].blockTable ==> q.Owners(b) == p.Owners(b) + {i}
    ensures b !in q.reqs[i].blockTable ==> q.Owners(b) == p.Owners(b) - {i}
    ensures i in p.Owners(b) <==> b in p.reqs[i].blockTable
  {
  }

  lemma Ownerless(p: Pool, b: BlockId, i: nat)
    requires p.OwnershipOk() && b in p.free && i < |p.reqs|
    ensures b < |p.refs| && p.Owners(b) == {} && b !in p.reqs[i].blockTable
  {
    assert p.RefOk(b);
    assert i !in p.Owners(b);
  }

  // ---------- growing a table ----------

  lemma GrowOwnership(p: Pool, i: nat, b: BlockId)
    requires p.OwnershipOk() && i < |p.reqs| && b in p.free && p.reqs[i].NoGap(p.bs)
    ensures b < |p.refs| && Grow(p, i, b).OwnershipOk()
  {
    Ownerless(p, b, i);
    var q := Grow(p, i, b);
    RemoveElements(p.free, b);
    forall c: BlockId | c < |q.refs|
      ensures q.RefOk(c)
    {
      GrowRef(p, i, b, c);
    }
    forall k: nat | k < |q.reqs|
      ensures q.ReqOk(k)
    {
      assert p.ReqOk(k);
      if k == i {
        PushTable(p.reqs[i], b, p.bs);
      }
    }
  }

  lemma GrowRef(p: Pool, i: nat, b: BlockId, c: BlockId)
    requires p.OwnershipOk() && i < |p.reqs| && b in p.free && c < |p.refs|
    ensures b < |p.refs| && Grow(p, i, b).RefOk(c)
  {
    Ownerless(p, b, i);
    var q := Grow(p, i, b);
    RemoveElements(p.free, b);
    assert p.RefOk(c);
    OwnersOf(p, q, i, c);
    hide Pool.Owners, Pool.OwnershipOk, Take;
    if c == b {
      assert q.Owners(c) == {i};
    } else {
      assert c in q.reqs[i].blockTable <==> c in p.reqs[i].blockTable;
      assert q.Owners(c) == p.Owners(c);
    }
  }

  lemma PushTable(r: Request, b: BlockId, bs: nat)
    requires r.TableOk(bs) && b !in r.blockTable && r.NoGap(bs)
    ensures Push(r, b, r.Span()).TableOk(bs)
  {
  }

  lemma TakeView(p: Pool, b: BlockId)
    requires p.ContentOk() && b < |p.refs|
    ensures var v := Take(p, b).view;
      && WellFormed(v) && v.Keys <= p.view.Keys && (forall q | q in v :: v[q] == p.view[q])
      && b !in v.Values
  {
    if b in p.view.Values {
      RemoveKeepsWellFormed(p.view, PathOf(p.view, b));
    }
  }

  // ---------- frames: a step that changes one request ----------

  /** `q` is `p` with request `i` changed, no slot written and at most some prefixes forgotten. */
  ghost predicate Changes(p: Pool, q: Pool, i: nat) {
    && q.bs == p.bs && q.kv == p.kv && |q.refs| == |p.refs|
    && i < |p.reqs| == |q.reqs| && q.reqs == p.reqs[i := q.reqs[i]]
    && q.view.Keys <= p.view.Keys && forall path | path in q.view :: q.view[path] == p.view[path]
  }

  lemma ContentFrame(p: Pool, q: Pool, i: nat)
    requires Changes(p, q, i) && p.ContentOk() && WellFormed(q.view) && q.ComputedOk(i)
    ensures q.ContentOk()
  {
    hide Pool.PageHolds, Pool.Computed, PageSized;
    forall path | path in q.view
      ensures q.PathOk(path)
    {
      assert p.PathOk(path);
      SamePage(p, q, q.view[path], Flat(path), |path| - 1);
    }
    forall k: nat | k < |q.reqs|
      ensures q.ComputedOk(k)
    {
      assert p.ComputedOk(k);
      if k != i && !p.reqs[k].compressed {
        SameTable(p, q, k, p.reqs[k].cached);
      }
    }
  }

  /** What request `i` newly refers to was free or indexed, so nobody else was about to write it. */
  lemma IsolationFrame(p: Pool, q: Pool, i: nat)
    requires Changes(p, q, i) && p.OwnershipOk() && p.IsolationOk()
    requires forall b | b in q.reqs[i].blockTable :: b in p.reqs[i].blockTable || b in p.free || b in p.view.Values
    requires forall j: nat | j < |q.reqs[i].blockTable| :: q.ExclusiveOk(i, j)
    ensures q.IsolationOk()
  {
    forall k: nat, j: nat | k < |q.reqs| && j < |q.reqs[k].blockTable|
      ensures q.ExclusiveOk(k, j)
    {
      if k != i {
        var b := q.reqs[k].blockTable[j];
        assert p.ExclusiveOk(k, j);
        OwnersOf(p, q, i, b);
        assert k in p.Owners(b);
        assert p.ReqOk(k);
        assert p.RefOk(b);
      }
    }
  }

  // ---------- growing a table, continued ----------

  lemma GrowInv(p: Pool, i: nat, b: BlockId)
    requires p.Inv() && i < |p.reqs| && b in p.free && p.reqs[i].NoGap(p.bs)
    ensures b < |p.refs| && Grow(p, i, b).Inv()
  {
    GrowOwnership(p, i, b);
    var q := Grow(p, i, b);
    TakeView(p, b);
    assert p.ReqOk(i) && p.ComputedOk(i);
    hide Pool.OwnershipOk, Pool.ContentOk, Pool.IsolationOk, WellFormed;
    if !p.reqs[i].compressed {
      LongerTable(p, q, i, b, p.reqs[i].cached);
    }
    ContentFrame(p, q, i);
    GrowIsolation(p, i, b);
  }

  lemma GrowIsolation(p: Pool, i: nat, b: BlockId)
    requires p.Inv() && i < |p.reqs| && b in p.free && p.reqs[i].NoGap(p.bs)
    ensures b < |p.refs| && Grow(p, i, b).IsolationOk()
  {
    var q := Grow(p, i, b);
    TakeView(p, b);
    forall j: nat | j < |q.reqs[i].blockTable|
      ensures q.ExclusiveOk(i, j)
    {
      Ownerless(p, b, i);
      var c := q.reqs[i].blockTable[j];
      OwnersOf(p, q, i, c);
      if j < |p.reqs[i].blockTable| {
        assert p.ExclusiveOk(i, j);
      }
    }
    IsolationFrame(p, q, i);
  }

  /** Equal slots hold equal pages. */
  lemma SamePage(p: Pool, q: Pool, b: BlockId, tokens: seq<Token>, j: nat)
    requires p.bs == q.bs && (b < |p.kv| ==> b < |q.kv| && q.kv[b] == p.kv[b]) && p.PageHolds(b, tokens, j)
    ensures q.PageHolds(b, tokens, j)
  {
  }

  lemma SameTable(p: Pool, q: Pool, k: nat, n: nat)
    requires p.bs == q.bs && p.kv == q.kv && k < |p.reqs| && k < |q.reqs|
    requires q.reqs[k].blockTable == p.reqs[k].blockTable && p.reqs[k].tokens <= q.reqs[k].tokens
    requires p.Computed(k, n)
    ensures q.Computed(k, n)
  {
  }

  lemma LongerTable(p: Pool, q: Pool, i: nat, b: BlockId, n: nat)
    requires p.bs == q.bs && p.kv == q.kv && i < |p.reqs| && i < |q.reqs|
    requires q.reqs[i].tokens == p.reqs[i].tokens && q.reqs[i].blockTable == p.reqs[i].blockTable + [b]
    requires p.Computed(i, n) && n <= Start(|p.reqs[i].blockTable|, p.bs)
    ensures q.Computed(i, n)
  {
  }

  // ---------- attaching a cached page ----------

  /** Page `b` is indexed and holds what request `i` needs as its next page. */
  ghost predicate Attachable(p: Pool, i: nat, b: BlockId) {
    && i < |p.reqs| && !p.reqs[i].compressed && p.reqs[i].cached == Start(|p.reqs[i].blockTable|, p.bs)
    && b in p.view.Values && b !in p.reqs[i].blockTable
    && p.PageHolds(b, p.reqs[i].tokens, |p.reqs[i].blockTable|)
  }

  lemma AttachRef(p: Pool, i: nat, b: BlockId, c: BlockId)
    requires p.OwnershipOk() && Attachable(p, i, b) && b < |p.refs| && c < |p.refs|
    ensures Attach(p, i, b).RefOk(c)
  {
    var q := Attach(p, i, b);
    RemoveElements(p.free, b);
    assert p.RefOk(c);
    OwnersOf(p, q, i, c);
    hide Pool.Owners, Pool.PageHolds;
    if c != b {
      assert c in q.reqs[i].blockTable <==> c in p.reqs[i].blockTable;
      assert q.Owners(c) == p.Owners(c);
    }
  }

  lemma AttachOwnership(p: Pool, i: nat, b: BlockId)
    requires p.OwnershipOk() && Attachable(p, i, b) && b < |p.refs|
    ensures Attach(p, i, b).OwnershipOk()
  {
    var q := Attach(p, i, b);
    RemoveElements(p.free, b);
    forall c: BlockId | c < |q.refs|
      ensures q.RefOk(c)
    {
      AttachRef(p, i, b, c);
    }
    hide Pool.RefOk, Pool.PageHolds, Remove;
    forall k: nat | k < |q.reqs|
      ensures q.ReqOk(k)
    {
      assert p.ReqOk(k);
      if k == i {
        AttachTable(p, i, b);
      }
    }
  }

  lemma AttachTable(p: Pool, i: nat, b: BlockId)
    requires Attachable(p, i, b) && b < |p.refs| && p.reqs[i].TableOk(p.bs)
    ensures Attach(p, i, b).reqs[i].TableOk(p.bs)
  {
    hide Pool.PageHolds, Remove;
    assert Start(|p.reqs[i].blockTable| + 1, p.bs) <= |p.reqs[i].tokens| by {
      assert p.PageHolds(b, p.reqs[i].tokens, |p.reqs[i].blockTable|);
      AttachedFits(p, b, p.reqs[i].tokens, |p.reqs[i].blockTable|);
    }
  }

  lemma AttachedFits(p: Pool, b: BlockId, tokens: seq<Token>, j: nat)
    requires p.PageHolds(b, tokens, j)
    ensures Start(j + 1, p.bs) <= |tokens|
  {
  }

  /** Attaching the page is as good as computing it. */
  lemma AttachComputed(p: Pool, i: nat, b: BlockId)
    requires Attachable(p, i, b) && b < |p.refs| && p.Computed(i, p.reqs[i].cached)
    ensures Attach(p, i, b).Computed(i, Start(|p.reqs[i].blockTable| + 1, p.bs))
  {
    var q, r := Attach(p, i, b), p.reqs[i];
    forall j, off | 0 <= j < |q.reqs[i].blockTable| && q.reqs[i].blockTable[j] < |q.kv| && 0 <= off < q.bs
        && off < |q.kv[q.reqs[i].blockTable[j]]| && Start(j, q.bs) + off < Start(|r.blockTable| + 1, p.bs)
      ensures q.kv[q.reqs[i].blockTable[j]][off] == r.tokens[..Start(j, q.bs) + off + 1]
    {
      if j < |r.blockTable| {
        StartMonotone(j, |r.blockTable|, p.bs);
        assert q.reqs[i].blockTable[j] == r.blockTable[j];
      }
    }
  }

  lemma AttachIsolation(p: Pool, i: nat, b: BlockId)
    requires p.OwnershipOk() && p.IsolationOk() && Attachable(p, i, b) && b < |p.refs|
    ensures Attach(p, i, b).IsolationOk()
  {
    hide Pool.PageHolds, Remove;
    var q := Attach(p, i, b);
    forall j: nat | j < |q.reqs[i].blockTable|
      ensures q.ExclusiveOk(i, j)
    {
      StartMonotone(j + 1, |p.reqs[i].blockTable| + 1, p.bs);
    }
    IsolationFrame(p, q, i);
  }

  lemma AttachInv(p: Pool, i: nat, b: BlockId)
    requires p.Inv() && Attachable(p, i, b) && b < |p.refs|
    ensures Attach(p, i, b).Inv()
  {
    AttachOwnership(p, i, b);
    assert p.ComputedOk(i);
    AttachComputed(p, i, b);
    AttachIsolation(p, i, b);
    hide Pool.OwnershipOk, Pool.IsolationOk, Pool.PageHolds, Pool.Computed, Remove;
    ContentFrame(p, Attach(p, i, b), i);
  }

  // ---------- releasing pages ----------

  /** Several pages lose one reference each, in the given order. */
  function UnrefEach(p: Pool, ids: seq<BlockId>): Pool
    decreases |ids|
  {
    if ids == [] then p
    else if ids[0] < |p.refs| && p.refs[ids[0]] > 0 then UnrefEach(Unref(p, ids[0]), ids[1..]) else p
  }

  lemma UnrefEachStep(p: Pool, ids: seq<BlockId>, k: nat)
    requires k < |ids| && ids[k] < |p.refs| && p.refs[ids[k]] > 0
    ensures UnrefEach(p, ids[k..]) == UnrefEach(Unref(p, ids[k]), ids[k + 1..])
  {
    assert ids[k..][1..] == ids[k + 1..];
  }

  lemma UnrefNone(p: Pool, none: seq<BlockId>)
    requires none == []
    ensures UnrefEach(p, none) == p
  {
  }

  lemma {:induction false} UnrefEachIs(p: Pool, ids: seq<BlockId>)
    requires p.FreeListOk() && Distinct(ids)
    requires forall b | b in ids :: b < |p.refs| && p.refs[b] > 0 && b !in p.free
    ensures var q := UnrefEach(p, ids);
      && q == p.(refs := q.refs, free := q.free, used := q.used) && q.FreeListOk() && |q.refs| == |p.refs|
      && (forall c | 0 <= c < |p.refs| :: q.refs[c] == if c in ids then p.refs[c] - 1 else p.refs[c])
      && (forall c :: c in q.free <==> c in p.free || (c in ids && p.refs[c] == 1))
    decreases |ids|
  {
    if ids != [] {
      var b, rest := ids[0], ids[1..];
      var m := Unref(p, b);
      UnrefFree(p, b);
      assert b !in rest && forall c :: c in ids <==> c == b || c in rest;
      hide Pool.FreeListOk;
      UnrefEachIs(m, rest);
    }
  }

  /** Releasing pages does not look at the requests. */
  lemma {:induction false} UnrefEachReqs(p: Pool, ids: seq<BlockId>, reqs: seq<Request>)
    ensures UnrefEach(p.(reqs := reqs), ids) == UnrefEach(p, ids).(reqs := reqs)
    decreases |ids|
  {
    if ids != [] && ids[0] < |p.refs| && p.refs[ids[0]] > 0 {
      assert Unref(p.(reqs := reqs), ids[0]) == Unref(p, ids[0]).(reqs := reqs);
      UnrefEachReqs(Unref(p, ids[0]), ids[1..], reqs);
    }
  }

  lemma UnrefFree(p: Pool, b: BlockId)
    requires p.FreeListOk() && b < |p.refs| && p.refs[b] > 0 && b !in p.free
    ensures Unref(p, b).FreeListOk()
    ensures forall c :: c in Unref(p, b).free <==> c in p.free || (c == b && p.refs[b] == 1)
  {
  }

  /** Request `i` becomes `r`, whose table lacks the pages `ids`. */
  function Drop(p: Pool, i: nat, ids: seq<BlockId>, r: Request): Pool
    requires i < |p.reqs|
  {
    var q := UnrefEach(p, ids);
    p.(refs := q.refs, free := q.free, used := q.used, reqs := p.reqs[i := r])
  }

  ghost predicate Dropping(p: Pool, i: nat, ids: seq<BlockId>, r: Request) {
    && i < |p.reqs| && Distinct(ids) && r.TableOk(p.bs)
    && (forall b | b in ids :: b in p.reqs[i].blockTable)
    && (forall b :: b in r.blockTable <==> b in p.reqs[i].blockTable && b !in ids)
  }

  lemma Droppable(p: Pool, i: nat, ids: seq<BlockId>)
    requires p.OwnershipOk() && i < |p.reqs| && forall b | b in ids :: b in p.reqs[i].blockTable
    ensures forall b | b in ids :: b < |p.refs| && p.refs[b] > 0 && b !in p.free
  {
    forall b | b in ids
      ensures b < |p.refs| && p.refs[b] > 0 && b !in p.free
    {
      assert p.ReqOk(i) && b in p.reqs[i].blockTable;
      assert p.RefOk(b) && i in p.Owners(b);
    }
  }

  lemma DropCount(p: Pool, i: nat, ids: seq<BlockId>, r: Request, c: BlockId)
    requires p.OwnershipOk() && Dropping(p, i, ids, r) && c < |p.refs|
    ensures var q := Drop(p, i, ids, r);
      && |q.refs| == |p.refs| && q.refs[c] + (if c in ids then 1 else 0) == p.refs[c]
      && (c in q.free <==> c in p.free || (c in ids && p.refs[c] == 1))
  {
    Droppable(p, i, ids);
    UnrefEachIs(p, ids);
  }

  lemma DropRef(p: Pool, i: nat, ids: seq<BlockId>, r: Request, c: BlockId)
    requires p.OwnershipOk() && Dropping(p, i, ids, r) && c < |p.refs|
    ensures |Drop(p, i, ids, r).refs| == |p.refs| && Drop(p, i, ids, r).RefOk(c)
  {
    var q := Drop(p, i, ids, r);
    DropCount(p, i, ids, r, c);
    OwnersOf(p, q, i, c);
    assert p.RefOk(c);
    assert c in r.blockTable <==> c in p.reqs[i].blockTable && c !in ids;
    assert c in ids ==> c in p.reqs[i].blockTable;
    hide Pool.Owners, UnrefEach, Request.TableOk, Pool.OwnershipOk, Dropping;
    if c in ids {
      assert q.Owners(c) == p.Owners(c) - {i} && |q.Owners(c)| == |p.Owners(c)| - 1;
      assert c !in p.free;
      assert q.RefOk(c);
    } else {
      assert q.Owners(c) == p.Owners(c);
    }
  }

  lemma DropOwnership(p: Pool, i: nat, ids: seq<BlockId>, r: Request)
    requires p.OwnershipOk() && Dropping(p, i, ids, r)
    ensures Drop(p, i, ids, r).OwnershipOk()
  {
    Droppable(p, i, ids);
    UnrefEachIs(p, ids);
    var q := Drop(p, i, ids, r);
    forall c: BlockId | c < |q.refs|
      ensures q.RefOk(c)
    {
      DropRef(p, i, ids, r, c);
    }
    hide Pool.RefOk, UnrefEach, Request.TableOk;
    forall k: nat | k < |q.reqs|
      ensures q.ReqOk(k)
    {
      assert p.ReqOk(k) && p.ReqOk(i);
    }
  }

  /** Dropping pages keeps the invariant when no kept page becomes writable. */
  lemma DropInv(p: Pool, i: nat, ids: seq<BlockId>, r: Request)
    requires p.Inv() && Dropping(p, i, ids, r) && Drop(p, i, ids, r).ComputedOk(i)
    requires forall j: nat | j < |r.blockTable| && r.Writable(j, p.bs) ::
      exists k: nat {:trigger p.reqs[i].Writable(k, p.bs)} ::
        k < |p.reqs[i].blockTable| && p.reqs[i].blockTable[k] == r.blockTable[j] && p.reqs[i].Writable(k, p.bs)
    ensures Drop(p, i, ids, r).Inv()
  {
    DropOwnership(p, i, ids, r);
    Droppable(p, i, ids);
    UnrefEachIs(p, ids);
    var q := Drop(p, i, ids, r);
    hide UnrefEach, Pool.FreeListOk, Pool.RefOk, Pool.ReqOk, Pool.Computed, Request.TableOk;
    ContentFrame(p, q, i);
    forall j: nat | j < |q.reqs[i].blockTable|
      ensures q.ExclusiveOk(i, j)
    {
      if r.Writable(j, p.bs) {
        var k: nat :| k < |p.reqs[i].blockTable| && p.reqs[i].blockTable[k] == r.blockTable[j]
          && p.reqs[i].Writable(k, p.bs);
        assert p.ExclusiveOk(i, k);
        OwnersOf(p, q, i, r.blockTable[j]);
      }
    }
    IsolationFrame(p, q, i);
  }

  // ---------- giving back a suffix ----------

  function Reversed(s: seq<BlockId>): seq<BlockId> {
    if s == [] then [] else [s[|s|-1]] + Reversed(s[..|s|-1])
  }

  lemma {:induction false} ReversedIs(s: seq<BlockId>)
    requires Distinct(s)
    ensures Distinct(Reversed(s)) && forall b :: b in Reversed(s) <==> b in s
  {
    if s != [] {
      var t, last := s[..|s|-1], s[|s|-1];
      ReversedIs(t);
      assert s == t + [last] && last !in t;
      var u := Reversed(t);
      forall i, j | 0 <= i < |[last] + u| && 0 <= j < |[last] + u| && ([last] + u)[i] == ([last] + u)[j]
        ensures i == j
      {
        assert i > 0 ==> ([last] + u)[i] == u[i-1];
        assert j > 0 ==> ([last] + u)[j] == u[j-1];
      }
    }
  }

  /** What is left of a request that keeps `keep` pages. */
  function Kept(r: Request, keep: nat, bs: nat): Request
    requires keep <= |r.blockTable| && keep <= |r.logical|
  {
    r.(blockTable := r.blockTable[..keep], logical := r.logical[..keep],
       cached := Start(keep, bs), physical := Start(keep, bs), compressed := keep > 0 && r.compressed)
  }

  /** Request `i` keeps only its first `keep` pages and their KV. */
  function Release(p: Pool, i: nat, keep: nat): Pool
    requires i < |p.reqs| && keep <= |p.reqs[i].blockTable| && keep <= |p.reqs[i].logical|
  {
    Drop(p, i, Reversed(p.reqs[i].blockTable[keep..]), Kept(p.reqs[i], keep, p.bs))
  }

  /** A request may keep the pages it has computed in full; a compressed one keeps none. */
  ghost predicate Releasable(p: Pool, i: nat, keep: nat) {
    && i < |p.reqs| && keep <= |p.reqs[i].blockTable| && keep <= |p.reqs[i].logical|
    && (keep > 0 ==> !p.reqs[i].compressed && Start(keep, p.bs) <= p.reqs[i].cached)
  }

  lemma KeptTable(r: Request, keep: nat, bs: nat)
    requires r.TableOk(bs) && keep <= |r.blockTable| && (keep > 0 ==> !r.compressed && Start(keep, bs) <= r.cached)
    ensures Kept(r, keep, bs).TableOk(bs)
  {
    hide Distinct, Start;
    PrefixDistinct(r.blockTable, keep);
    StartIs(0, bs);
    if keep > 0 {
      LogicalIs(r, bs);
    }
    assert forall j | 0 <= j < keep :: Kept(r, keep, bs).logical[j] == r.logical[j];
  }

  /** Without compression the table lists the logical pages in order. */
  lemma LogicalIs(r: Request, bs: nat)
    requires r.TableOk(bs) && !r.compressed
    ensures forall j | 0 <= j < |r.logical| :: r.logical[j] == j
  {
    forall j | 0 <= j < |r.logical|
      ensures r.logical[j] == j
    {
      LogicalGap(r.logical, j, |r.logical| - 1);
    }
  }

  /** Increasing logical pages are at least as far apart as their positions. */
  lemma {:induction false} LogicalGap(logical: seq<nat>, j: nat, k: nat)
    requires j <= k < |logical| && forall a, b | 0 <= a < b < |logical| :: logical[a] < logical[b]
    ensures logical[j] + (k - j) <= logical[k]
    decreases k
  {
    if j < k {
      LogicalGap(logical, j, k - 1);
    }
  }

  lemma SuffixDropped(r: Request, keep: nat)
    requires keep <= |r.blockTable| && Distinct(r.blockTable)
    ensures Distinct(r.blockTable[keep..]) && Distinct(Reversed(r.blockTable[keep..]))
    ensures forall b :: b in Reversed(r.blockTable[keep..]) <==> b in r.blockTable[keep..]
    ensures forall b :: b in r.blockTable[..keep] <==> b in r.blockTable && b !in r.blockTable[keep..]
  {
    var t := r.blockTable;
    ReversedIs(t[keep..]);
    assert t == t[..keep] + t[keep..];
  }

  lemma ReleaseInv(p: Pool, i: nat, keep: nat)
    requires p.Inv() && Releasable(p, i, keep)
    ensures Release(p, i, keep).Inv()
  {
    var r := p.reqs[i];
    assert p.ReqOk(i) && p.ComputedOk(i);
    KeptTable(r, keep, p.bs);
    SuffixDropped(r, keep);
    ReleaseIsolated(p, i, keep);
    ReleaseComputed(p, i, keep);
    hide Pool.Inv, Pool.ReqOk, Pool.ComputedOk, Pool.Computed, Request.TableOk, Distinct;
    DropInv(p, i, Reversed(r.blockTable[keep..]), Kept(r, keep, p.bs));
  }

  lemma ReleaseIsolated(p: Pool, i: nat, keep: nat)
    requires Releasable(p, i, keep)
    ensures forall j: nat | j < keep :: !Kept(p.reqs[i], keep, p.bs).Writable(j, p.bs)
  {
    forall j: nat | j < keep
      ensures !Kept(p.reqs[i], keep, p.bs).Writable(j, p.bs)
    {
      StartMonotone(j + 1, keep, p.bs);
    }
  }

  lemma ReleaseComputed(p: Pool, i: nat, keep: nat)
    requires Releasable(p, i, keep) && p.ComputedOk(i) && p.OwnershipOk() && p.reqs[i].cached <= |p.reqs[i].tokens|
    ensures Release(p, i, keep).ComputedOk(i)
  {
    var q := Release(p, i, keep);
    if keep > 0 {
      hide Pool.OwnershipOk;
      assert forall j | 0 <= j < keep :: q.reqs[i].blockTable[j] == p.reqs[i].blockTable[j];
    } else {
      assert Start(0, p.bs) == 0;
    }
  }

  // ---------- reclaiming a suffix, also of a compressed request ----------

  /** Cutting the table and the counters to `keep` pages; whether it was compressed stays as it is. */
  function Cut(r: Request, keep: nat, bs: nat): Request
    requires keep <= |r.blockTable| && keep <= |r.logical|
  {
    r.(blockTable := r.blockTable[..keep], logical := r.logical[..keep],
       cached := Start(keep, bs), physical := Start(keep, bs))
  }

  /** The pool after request `i` was cut to `keep` pages. */
  function Reclaimed(p: Pool, i: nat, keep: nat): Pool
    requires i < |p.reqs| && keep <= |p.reqs[i].blockTable| && keep <= |p.reqs[i].logical|
  {
    Drop(p, i, Reversed(p.reqs[i].blockTable[keep..]), Cut(p.reqs[i], keep, p.bs))
  }

  /** What is kept is a contiguous prefix: no page before the cut was dropped by compression. */
  predicate Contiguous(r: Request, keep: nat) {
    keep <= |r.logical| && (keep > 0 ==> r.logical[keep-1] == keep - 1)
  }

  /** The cut leaves a table that fits its counters. A compressed request must also keep a page: the
      mark of compression stays, other than when everything is deallocated, and a request without
      pages must not carry it. */
  predicate Reclaimable(r: Request, keep: nat) {
    Contiguous(r, keep) && (r.compressed ==> keep > 0)
  }

  lemma PlainReclaimable(r: Request, keep: nat, bs: nat)
    requires r.TableOk(bs) && !r.compressed && keep <= |r.blockTable|
    ensures Reclaimable(r, keep)
  {
    LogicalIs(r, bs);
  }

  lemma ReclaimedPlain(p: Pool, i: nat, keep: nat)
    requires p.Inv() && i < |p.reqs| && keep <= |p.reqs[i].blockTable| && keep <= |p.reqs[i].logical|
    requires !p.reqs[i].compressed
    ensures Reclaimed(p, i, keep) == Release(p, i, keep)
  {
  }

  /** Giving back everything also takes the mark of compression away. */
  lemma ReclaimedAll(p: Pool, i: nat)
    requires i < |p.reqs|
    ensures var q := Reclaimed(p, i, 0);
      q.(reqs := q.reqs[i := q.reqs[i].(compressed := false)]) == Release(p, i, 0)
  {
  }

  lemma CutTable(r: Request, keep: nat, bs: nat)
    requires bs > 0 && r.TableOk(bs) && keep <= |r.blockTable| && Start(keep, bs) <= r.cached
    ensures Cut(r, keep, bs).TableOk(bs) <==> Reclaimable(r, keep)
  {
    hide Request.TableOk, Contiguous;
    if !r.compressed {
      PlainReclaimable(r, keep, bs);
    }
    if Reclaimable(r, keep) {
      CutFits(r, keep, bs);
    } else if keep > 0 {
      CutGaps(r, keep, bs);
    } else {
      CutEmpty(r, bs);
    }
  }

  lemma CutFits(r: Request, keep: nat, bs: nat)
    requires bs > 0 && r.TableOk(bs) && keep <= |r.blockTable| && Start(keep, bs) <= r.cached && Reclaimable(r, keep)
    ensures Cut(r, keep, bs).TableOk(bs)
  {
    hide Distinct, Start;
    PrefixDistinct(r.blockTable, keep);
    StartIs(0, bs);
    if keep > 0 {
      StartMonotone(keep - 1, keep, bs);
    }
    var c := Cut(r, keep, bs);
    assert forall j | 0 <= j < keep :: c.logical[j] == r.logical[j];
    assert c.Span() == keep;
  }

  /** A gap among the pages kept is a gap in what the counters count. */
  lemma CutGaps(r: Request, keep: nat, bs: nat)
    requires bs > 0 && r.TableOk(bs) && 0 < keep <= |r.blockTable| && !Contiguous(r, keep)
    ensures !Cut(r, keep, bs).TableOk(bs)
  {
    hide Distinct;
    var c := Cut(r, keep, bs);
    StartIs(1, bs);
    StartMonotone(1, c.Span() - keep, bs);
  }

  /** A compressed request that keeps nothing keeps the mark of compression. */
  lemma CutEmpty(r: Request, bs: nat)
    requires bs > 0 && r.compressed
    ensures !Cut(r, 0, bs).TableOk(bs)
  {
  }

  lemma PrefixDistinct(s: seq<BlockId>, keep: nat)
    requires Distinct(s) && keep <= |s|
    ensures Distinct(s[..keep])
  {
  }

  /** The pool is consistent afterwards exactly if what was kept is contiguous and, of a compressed
      request, not empty. */
  lemma ReclaimedInv(p: Pool, i: nat, keep: nat)
    requires p.Inv() && i < |p.reqs| && keep <= |p.reqs[i].blockTable| && keep <= |p.reqs[i].logical|
    requires Start(keep, p.bs) <= p.reqs[i].cached
    ensures Reclaimed(p, i, keep).Inv() <==> Reclaimable(p.reqs[i], keep)
  {
    hide Pool.Inv, Request.TableOk, Distinct, UnrefEach, Contiguous, Reclaimable;
    PlaceInPool(p, i);
    CutTable(p.reqs[i], keep, p.bs);
    if !p.reqs[i].compressed {
      PlainReclaimable(p.reqs[i], keep, p.bs);
      ReclaimedPlain(p, i, keep);
      ReleaseInv(p, i, keep);
    } else if Reclaimable(p.reqs[i], keep) {
      ReclaimedCompressed(p, i, keep);
    } else if Reclaimed(p, i, keep).Inv() {
      PlaceInPool(Reclaimed(p, i, keep), i);
    }
  }

  lemma PlaceInPool(p: Pool, i: nat)
    requires p.Inv() && i < |p.reqs|
    ensures p.bs > 0 && p.reqs[i].TableOk(p.bs) && p.OwnershipOk()
  {
    assert p.ReqOk(i);
  }

  lemma ReclaimedCompressed(p: Pool, i: nat, keep: nat)
    requires p.Inv() && i < |p.reqs| && keep <= |p.reqs[i].blockTable| && keep <= |p.reqs[i].logical|
    requires p.reqs[i].compressed && Cut(p.reqs[i], keep, p.bs).TableOk(p.bs)
    ensures Reclaimed(p, i, keep).Inv()
  {
    hide Pool.Inv, Request.TableOk, Distinct, UnrefEach;
    var r := p.reqs[i];
    PlaceInPool(p, i);
    DistinctTable(r, p.bs);
    SuffixDropped(r, keep);
    forall j: nat | j < keep
      ensures !Cut(r, keep, p.bs).Writable(j, p.bs)
    {
      StartMonotone(j + 1, keep, p.bs);
    }
    DropInv(p, i, Reversed(r.blockTable[keep..]), Cut(r, keep, p.bs));
  }

  lemma DistinctTable(r: Request, bs: nat)
    requires r.TableOk(bs)
    ensures Distinct(r.blockTable)
  {
  }

  /** One request that has all pages of a pool: of its first four pages compression left the first and
      the last. */
  function GappedPool(tokens: seq<Token>): Pool {
    var r := Request(tokens, 8, 8, Running, 8, 4, 0, [0, 1], [0, 3], true, false, false);
    Pool(2, [], {0, 1}, [1, 1], map[], [[[], []], [[], []]], [r])
  }

  lemma GappedTable(tokens: seq<Token>)
    requires |tokens| == 9
    ensures GappedPool(tokens).reqs[0].TableOk(2) && Start(2, 2) == 4
  {
    StartIs(1, 2);
    StartIs(2, 2);
  }

  lemma GappedInv(tokens: seq<Token>)
    requires |tokens| == 9
    ensures GappedPool(tokens).Inv()
  {
    hide Request.TableOk;
    var p := GappedPool(tokens);
    GappedTable(tokens);
    assert p.Owners(0) == {0} && p.Owners(1) == {0};
    forall j: nat | j < 2
      ensures p.ExclusiveOk(0, j)
    {
    }
  }

  /** Consistent pools for which reclaiming fails: cut to both its pages, the request would count as
      holding its first four positions, but its second page is its fourth; cut to none, it would
      still be marked as compressed. */
  lemma CutMisplacesPages(tokens: seq<Token>)
    requires |tokens| == 9
    ensures var p := GappedPool(tokens);
      p.Inv() && Start(2, p.bs) <= p.reqs[0].cached && !Reclaimed(p, 0, 2).Inv() && !Reclaimed(p, 0, 0).Inv()
  {
    hide Pool.Inv, Drop;
    var p := GappedPool(tokens);
    GappedInv(tokens);
    GappedTable(tokens);
    StartIs(0, 2);
    ReclaimedInv(p, 0, 2);
    ReclaimedInv(p, 0, 0);
  }
}
