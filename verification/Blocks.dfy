/** The block manager: reference-counted pages, shared through the prefix index. Each operation is
    proved to take the pool from one consistent state to the next. */
module Blocks {
  import opened Wrappers
  import opened PrefixView
  import opened RadixTree
  import opened RadixCache
  import opened Pages
  import opened Pool
  import opened PoolSteps
  import opened PoolWrites
  import opened Compression
  import opened Relevance
  import opened Allocation
  import opened Sequences

  datatype Resumability = Ready | Short | TooManyBlocks
  datatype CommitOutcome = Committed | InvalidLength | IncompleteTable

  class BlockManager {
    const blockSize: nat
    const radixCache: RadixPrefixCache
    var freeBlockIds: seq<BlockId>
    var usedBlockIds: set<BlockId>
    var refCounts: seq<nat>
    var pendingMatches: map<nat, seq<BlockId>>
    var pendingResumeMatches: map<nat, seq<BlockId>>
    ghost var kv: seq<seq<Kv>>
    ghost var requests: seq<Sequence>

    ghost function Reqs(): seq<Request>
      reads `requests, requests
    {
      var rs := requests;
      seq(|rs|, k requires 0 <= k < |rs| reads rs => rs[k].State())
    }

    ghost function Snapshot(): Pool
      reads `freeBlockIds, `usedBlockIds, `refCounts, `kv, `requests, requests, radixCache`view
    {
      Pool(blockSize, freeBlockIds, usedBlockIds, refCounts, radixCache.view, kv, Reqs())
    }

    /** The prefix index is in order and every request is known by its number. */
    ghost predicate Linked()
      reads `requests, requests
      reads radixCache`blockLocations, radixCache`nodes, radixCache`view
      reads radixCache.nodes`edgeKeys, radixCache.nodes`blockIds, radixCache.nodes`parent
      reads radixCache.nodes`children, radixCache.nodes`path
    {
      radixCache.Valid() && forall k | 0 <= k < |requests| :: requests[k].seqId == k
    }

    ghost predicate Valid()
      reads `freeBlockIds, `usedBlockIds, `refCounts, `kv, `requests, requests
      reads radixCache`blockLocations, radixCache`nodes, radixCache`view
      reads radixCache.nodes`edgeKeys, radixCache.nodes`blockIds, radixCache.nodes`parent
      reads radixCache.nodes`children, radixCache.nodes`path
    {
      Linked() && Snapshot().Inv()
    }

    ghost predicate Knows(s: Sequence)
      reads `requests
    {
      s.seqId < |requests| && requests[s.seqId] == s
    }

    lemma Fields(s: Sequence)
      requires Knows(s)
      ensures |Reqs()| == |requests| && Reqs()[s.seqId] == s.State()
    {
    }

    constructor (numBlocks: nat, pageSize: nat)
      requires pageSize > 0
      ensures Valid() && blockSize == pageSize && |refCounts| == |freeBlockIds| == numBlocks && requests == []
      ensures radixCache.view == map[] && fresh(radixCache) && fresh(radixCache.nodes)
    {
      blockSize := pageSize;
      radixCache := new RadixPrefixCache();
      freeBlockIds := Upto(numBlocks);
      usedBlockIds := {};
      refCounts := seq(numBlocks, _ => 0);
      pendingMatches, pendingResumeMatches := map[], map[];
      kv := seq(numBlocks, _ => seq(pageSize, _ => []));
      requests := [];
      new;
      UptoIs(numBlocks);
      EmptyPool(Snapshot());
    }

    /** Only `s` changed among the requests. */
    twostate lemma OnlyChanged(s: Sequence)
      requires old(Linked()) && requests == old(requests) && Knows(s)
      requires forall t | t in requests && t != s :: t.State() == old(t.State())
      ensures Reqs() == old(Reqs())[s.seqId := s.State()]
    {
    }

    lemma SnapshotAt(s: Sequence)
      requires Knows(s)
      ensures s.seqId < |Snapshot().reqs| && Snapshot().reqs[s.seqId] == s.State()
    {
    }

    // ---------- marks on a request; its pages stay as they are ----------

    twostate lemma Touched(s: Sequence)
      requires old(Valid()) && Linked() && requests == old(requests) && Knows(s)
      requires forall t | t in requests && t != s :: t.State() == old(t.State())
      requires Snapshot() == old(Snapshot()).(reqs := Reqs()) && SameKv(old(s.State()), s.State())
      ensures Valid() && Snapshot() == SetReq(old(Snapshot()), s.seqId, s.State())
    {
      hide RadixPrefixCache.Valid, Pool.Inv, SameKv;
      OnlyChanged(s);
      SetReqInv(old(Snapshot()), s.seqId, s.State());
    }

    method Mark(s: Sequence, status: Status, scheduled: nat, prefill: bool)
      requires Valid() && Knows(s)
      modifies s`status, s`scheduledTokens, s`isPrefill
      ensures Valid() && Snapshot() == SetReq(old(Snapshot()), s.seqId, s.State())
      ensures s.State() == old(s.State()).(status := status, scheduled := scheduled, prefill := prefill)
    {
      hide RadixPrefixCache.Valid, Pool.Inv;
      s.status, s.scheduledTokens, s.isPrefill := status, scheduled, prefill;
      Touched(s);
    }

    method BeginRestore(s: Sequence) returns (ok: bool)
      requires Valid() && Knows(s)
      modifies s`status, s`restoreAttempted
      ensures Valid() && Snapshot() == SetReq(old(Snapshot()), s.seqId, s.State()) && ok == (old(s.status) == Waiting)
      ensures s.State() == if ok then old(s.State()).(status := WaitingForKv, attempted := true) else old(s.State())
    {
      hide RadixPrefixCache.Valid, Pool.Inv;
      ok := s.BeginRestore();
      Touched(s);
    }

    method EndRestore(s: Sequence) returns (ok: bool)
      requires Valid() && Knows(s)
      modifies s`status
      ensures Valid() && Snapshot() == SetReq(old(Snapshot()), s.seqId, s.State())
        && ok == (old(s.status) == WaitingForKv)
      ensures s.State() == if ok then old(s.State()).(status := Waiting) else old(s.State())
    {
      hide RadixPrefixCache.Valid, Pool.Inv;
      ok := s.EndRestore();
      Touched(s);
    }

    method Cancel(s: Sequence)
      requires Valid() && Knows(s)
      modifies s`status, s`scheduledTokens
      ensures Valid() && Snapshot() == SetReq(old(Snapshot()), s.seqId, s.State())
      ensures s.State() == old(s.State()).(scheduled := 0,
        status := if old(s.IsTerminal()) then old(s.status) else Cancelled)
    {
      hide RadixPrefixCache.Valid, Pool.Inv;
      s.scheduledTokens := 0;
      s.Cancel();
      Touched(s);
    }

    method AppendToken(s: Sequence, token: Token)
      requires Valid() && Knows(s)
      modifies s`tokenIds
      ensures Valid() && Snapshot() == SetReq(old(Snapshot()), s.seqId, s.State())
      ensures s.State() == old(s.State()).(tokens := old(s.tokenIds) + [token])
    {
      hide RadixPrefixCache.Valid, Pool.Inv;
      s.AppendToken(token);
      Touched(s);
    }

    /** The scheduled positions are computed: the pages they fill are published, and the counters
        move on. */
    method FinishRun(s: Sequence)
      requires Valid() && Knows(s) && Ran(Snapshot(), s.seqId, s.scheduledTokens)
      modifies radixCache, radixCache.nodes, s`cachedTokens, s`physicalCachedTokens, s`scheduledTokens
      ensures Valid() && fresh(radixCache.nodes - old(radixCache.nodes))
      ensures Snapshot() == Complete(old(Snapshot()), s.seqId, old(s.scheduledTokens))
      ensures s.State() == Advanced(old(s.State()), old(s.scheduledTokens))
    {
      hide RadixPrefixCache.Valid, Pool.Inv, Complete, Ran;
      Fields(s);
      CompleteInv(Snapshot(), s.seqId, s.scheduledTokens);
      HashBlocks(s);
      label published:
      s.cachedTokens := s.cachedTokens + s.scheduledTokens;
      s.physicalCachedTokens := s.physicalCachedTokens + s.scheduledTokens;
      s.scheduledTokens := 0;
      OnlyChanged@published(s);
    }

    // ---------- taking a page ----------

    method FirstUnindexed() returns (b: Option<BlockId>)
      ensures b.None? ==> forall c | c in freeBlockIds :: c in radixCache.blockLocations
      ensures b.Some? ==> b.value in freeBlockIds && b.value !in radixCache.blockLocations
    {
      for k := 0 to |freeBlockIds|
        invariant forall c | c in freeBlockIds[..k] :: c in radixCache.blockLocations
      {
        if freeBlockIds[k] !in radixCache.blockLocations {
          return Some(freeBlockIds[k]);
        }
      }
      return None;
    }

    /** The page to reuse next. An unindexed page is preferred; failing that, the last free page of
        the least recently used leaf of the index. */
    method ChooseBlock() returns (b: BlockId)
      requires Linked() && freeBlockIds != []
      ensures b in freeBlockIds
      ensures (exists c | c in freeBlockIds :: c !in radixCache.view.Values) ==> b !in radixCache.view.Values
      ensures (forall c | c in freeBlockIds :: c in radixCache.view.Values) ==>
        LeastRecent(b) || (NoFreeLeaf() && b == freeBlockIds[0])
    {
      radixCache.Parts();
      radixCache.Shape().ViewWellFormed();
      hide Trie.Inv, RadixPrefixCache.Shape;
      var unindexed := FirstUnindexed();
      if unindexed.Some? {
        return unindexed.value;
      }
      var leaf := radixCache.LruLeafBlock(Elements(freeBlockIds));
      if leaf.Some? {
        b := leaf.value;
      } else {
        b := freeBlockIds[0];
      }
    }

    ghost predicate NoFreeLeaf()
      reads this, radixCache, radixCache.nodes
    {
      forall n, id | n in radixCache.nodes :: !radixCache.Shape().LeafPage(n, Elements(freeBlockIds), id)
    }

    /** `b` is the last free page of a leaf, and no leaf with a free page was used less recently. */
    ghost predicate LeastRecent(b: BlockId)
      reads this, radixCache, radixCache.nodes
    {
      exists n | n in radixCache.nodes ::
        && radixCache.Shape().LeafPage(n, Elements(freeBlockIds), b)
        && forall m, id | m in radixCache.nodes && radixCache.Shape().LeafPage(m, Elements(freeBlockIds), id) ::
             LeafCandidate(n.lastAccess, b).AtMost(LeafCandidate(m.lastAccess, id))
    }

    /** A free page is taken for reuse. What the index kept under it is forgotten, and nothing else:
        as long as a free page is unindexed nothing is forgotten at all, and taking the last free
        page of a leaf forgets it and the pages behind it in the leaf, none of which is free. */
    method AllocateBlock() returns (b: BlockId)
      requires Valid() && freeBlockIds != []
      modifies `freeBlockIds, `usedBlockIds, `refCounts, radixCache, radixCache.nodes
      ensures Linked() && radixCache.nodes <= old(radixCache.nodes)
      ensures b in old(freeBlockIds) && b < |old(refCounts)| && Snapshot() == Take(old(Snapshot()), b)
      ensures (exists c | c in old(freeBlockIds) :: c !in old(radixCache.view).Values) ==>
        radixCache.view == old(radixCache.view)
      ensures old(!NoFreeLeaf()) ==> forall c | c in old(freeBlockIds) && c in old(radixCache.view).Values ::
        c == b || c in radixCache.view.Values
      ensures old(!NoFreeLeaf()) && b in old(radixCache.view).Values ==>
        var tail := old(radixCache.Shape()).Tail(b);
        && tail != [] && tail[0] == b && (forall c | c in tail[1..] :: c !in old(freeBlockIds))
        && forall c | c in old(radixCache.view).Values :: c in radixCache.view.Values <==> c !in tail
    {
      hide Pool.Inv, RadixPrefixCache.Valid, RadixPrefixCache.Shape, Take, Reqs, LeastRecent, NoFreeLeaf, PathOf,
        BlockManager.Linked, Trie.Tail, OwnTail;
      ghost var p := Snapshot();
      UnreferencedFree(p);
      b := ChooseBlock();
      LeafEviction(b);
      ghost var tail := radixCache.Shape().Tail(b);
      TakePage(b);
      TakeForgets(p, b, tail);
    }

    method TakePage(b: BlockId)
      requires Linked() && b in freeBlockIds && b < |refCounts| && refCounts[b] == 0
      modifies `freeBlockIds, `usedBlockIds, `refCounts, radixCache, radixCache.nodes
      ensures Linked() && radixCache.nodes <= old(radixCache.nodes)
      ensures Snapshot() == Take(old(Snapshot()), b)
    {
      hide RadixPrefixCache.Valid, RadixPrefixCache.Shape, RemoveView, PathOf;
      freeBlockIds := Remove(freeBlockIds, b);
      var evicted := radixCache.RemoveBlock(b);
      refCounts := refCounts[b := 1];
      usedBlockIds := usedBlockIds + {b};
      assert Reqs() == old(Reqs());
    }

    /** Invalidating the last free page of a leaf invalidates the pages behind it, and no other free
        page. */
    lemma LeafEviction(b: BlockId)
      requires Linked()
      ensures LeastRecent(b) ==>
        b in radixCache.view.Values
        && OwnTail(radixCache.view, Elements(freeBlockIds), b, radixCache.Shape().Tail(b))
    {
      hide RadixPrefixCache.Shape, Trie.Inv, Trie.LeafPage, Trie.Tail, OwnTail;
      radixCache.Parts();
      if LeastRecent(b) {
        var trie, free := radixCache.Shape(), Elements(freeBlockIds);
        var n :| n in radixCache.nodes && trie.LeafPage(n, free, b);
        trie.LeafTail(n, free, b);
      }
    }

    /** One more fresh page for `s`. */
    method AppendBlock(s: Sequence, logical: nat)
      requires Valid() && Knows(s) && freeBlockIds != [] && s.State().NoGap(blockSize) && logical == s.State().Span()
      modifies `freeBlockIds, `usedBlockIds, `refCounts, radixCache, radixCache.nodes, s`blockTable, s`logicalIndices
      ensures Valid() && radixCache.nodes <= old(radixCache.nodes)
      ensures s.blockTable != [] && s.blockTable[|s.blockTable|-1] in old(freeBlockIds)
        && s.blockTable[|s.blockTable|-1] < |old(refCounts)|
      ensures Snapshot() == Grow(old(Snapshot()), s.seqId, s.blockTable[|s.blockTable|-1])
    {
      hide Pool.Inv, RadixPrefixCache.Valid, Take;
      ghost var p := Snapshot();
      Fields(s);
      var b := AllocateBlock();
      assert Reqs() == p.reqs;
      GrowInv(p, s.seqId, b);
      s.blockTable := s.blockTable + [b];
      s.logicalIndices := s.logicalIndices + [logical];
      OnlyChanged(s);
      assert Snapshot() == Grow(p, s.seqId, b);
    }

    /** Fresh pages for `s` until its table has `n`. */
    method GrowTo(s: Sequence, n: nat)
      requires Valid() && Knows(s) && !s.compressed && |s.blockTable| <= n <= |freeBlockIds| + |s.blockTable|
      modifies `freeBlockIds, `usedBlockIds, `refCounts, radixCache, radixCache.nodes, s`blockTable, s`logicalIndices
      ensures Valid() && radixCache.nodes <= old(radixCache.nodes)
      ensures Grown(old(Snapshot()), Snapshot(), s.seqId, n)
      ensures n == |old(s.blockTable)| ==> Snapshot() == old(Snapshot())
    {
      hide Pool.Inv, RadixPrefixCache.Valid, Take, Grow, KeepsMatches;
      ghost var p, i := Snapshot(), s.seqId;
      Fields(s);
      GrownNothing(p, i);
      while |s.blockTable| < n
        invariant Valid() && Knows(s) && requests == old(requests) && radixCache.nodes <= old(radixCache.nodes)
        invariant |s.blockTable| == |old(s.blockTable)| ==> Snapshot() == p
        invariant |old(s.blockTable)| <= |s.blockTable| <= n && !s.compressed && Grown(p, Snapshot(), i, |s.blockTable|)
        decreases n - |s.blockTable|
      {
        ghost var q := Snapshot();
        Fields(s);
        Plain(q, i);
        AppendBlock(s, |s.logicalIndices|);
        Fields(s);
        GrownNext(p, q, i, |q.reqs[i].blockTable|, s.blockTable[|s.blockTable|-1]);
      }
    }

    // ---------- sharing cached pages ----------

    /** `s` attaches the cached page `b`. */
    method AttachBlock(s: Sequence, b: BlockId)
      requires Valid() && Knows(s) && b < |refCounts| && Attachable(Snapshot(), s.seqId, b)
      modifies `freeBlockIds, `usedBlockIds, `refCounts
      modifies s`blockTable, s`logicalIndices, s`cachedTokens, s`physicalCachedTokens
      ensures Valid() && Snapshot() == Attach(old(Snapshot()), s.seqId, b)
      ensures s.blockTable == old(s.blockTable) + [b]
    {
      hide Pool.Inv, RadixPrefixCache.Valid, BlockManager.Linked, Attachable, Share;
      ghost var p := Snapshot();
      Fields(s);
      AttachInv(p, s.seqId, b);
      AttachableTable(p, s.seqId, b);
      ShareBlock(b);
      ExtendTable(s, b);
    }

    /** One more table refers to `b`, which is taken off the free pages if it is one. */
    method ShareBlock(b: BlockId)
      requires Linked() && b < |refCounts|
      modifies `freeBlockIds, `usedBlockIds, `refCounts
      ensures Linked() && Reqs() == old(Reqs()) && Snapshot() == Share(old(Snapshot()), b)
    {
      hide RadixPrefixCache.Valid, Remove;
      if b in usedBlockIds {
        refCounts := refCounts[b := refCounts[b] + 1];
      } else {
        freeBlockIds := Remove(freeBlockIds, b);
        usedBlockIds := usedBlockIds + {b};
        refCounts := refCounts[b := 1];
      }
    }

    /** `b`, whose KV is there already, becomes the next page of `s`. */
    method ExtendTable(s: Sequence, b: BlockId)
      requires Linked() && Knows(s) && |s.logicalIndices| == |s.blockTable| && blockSize > 0
      requires s.cachedTokens == s.physicalCachedTokens == Start(|s.blockTable|, blockSize)
      modifies s`blockTable, s`logicalIndices, s`cachedTokens, s`physicalCachedTokens
      ensures Linked() && s.blockTable == old(s.blockTable) + [b]
      ensures var n := Start(|old(s.blockTable)| + 1, blockSize);
        Snapshot() == SetReq(old(Snapshot()), s.seqId,
          Push(old(s.State()), b, |old(s.blockTable)|).(cached := n, physical := n))
    {
      hide RadixPrefixCache.Valid;
      StartIs(|s.blockTable|, blockSize);
      StartIs(|s.blockTable| + 1, blockSize);
      s.blockTable := s.blockTable + [b];
      s.logicalIndices := s.logicalIndices + [|s.logicalIndices|];
      s.cachedTokens := s.cachedTokens + blockSize;
      s.physicalCachedTokens := s.physicalCachedTokens + blockSize;
      OnlyChanged(s);
    }

    /** `s` attaches the pages of `ids` that it does not hold yet. */
    method AttachCached(s: Sequence, ids: seq<BlockId>)
      requires Valid() && Knows(s) && Resumable(Snapshot(), s.seqId, ids)
      modifies `freeBlockIds, `usedBlockIds, `refCounts
      modifies s`blockTable, s`logicalIndices, s`cachedTokens, s`physicalCachedTokens
      ensures Valid() && Attached(old(Snapshot()), Snapshot(), s.seqId, ids, |ids|)
      ensures Spent(old(Snapshot()), Snapshot(), ids[|old(s.blockTable)|..])
    {
      hide Pool.Inv, RadixPrefixCache.Valid, Attach, AttachTo, Cached, Attachable, Spent;
      ghost var p, i := Snapshot(), s.seqId;
      Fields(s);
      CachedIds(p, i, ids);
      ghost var m := |s.blockTable|;
      AttachToNothing(p, i, ids);
      for n := |s.blockTable| to |ids|
        invariant Valid() && Knows(s) && requests == old(requests)
        invariant |s.blockTable| == n && Snapshot() == AttachTo(p, i, ids, n)
      {
        AttachToInv(p, i, ids, n);
        Fields(s);
        NextAttachable(Snapshot(), i, ids);
        AttachToStep(p, i, ids, n);
        AttachBlock(s, ids[n]);
      }
      AttachToInv(p, i, ids, |ids|);
      assert ids[m..] == ids[m..|ids|];
    }

    // ---------- admission ----------

    /** The index keys of the first `n` pages of `s`. */
    method BlockKeys(s: Sequence, n: nat) returns (keys: Path)
      requires blockSize > 0 && Start(n, blockSize) <= |s.tokenIds|
      ensures keys == PathOfTokens(s.tokenIds, n, blockSize)
    {
      keys := [];
      for k := 0 to n
        invariant Start(k, blockSize) <= |s.tokenIds| && keys == PathOfTokens(s.tokenIds, k, blockSize)
      {
        StartMonotone(k + 1, n, blockSize);
        PagesForAtMost(|s.tokenIds|, k, blockSize);
        BlockIsKey(s, k, blockSize);
        PathStep(s.tokenIds, k + 1, blockSize);
        keys := keys + [s.Block(k, blockSize)];
      }
    }

    /** The cached pages a request can start from. */
    method LookupCachedBlocks(s: Sequence) returns (matched: seq<BlockId>)
      requires Valid() && Knows(s)
      modifies radixCache`clock, radixCache.nodes`lastAccess
      ensures Valid() && Snapshot() == old(Snapshot()) && Cached(Snapshot(), s.seqId, matched)
    {
      hide RadixPrefixCache.Valid, Pool.Inv, IsMatch;
      FreeOk(Snapshot());
      Fields(s);
      CacheableFull(s.State(), blockSize);
      var keys := BlockKeys(s, if s.NumBlocks(blockSize) > 0 then s.NumBlocks(blockSize) - 1 else 0);
      matched := radixCache.Match(keys);
      assert Reqs() == old(Reqs());
    }

    method CountUsed(ids: seq<BlockId>) returns (n: nat)
      ensures n == InUse(ids, usedBlockIds)
    {
      n := 0;
      for k := 0 to |ids|
        invariant n == InUse(ids[..k], usedBlockIds)
      {
        assert ids[..k + 1][..k] == ids[..k];
        if ids[k] in usedBlockIds {
          n := n + 1;
        }
      }
      assert ids[..|ids|] == ids;
    }

    /** Whether the free pages suffice to admit `s`: -1 when they do not, otherwise the number of
        cached pages it would attach. */
    method CanAllocate(s: Sequence) returns (count: int)
      requires Valid() && Knows(s) && s.blockTable == []
      modifies `pendingMatches, radixCache`clock, radixCache.nodes`lastAccess
      ensures Valid() && Snapshot() == old(Snapshot())
      ensures count == -1 ==> exists ids {:trigger Cached(Snapshot(), s.seqId, ids)} ::
        Cached(Snapshot(), s.seqId, ids) && !Affordable(Snapshot(), s.seqId, ids)
      ensures count != -1 ==> s.seqId in pendingMatches && count == |pendingMatches[s.seqId]|
      ensures count != -1 ==>
        Cached(Snapshot(), s.seqId, pendingMatches[s.seqId]) && Affordable(Snapshot(), s.seqId, pendingMatches[s.seqId])
    {
      hide RadixPrefixCache.Valid, Pool.Inv, Cached;
      var cachedIds := LookupCachedBlocks(s);
      Fields(s);
      FreeOk(Snapshot());
      var used := CountUsed(cachedIds);
      assert cachedIds[0..] == cachedIds;
      InUseBound(cachedIds, usedBlockIds);
      var needed := s.NumBlocks(blockSize) - used;
      if |freeBlockIds| < needed {
        pendingMatches := pendingMatches - {s.seqId};
        return -1;
      }
      pendingMatches := pendingMatches[s.seqId := cachedIds];
      return |cachedIds|;
    }

    /** What a planned admission takes from the free pages. */
    method PlannedAllocationPages(s: Sequence) returns (pages: int)
      requires blockSize > 0 && s.seqId in pendingMatches
      ensures pages == s.NumBlocks(blockSize) - InUse(pendingMatches[s.seqId], usedBlockIds)
    {
      var used := CountUsed(pendingMatches[s.seqId]);
      pages := s.NumBlocks(blockSize) - used;
    }

    /** `s` gets its complete table: the cached pages found for it, then fresh ones. Fails without
        effect when the index no longer has `count` pages for it. */
    method Allocate(s: Sequence, count: nat) returns (ok: bool, ghost ids: seq<BlockId>)
      requires Valid() && Knows(s) && s.blockTable == [] && s.cachedTokens == 0 && !s.compressed
      requires s.seqId in pendingMatches && |pendingMatches[s.seqId]| == count ==>
        Cached(Snapshot(), s.seqId, pendingMatches[s.seqId])
      requires forall ids {:trigger Cached(Snapshot(), s.seqId, ids)} | Cached(Snapshot(), s.seqId, ids)
        && |ids| == count :: Affordable(Snapshot(), s.seqId, ids)
      modifies this, radixCache, radixCache.nodes, s`blockTable, s`logicalIndices, s`cachedTokens,
        s`physicalCachedTokens
      ensures Valid() && radixCache.nodes <= old(radixCache.nodes) && requests == old(requests)
      ensures ok <==> |ids| == count
      ensures s.seqId !in pendingMatches
      ensures Cached(old(Snapshot()), s.seqId, ids) && Cached(Snapshot(), s.seqId, ids)
      ensures if ok then Allocated(old(Snapshot()), Snapshot(), s.seqId, ids) else Snapshot() == old(Snapshot())
    {
      hide RadixPrefixCache.Valid, Pool.Inv, Cached, Affordable, Attached, Spent, Grown, Allocated;
      ghost var p := Snapshot();
      Fields(s);
      var cachedIds;
      if s.seqId in pendingMatches && |pendingMatches[s.seqId]| == count {
        cachedIds := pendingMatches[s.seqId];
        pendingMatches := pendingMatches - {s.seqId};
      } else {
        pendingMatches := pendingMatches - {s.seqId};
        cachedIds := LookupCachedBlocks(s);
      }
      ids := cachedIds;
      if |cachedIds| != count {
        return false, ids;
      }
      FromNothing(p, s.seqId, ids);
      CompleteTable(s, cachedIds);
      return true, ids;
    }

    /** The table of `s` is completed: cached pages first, then fresh ones. */
    method CompleteTable(s: Sequence, ids: seq<BlockId>)
      requires Valid() && Knows(s) && Resumable(Snapshot(), s.seqId, ids) && Affordable(Snapshot(), s.seqId, ids)
      modifies `freeBlockIds, `usedBlockIds, `refCounts, radixCache, radixCache.nodes
      modifies s`blockTable, s`logicalIndices, s`cachedTokens, s`physicalCachedTokens
      ensures Valid() && radixCache.nodes <= old(radixCache.nodes)
      ensures Allocated(old(Snapshot()), Snapshot(), s.seqId, ids) && Cached(Snapshot(), s.seqId, ids)
    {
      hide RadixPrefixCache.Valid, Pool.Inv, Cached, Affordable, Spent, Grown, Allocated;
      ghost var p := Snapshot();
      Fields(s);
      AttachCached(s, ids);
      ghost var mid := Snapshot();
      Fields(s);
      AttachedAffords(p, mid, s.seqId, ids);
      Plain(mid, s.seqId);
      FreeOk(mid);
      GrowTo(s, s.NumBlocks(blockSize));
      AttachedGrown(p, mid, Snapshot(), s.seqId, ids);
    }

    // ---------- resuming ----------

    /** Whether a request that kept a prefix can get the rest of its table, and if so which cached
        pages it would attach next. */
    method CanResume(s: Sequence) returns (r: Resumability)
      requires Valid() && Knows(s)
      modifies `pendingResumeMatches, radixCache`clock, radixCache.nodes`lastAccess
      ensures Valid() && Snapshot() == old(Snapshot())
      ensures r.TooManyBlocks? <==> s.State().NumBlocks(blockSize) < |s.blockTable|
      ensures r.Short? ==> exists suffix {:trigger ContinuesTable(Snapshot(), s.seqId, suffix)} ::
        ContinuesTable(Snapshot(), s.seqId, suffix) && !Affordable(Snapshot(), s.seqId, s.blockTable + suffix)
      ensures r.Ready? ==> s.seqId in pendingResumeMatches
      ensures r.Ready? ==> ResumePlan(Snapshot(), s.seqId, pendingResumeMatches[s.seqId])
    {
      hide RadixPrefixCache.Valid, Pool.Inv, Cached;
      FreeOk(Snapshot());
      Fields(s);
      if s.NumBlocks(blockSize) < |s.blockTable| {
        return TooManyBlocks;
      }
      var missing := s.NumBlocks(blockSize) - |s.blockTable|;
      var cachedIds := LookupCachedBlocks(s);
      var retained := |s.blockTable|;
      var suffix := [];
      CachedIds(Snapshot(), s.seqId, cachedIds);
      if retained <= |cachedIds| && cachedIds[..retained] == s.blockTable {
        var end := if retained + missing < |cachedIds| then retained + missing else |cachedIds|;
        suffix := cachedIds[retained..end];
        assert suffix == cachedIds[retained..];
      }
      assert s.blockTable <= cachedIds <==> retained <= |cachedIds| && cachedIds[..retained] == s.blockTable;
      assert (s.blockTable + suffix)[retained..] == suffix;
      assert ContinuesTable(Snapshot(), s.seqId, suffix);
      var used := CountUsed(suffix);
      InUseBound(suffix, usedBlockIds);
      if |freeBlockIds| < missing - used {
        pendingResumeMatches := pendingResumeMatches - {s.seqId};
        return Short;
      }
      pendingResumeMatches := pendingResumeMatches[s.seqId := suffix];
      return Ready;
    }

    /** The table of `s` is completed, keeping its prefix and attaching what the index has after
        it. A complete table stays as it is. */
    method Resume(s: Sequence) returns (ok: bool, ghost suffix: seq<BlockId>)
      requires Valid() && Knows(s) && !s.compressed
      requires |s.blockTable| < s.State().NumBlocks(blockSize) ==> s.cachedTokens == Start(|s.blockTable|, blockSize)
      requires s.seqId in pendingResumeMatches ==> ResumePlan(Snapshot(), s.seqId, pendingResumeMatches[s.seqId])
      modifies this, radixCache, radixCache.nodes, s`blockTable, s`logicalIndices, s`cachedTokens,
        s`physicalCachedTokens
      ensures Valid() && radixCache.nodes <= old(radixCache.nodes) && requests == old(requests)
      ensures old(s.seqId in pendingResumeMatches) ==> ok
      ensures !ok ==> Snapshot() == old(Snapshot())
      ensures ok ==> ContinuesTable(old(Snapshot()), s.seqId, suffix)
      ensures ok && |old(s.blockTable)| == s.State().NumBlocks(blockSize) ==> Snapshot() == old(Snapshot())
      ensures ok && |old(s.blockTable)| < s.State().NumBlocks(blockSize) ==>
        Allocated(old(Snapshot()), Snapshot(), s.seqId, old(s.blockTable) + suffix)
    {
      hide RadixPrefixCache.Valid, Pool.Inv, Cached, Allocated, ContinuesTable, ResumePlan;
      suffix := [];
      if s.seqId !in pendingResumeMatches {
        var r := CanResume(s);
        if !r.Ready? {
          return false, suffix;
        }
      }
      var attach := pendingResumeMatches[s.seqId];
      pendingResumeMatches := pendingResumeMatches - {s.seqId};
      suffix := attach;
      PlanContinues(Snapshot(), s.seqId, suffix);
      ResumeWith(s, attach);
      return true, suffix;
    }

    method ResumeWith(s: Sequence, attach: seq<BlockId>)
      requires Valid() && Knows(s) && !s.compressed && ResumePlan(Snapshot(), s.seqId, attach)
      requires |s.blockTable| < s.State().NumBlocks(blockSize) ==> s.cachedTokens == Start(|s.blockTable|, blockSize)
      modifies `freeBlockIds, `usedBlockIds, `refCounts, radixCache, radixCache.nodes
      modifies s`blockTable, s`logicalIndices, s`cachedTokens, s`physicalCachedTokens
      ensures Valid() && radixCache.nodes <= old(radixCache.nodes)
      ensures |old(s.blockTable)| == s.State().NumBlocks(blockSize) ==> Snapshot() == old(Snapshot())
      ensures |old(s.blockTable)| < s.State().NumBlocks(blockSize) ==>
        Allocated(old(Snapshot()), Snapshot(), s.seqId, old(s.blockTable) + attach)
    {
      hide RadixPrefixCache.Valid, Pool.Inv, Cached, Affordable, Grown, Allocated, KeepsMatches, ContinuesTable;
      ghost var p := Snapshot();
      Fields(s);
      FreeOk(p);
      Plain(p, s.seqId);
      if attach != [] {
        PlanContinues(p, s.seqId, attach);
        ContinuesCached(p, s.seqId, attach);
        CachedIds(p, s.seqId, s.blockTable + attach);
        CompleteTable(s, s.blockTable + attach);
      } else {
        NothingContinues(p, s.seqId);
        GrowTo(s, s.NumBlocks(blockSize));
        GrewAlone(p, Snapshot(), s.seqId);
        assert old(s.blockTable) + attach == old(s.blockTable);
      }
    }

    // ---------- giving pages back ----------

    /** Each page of `ids` loses one reference; the pages nobody refers to any more become free. */
    method Unreference(ids: seq<BlockId>)
      requires Valid() && Distinct(ids)
      requires forall b: BlockId | b in ids :: b < |refCounts| && refCounts[b] > 0 && b !in freeBlockIds
      modifies `freeBlockIds, `usedBlockIds, `refCounts
      ensures Linked() && Snapshot() == UnrefEach(old(Snapshot()), ids)
    {
      hide RadixPrefixCache.Valid, Pool.Inv, UnrefEach, Unref;
      ghost var p := Snapshot();
      FreeOk(p);
      assert forall j | 0 <= j < |ids| :: ids[j] in ids;
      assert ids[0..] == ids;
      for k := 0 to |ids|
        invariant Linked() && requests == old(requests) && Reqs() == p.reqs
        invariant UnrefEach(Snapshot(), ids[k..]) == UnrefEach(p, ids)
        invariant forall j | k <= j < |ids| :: ids[j] < |refCounts| && refCounts[ids[j]] > 0
      {
        UnrefEachStep(Snapshot(), ids, k);
        UnrefBlock(ids[k]);
      }
      UnrefNone(Snapshot(), ids[|ids|..]);
    }

    method UnrefBlock(b: BlockId)
      requires Linked() && b < |refCounts| && refCounts[b] > 0
      modifies `freeBlockIds, `usedBlockIds, `refCounts
      ensures Linked() && Reqs() == old(Reqs()) && Snapshot() == Unref(old(Snapshot()), b)
      ensures refCounts == old(refCounts)[b := old(refCounts)[b] - 1]
    {
      hide RadixPrefixCache.Valid;
      refCounts := refCounts[b := refCounts[b] - 1];
      if refCounts[b] == 0 {
        usedBlockIds := usedBlockIds - {b};
        freeBlockIds := freeBlockIds + [b];
      }
    }

    /** `s` gives back every page. */
    method Deallocate(s: Sequence)
      requires Valid() && Knows(s)
      modifies `freeBlockIds, `usedBlockIds, `refCounts, `pendingResumeMatches
      modifies s`blockTable, s`logicalIndices, s`cachedTokens, s`physicalCachedTokens, s`compressed
      ensures Valid() && Releasable(old(Snapshot()), s.seqId, 0) && Snapshot() == Release(old(Snapshot()), s.seqId, 0)
    {
      hide RadixPrefixCache.Valid, Pool.Inv, UnrefEach, BlockManager.Linked, Reversed;
      ghost var p, i := Snapshot(), s.seqId;
      Fields(s);
      FreeOk(p);
      ReleaseInv(p, i, 0);
      ReclaimedAll(p, i);
      pendingResumeMatches := pendingResumeMatches - {s.seqId};
      GiveBack(s, 0);
      Unmark(s);
    }

    method Unmark(s: Sequence)
      requires Linked() && Knows(s)
      modifies s`compressed
      ensures Linked() && Snapshot() == SetReq(old(Snapshot()), s.seqId, old(s.State()).(compressed := false))
    {
      hide RadixPrefixCache.Valid;
      s.compressed := false;
      OnlyChanged(s);
    }

    /** The pages after the first `keep` lose this reference, last page first, and the counters say
        that just the KV of the others is held. */
    method GiveBack(s: Sequence, keep: nat)
      requires Valid() && Knows(s) && keep <= |s.blockTable| && keep <= |s.logicalIndices| && blockSize > 0
      modifies `freeBlockIds, `usedBlockIds, `refCounts
      modifies s`blockTable, s`logicalIndices, s`cachedTokens, s`physicalCachedTokens
      ensures Linked() && Snapshot() == Reclaimed(old(Snapshot()), s.seqId, keep)
    {
      hide RadixPrefixCache.Valid, Pool.Inv, UnrefEach, BlockManager.Linked, Cut, Reversed;
      ghost var p, i := Snapshot(), s.seqId;
      Fields(s);
      FreeOk(p);
      ReleaseDrops(p, i, keep);
      Unreference(Reversed(s.blockTable[keep..]));
      CutOff(s, keep);
    }

    method CutOff(s: Sequence, keep: nat)
      requires Linked() && Knows(s) && keep <= |s.blockTable| && keep <= |s.logicalIndices| && blockSize > 0
      modifies s`blockTable, s`logicalIndices, s`cachedTokens, s`physicalCachedTokens
      ensures Linked() && Snapshot() == SetReq(old(Snapshot()), s.seqId, Cut(old(s.State()), keep, blockSize))
    {
      hide RadixPrefixCache.Valid;
      StartIs(keep, blockSize);
      s.blockTable, s.logicalIndices := s.blockTable[..keep], s.logicalIndices[..keep];
      s.cachedTokens, s.physicalCachedTokens := keep * blockSize, keep * blockSize;
      OnlyChanged(s);
    }

    /** `s` keeps its first `keep` pages. Returns how many pages became free, or nothing when the
        table or what is computed is shorter. The pool is consistent afterwards exactly if the pages
        kept are a contiguous prefix and, of a compressed request, not none, which its mark of
        compression would outlive. A request that was not compressed meets both. */
    method ReclaimSuffix(s: Sequence, keep: nat) returns (freed: Option<int>)
      requires Valid() && Knows(s)
      modifies `freeBlockIds, `usedBlockIds, `refCounts, `pendingResumeMatches
      modifies s`blockTable, s`logicalIndices, s`cachedTokens, s`physicalCachedTokens
      ensures Linked() && (Valid() <==> freed.None? || Reclaimable(old(s.State()), keep))
      ensures freed.Some? <==> keep <= |old(s.blockTable)| && Start(keep, blockSize) <= old(s.cachedTokens)
      ensures freed.None? ==> Snapshot() == old(Snapshot())
      ensures freed.Some? ==>
        && keep <= |old(s.logicalIndices)| && Snapshot() == Reclaimed(old(Snapshot()), s.seqId, keep)
        && freed.value == |freeBlockIds| - |old(freeBlockIds)|
      ensures freed.Some? && !old(s.compressed) ==>
        && Valid()
        && Releasable(old(Snapshot()), s.seqId, keep)
        && Snapshot() == Release(old(Snapshot()), s.seqId, keep)
    {
      hide RadixPrefixCache.Valid, Pool.Inv, Release, Reclaimed, Reclaimable;
      ghost var p, i := Snapshot(), s.seqId;
      Fields(s);
      FreeOk(p);
      StartIs(keep, blockSize);
      if |s.blockTable| < keep || s.cachedTokens < keep * blockSize {
        return None;
      }
      TableOf(p, i);
      ReclaimedInv(p, i, keep);
      if !s.compressed {
        Plain(p, i);
        PlainReclaimable(p.reqs[i], keep, p.bs);
        ReclaimedPlain(p, i, keep);
      }
      var freeBefore := |freeBlockIds|;
      pendingResumeMatches := pendingResumeMatches - {s.seqId};
      GiveBack(s, keep);
      return Some(|freeBlockIds| - freeBefore);
    }

    // ---------- remote restore ----------

    /** Pages for a prefix that will be fetched: the table is completed from the local cache, and
        the pages after it are the ones to fill. */
    method ReserveRestore(s: Sequence, local: nat, remote: nat)
        returns (reserved: Option<seq<BlockId>>, ghost ids: seq<BlockId>)
      requires Valid() && Knows(s) && s.blockTable == [] && s.cachedTokens == 0 && !s.compressed
      requires s.seqId in pendingMatches && |pendingMatches[s.seqId]| == local ==>
        Cached(Snapshot(), s.seqId, pendingMatches[s.seqId])
      requires forall ids {:trigger Cached(Snapshot(), s.seqId, ids)} | Cached(Snapshot(), s.seqId, ids)
        && |ids| == local :: Affordable(Snapshot(), s.seqId, ids)
      modifies this, radixCache, radixCache.nodes, s`blockTable, s`logicalIndices, s`cachedTokens,
        s`physicalCachedTokens
      ensures Valid() && radixCache.nodes <= old(radixCache.nodes) && requests == old(requests)
      ensures Cached(old(Snapshot()), s.seqId, ids) && Cached(Snapshot(), s.seqId, ids)
      ensures reserved.Some? <==> local < remote < old(s.State()).NumBlocks(blockSize) && |ids| == local
      ensures reserved.None? ==> Snapshot() == old(Snapshot())
      ensures reserved.Some? ==> s.seqId !in pendingMatches
      ensures reserved.Some? ==>
        Allocated(old(Snapshot()), Snapshot(), s.seqId, ids) && reserved.value == s.blockTable[local..remote]
    {
      hide RadixPrefixCache.Valid, Pool.Inv, Cached, Affordable;
      FreeOk(Snapshot());
      Fields(s);
      if !(local < remote < s.NumBlocks(blockSize)) {
        var matched := LookupCachedBlocks(s);
        ids := matched;
        return None, ids;
      }
      var ok;
      ok, ids := Allocate(s, local);
      if !ok {
        return None, ids;
      }
      Fields(s);
      return Some(s.blockTable[local..remote]), ids;
    }

    method AbortRestore(s: Sequence)
      requires Valid() && Knows(s)
      modifies `freeBlockIds, `usedBlockIds, `refCounts, `pendingResumeMatches
      modifies s`blockTable, s`logicalIndices, s`cachedTokens, s`physicalCachedTokens, s`compressed
      ensures Valid() && Releasable(old(Snapshot()), s.seqId, 0)
      ensures Snapshot() == if old(s.blockTable) == [] then old(Snapshot()) else Release(old(Snapshot()), s.seqId, 0)
    {
      if s.blockTable != [] {
        Deallocate(s);
      }
    }

    /** The first `n` pages of `s` enter the index; prefixes already there keep their pages. */
    method IndexPages(s: Sequence, n: nat)
      requires Valid() && Knows(s) && 0 < n && Publishable(Snapshot(), s.seqId, n)
      modifies radixCache, radixCache.nodes
      ensures Linked() && fresh(radixCache.nodes - old(radixCache.nodes))
      ensures Snapshot() == Publish(old(Snapshot()), s.seqId, n)
    {
      hide RadixPrefixCache.Valid, Pool.Inv, Pool.Computed, InsertView, FreshSuffix;
      ghost var p, i := Snapshot(), s.seqId;
      FreeOk(p);
      Fields(s);
      ContentOf(p);
      PublishFresh(p, i, n);
      var keys := BlockKeys(s, n);
      var outcome := radixCache.Insert(keys, s.blockTable[..n]);
      assert Reqs() == p.reqs;
    }

    /** The restored prefix has been filled in: all of it becomes matchable, in one step. */
    method CommitRestoredPrefix(s: Sequence, pages: nat) returns (outcome: CommitOutcome)
      requires Valid() && Knows(s) && blockSize > 0
      requires
        Full(s.cachedTokens, blockSize) < pages < s.State().NumBlocks(blockSize) == |s.blockTable| ==>
          Imported(s, pages)
      modifies radixCache, radixCache.nodes, s`cachedTokens, s`physicalCachedTokens
      ensures Valid() && fresh(radixCache.nodes - old(radixCache.nodes))
      ensures outcome.InvalidLength? <==>
        !(Full(old(s.cachedTokens), blockSize) < pages < s.State().NumBlocks(blockSize))
      ensures outcome.IncompleteTable? <==> !outcome.InvalidLength? && |s.blockTable| != s.State().NumBlocks(blockSize)
      ensures !outcome.Committed? ==> Snapshot() == old(Snapshot())
      ensures outcome.Committed? ==> old(s.cachedTokens) <= Start(pages, blockSize)
      ensures outcome.Committed? ==>
        Snapshot() == Complete(old(Snapshot()), s.seqId, Start(pages, blockSize) - old(s.cachedTokens))
      ensures outcome.Committed? ==>
        Start(pages, blockSize) <= |s.tokenIds| && Indexed(radixCache.view, PathOfTokens(s.tokenIds, pages, blockSize))
    {
      hide RadixPrefixCache.Valid, BlockManager.Linked, Pool.Inv, Publish, Complete, Publishable, Indexed, PathOfTokens,
        Ran, Start, Full, PagesFor;
      ghost var p, i := Snapshot(), s.seqId;
      Fields(s);
      if !(Full(s.cachedTokens, blockSize) < pages < s.NumBlocks(blockSize)) {
        return InvalidLength;
      }
      if |s.blockTable| != s.NumBlocks(blockSize) {
        return IncompleteTable;
      }
      RestoredWhole(p, i, pages);
      IndexPages(s, pages);
      SetCached(s, pages);
      return Committed;
    }

    method SetCached(s: Sequence, pages: nat)
      requires Linked() && Knows(s) && blockSize > 0
      modifies s`cachedTokens, s`physicalCachedTokens
      ensures Linked() && var n := Start(pages, blockSize);
        Snapshot() == SetReq(old(Snapshot()), s.seqId, old(s.State()).(cached := n, physical := n))
    {
      hide RadixPrefixCache.Valid;
      StartIs(pages, blockSize);
      s.cachedTokens := pages * blockSize;
      s.physicalCachedTokens := s.cachedTokens;
      OnlyChanged(s);
    }

    /** The pages of `s` hold the KV of its first `pages` pages. */
    ghost predicate Imported(s: Sequence, pages: nat)
      reads this, requests, radixCache, s
    {
      && s.scheduledTokens == 0 && !s.compressed && s.cachedTokens <= Start(pages, blockSize)
      && Ran(Snapshot(), s.seqId, Start(pages, blockSize) - s.cachedTokens)
    }

    // ---------- decoding ----------

    /** A free page is at hand should the next token need one. */
    method CanAppend(s: Sequence) returns (ok: bool)
      requires blockSize > 0
      ensures ok <==> (|s.tokenIds| % blockSize == 1 ==> freeBlockIds != [])
    {
      ok := |freeBlockIds| >= if |s.tokenIds| % blockSize == 1 then 1 else 0;
    }

    /** A fresh page when the last token has just filled the previous one. */
    method MayAppend(s: Sequence)
      requires Valid() && Knows(s)
      requires |s.tokenIds| % blockSize == 1 ==> freeBlockIds != [] && s.State().NoGap(blockSize)
      requires |s.tokenIds| % blockSize == 1 ==> s.State().NumBlocks(blockSize) == s.State().Span() + 1
      modifies `freeBlockIds, `usedBlockIds, `refCounts, radixCache, radixCache.nodes, s`blockTable, s`logicalIndices
      ensures Valid() && radixCache.nodes <= old(radixCache.nodes)
      ensures |s.tokenIds| % blockSize != 1 ==> Snapshot() == old(Snapshot())
      ensures |s.tokenIds| % blockSize == 1 ==>
        s.blockTable != [] && s.blockTable[|s.blockTable|-1] in old(freeBlockIds)
      ensures |s.tokenIds| % blockSize == 1 ==> s.blockTable[|s.blockTable|-1] < |old(refCounts)|
      ensures |s.tokenIds| % blockSize == 1 ==>
        Snapshot() == Grow(old(Snapshot()), s.seqId, s.blockTable[|s.blockTable|-1])
    {
      hide RadixPrefixCache.Valid, BlockManager.Linked, Pool.Inv, Grow, PagesFor;
      FreeOk(Snapshot());
      if |s.tokenIds| % blockSize == 1 {
        AppendBlock(s, s.NumBlocks(blockSize) - 1);
      }
    }

    /** The pages that the scheduled positions fill are published. */
    method HashBlocks(s: Sequence)
      requires Valid() && Knows(s) && Ran(Snapshot(), s.seqId, s.scheduledTokens)
      modifies radixCache, radixCache.nodes
      ensures Linked() && fresh(radixCache.nodes - old(radixCache.nodes))
      ensures blockSize > 0
        && SetReq(Snapshot(), s.seqId, Advanced(s.State(), s.scheduledTokens))
        == Complete(old(Snapshot()), s.seqId, s.scheduledTokens)
    {
      hide RadixPrefixCache.Valid, Pool.Inv, Pool.Computed, Publish;
      ghost var p, i := Snapshot(), s.seqId;
      FreeOk(p);
      Fields(s);
      FilledPagesIf(p, i, s.scheduledTokens);
      if s.compressed {
        return;
      }
      var start := Full(s.cachedTokens, blockSize);
      var end := Full(s.cachedTokens + s.scheduledTokens, blockSize);
      if start == end {
        return;
      }
      FullMonotone(s.cachedTokens, s.scheduledTokens, blockSize);
      IndexPages(s, end);
    }

    // ---------- lossy compression ----------

    /** The pages of `s` at the positions outside `kept` are dropped. The pool is consistent afterwards
        exactly if nothing was to be dropped, or the last page is kept. */
    method CompressKeepPositions(s: Sequence, kept: set<nat>) returns (dropped: nat, freed: int, droppedTokens: nat)
      requires Valid() && Knows(s) && (s.blockTable == [] || Begun(s.State(), blockSize))
      modifies `freeBlockIds, `usedBlockIds, `refCounts, s`blockTable, s`logicalIndices, s`physicalCachedTokens,
        s`compressed
      ensures Linked() && (Valid() <==> dropped == 0 || |old(s.blockTable)| - 1 in kept)
      ensures dropped == |DropAt(old(s.blockTable), kept)|
      ensures Snapshot() == if dropped == 0 then old(Snapshot()) else Compress(old(Snapshot()), s.seqId, kept)
      ensures freed == |freeBlockIds| - |old(freeBlockIds)|
        && droppedTokens == old(s.physicalCachedTokens) - s.physicalCachedTokens
    {
      hide RadixPrefixCache.Valid, Pool.Inv, UnrefEach, KeepAt, DropAt, Begun;
      ghost var p, i := Snapshot(), s.seqId;
      Fields(s);
      KeepAtSizes(s.blockTable, s.blockTable, kept);
      var gone := DropAt(s.blockTable, kept);
      if gone == [] {
        return 0, 0, 0;
      }
      var freeBefore := |freeBlockIds|;
      CompressDrops(p, i, kept);
      CompressExactly(p, i, kept);
      Unreference(gone);
      s.blockTable, s.logicalIndices := KeepAt(s.blockTable, kept), KeepAt(s.logicalIndices, kept);
      StartIs(|gone|, blockSize);
      var tokens := |gone| * blockSize;
      droppedTokens := if tokens < s.physicalCachedTokens then tokens else s.physicalCachedTokens;
      s.physicalCachedTokens := s.physicalCachedTokens - droppedTokens;
      s.compressed := true;
      OnlyChanged(s);
      return |gone|, |freeBlockIds| - freeBefore, droppedTokens;
    }

    /** Keep the first `sink` and the last `recent` pages. */
    method CompressSinkRecent(s: Sequence, sink: nat, recent: nat) returns (dropped: Option<nat>)
      requires Valid() && Knows(s)
        && (s.blockTable != [] ==> Start(|s.blockTable| - 1, blockSize) <= s.physicalCachedTokens)
      modifies `freeBlockIds, `usedBlockIds, `refCounts, s`blockTable, s`logicalIndices, s`physicalCachedTokens,
        s`compressed
      ensures Valid() && (dropped.None? <==> sink < 1 || recent < 1)
      ensures var n := |old(s.blockTable)|;
        if dropped.None? || n <= sink + recent then Snapshot() == old(Snapshot()) else
          && Snapshot() == Compress(old(Snapshot()), s.seqId, KeepSet(n, sink, recent, {}))
          && |s.blockTable| == sink + recent
    {
      hide RadixPrefixCache.Valid, Pool.Inv, KeepAt, DropAt, KeepSet;
      if sink < 1 || recent < 1 {
        return None;
      }
      if |s.blockTable| <= sink + recent {
        return Some(0);
      }
      var n := KeepBudget(s, sink, recent, {});
      return Some(n);
    }

    method KeepBudget(s: Sequence, sink: nat, recent: nat, chosen: set<nat>) returns (dropped: nat)
      requires Valid() && Knows(s) && s.blockTable != []
        && Start(|s.blockTable| - 1, blockSize) <= s.physicalCachedTokens
      requires sink + recent + |chosen| < |s.blockTable| && chosen <= Interval(sink, |s.blockTable| - recent)
      modifies `freeBlockIds, `usedBlockIds, `refCounts, s`blockTable, s`logicalIndices, s`physicalCachedTokens,
        s`compressed
      ensures Linked() && (Valid() <==> recent > 0 || |old(s.blockTable)| - 1 in chosen)
      ensures |s.blockTable| == sink + recent + |chosen|
      ensures Snapshot() == Compress(old(Snapshot()), s.seqId, KeepSet(|old(s.blockTable)|, sink, recent, chosen))
    {
      hide RadixPrefixCache.Valid, Pool.Inv, KeepAt, DropAt, KeepSet, Compress, BlockManager.Linked, Interval;
      var kept := KeepSet(|s.blockTable|, sink, recent, chosen);
      KeepsBudget(s.blockTable, sink, recent, chosen);
      LastKept(|s.blockTable|, sink, recent, chosen);
      KeepAtSizes(s.blockTable, s.blockTable, kept);
      Fields(s);
      CompressedReq(Snapshot(), s.seqId, kept);
      var freed, tokens;
      dropped, freed, tokens := CompressKeepPositions(s, kept);
      Fields(s);
    }

    /** Keep the first `sink`, the last `recent`, and of those between the `important` ones that
        share the rarest tokens with the end of the prompt; among equals the later page ranks higher.
        With an empty recent window the last page may be dropped, and only then the pool is not
        consistent afterwards. */
    method CompressQueryAware(s: Sequence, sink: nat, recent: nat, important: nat, queryTokens: nat)
      returns (dropped: Option<nat>, ghost chosen: set<nat>)
      requires Valid() && Knows(s) && blockSize > 0
        && (s.blockTable != [] ==> Start(|s.blockTable| - 1, blockSize) <= s.physicalCachedTokens)
      requires recent == 0 ==> s.State().Span() <= s.NumBlocks(blockSize)
      modifies `freeBlockIds, `usedBlockIds, `refCounts, s`blockTable, s`logicalIndices, s`physicalCachedTokens,
        s`compressed
      ensures dropped.None? <==> important < 1 || queryTokens < 1
      ensures dropped.None? || |old(s.blockTable)| <= sink + recent + important ==>
        Valid() && Snapshot() == old(Snapshot())
      ensures dropped.Some? && sink + recent + important < |old(s.blockTable)| ==>
        && Linked() && (Valid() <==> recent > 0 || |old(s.blockTable)| - 1 in chosen)
        && |s.blockTable| == sink + recent + important && |chosen| == important
        && Snapshot() == Compress(old(Snapshot()), s.seqId, KeepSet(|old(s.blockTable)|, sink, recent, chosen))
        && var scores := Scores(Candidates(old(s.State()), sink, recent, blockSize),
                                QueryTokens(old(s.State()), queryTokens));
           chosen <= scores.Keys == Interval(sink, |old(s.blockTable)| - recent)
           && forall a, b | a in chosen && b in scores && b !in chosen :: RanksBelow(b, a, scores)
    {
      hide RadixPrefixCache.Valid, Pool.Inv, KeepAt, DropAt, KeepSet, Scores, Candidates, QueryTokens, Interval;
      chosen := {};
      if important < 1 || queryTokens < 1 {
        return None, chosen;
      }
      if |s.blockTable| <= sink + recent + important {
        return Some(0), chosen;
      }
      Fields(s);
      TableOf(Snapshot(), s.seqId);
      var scores := RatePages(s, sink, recent, queryTokens, blockSize);
      IntervalSize(sink, |s.blockTable| - recent);
      assert |scores| == |scores.Keys|;
      var top := TopScored(scores, important);
      chosen := top;
      var n := KeepBudget(s, sink, recent, top);
      return Some(n), chosen;
    }
  }

  /** Taking a page forgets the prefixes at and below it only. */
  lemma TakeForgets(p: Pool, b: BlockId, tail: seq<BlockId>)
    requires p.ContentOk() && b < |p.refs|
    ensures b !in p.view.Values ==> Take(p, b).view == p.view
    ensures b in p.view.Values && OwnTail(p.view, Elements(p.free), b, tail) ==>
      && tail != [] && tail[0] == b && (forall c | c in tail[1..] :: c !in p.free)
      && (forall c | c in p.view.Values :: c in Take(p, b).view.Values <==> c !in tail)
      && (forall c | c in p.free && c in p.view.Values :: c == b || c in Take(p, b).view.Values)
  {
    hide PathOf;
    if b in p.view.Values && OwnTail(p.view, Elements(p.free), b, tail) {
      var after := Take(p, b).view;
      forall c | c in p.view.Values
        ensures c in after.Values <==> c !in tail
      {
        var q :| q in p.view && p.view[q] == c;
        assert q in after <==> c !in tail;
        if c in after.Values {
          var r :| r in after && after[r] == c;
        }
      }
      assert tail == [b] + tail[1..];
    }
  }

  /** A restored prefix that was imported can be published as a whole. */
  lemma RestoredWhole(p: Pool, i: nat, pages: nat)
    requires p.Inv() && i < |p.reqs| && !p.reqs[i].compressed && p.reqs[i].scheduled == 0
    requires Full(p.reqs[i].cached, p.bs) < pages < p.reqs[i].NumBlocks(p.bs) && p.reqs[i].cached <= Start(pages, p.bs)
    requires Ran(p, i, Start(pages, p.bs) - p.reqs[i].cached)
    ensures 0 < pages && Publishable(p, i, pages)
    ensures var k, n := Start(pages, p.bs) - p.reqs[i].cached, Start(pages, p.bs);
      && Complete(p, i, k) == SetReq(Publish(p, i, pages), i, p.reqs[i].(cached := n, physical := n))
      && Complete(p, i, k).Inv() && n <= |p.reqs[i].tokens|
      && Indexed(Publish(p, i, pages).view, PathOfTokens(p.reqs[i].tokens, pages, p.bs))
  {
    hide Pool.Computed, Publish, Indexed, PathOfTokens;
    var k := Start(pages, p.bs) - p.reqs[i].cached;
    FilledPages(p, i, k);
    FullPages(pages, p.bs);
    StartIs(pages, p.bs);
    Plain(p, i);
    CompleteInv(p, i, k);
    CompletedMatches(p, i, k);
  }

  lemma AttachableTable(p: Pool, i: nat, b: BlockId)
    requires p.Inv() && Attachable(p, i, b)
    ensures var r := p.reqs[i];
      p.bs > 0 && |r.logical| == |r.blockTable| && r.cached == r.physical == Start(|r.blockTable|, p.bs)
  {
    hide Pool.Inv, Distinct;
    PlaceInPool(p, i);
  }

  lemma UnreferencedFree(p: Pool)
    requires p.Inv()
    ensures p.ContentOk() && forall b | b in p.free :: b < |p.refs| && p.refs[b] == 0
  {
    forall b | b in p.free
      ensures b < |p.refs| && p.refs[b] == 0
    {
      assert p.RefOk(b);
    }
  }

  lemma EmptyPool(p: Pool)
    requires p.bs > 0 && |p.kv| == |p.refs| && p.free == Upto(|p.refs|) && p.view == map[] && p.reqs == []
      && p.used == {}
    requires forall b | 0 <= b < |p.refs| :: p.refs[b] == 0
    requires forall b | 0 <= b < |p.kv| :: |p.kv[b]| == p.bs
    ensures p.Inv()
  {
    UptoIs(|p.refs|);
    forall b: BlockId | b < |p.refs|
      ensures p.RefOk(b)
    {
      assert p.Owners(b) == {};
    }
  }
}
