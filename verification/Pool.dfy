/** The paged KV pool as a value: who owns which page, what each page holds, and which pages the
    prefix index names. The invariant and its preservation are stated here; the imperative
    managers are proved to perform these steps. */
module Pool {
  import opened PrefixView
  import opened Pages

  datatype Status = Waiting | WaitingForKv | Running | Finished | Cancelled

  datatype Request = Request(
    tokens: seq<Token>,        // prompt and completion so far
    promptTokens: nat,
    maxTokens: nat,
    status: Status,
    cached: nat,               // positions whose KV has been computed
    physical: nat,             // of those, positions still held
    scheduled: nat,            // positions the next model run computes
    blockTable: seq<BlockId>,
    logical: seq<nat>,         // logical page of each table entry
    compressed: bool,
    prefill: bool,
    attempted: bool)           // remote restore already tried
  {
    function NumBlocks(bs: nat): nat
      requires bs > 0
    {
      PagesFor(|tokens|, bs)
    }

    predicate Live() {
      status == Waiting || status == WaitingForKv || status == Running
    }

    // The logical pages the table spans; compression leaves gaps among them.
    function Span(): nat {
      if logical == [] then 0 else logical[|logical|-1] + 1
    }

    /** A page that the next write may touch. */
    ghost predicate Writable(j: nat, bs: nat) {
      physical < Start(j + 1, bs)
    }

    /** A compressed request takes a new page only when the pages it holds are full. */
    ghost predicate NoGap(bs: nat) {
      compressed ==> physical == Start(|blockTable|, bs)
    }

    /** The shape of one request's page table. */
    ghost predicate TableOk(bs: nat) {
      && |logical| == |blockTable| && Distinct(blockTable)
      && (forall j | 0 <= j < |logical| :: j <= logical[j])
      && (forall j, k | 0 <= j < k < |logical| :: logical[j] < logical[k])
      && cached <= |tokens| && physical <= Start(|blockTable|, bs)
      && |blockTable| <= Span()
      && cached == physical + Start(Span() - |blockTable|, bs)
      && (!compressed ==> Span() == |blockTable|)
      && (compressed ==> blockTable != [] && Start(|blockTable| - 1, bs) <= physical)
    }
  }

  // What a KV slot holds: the token prefix it was computed for, or nothing known.
  type Kv = seq<Token>

  datatype Pool = Pool(
    bs: nat,
    free: seq<BlockId>,
    used: set<BlockId>,
    refs: seq<nat>,
    view: View,
    kv: seq<seq<Kv>>,
    reqs: seq<Request>)
  {
    // ---------- ownership ----------

    ghost function Owners(b: BlockId): set<nat> {
      set i | 0 <= i < |reqs| && b in reqs[i].blockTable
    }

    ghost predicate FreeListOk() {
      && bs > 0 && |kv| == |refs|
      && Distinct(free)
      && (forall b: BlockId :: b in used <==> b < |refs| && b !in free)
      && (forall b | b in free :: b < |refs|)
    }

    /** A page is counted once per table it occurs in, and is free when it occurs in none. */
    ghost predicate RefOk(b: BlockId)
      requires b < |refs|
    {
      refs[b] == |Owners(b)| && (b in free <==> Owners(b) == {})
    }

    ghost predicate ReqOk(i: nat)
      requires i < |reqs|
    {
      && reqs[i].TableOk(bs)
      && (forall b | b in reqs[i].blockTable :: b < |refs|)
    }

    // ---------- content ----------

    /** Page `b` holds the KV of page `j` of `tokens`. */
    ghost predicate PageHolds(b: BlockId, tokens: seq<Token>, j: nat) {
      && b < |kv| && Start(j + 1, bs) <= |tokens| && |kv[b]| == bs
      && forall off | 0 <= off < bs :: kv[b][off] == tokens[..Start(j, bs) + off + 1]
    }

    /** An indexed page holds KV computed for exactly the prefix it is indexed under. */
    ghost predicate PathOk(p: Path)
      requires p in view
    {
      p != [] && PageSized(p, bs) && view[p] < |refs| && PageHolds(view[p], Flat(p), |p| - 1)
    }

    /** Request `i`'s table holds the KV of its first `n` positions. */
    ghost predicate Computed(i: nat, n: nat)
      requires i < |reqs|
    {
      var r := reqs[i];
      && n <= |r.tokens|
      && forall j, off {:trigger kv[r.blockTable[j]][off]} |
           0 <= j < |r.blockTable| && r.blockTable[j] < |kv| && 0 <= off < bs && off < |kv[r.blockTable[j]]|
             && Start(j, bs) + off < n ::
           kv[r.blockTable[j]][off] == r.tokens[..Start(j, bs) + off + 1]
    }

    ghost predicate ComputedOk(i: nat)
      requires i < |reqs|
    {
      !reqs[i].compressed ==> Computed(i, reqs[i].cached)
    }

    // ---------- isolation ----------

    /** A page that may still be written belongs to one request and is not indexed. */
    ghost predicate ExclusiveOk(i: nat, j: nat)
      requires i < |reqs| && j < |reqs[i].blockTable|
    {
      reqs[i].Writable(j, bs) ==> reqs[i].blockTable[j] !in view.Values && Owners(reqs[i].blockTable[j]) == {i}
    }

    ghost predicate OwnershipOk() {
      && FreeListOk()
      && (forall b: BlockId {:trigger RefOk(b)} | b < |refs| :: RefOk(b))
      && (forall i: nat {:trigger ReqOk(i)} | i < |reqs| :: ReqOk(i))
    }

    ghost predicate ContentOk() {
      && WellFormed(view)
      && (forall b | 0 <= b < |kv| :: |kv[b]| == bs)
      && (forall p {:trigger PathOk(p)} | p in view :: PathOk(p))
      && (forall i: nat {:trigger ComputedOk(i)} | i < |reqs| :: ComputedOk(i))
    }

    ghost predicate IsolationOk() {
      forall i: nat, j: nat {:trigger ExclusiveOk(i, j)} | i < |reqs| && j < |reqs[i].blockTable| :: ExclusiveOk(i, j)
    }

    ghost predicate Inv() {
      OwnershipOk() && ContentOk() && IsolationOk()
    }

    // ---------- what the invariant means ----------

    /** Prefix-cache transparency: a page matched for a token list holds exactly the KV that
        computing that page for those tokens would produce. */
    lemma MatchedPagesHoldTheirKv(tokens: seq<Token>, n: nat, ids: seq<BlockId>, j: nat)
      requires Inv() && Start(n, bs) <= |tokens| && j < |ids|
      requires IsMatch(view, PathOfTokens(tokens, n, bs), ids)
      ensures PageHolds(ids[j], tokens, j)
    {
      hide OwnershipOk, IsolationOk, WellFormed, IsMatch, PathOfTokens, PageHolds;
      MatchAt(view, PathOfTokens(tokens, n, bs), ids, j);
      PathPrefix(tokens, n, j + 1, bs);
      var p := PathOfTokens(tokens, j + 1, bs);
      FlatOfPath(tokens, j + 1, bs);
      assert PathOk(p);
      PageOfPrefix(ids[j], Flat(p), tokens, j);
    }

    /** What a page holds only depends on the tokens up to its end. */
    lemma PageOfPrefix(b: BlockId, s: seq<Token>, t: seq<Token>, j: nat)
      requires PageHolds(b, s, j) && Start(j + 1, bs) <= |t| && s[..Start(j + 1, bs)] == t[..Start(j + 1, bs)]
      ensures PageHolds(b, t, j)
    {
      forall off | 0 <= off < bs
        ensures kv[b][off] == t[..Start(j, bs) + off + 1]
      {
        TakeTake(s, t, Start(j + 1, bs), Start(j, bs) + off + 1);
      }
    }

    /** The free list and the used set partition the pages. */
    lemma Conservation()
      requires OwnershipOk()
      ensures |free| + |used| == |refs|
      ensures forall b | b in used :: b < |refs| && Owners(b) != {}
    {
      forall b: BlockId | b < |refs|
        ensures b in used <==> Owners(b) != {}
      {
        assert RefOk(b);
      }
      hide RefOk, ReqOk, Owners;
      IdsBelowIs(|refs|);
      DistinctSize(free);
      assert IdsBelow(|refs|) == Elements(free) + used && Elements(free) !! used;
    }
  }

  lemma TakeTake<T>(s: seq<T>, t: seq<T>, n: nat, k: nat)
    requires k <= n <= |s| && n <= |t| && s[..n] == t[..n]
    ensures s[..k] == t[..k]
  {
    assert s[..k] == s[..n][..k] && t[..k] == t[..n][..k];
  }

  ghost function IdsBelow(n: nat): set<BlockId> {
    if n == 0 then {} else IdsBelow(n - 1) + {n - 1}
  }

  lemma {:induction false} IdsBelowIs(n: nat)
    ensures |IdsBelow(n)| == n && forall b: BlockId :: b in IdsBelow(n) <==> b < n
  {
    if n > 0 {
      IdsBelowIs(n - 1);
    }
  }

  function Elements(s: seq<BlockId>): set<BlockId> {
    set b | b in s
  }

  lemma {:induction false} DistinctSize(s: seq<BlockId>)
    requires Distinct(s)
    ensures |Elements(s)| == |s|
  {
    if s != [] {
      var t, last := s[..|s|-1], s[|s|-1];
      DistinctSize(t);
      assert Elements(s) == Elements(t) + {last} && last !in Elements(t);
    }
  }

  /** 0, 1, ..., n - 1. */
  function Upto(n: nat): seq<nat> {
    if n == 0 then [] else Upto(n - 1) + [n - 1]
  }

  lemma {:induction false} UptoIs(n: nat)
    ensures |Upto(n)| == n && Distinct(Upto(n)) && (forall b: nat :: b in Upto(n) <==> b < n)
    ensures forall k | 0 <= k < n :: Upto(n)[k] == k
  {
    if n > 0 {
      UptoIs(n - 1);
    }
  }
}
