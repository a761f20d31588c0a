/** The slots a model run writes: the lists the model runner builds, and why no two requests of a
    batch, nor a request and the prefix index, ever meet in a slot. */
module ModelRunner {
  import opened PrefixView
  import opened Pages
  import opened Pool
  import opened PoolWrites
  import opened Compression
  import opened Sequences
  import opened Queues

  /** The slot of physical position `q`. */
  function SlotOf(r: Request, q: nat, bs: nat): nat
    requires bs > 0 && Full(q, bs) < |r.blockTable|
  {
    Start(r.blockTable[Full(q, bs)], bs) + Offset(q, bs)
  }

  /** The slots of the positions from `lo` up to `hi`. */
  ghost function SlotsFrom(r: Request, lo: nat, hi: nat, bs: nat): seq<nat>
    requires bs > 0 && hi <= Start(|r.blockTable|, bs)
    decreases hi
  {
    if hi <= lo then [] else
      PageWithin(hi - 1, |r.blockTable|, bs);
      SlotsFrom(r, lo, hi - 1, bs) + [SlotOf(r, hi - 1, bs)]
  }

  lemma PageWithin(q: nat, pages: nat, bs: nat)
    requires bs > 0 && q < Start(pages, bs)
    ensures Full(q, bs) < pages
  {
    PageAndOffset(q, bs);
    if pages <= Full(q, bs) {
      StartMonotone(pages, Full(q, bs), bs);
    }
  }

  function Range(lo: nat, hi: nat): seq<nat>
    decreases hi
  {
    if hi <= lo then [] else Range(lo, hi - 1) + [hi - 1]
  }

  /** Within a page consecutive positions have consecutive slots. */
  lemma {:induction false} PageRun(r: Request, j: nat, a: nat, b: nat, bs: nat)
    requires bs > 0 && j < |r.blockTable| && Start(j, bs) <= a <= b <= Start(j + 1, bs)
    ensures b <= Start(|r.blockTable|, bs)
    ensures SlotsFrom(r, a, b, bs)
      == Range(Start(r.blockTable[j], bs) + (a - Start(j, bs)), Start(r.blockTable[j], bs) + (b - Start(j, bs)))
    decreases b
  {
    StartMonotone(j + 1, |r.blockTable|, bs);
    if a < b {
      PageRun(r, j, a, b - 1, bs);
      PageFixed(b - 1, j, b - 1 - Start(j, bs), bs);
    }
  }

  lemma {:induction false} SlotsJoin(r: Request, lo: nat, mid: nat, hi: nat, bs: nat)
    requires bs > 0 && lo <= mid <= hi <= Start(|r.blockTable|, bs)
    ensures SlotsFrom(r, lo, mid, bs) + SlotsFrom(r, mid, hi, bs) == SlotsFrom(r, lo, hi, bs)
    decreases hi
  {
    if mid < hi {
      SlotsJoin(r, lo, mid, hi - 1, bs);
    }
  }

  // ---------- prefill ----------

  /** A request without pages (a warm-up) writes nothing; any other is not compressed and its table
      has room for the run. */
  ghost predicate Prefillable(r: Request, bs: nat) {
    bs > 0 && (r.blockTable != [] ==>
      0 < r.scheduled && r.physical == r.cached && r.cached + r.scheduled <= Start(|r.blockTable|, bs))
  }

  ghost function PrefillSlots(rs: seq<Request>, bs: nat): seq<nat>
    requires forall k | 0 <= k < |rs| :: Prefillable(rs[k], bs)
    requires bs > 0
  {
    if rs == [] then [] else
      var r := rs[|rs|-1];
      assert Prefillable(r, bs);
      var rest := PrefillSlots(rs[..|rs|-1], bs);
      if r.blockTable == [] then rest else rest + SlotsFrom(r, r.cached, r.cached + r.scheduled, bs)
  }

  /** The slots of one request, page by page. */
  method MapSequence(s: Sequence, bs: nat) returns (slots: seq<nat>)
    requires Prefillable(s.State(), bs) && s.blockTable != []
    ensures slots == SlotsFrom(s.State(), s.cachedTokens, s.cachedTokens + s.scheduledTokens, bs)
  {
    hide SlotsFrom, Range, Full, Offset, PagesFor, Start;
    var start, end := s.cachedTokens, s.cachedTokens + s.scheduledTokens;
    var startBlock, endBlock := Full(start, bs), PagesFor(end, bs);
    ghost var r := s.State();
    PagesForAtMost(end, |s.blockTable|, bs);
    PagesForBounds(end, bs);
    PageAndOffset(start, bs);
    FirstBeforeEnd(start, end, bs);
    slots := [];
    for i := startBlock to endBlock
      invariant i == startBlock ==> slots == []
      invariant i > startBlock ==> slots == SlotsFrom(r, start, Least(end, Start(i, bs)), bs)
    {
      var base := s.blockTable[i] * bs;
      var slotStart := if i == startBlock then base + Offset(start, bs) else base;
      var slotEnd := if i != endBlock - 1 then base + bs else base + end - i * bs;
      StartIs(s.blockTable[i], bs);
      StartIs(i, bs);
      SlotsOfPage(r, i, startBlock, endBlock, start, end, bs, slots);
      slots := slots + Range(slotStart, slotEnd);
    }
  }

  /** The slots of page `i` continue those of the pages before it. */
  lemma SlotsOfPage(r: Request, i: nat, first: nat, pages: nat, start: nat, end: nat, bs: nat, slots: seq<nat>)
    requires bs > 0 && first == Full(start, bs) <= i < pages == PagesFor(end, bs) <= |r.blockTable|
    requires start < end <= Start(|r.blockTable|, bs)
    requires i == first ==> slots == []
    requires i > first ==> slots == SlotsFrom(r, start, Least(end, Start(i, bs)), bs)
    ensures Least(end, Start(i + 1, bs)) <= Start(|r.blockTable|, bs) && Start(i, bs) < end
    ensures var base := Start(r.blockTable[i], bs);
      slots + Range(if i == first then base + Offset(start, bs) else base,
        if i != pages - 1 then base + bs else base + end - Start(i, bs))
      == SlotsFrom(r, start, Least(end, Start(i + 1, bs)), bs)
  {
    hide SlotsFrom, Range, Full, Offset, PagesFor, Start;
    PageAndOffset(start, bs);
    PageBounds(i, first, pages, start, end, bs);
    var a, b := if i == first then start else Start(i, bs), Least(end, Start(i + 1, bs));
    PageRun(r, i, a, b, bs);
    if i > first {
      SlotsJoin(r, start, a, b, bs);
    }
  }

  function Least(a: nat, b: nat): nat {
    if a < b then a else b
  }

  lemma FirstBeforeEnd(start: nat, end: nat, bs: nat)
    requires bs > 0 && start < end
    ensures Full(start, bs) < PagesFor(end, bs)
  {
    PageAndOffset(start, bs);
    PagesForAtMost(end, Full(start, bs), bs);
  }

  /** Page `i` of a run: all but the last one reach their end. */
  lemma PageBounds(i: nat, first: nat, pages: nat, start: nat, end: nat, bs: nat)
    requires bs > 0 && first == Full(start, bs) <= i < pages == PagesFor(end, bs) && start < end
    ensures Start(i, bs) < end && (i != pages - 1 ==> Start(i + 1, bs) < end)
      && (i == pages - 1 ==> end <= Start(i + 1, bs))
    ensures Start(i + 1, bs) == Start(i, bs) + bs && (i > first ==> start < Start(i, bs))
  {
    PagesForBounds(end, bs);
    StartMonotone(i, pages - 1, bs);
    PageAndOffset(start, bs);
    if first < i {
      StartMonotone(first + 1, i, bs);
    }
    if i < pages - 1 {
      StartMonotone(i + 1, pages - 1, bs);
    }
  }

  /** The slot list of a prefill batch: the slot of every scheduled position, in order. */
  method PreparePrefill(seqs: seq<Sequence>, bs: nat) returns (slots: seq<nat>)
    requires bs > 0 && forall k | 0 <= k < |seqs| :: Prefillable(seqs[k].State(), bs)
    ensures slots == PrefillSlots(States(seqs), bs)
  {
    hide Prefillable, SlotsFrom;
    slots := [];
    for k := 0 to |seqs|
      invariant slots == PrefillSlots(States(seqs)[..k], bs)
    {
      assert States(seqs)[..k + 1][..k] == States(seqs)[..k];
      if seqs[k].blockTable != [] {
        var mapped := MapSequence(seqs[k], bs);
        slots := slots + mapped;
      }
    }
    assert States(seqs)[..|seqs|] == States(seqs);
  }

  ghost function States(seqs: seq<Sequence>): (rs: seq<Request>)
    reads seqs
    ensures |rs| == |seqs| && forall k | 0 <= k < |seqs| :: rs[k] == seqs[k].State()
  {
    seq(|seqs|, k requires 0 <= k < |seqs| reads seqs => seqs[k].State())
  }

  // ---------- decode ----------

  /** The single slot of a decoding request, from its logical length alone, is the slot of its next
      physical position, however often it was compressed. */
  lemma DecodeSlot(r: Request, bs: nat)
    requires bs > 0 && r.TableOk(bs) && ScheduledOk(r, bs) && r.status == Running && r.scheduled == 1
    ensures Full(r.physical, bs) == |r.blockTable| - 1 && r.NumBlocks(bs) > 0
      && Start(r.NumBlocks(bs) - 1, bs) < |r.tokens|
    ensures SlotOf(r, r.physical, bs)
      == Start(r.blockTable[|r.blockTable|-1], bs) + (|r.tokens| - Start(r.NumBlocks(bs) - 1, bs)) - 1
  {
    var t, g := |r.blockTable|, r.Span() - |r.blockTable|;
    StartSum(t, g, bs);
    StartSum(t - 1, g, bs);
    PageFixed(r.physical, t - 1, r.physical - Start(t - 1, bs), bs);
    PagesForIs(|r.tokens|, r.Span(), bs);
  }

  ghost predicate Decodable(r: Request, bs: nat) {
    bs > 0 && r.TableOk(bs) && ScheduledOk(r, bs) && r.status == Running && r.scheduled == 1
  }

  /** `slot` is that of the next physical position of `r`, and `context` covers everything held. */
  ghost predicate DecodeEntry(r: Request, slot: nat, context: nat, bs: nat) {
    bs > 0 && Full(r.physical, bs) < |r.blockTable| && slot == SlotOf(r, r.physical, bs) && context == r.physical + 1
  }

  method MapDecode(s: Sequence, bs: nat) returns (slot: nat, context: nat)
    requires Decodable(s.State(), bs)
    ensures DecodeEntry(s.State(), slot, context, bs)
  {
    DecodeSlot(s.State(), bs);
    var last := s.blockTable[|s.blockTable|-1];
    StartIs(last, bs);
    StartIs(s.NumBlocks(bs) - 1, bs);
    var lastTokens := |s.tokenIds| - (s.NumBlocks(bs) - 1) * bs;
    return last * bs + lastTokens - 1, s.physicalCachedTokens + 1;
  }

  /** The slots and context lengths of a decode batch. */
  method PrepareDecode(seqs: seq<Sequence>, bs: nat) returns (slots: seq<nat>, contextLengths: seq<nat>)
    requires forall k {:trigger seqs[k]} | 0 <= k < |seqs| :: Decodable(seqs[k].State(), bs)
    ensures |slots| == |contextLengths| == |seqs|
    ensures forall k {:trigger slots[k]} | 0 <= k < |seqs| ::
      DecodeEntry(seqs[k].State(), slots[k], contextLengths[k], bs)
  {
    slots, contextLengths := [], [];
    hide DecodeEntry, Decodable;
    for k := 0 to |seqs|
      invariant |slots| == |contextLengths| == k
      invariant forall j {:trigger slots[j]} | 0 <= j < k ::
        DecodeEntry(seqs[j].State(), slots[j], contextLengths[j], bs)
    {
      var slot, context := MapDecode(seqs[k], bs);
      slots := slots + [slot];
      contextLengths := contextLengths + [context];
    }
  }

  // ---------- isolation ----------

  /** The slot that request `i` of the batch writes for the `k`-th position of the run. */
  ghost function WrittenSlot(p: Pool, i: nat, k: nat): nat
    requires p.bs > 0 && i < |p.reqs| && Full(p.reqs[i].physical + k, p.bs) < |p.reqs[i].blockTable|
  {
    SlotOf(p.reqs[i], p.reqs[i].physical + k, p.bs)
  }

  /** A slot belongs to one page. */
  lemma SlotsApart(b: BlockId, x: nat, c: BlockId, y: nat, bs: nat)
    requires bs > 0 && x < bs && y < bs && Start(b, bs) + x == Start(c, bs) + y
    ensures b == c && x == y
  {
    PageFixed(Start(b, bs) + x, b, x, bs);
    PageFixed(Start(c, bs) + y, c, y, bs);
  }

  /** Whatever the batch: what a request writes lies in a page that only it owns and that the index
      does not know. */
  lemma WritesOwnPages(s: Sched, i: nat, k: nat)
    requires s.Inv() && i in s.batch && i < |s.pool.reqs| && k < s.pool.reqs[i].scheduled
    ensures s.pool.bs > 0 && Full(s.pool.reqs[i].physical + k, s.pool.bs) < |s.pool.reqs[i].blockTable|
    ensures var b := s.pool.reqs[i].blockTable[Full(s.pool.reqs[i].physical + k, s.pool.bs)];
      s.pool.Owners(b) == {i} && b !in s.pool.view.Values
  {
    assert s.Duty(i);
    SlotPage(s.pool, i, k);
  }

  /** No two positions of a batch are written to the same slot. */
  lemma SameSlotSameWrite(s: Sched, i: nat, k: nat, j: nat, l: nat)
    requires s.Inv() && i in s.batch && i < |s.pool.reqs| && k < s.pool.reqs[i].scheduled
    requires j in s.batch && j < |s.pool.reqs| && l < s.pool.reqs[j].scheduled
    requires s.pool.bs > 0 && Full(s.pool.reqs[i].physical + k, s.pool.bs) < |s.pool.reqs[i].blockTable|
    requires Full(s.pool.reqs[j].physical + l, s.pool.bs) < |s.pool.reqs[j].blockTable|
    requires WrittenSlot(s.pool, i, k) == WrittenSlot(s.pool, j, l)
    ensures i == j && k == l
  {
    hide Sched.Inv, Pool.Inv, Full, Offset, Start;
    PlaceOf(s, i);
    WritesOwnPages(s, i, k);
    WritesOwnPages(s, j, l);
    var r, t, bs := s.pool.reqs[i], s.pool.reqs[j], s.pool.bs;
    PageAndOffset(r.physical + k, bs);
    PageAndOffset(t.physical + l, bs);
    TableOf(s.pool, i);
    var b, c := r.blockTable[Full(r.physical + k, bs)], t.blockTable[Full(t.physical + l, bs)];
    SlotsApart(b, Offset(r.physical + k, bs), c, Offset(t.physical + l, bs), bs);
    assert i in s.pool.Owners(c);
  }

  /** Computing a position changes its slot and no other. */
  lemma OnlySlotWritten(s: Sched, i: nat, k: nat, c: BlockId, off: nat)
    requires s.Inv() && i in s.batch && i < |s.pool.reqs| && k < s.pool.reqs[i].scheduled && s.pool.bs > 0
    requires c < |s.pool.kv| && off < |s.pool.kv[c]| && |WriteSlot(s.pool, i, k).kv[c]| == |s.pool.kv[c]|
    requires WriteSlot(s.pool, i, k).kv[c][off] != s.pool.kv[c][off]
    ensures Full(s.pool.reqs[i].physical + k, s.pool.bs) < |s.pool.reqs[i].blockTable|
    ensures Start(c, s.pool.bs) + off == WrittenSlot(s.pool, i, k)
  {
    WritesOwnPages(s, i, k);
    hide Sched.Inv, Full, Offset, Start, SlotValue;
  }

  /** The batches that the scheduler hands over meet what the runner assumes. */
  lemma BatchRuns(s: Sched, i: nat)
    requires s.Inv() && i in s.batch && i < |s.pool.reqs|
    ensures !s.pool.reqs[i].compressed ==> Prefillable(s.pool.reqs[i], s.pool.bs)
    ensures s.pool.reqs[i].status == Running && s.pool.reqs[i].scheduled == 1 ==> Decodable(s.pool.reqs[i], s.pool.bs)
  {
    assert s.Duty(i);
    TableOf(s.pool, i);
  }

  // ---------- the slots of a scheduled batch ----------

  ghost predicate IsWrite(s: Sched, i: nat, k: nat, slot: nat) {
    && s.pool.bs > 0 && i in s.batch && i < |s.pool.reqs| && k < s.pool.reqs[i].scheduled
    && Full(s.pool.reqs[i].physical + k, s.pool.bs) < |s.pool.reqs[i].blockTable|
    && WrittenSlot(s.pool, i, k) == slot
  }

  /** The slot's page belongs to one request of the batch alone, and is not indexed. */
  ghost predicate OwnSlot(s: Sched, slot: nat) {
    s.pool.bs > 0 && Full(slot, s.pool.bs) !in s.pool.view.Values && exists i ::
      i in s.batch && s.pool.Owners(Full(slot, s.pool.bs)) == {i}
  }

  ghost predicate SlotsDistinct(slots: seq<nat>) {
    forall a, b | 0 <= a < b < |slots| :: slots[a] != slots[b]
  }

  /** `slots` lists exactly what the run of the batch writes, each slot once, and every slot lies in a
      page that nobody else can see. */
  ghost predicate Isolated(s: Sched, slots: seq<nat>) {
    && SlotsDistinct(slots)
    && (forall x :: x in slots <==> exists i, k :: IsWrite(s, i, k, x))
    && (forall x | x in slots :: OwnSlot(s, x))
  }

  lemma WriteIsOwn(s: Sched, i: nat, k: nat, slot: nat)
    requires s.Inv() && IsWrite(s, i, k, slot)
    ensures OwnSlot(s, slot)
  {
    WritesOwnPages(s, i, k);
    var r, bs := s.pool.reqs[i], s.pool.bs;
    var q := r.physical + k;
    PageAndOffset(q, bs);
    PageFixed(slot, r.blockTable[Full(q, bs)], Offset(q, bs), bs);
  }

  lemma WritesApart(s: Sched, i: nat, k: nat, j: nat, l: nat, slot: nat)
    requires s.Inv() && IsWrite(s, i, k, slot) && IsWrite(s, j, l, slot)
    ensures i == j && k == l
  {
    SameSlotSameWrite(s, i, k, j, l);
  }

  lemma {:induction false} SlotsFromAt(r: Request, lo: nat, hi: nat, bs: nat)
    requires bs > 0 && lo <= hi <= Start(|r.blockTable|, bs)
    ensures |SlotsFrom(r, lo, hi, bs)| == hi - lo
    ensures forall a | 0 <= a < hi - lo ::
      Full(lo + a, bs) < |r.blockTable| && SlotsFrom(r, lo, hi, bs)[a] == SlotOf(r, lo + a, bs)
    decreases hi
  {
    if lo < hi {
      SlotsFromAt(r, lo, hi - 1, bs);
      PageWithin(hi - 1, |r.blockTable|, bs);
    }
  }

  /** The requests of the batch, in order. */
  ghost predicate AreBatch(s: Sched, rs: seq<Request>) {
    |rs| == |s.batch| && forall k | 0 <= k < |rs| :: s.batch[k] < |s.pool.reqs| && rs[k] == s.pool.reqs[s.batch[k]]
  }

  ghost predicate CanPrefill(rs: seq<Request>, bs: nat) {
    bs > 0 && forall k | 0 <= k < |rs| :: Prefillable(rs[k], bs)
  }

  lemma PrefillRuns(s: Sched, rs: seq<Request>)
    requires s.Inv() && AreBatch(s, rs) && forall k | 0 <= k < |rs| :: !rs[k].compressed
    ensures CanPrefill(rs, s.pool.bs)
  {
    forall k | 0 <= k < |rs|
      ensures Prefillable(rs[k], s.pool.bs)
    {
      assert s.batch[k] in s.batch;
      BatchRuns(s, s.batch[k]);
    }
  }

  /** What is known of the slots of the first `n` requests. */
  ghost predicate ListsWrites(s: Sched, n: nat, slots: seq<nat>)
    requires n <= |s.batch|
  {
    && SlotsDistinct(slots)
    && (forall x | x in slots :: exists m: nat, k: nat {:trigger IsWrite(s, s.batch[m], k, x)} ::
         m < n && IsWrite(s, s.batch[m], k, x))
    && (forall m: nat, k: nat, x: nat {:trigger IsWrite(s, s.batch[m], k, x)} | m < n
         && IsWrite(s, s.batch[m], k, x) :: x in slots)
  }

  /** The slots of the `n`-th request are its writes. */
  lemma SlotsOfOne(s: Sched, rs: seq<Request>, n: nat)
    requires s.Inv() && AreBatch(s, rs) && n < |rs| && !rs[n].compressed
    ensures s.pool.bs > 0 && rs[n].blockTable != []
      && rs[n].cached + rs[n].scheduled <= Start(|rs[n].blockTable|, s.pool.bs)
    ensures var slots := SlotsFrom(rs[n], rs[n].cached, rs[n].cached + rs[n].scheduled, s.pool.bs);
      && |slots| == rs[n].scheduled && s.batch[n] in s.batch
      && forall k | 0 <= k < |slots| :: IsWrite(s, s.batch[n], k, slots[k])
  {
    hide Sched.Inv, Pool.Inv, SlotsFrom;
    PlaceOf(s, s.batch[n]);
    TableOf(s.pool, s.batch[n]);
    SlotsFromAt(rs[n], rs[n].cached, rs[n].cached + rs[n].scheduled, s.pool.bs);
  }

  lemma OneMoreLists(s: Sched, rs: seq<Request>, n: nat, before: seq<nat>, slots: seq<nat>)
    requires s.Inv() && AreBatch(s, rs) && n < |rs| && ListsWrites(s, n, before)
    requires |slots| == rs[n].scheduled && forall k | 0 <= k < |slots| :: IsWrite(s, s.batch[n], k, slots[k])
    ensures ListsWrites(s, n + 1, before + slots)
  {
    var all, i := before + slots, s.batch[n];
    assert Distinct(s.batch);
    hide Sched.Inv, IsWrite;
    forall a, b | 0 <= a < b < |all|
      ensures all[a] != all[b]
    {
      Apart(s, n, before, slots, a, b);
    }
    forall x | x in all
      ensures exists m: nat, k: nat {:trigger IsWrite(s, s.batch[m], k, x)} :: m < n + 1 && IsWrite(s, s.batch[m], k, x)
    {
      if x !in before {
        var k :| 0 <= k < |slots| && slots[k] == x;
        assert IsWrite(s, s.batch[n], k, x);
      }
    }
    forall m: nat, k: nat, x: nat {:trigger IsWrite(s, s.batch[m], k, x)} | m < n + 1 && IsWrite(s, s.batch[m], k, x)
      ensures x in all
    {
      if m == n {
        WriteInRun(s, i, k, x);
        WriteAt(s, i, k, x, slots[k]);
      }
    }
  }

  lemma WriteInRun(s: Sched, i: nat, k: nat, x: nat)
    requires IsWrite(s, i, k, x)
    ensures i < |s.pool.reqs| && k < s.pool.reqs[i].scheduled
  {
  }

  lemma WriteAt(s: Sched, i: nat, k: nat, x: nat, y: nat)
    requires IsWrite(s, i, k, x) && IsWrite(s, i, k, y)
    ensures x == y
  {
  }

  /** No slot of the `n`-th request occurs before, nor twice. */
  lemma Apart(s: Sched, n: nat, before: seq<nat>, slots: seq<nat>, a: nat, b: nat)
    requires s.Inv() && n < |s.batch| && ListsWrites(s, n, before) && Distinct(s.batch)
    requires forall k | 0 <= k < |slots| :: IsWrite(s, s.batch[n], k, slots[k])
    requires a < b < |before + slots|
    ensures (before + slots)[a] != (before + slots)[b]
  {
    hide Sched.Inv, IsWrite;
    var x, y := (before + slots)[a], (before + slots)[b];
    if x == y && |before| <= a {
      WritesApart(s, s.batch[n], a - |before|, s.batch[n], b - |before|, x);
    } else if x == y && |before| <= b {
      assert before[a] in before;
      var m: nat, k: nat :| m < n && IsWrite(s, s.batch[m], k, x);
      WritesApart(s, s.batch[m], k, s.batch[n], b - |before|, x);
    }
  }

  lemma PrefillSlotsNext(rs: seq<Request>, n: nat, bs: nat)
    requires 0 < n <= |rs| && CanPrefill(rs, bs) && rs[n-1].blockTable != []
    ensures CanPrefill(rs[..n], bs) && CanPrefill(rs[..n-1], bs)
    ensures rs[n-1].cached + rs[n-1].scheduled <= Start(|rs[n-1].blockTable|, bs)
    ensures PrefillSlots(rs[..n], bs)
      == PrefillSlots(rs[..n-1], bs) + SlotsFrom(rs[n-1], rs[n-1].cached, rs[n-1].cached + rs[n-1].scheduled, bs)
  {
    assert rs[..n][..n-1] == rs[..n-1] && rs[..n][n-1] == rs[n-1];
    assert Prefillable(rs[n-1], bs);
    hide SlotsFrom;
  }

  lemma NoneListed(s: Sched, rs: seq<Request>)
    requires s.Inv() && CanPrefill(rs, s.pool.bs)
    ensures CanPrefill(rs[..0], s.pool.bs) && ListsWrites(s, 0, PrefillSlots(rs[..0], s.pool.bs))
  {
  }

  lemma {:induction false} PrefillLists(s: Sched, rs: seq<Request>, n: nat)
    requires s.Inv() && AreBatch(s, rs) && n <= |rs| && (forall k | 0 <= k < |rs| :: !rs[k].compressed)
    requires CanPrefill(rs, s.pool.bs)
    ensures CanPrefill(rs[..n], s.pool.bs) && ListsWrites(s, n, PrefillSlots(rs[..n], s.pool.bs))
  {
    hide Sched.Inv, ListsWrites, IsWrite, Prefillable, PrefillSlots, SlotsFrom;
    if n == 0 {
      NoneListed(s, rs);
    } else {
      PrefillLists(s, rs, n - 1);
      SlotsOfOne(s, rs, n - 1);
      PrefillSlotsNext(rs, n, s.pool.bs);
      OneMoreLists(s, rs, n - 1, PrefillSlots(rs[..n-1], s.pool.bs),
        SlotsFrom(rs[n-1], rs[n-1].cached, rs[n-1].cached + rs[n-1].scheduled, s.pool.bs));
    }
  }

  lemma ListsAll(s: Sched, slots: seq<nat>)
    requires s.Inv() && ListsWrites(s, |s.batch|, slots)
    ensures Isolated(s, slots)
  {
    hide Sched.Inv, OwnSlot;
    forall i, k, x | IsWrite(s, i, k, x)
      ensures x in slots && OwnSlot(s, x)
    {
      var m :| 0 <= m < |s.batch| && s.batch[m] == i;
      assert IsWrite(s, s.batch[m], k, x);
      WriteIsOwn(s, i, k, x);
    }
  }

  /** Write isolation of a prefill batch. */
  lemma PrefillIsolated(s: Sched, rs: seq<Request>)
    requires s.Inv() && AreBatch(s, rs) && forall k | 0 <= k < |rs| :: !rs[k].compressed
    ensures CanPrefill(rs, s.pool.bs) && Isolated(s, PrefillSlots(rs, s.pool.bs))
  {
    PrefillRuns(s, rs);
    PrefillLists(s, rs, |rs|);
    assert rs[..|rs|] == rs;
    ListsAll(s, PrefillSlots(rs, s.pool.bs));
  }

  ghost predicate CanDecode(rs: seq<Request>, bs: nat) {
    bs > 0 && forall k {:trigger rs[k]} | 0 <= k < |rs| :: Decodable(rs[k], bs)
  }

  lemma DecodeRuns(s: Sched, rs: seq<Request>)
    requires s.Inv() && AreBatch(s, rs) && forall k {:trigger rs[k]} | 0 <= k < |rs| ::
      rs[k].status == Running && rs[k].scheduled == 1
    ensures CanDecode(rs, s.pool.bs)
  {
    forall k | 0 <= k < |rs|
      ensures Decodable(rs[k], s.pool.bs)
    {
      assert s.batch[k] in s.batch;
      BatchRuns(s, s.batch[k]);
    }
  }

  /** Write isolation of a decode batch. */
  lemma DecodeIsolated(s: Sched, rs: seq<Request>, slots: seq<nat>, contextLengths: seq<nat>)
    requires s.Inv() && AreBatch(s, rs) && |slots| == |contextLengths| == |rs| && s.pool.bs > 0
    requires forall k {:trigger rs[k]} | 0 <= k < |rs| :: rs[k].scheduled == 1
    requires forall k {:trigger slots[k]} | 0 <= k < |rs| :: DecodeEntry(rs[k], slots[k], contextLengths[k], s.pool.bs)
    ensures Isolated(s, slots)
  {
    DecodeLists(s, rs, slots, contextLengths, |rs|);
    assert slots[..|rs|] == slots;
    ListsAll(s, slots);
  }

  lemma NothingListed(s: Sched)
    requires s.Inv()
    ensures ListsWrites(s, 0, [])
  {
  }

  lemma DecodeWrites(s: Sched, rs: seq<Request>, slots: seq<nat>, contextLengths: seq<nat>, n: nat)
    requires s.Inv() && AreBatch(s, rs) && |slots| == |contextLengths| == |rs| && s.pool.bs > 0 && n < |rs|
    requires rs[n].scheduled == 1 && DecodeEntry(rs[n], slots[n], contextLengths[n], s.pool.bs)
    ensures IsWrite(s, s.batch[n], 0, slots[n])
  {
    assert s.batch[n] in s.batch;
  }

  lemma {:induction false} DecodeLists(s: Sched, rs: seq<Request>, slots: seq<nat>, contextLengths: seq<nat>, n: nat)
    requires s.Inv() && AreBatch(s, rs) && |slots| == |contextLengths| == |rs| && s.pool.bs > 0 && n <= |rs|
    requires forall k {:trigger rs[k]} | 0 <= k < |rs| :: rs[k].scheduled == 1
    requires forall k {:trigger slots[k]} | 0 <= k < |rs| :: DecodeEntry(rs[k], slots[k], contextLengths[k], s.pool.bs)
    ensures ListsWrites(s, n, slots[..n])
  {
    hide Sched.Inv, ListsWrites, IsWrite;
    if n == 0 {
      NothingListed(s);
    } else {
      DecodeLists(s, rs, slots, contextLengths, n - 1);
      DecodeWrites(s, rs, slots, contextLengths, n - 1);
      OneMoreLists(s, rs, n - 1, slots[..n-1], [slots[n-1]]);
      assert slots[..n-1] + [slots[n-1]] == slots[..n];
    }
  }
}
