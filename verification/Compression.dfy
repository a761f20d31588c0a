/** Lossy compression of a page table: full pages in its middle are dropped, and logical and
    physical positions part company. */
module Compression {
  import opened PrefixView
  import opened Pages
  import opened Pool
  import opened PoolSteps

  /** The elements of `s` at the positions in `kept`, in order. */
  function KeepAt<T>(s: seq<T>, kept: set<nat>): seq<T> {
    if s == [] then []
    else KeepAt(s[..|s|-1], kept) + (if |s| - 1 in kept then [s[|s|-1]] else [])
  }

  /** The elements of `s` at the other positions, last one first. */
  function DropAt<T>(s: seq<T>, kept: set<nat>): seq<T> {
    if s == [] then []
    else (if |s| - 1 in kept then [] else [s[|s|-1]]) + DropAt(s[..|s|-1], kept)
  }

  lemma {:induction false} KeepAtSizes<T, U>(s: seq<T>, u: seq<U>, kept: set<nat>)
    requires |s| == |u|
    ensures |KeepAt(s, kept)| == |KeepAt(u, kept)| && |KeepAt(s, kept)| + |DropAt(s, kept)| == |s|
  {
    if s != [] {
      KeepAtSizes(s[..|s|-1], u[..|u|-1], kept);
    }
  }

  lemma {:induction false} KeepAtMembers(s: seq<BlockId>, kept: set<nat>)
    requires Distinct(s)
    ensures Distinct(KeepAt(s, kept)) && Distinct(DropAt(s, kept))
    ensures forall b | b in DropAt(s, kept) :: b in s
    ensures forall b :: b in KeepAt(s, kept) <==> b in s && b !in DropAt(s, kept)
  {
    if s != [] {
      var t, last := s[..|s|-1], s[|s|-1];
      KeepAtMembers(t, kept);
      assert s == t + [last] && last !in t;
      assert forall b :: b in s <==> b == last || b in t;
      hide KeepAt, DropAt;
      assert last !in KeepAt(t, kept) && last !in DropAt(t, kept);
      if |t| !in kept {
        ConsDistinct(last, DropAt(t, kept));
      }
    }
  }

  lemma ConsDistinct(b: BlockId, s: seq<BlockId>)
    requires Distinct(s) && b !in s
    ensures Distinct([b] + s) && Distinct(s + [b])
  {
    forall i, j | 0 <= i < |[b] + s| && 0 <= j < |[b] + s| && ([b] + s)[i] == ([b] + s)[j]
      ensures i == j
    {
      assert i > 0 ==> ([b] + s)[i] == s[i-1];
      assert j > 0 ==> ([b] + s)[j] == s[j-1];
    }
  }

  ghost predicate Increasing(s: seq<nat>) {
    forall j, k | 0 <= j < k < |s| :: s[j] < s[k]
  }

  /** Keeping some of an increasing list keeps it increasing, and keeping its last element keeps
      that last. */
  lemma {:induction false} KeepAtIncreasing(s: seq<nat>, kept: set<nat>)
    requires Increasing(s)
    ensures Increasing(KeepAt(s, kept)) && forall x | x in KeepAt(s, kept) :: x in s
    ensures |s| > 0 && |s| - 1 in kept ==> KeepAt(s, kept) != [] && KeepAt(s, kept)[|KeepAt(s, kept)|-1] == s[|s|-1]
  {
    if s != [] {
      var t, last := s[..|s|-1], s[|s|-1];
      KeepAtIncreasing(t, kept);
      assert s == t + [last];
      var u := KeepAt(t, kept);
      assert forall j | 0 <= j < |t| :: s[j] == t[j];
      assert forall x | x in t :: x < last;
      assert forall j | 0 <= j < |u| :: u[j] in u;
    }
  }

  lemma {:induction false} IncreasingAtLeast(s: seq<nat>)
    requires Increasing(s)
    ensures forall j | 0 <= j < |s| :: j <= s[j]
  {
    forall j | 0 <= j < |s|
      ensures j <= s[j]
    {
      LogicalGap(s, 0, j);
    }
  }

  // ---------- the step ----------

  /** Request `r` after dropping the pages at the positions outside `kept`. */
  function Squeezed(r: Request, kept: set<nat>, bs: nat): Request {
    var gone := Start(|DropAt(r.blockTable, kept)|, bs);
    r.(blockTable := KeepAt(r.blockTable, kept), logical := KeepAt(r.logical, kept),
       physical := if gone < r.physical then r.physical - gone else 0, compressed := true)
  }

  function Compress(p: Pool, i: nat, kept: set<nat>): Pool
    requires i < |p.reqs|
  {
    Drop(p, i, DropAt(p.reqs[i].blockTable, kept), Squeezed(p.reqs[i], kept, p.bs))
  }

  /** All pages before the last one are full. */
  ghost predicate Begun(r: Request, bs: nat) {
    r.blockTable != [] && Start(|r.blockTable| - 1, bs) <= r.physical
  }

  /** Only full pages are dropped: the last one stays, and those before it are full. */
  ghost predicate Compressible(r: Request, kept: set<nat>, bs: nat) {
    Begun(r, bs) && |r.blockTable| - 1 in kept
  }

  /** The sizes after a compression: each dropped page takes one page of positions with it. */
  lemma SqueezedSizes(r: Request, kept: set<nat>, bs: nat)
    requires r.TableOk(bs) && Compressible(r, kept, bs)
    ensures var s, d := Squeezed(r, kept, bs), |DropAt(r.blockTable, kept)|;
      && |s.blockTable| == |s.logical| == |r.blockTable| - d && s.blockTable != []
      && s.physical + Start(d, bs) == r.physical && s.Span() == r.Span()
      && Start(|s.blockTable|, bs) + Start(d, bs) == Start(|r.blockTable|, bs)
      && Start(|s.blockTable| - 1, bs) + Start(d, bs) == Start(|r.blockTable| - 1, bs)
  {
    var n, d := |r.blockTable|, |DropAt(r.blockTable, kept)|;
    KeepAtSizes(r.blockTable, r.logical, kept);
    KeepAtSizes(r.logical, r.blockTable, kept);
    KeepAtIncreasing(r.logical, kept);
    hide KeepAt, DropAt, Start, Distinct;
    StartSum(n - 1 - d, d, bs);
    StartSum(n - d, d, bs);
  }

  lemma SqueezedTable(r: Request, kept: set<nat>, bs: nat)
    requires r.TableOk(bs) && Compressible(r, kept, bs)
    ensures Squeezed(r, kept, bs).TableOk(bs)
  {
    hide KeepAt, DropAt, Distinct, Start;
    var s, d := Squeezed(r, kept, bs), |DropAt(r.blockTable, kept)|;
    SqueezedSizes(r, kept, bs);
    KeepAtMembers(r.blockTable, kept);
    KeepAtIncreasing(r.logical, kept);
    IncreasingAtLeast(s.logical);
    StartSum(r.Span() - |r.blockTable|, d, bs);
    assert |s.logical| - 1 <= s.logical[|s.logical| - 1];
  }

  /** Dropping full pages keeps the pool consistent, and moves the next write by whole pages. */
  lemma CompressInv(p: Pool, i: nat, kept: set<nat>)
    requires p.Inv() && i < |p.reqs| && Compressible(p.reqs[i], kept, p.bs)
    ensures Compress(p, i, kept).Inv()
  {
    hide Pool.Inv, Compressible, KeepAt, DropAt, UnrefEach, Distinct, Dropping;
    CompressDropping(p, i, kept);
    TableOf(p, i);
    SqueezedLast(p.reqs[i], kept, p.bs);
    DropInv(p, i, DropAt(p.reqs[i].blockTable, kept), Squeezed(p.reqs[i], kept, p.bs));
  }

  lemma TableOf(p: Pool, i: nat)
    requires p.Inv() && i < |p.reqs|
    ensures p.reqs[i].TableOk(p.bs)
  {
    assert p.ReqOk(i);
  }

  /** Only the last kept page can still be written, and it was the last one before. */
  lemma SqueezedLast(r: Request, kept: set<nat>, bs: nat)
    requires r.TableOk(bs) && Compressible(r, kept, bs)
    ensures var s := Squeezed(r, kept, bs);
      forall j: nat | j < |s.blockTable| && s.Writable(j, bs) ::
        exists k: nat {:trigger r.Writable(k, bs)} ::
          k < |r.blockTable| && r.blockTable[k] == s.blockTable[j] && r.Writable(k, bs)
  {
    var s := Squeezed(r, kept, bs);
    SqueezedSizes(r, kept, bs);
    KeepAtLast(r.blockTable, kept);
    forall j: nat | j < |s.blockTable| && s.Writable(j, bs)
      ensures exists k: nat {:trigger r.Writable(k, bs)} ::
          k < |r.blockTable| && r.blockTable[k] == s.blockTable[j] && r.Writable(k, bs)
    {
      if j + 1 < |s.blockTable| {
        StartMonotone(j + 1, |s.blockTable| - 1, bs);
      }
      assert r.Writable(|r.blockTable| - 1, bs);
    }
  }

  lemma KeepAtLast<T>(s: seq<T>, kept: set<nat>)
    requires s != [] && |s| - 1 in kept
    ensures KeepAt(s, kept) != [] && KeepAt(s, kept)[|KeepAt(s, kept)|-1] == s[|s|-1]
  {
  }

  lemma CompressDropping(p: Pool, i: nat, kept: set<nat>)
    requires p.Inv() && i < |p.reqs| && Compressible(p.reqs[i], kept, p.bs)
    ensures p.OwnershipOk() && p.FreeListOk()
      && Dropping(p, i, DropAt(p.reqs[i].blockTable, kept), Squeezed(p.reqs[i], kept, p.bs))
  {
    var r := p.reqs[i];
    assert p.ReqOk(i);
    KeepAtMembers(r.blockTable, kept);
    SqueezedTable(r, kept, p.bs);
  }

  lemma CompressDrops(p: Pool, i: nat, kept: set<nat>)
    requires p.Inv() && i < |p.reqs|
    ensures Distinct(DropAt(p.reqs[i].blockTable, kept))
    ensures forall b: BlockId | b in DropAt(p.reqs[i].blockTable, kept) :: b < |p.refs| && p.refs[b] > 0 && b !in p.free
    ensures var q := UnrefEach(p, DropAt(p.reqs[i].blockTable, kept));
      q == p.(refs := q.refs, free := q.free, used := q.used)
  {
    hide Pool.Inv, KeepAt, DropAt, Pool.FreeListOk, Distinct, Request.TableOk;
    PlaceInPool(p, i);
    DistinctTable(p.reqs[i], p.bs);
    KeepAtMembers(p.reqs[i].blockTable, kept);
    Droppable(p, i, DropAt(p.reqs[i].blockTable, kept));
    UnrefEachIs(p, DropAt(p.reqs[i].blockTable, kept));
  }

  /** Without its last page the table no longer reaches as far as the computed positions. */
  lemma SqueezedShort(r: Request, kept: set<nat>, bs: nat)
    requires bs > 0 && r.TableOk(bs) && Begun(r, bs) && |r.blockTable| - 1 !in kept
    ensures !Squeezed(r, kept, bs).TableOk(bs)
  {
    hide KeepAt, DropAt, Distinct, Start;
    var n, s, d := |r.blockTable|, Squeezed(r, kept, bs), |DropAt(r.blockTable, kept)|;
    KeepAtSizes(r.blockTable, r.logical, kept);
    KeepAtSizes(r.logical, r.blockTable, kept);
    if s.logical != [] {
      KeepAtShort(r.logical, kept);
      KeepAtIncreasing(r.logical, kept);
      IncreasingAtLeast(s.logical);
      StartMonotone(d, n - 1, bs);
      StartSum(d, r.Span() - n, bs);
      StartOrder(r.Span() - n + d, s.Span() - (n - d), bs);
    }
  }

  lemma KeepAtShort(s: seq<nat>, kept: set<nat>)
    requires Increasing(s) && s != [] && |s| - 1 !in kept && KeepAt(s, kept) != []
    ensures KeepAt(s, kept)[|KeepAt(s, kept)|-1] < s[|s|-1]
  {
    var t := s[..|s|-1];
    KeepAtIncreasing(t, kept);
    var u := KeepAt(t, kept);
    assert u[|u|-1] in t && forall x | x in t :: x < s[|s|-1];
  }

  lemma CompressedReq(p: Pool, i: nat, kept: set<nat>)
    requires i < |p.reqs|
    ensures |Compress(p, i, kept).reqs| == |p.reqs|
    ensures Compress(p, i, kept).reqs[i].blockTable == KeepAt(p.reqs[i].blockTable, kept)
  {
  }

  /** So the pool is consistent after a compression exactly if the last page is kept. */
  lemma CompressExactly(p: Pool, i: nat, kept: set<nat>)
    requires p.Inv() && i < |p.reqs| && Begun(p.reqs[i], p.bs)
    ensures Compress(p, i, kept).Inv() <==> |p.reqs[i].blockTable| - 1 in kept
  {
    hide Pool.Inv, Request.TableOk, KeepAt, DropAt, UnrefEach, Squeezed;
    PlaceInPool(p, i);
    if |p.reqs[i].blockTable| - 1 in kept {
      CompressInv(p, i, kept);
    } else {
      SqueezedShort(p.reqs[i], kept, p.bs);
      if Compress(p, i, kept).Inv() {
        PlaceInPool(Compress(p, i, kept), i);
      }
    }
  }

  // ---------- page budgets ----------

  function Interval(lo: nat, hi: nat): set<nat>
    decreases hi
  {
    if hi <= lo then {} else Interval(lo, hi - 1) + {hi - 1}
  }

  lemma {:induction false} IntervalIs(lo: nat, hi: nat)
    ensures forall j: nat :: j in Interval(lo, hi) <==> lo <= j < hi
    decreases hi
  {
    if lo < hi {
      IntervalIs(lo, hi - 1);
    }
  }

  lemma {:induction false} IntervalSize(lo: nat, hi: nat)
    requires lo <= hi
    ensures |Interval(lo, hi)| == hi - lo
    decreases hi
  {
    if lo < hi {
      IntervalSize(lo, hi - 1);
      IntervalIs(lo, hi - 1);
    }
  }

  /** As many elements are kept as positions are. */
  lemma {:induction false} KeepAtCount<T>(s: seq<T>, kept: set<nat>)
    ensures |KeepAt(s, kept)| == |kept * Interval(0, |s|)|
  {
    if s == [] {
      assert kept * Interval(0, 0) == {};
    } else {
      var n := |s| - 1;
      IntervalIs(0, n);
      KeepAtCount(s[..n], kept);
      assert kept * Interval(0, n + 1) == kept * Interval(0, n) + (if n in kept then {n} else {});
    }
  }

  /** The pages kept when the first `sink`, the last `recent` and some chosen ones between are. */
  function KeepSet(n: nat, sink: nat, recent: nat, chosen: set<nat>): set<nat>
    requires sink + recent <= n
  {
    Interval(0, sink) + Interval(n - recent, n) + chosen
  }

  /** Compression leaves exactly the configured number of pages, the last one among them. */
  lemma KeepsBudget<T>(s: seq<T>, sink: nat, recent: nat, chosen: set<nat>)
    requires sink + recent <= |s| && chosen <= Interval(sink, |s| - recent)
    ensures var kept := KeepSet(|s|, sink, recent, chosen);
      |KeepAt(s, kept)| == sink + recent + |chosen| && (recent > 0 ==> |s| - 1 in kept)
  {
    var kept := KeepSet(|s|, sink, recent, chosen);
    KeepAtCount(s, kept);
    KeepSetIs(|s|, sink, recent, chosen);
    hide Interval, KeepAt, KeepSet;
    assert kept * Interval(0, |s|) == kept;
  }

  lemma LastKept(n: nat, sink: nat, recent: nat, chosen: set<nat>)
    requires sink + recent <= n && sink < n && chosen <= Interval(sink, n - recent)
    ensures n - 1 in KeepSet(n, sink, recent, chosen) <==> recent > 0 || n - 1 in chosen
  {
    hide Interval;
    IntervalIs(0, sink);
    IntervalIs(n - recent, n);
  }

  lemma KeepSetIs(n: nat, sink: nat, recent: nat, chosen: set<nat>)
    requires sink + recent <= n && chosen <= Interval(sink, n - recent)
    ensures var kept := KeepSet(n, sink, recent, chosen);
      |kept| == sink + recent + |chosen| && kept <= Interval(0, n) && (recent > 0 ==> n - 1 in kept)
  {
    hide Interval;
    IntervalSize(0, sink);
    IntervalSize(n - recent, n);
    IntervalsApart(n, sink, recent);
    ApartSize(Interval(0, sink), Interval(n - recent, n), chosen, Interval(sink, n - recent), Interval(0, n));
  }

  lemma IntervalsApart(n: nat, sink: nat, recent: nat)
    requires sink + recent <= n
    ensures Interval(0, sink) !! Interval(n - recent, n)
      && Interval(0, sink) + Interval(n - recent, n) !! Interval(sink, n - recent)
    ensures Interval(0, sink) + Interval(n - recent, n) + Interval(sink, n - recent) <= Interval(0, n)
    ensures recent > 0 ==> n - 1 in Interval(n - recent, n)
  {
    IntervalIs(0, sink);
    IntervalIs(n - recent, n);
    IntervalIs(sink, n - recent);
    IntervalIs(0, n);
  }

  lemma ApartSize(a: set<nat>, b: set<nat>, c: set<nat>, middle: set<nat>, all: set<nat>)
    requires a !! b && a + b !! middle && c <= middle && a + b + middle <= all
    ensures |a + b + c| == |a| + |b| + |c| && a + b + c <= all
  {
    assert a + b !! c;
  }

  // ---------- choosing the important pages ----------

  /** Page `b` ranks below page `a`: a lower score, or the same score and an earlier position. */
  predicate RanksBelow(b: nat, a: nat, scores: map<nat, real>)
    requires a in scores && b in scores
  {
    scores[b] < scores[a] || (scores[b] == scores[a] && b < a)
  }

  /** The `k` highest-ranking positions. */
  method TopScored(scores: map<nat, real>, k: nat) returns (top: set<nat>)
    requires k <= |scores|
    ensures top <= scores.Keys && |top| == k
    ensures forall a, b | a in top && b in scores && b !in top :: RanksBelow(b, a, scores)
  {
    top := {};
    while |top| < k
      invariant top <= scores.Keys && |top| <= k
      invariant forall a, b | a in top && b in scores && b !in top :: RanksBelow(b, a, scores)
    {
      var rest := scores.Keys - top;
      assert |scores.Keys - top| == |scores.Keys| - |top|;
      var best := Highest(scores, rest);
      top := top + {best};
    }
  }

  method Highest(scores: map<nat, real>, among: set<nat>) returns (best: nat)
    requires among != {} && among <= scores.Keys
    ensures best in among && forall b | b in among && b != best :: RanksBelow(b, best, scores)
  {
    best :| best in among;
    var todo := among - {best};
    while todo != {}
      invariant todo <= among && best in among && best !in todo
      invariant forall b | b in among - todo && b != best :: RanksBelow(b, best, scores)
    {
      var b :| b in todo;
      todo := todo - {b};
      if !RanksBelow(b, best, scores) {
        assert RanksBelow(best, b, scores);
        assert forall c | c in among - todo && c != best && c != b :: RanksBelow(c, best, scores);
        best := b;
      }
    }
  }
}
