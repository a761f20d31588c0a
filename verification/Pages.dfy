/** Page arithmetic: positions, pages and offsets, and the page-aligned prefixes of a token list.

    `Start` is multiplication by the page size written as a recursion, so that the proofs about
    pages stay in linear arithmetic; `StartIs` is the only bridge. */
module Pages {
  import opened PrefixView

  /** The first position of page `j`. */
  function Start(j: nat, bs: nat): nat {
    if j == 0 then 0 else Start(j - 1, bs) + bs
  }

  /** Number of pages that hold `n` tokens. */
  function PagesFor(n: nat, bs: nat): nat
    requires bs > 0
  {
    (n + bs - 1) / bs
  }

  /** Number of pages that the first `n` positions fill. */
  function Full(n: nat, bs: nat): nat
    requires bs > 0
  {
    n / bs
  }

  /** The place of position `n` within its page. */
  function Offset(n: nat, bs: nat): nat
    requires bs > 0
  {
    n % bs
  }

  lemma PageAndOffset(n: nat, bs: nat)
    requires bs > 0
    ensures Start(Full(n, bs), bs) + Offset(n, bs) == n && Offset(n, bs) < bs
    ensures Start(Full(n, bs) + 1, bs) == Start(Full(n, bs), bs) + bs
  {
    PageOf(n, bs);
  }

  /** A position determines its page. */
  lemma PageFixed(n: nat, j: nat, off: nat, bs: nat)
    requires bs > 0 && n == Start(j, bs) + off && off < bs
    ensures Full(n, bs) == j && Offset(n, bs) == off
  {
    PageUnique(n, j, bs);
  }

  lemma FullMonotone(n: nat, k: nat, bs: nat)
    requires bs > 0
    ensures Full(n, bs) <= Full(n + k, bs)
  {
    PageOf(n, bs);
    PageOf(n + k, bs);
    if Full(n + k, bs) < Full(n, bs) {
      StartMonotone(Full(n + k, bs), Full(n, bs), bs);
    }
  }

  lemma {:induction false} StartIs(j: nat, bs: nat)
    ensures Start(j, bs) == j * bs
  {
    if j > 0 {
      StartIs(j - 1, bs);
      assert (j - 1) * bs + bs == j * bs;
    }
  }

  lemma {:induction false} StartMonotone(j: nat, k: nat, bs: nat)
    requires j <= k
    ensures Start(j, bs) <= Start(k, bs)
    ensures j < k ==> Start(j, bs) + bs <= Start(k, bs)
    decreases k
  {
    if j < k {
      StartMonotone(j, k - 1, bs);
    }
  }

  lemma StartOrder(j: nat, k: nat, bs: nat)
    requires bs > 0
    ensures Start(j, bs) < Start(k, bs) <==> j < k
    ensures Start(j, bs) == Start(k, bs) <==> j == k
  {
    if j < k {
      StartMonotone(j, k, bs);
    } else {
      StartMonotone(k, j, bs);
    }
  }

  lemma {:induction false} StartSum(j: nat, k: nat, bs: nat)
    ensures Start(j + k, bs) == Start(j, bs) + Start(k, bs)
    decreases k
  {
    if k > 0 {
      StartSum(j, k - 1, bs);
    }
  }

  /** Every position lies in one page: its quotient, at its remainder. */
  lemma PageOf(n: nat, bs: nat)
    requires bs > 0
    ensures Start(n / bs, bs) <= n < Start(n / bs, bs) + bs && n % bs == n - Start(n / bs, bs)
  {
    StartIs(n / bs, bs);
  }

  lemma PageUnique(n: nat, j: nat, bs: nat)
    requires bs > 0 && Start(j, bs) <= n < Start(j, bs) + bs
    ensures n / bs == j && n % bs == n - Start(j, bs)
  {
    PageOf(n, bs);
    if n / bs < j {
      StartMonotone(n / bs, j, bs);
    } else if j < n / bs {
      StartMonotone(j, n / bs, bs);
    }
  }

  lemma FullPages(j: nat, bs: nat)
    requires bs > 0
    ensures Start(j, bs) / bs == j && Start(j, bs) % bs == 0
  {
    PageUnique(Start(j, bs), j, bs);
  }

  lemma PagesForBounds(n: nat, bs: nat)
    requires bs > 0
    ensures n <= Start(PagesFor(n, bs), bs)
    ensures n > 0 ==> PagesFor(n, bs) > 0 && Start(PagesFor(n, bs) - 1, bs) < n
  {
    PageOf(n + bs - 1, bs);
  }

  /** `n` tokens fit `k` pages just when they need no more than `k`. */
  lemma PagesForAtMost(n: nat, k: nat, bs: nat)
    requires bs > 0
    ensures PagesFor(n, bs) <= k <==> n <= Start(k, bs)
  {
    PagesForBounds(n, bs);
    if PagesFor(n, bs) <= k {
      StartMonotone(PagesFor(n, bs), k, bs);
    } else {
      StartMonotone(k, PagesFor(n, bs) - 1, bs);
    }
  }

  lemma PagesForIs(n: nat, k: nat, bs: nat)
    requires bs > 0 && n <= Start(k, bs) && (k > 0 ==> Start(k - 1, bs) < n)
    ensures PagesFor(n, bs) == k
  {
    PagesForAtMost(n, k, bs);
    if k > 0 {
      PagesForAtMost(n, k - 1, bs);
    }
  }

  /** The first `n` pages of `tokens` as index keys. */
  ghost function PathOfTokens(tokens: seq<Token>, n: nat, bs: nat): (p: Path)
    requires Start(n, bs) <= |tokens|
    ensures |p| == n
  {
    if n == 0 then [] else PathOfTokens(tokens, n - 1, bs) + [tokens[Start(n-1, bs)..Start(n, bs)]]
  }

  ghost predicate PageSized(p: Path, bs: nat) {
    forall k | k in p :: |k| == bs
  }

  /** The tokens a path spells. */
  ghost function Flat(p: Path): seq<Token> {
    if p == [] then [] else Flat(p[..|p|-1]) + p[|p|-1]
  }

  lemma FlatAppend(q: Path, last: BlockKey, bs: nat)
    ensures Flat(q + [last]) == Flat(q) + last
    ensures PageSized(q, bs) && |last| == bs ==> PageSized(q + [last], bs)
  {
    assert (q + [last])[..|q|] == q;
  }

  lemma {:induction false} FlatLength(p: Path, bs: nat)
    requires PageSized(p, bs)
    ensures |Flat(p)| == Start(|p|, bs)
  {
    if p != [] {
      assert p[|p|-1] in p;
      FlatLength(p[..|p|-1], bs);
    }
  }

  lemma {:induction false} FlatOfPath(tokens: seq<Token>, n: nat, bs: nat)
    requires Start(n, bs) <= |tokens|
    ensures Flat(PathOfTokens(tokens, n, bs)) == tokens[..Start(n, bs)]
    ensures PageSized(PathOfTokens(tokens, n, bs), bs)
  {
    if n > 0 {
      PathStep(tokens, n, bs);
      hide Flat, PageSized, PathOfTokens, Start;
      var lo, hi := Start(n - 1, bs), Start(n, bs);
      FlatOfPath(tokens, n - 1, bs);
      FlatAppend(PathOfTokens(tokens, n - 1, bs), tokens[lo..hi], bs);
      JoinSlices(tokens, lo, hi);
    }
  }

  lemma JoinSlices(s: seq<Token>, lo: nat, hi: nat)
    requires lo <= hi <= |s|
    ensures s[..lo] + s[lo..hi] == s[..hi] && |s[lo..hi]| == hi - lo
  {
  }

  lemma PathStep(tokens: seq<Token>, n: nat, bs: nat)
    requires n > 0 && Start(n, bs) <= |tokens|
    ensures Start(n-1, bs) + bs == Start(n, bs)
    ensures PathOfTokens(tokens, n, bs) == PathOfTokens(tokens, n - 1, bs) + [tokens[Start(n-1, bs)..Start(n, bs)]]
  {
  }

  /** The path of a prefix only depends on the tokens it covers. */
  lemma {:induction false} SamePath(s: seq<Token>, t: seq<Token>, n: nat, bs: nat)
    requires Start(n, bs) <= |s| && Start(n, bs) <= |t| && s[..Start(n, bs)] == t[..Start(n, bs)]
    ensures PathOfTokens(s, n, bs) == PathOfTokens(t, n, bs)
  {
    if n > 0 {
      var lo, hi := Start(n - 1, bs), Start(n, bs);
      assert s[..lo] == s[..hi][..lo] && t[..lo] == t[..hi][..lo];
      SamePath(s, t, n - 1, bs);
      assert s[lo..hi] == s[..hi][lo..] && t[lo..hi] == t[..hi][lo..];
    }
  }

  /** A page-sized path is the path of the tokens it spells. */
  lemma {:induction false} PathOfFlat(p: Path, bs: nat)
    requires PageSized(p, bs)
    ensures Start(|p|, bs) == |Flat(p)| && PathOfTokens(Flat(p), |p|, bs) == p
  {
    FlatLength(p, bs);
    if p != [] {
      var q, last := p[..|p|-1], p[|p|-1];
      assert last in p && p == q + [last];
      PathOfFlat(q, bs);
      FlatAppend(q, last, bs);
      PathStep(Flat(p), |p|, bs);
      hide Flat, PageSized, PathOfTokens, Start;
      LastSlice(Flat(p), Flat(q), last, Start(|q|, bs), Start(|p|, bs));
      SamePath(Flat(p), Flat(q), |q|, bs);
    }
  }

  lemma LastSlice(t: seq<Token>, s: seq<Token>, last: seq<Token>, lo: nat, hi: nat)
    requires t == s + last && lo == |s| && hi == |t|
    ensures t[..lo] == s[..lo] && t[lo..hi] == last
  {
  }

  lemma {:induction false} PathPrefix(tokens: seq<Token>, n: nat, k: nat, bs: nat)
    requires Start(n, bs) <= |tokens| && k <= n
    ensures Start(k, bs) <= Start(n, bs) && PathOfTokens(tokens, n, bs)[..k] == PathOfTokens(tokens, k, bs)
  {
    StartMonotone(k, n, bs);
    if k < n {
      StartMonotone(n - 1, n, bs);
      PathPrefix(tokens, n - 1, k, bs);
      assert PathOfTokens(tokens, n, bs)[..k] == PathOfTokens(tokens, n - 1, bs)[..k];
    }
  }
}
