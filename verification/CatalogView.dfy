/** What the remote catalog holds, as a value: a descriptor per page-aligned token prefix. Its
    snapshot lists the longest prefixes only; merging a snapshot brings every prefix back. */
module CatalogView {
  import opened Wrappers
  import opened PrefixView

  datatype Identity = Identity(digest: string, tpRank: nat)

  datatype Descriptor = Descriptor(objectKey: string, identity: Identity, pageIndex: nat)

  type Contents = map<Path, Descriptor>

  // A registered prefix with its pages, `CatalogPrefixRecord` in a snapshot.
  datatype Prefix = Prefix(blockKeys: Path, pages: seq<Descriptor>)

  datatype Snapshot = Snapshot(identity: Identity, prefixes: seq<Prefix>)

  ghost predicate Closed(c: Contents) {
    forall p | p in c :: p != [] && (|p| > 1 ==> p[..|p|-1] in c)
  }

  /** Every descriptor knows its depth and belongs to the catalog's identity. */
  ghost predicate ContentsOk(c: Contents, identity: Option<Identity>) {
    && Closed(c)
    && (c != map[] <==> identity.Some?)
    && forall p | p in c :: c[p].pageIndex == |p| - 1 && identity == Some(c[p].identity)
  }

  /** `pages` describe the longest registered prefix of `keys`. */
  ghost predicate IsLookup(c: Contents, keys: Path, pages: seq<Descriptor>) {
    && |pages| <= |keys|
    && (forall n | 0 < n <= |pages| :: keys[..n] in c && c[keys[..n]] == pages[n-1])
    && (|pages| < |keys| ==> keys[..|pages|+1] !in c)
  }

  /** The content after registering `keys`: prefixes registered before keep their descriptor. */
  ghost function Registered(c: Contents, keys: Path, pages: seq<Descriptor>): Contents
    requires |keys| == |pages|
  {
    (map p | p in Prefixes(keys) && 0 < |p| <= |pages| :: pages[|p|-1]) + c
  }

  /** The pages may be registered together under `identity`. */
  predicate PagesOk(pages: seq<Descriptor>, identity: Identity) {
    forall i | 0 <= i < |pages| :: pages[i].pageIndex == i && pages[i].identity == identity
  }

  lemma RegisteredOk(c: Contents, identity: Option<Identity>, keys: Path, pages: seq<Descriptor>)
    requires ContentsOk(c, identity) && 0 < |keys| == |pages| && PagesOk(pages, pages[0].identity)
    requires identity.Some? ==> identity.value == pages[0].identity
    ensures ContentsOk(Registered(c, keys, pages), Some(pages[0].identity))
  {
    var d := Registered(c, keys, pages);
    PrefixMember(keys, keys);
    forall p | p in d
      ensures p != [] && (|p| > 1 ==> p[..|p|-1] in d)
      ensures d[p].pageIndex == |p| - 1 && d[p].identity == pages[0].identity
    {
      PrefixMember(keys, p);
      if p !in c && |p| > 1 {
        PrefixMember(keys, p[..|p|-1]);
      }
    }
    assert keys in d;
  }

  // ---------- the longest prefixes ----------

  ghost predicate Longest(c: Contents, p: Path) {
    p in c && forall q | q in c && p <= q :: q == p
  }

  /** The descriptors along `keys`, all of whose prefixes are registered. */
  ghost function PagesOf(c: Contents, keys: Path): (pages: seq<Descriptor>)
    requires forall n | 0 < n <= |keys| :: keys[..n] in c
  {
    seq(|keys|, i requires 0 <= i < |keys| => c[keys[..i+1]])
  }

  ghost predicate AllIn(c: Contents, keys: Path) {
    forall n | 0 < n <= |keys| :: keys[..n] in c
  }

  ghost predicate Describes(c: Contents, prefix: Prefix) {
    && 0 < |prefix.blockKeys| == |prefix.pages| && AllIn(c, prefix.blockKeys)
    && prefix.pages == PagesOf(c, prefix.blockKeys)
  }

  lemma {:induction false} ClosedUnder(c: Contents, p: Path)
    requires Closed(c) && p in c
    ensures AllIn(c, p)
  {
    forall n | 0 < n <= |p|
      ensures p[..n] in c
    {
      ClosedAt(c, p, n);
    }
  }

  lemma {:induction false} ClosedAt(c: Contents, p: Path, n: nat)
    requires Closed(c) && p in c && 0 < n <= |p|
    ensures p[..n] in c
    decreases |p|
  {
    if n == |p| {
      assert p[..n] == p;
    } else {
      ClosedAt(c, p[..|p|-1], n);
      assert p[..|p|-1][..n] == p[..n];
    }
  }

  /** Some registered prefix that extends `p` is extended by no other. */
  lemma {:induction false} SomeLongest(c: Contents, p: Path) returns (q: Path)
    requires p in c
    ensures p <= q && Longest(c, q)
  {
    q := Extend(c, p, c.Keys);
  }

  lemma {:induction false} Extend(c: Contents, p: Path, longer: set<Path>) returns (q: Path)
    requires p in c && forall r | r in c && p <= r && r != p :: r in longer
    ensures p <= q && Longest(c, q)
    decreases |longer|
  {
    if r :| r in c && p <= r && r != p {
      assert r in longer;
      forall s | s in c && r <= s && s != r
        ensures s in longer - {r}
      {
      }
      q := Extend(c, r, longer - {r});
    } else {
      q := p;
    }
  }

  // ---------- merging ----------

  ghost predicate WellShaped(prefixes: seq<Prefix>) {
    forall i {:trigger prefixes[i]} | 0 <= i < |prefixes| :: |prefixes[i].blockKeys| == |prefixes[i].pages|
  }

  ghost function Merged(c: Contents, prefixes: seq<Prefix>): Contents
    requires WellShaped(prefixes)
  {
    if prefixes == [] then c
    else
      var last := prefixes[|prefixes|-1];
      Registered(Merged(c, prefixes[..|prefixes|-1]), last.blockKeys, last.pages)
  }

  ghost predicate Within(small: Contents, large: Contents) {
    forall p | p in small :: p in large && small[p] == large[p]
  }

  /** Registering what `c` itself says about `keys` adds nothing that `c` does not have. */
  lemma RegisterWithin(small: Contents, c: Contents, prefix: Prefix)
    requires Within(small, c) && Describes(c, prefix)
    ensures var d := Registered(small, prefix.blockKeys, prefix.pages);
      Within(d, c) && Within(small, d) && forall n | 0 < n <= |prefix.blockKeys| :: prefix.blockKeys[..n] in d
  {
    var keys := prefix.blockKeys;
    var d := Registered(small, keys, prefix.pages);
    forall p | p in d
      ensures p in c && d[p] == c[p]
    {
      PrefixMember(keys, p);
      if p !in small {
        assert keys[..|p|] == p;
      }
    }
    forall n | 0 < n <= |keys|
      ensures keys[..n] in d
    {
      PrefixMember(keys, keys[..n]);
    }
  }

  lemma {:induction false} MergedWithin(c: Contents, prefixes: seq<Prefix>)
    requires forall i | 0 <= i < |prefixes| :: Describes(c, prefixes[i])
    ensures WellShaped(prefixes) && Within(Merged(map[], prefixes), c)
    ensures forall i, n | 0 <= i < |prefixes| && 0 < n <= |prefixes[i].blockKeys| ::
      prefixes[i].blockKeys[..n] in Merged(map[], prefixes)
  {
    assert WellShaped(prefixes);
    if prefixes != [] {
      var l := |prefixes| - 1;
      MergedWithin(c, prefixes[..l]);
      RegisterWithin(Merged(map[], prefixes[..l]), c, prefixes[l]);
      forall i, n | 0 <= i < |prefixes| && 0 < n <= |prefixes[i].blockKeys|
        ensures prefixes[i].blockKeys[..n] in Merged(map[], prefixes)
      {
        if i < l {
          assert prefixes[..l][i] == prefixes[i];
        }
      }
    }
  }

  ghost predicate ListsLongest(c: Contents, prefixes: seq<Prefix>) {
    forall p | Longest(c, p) :: exists i :: 0 <= i < |prefixes| && prefixes[i].blockKeys == p
  }

  lemma Listed(c: Contents, prefixes: seq<Prefix>, p: Path) returns (i: nat)
    requires ListsLongest(c, prefixes) && Longest(c, p)
    ensures i < |prefixes| && prefixes[i].blockKeys == p
  {
    i :| 0 <= i < |prefixes| && prefixes[i].blockKeys == p;
  }

  lemma Restored(c: Contents, prefixes: seq<Prefix>, p: Path)
    requires Closed(c) && ListsLongest(c, prefixes) && p in c && WellShaped(prefixes)
    requires forall i, n | 0 <= i < |prefixes| && 0 < n <= |prefixes[i].blockKeys| ::
      prefixes[i].blockKeys[..n] in Merged(map[], prefixes)
    ensures p in Merged(map[], prefixes)
  {
    var q := SomeLongest(c, p);
    var i := Listed(c, prefixes, q);
    assert p != [] && q[..|p|] == p;
    hide *;
    assert prefixes[i].blockKeys[..|p|] in Merged(map[], prefixes);
  }

  lemma SameContents(small: Contents, large: Contents)
    requires Within(small, large) && forall p | p in large :: p in small
    ensures small == large
  {
  }

  /** Merging prefixes of a catalog into an empty one, in whatever order and with whatever
      repetitions, restores the catalog as soon as its longest prefixes are among them. */
  lemma MergeRestores(c: Contents, prefixes: seq<Prefix>)
    requires Closed(c) && ListsLongest(c, prefixes)
    requires forall i | 0 <= i < |prefixes| :: Describes(c, prefixes[i])
    ensures WellShaped(prefixes) && Merged(map[], prefixes) == c
  {
    MergedWithin(c, prefixes);
    hide Merged, Describes, Closed, ListsLongest, Longest, WellShaped;
    forall p | p in c
      ensures p in Merged(map[], prefixes)
    {
      Restored(c, prefixes, p);
    }
    SameContents(Merged(map[], prefixes), c);
  }

  // ---------- the order of a snapshot ----------

  /** Tuples of integers, in lexicographic order. */
  predicate KeyLess(a: BlockKey, b: BlockKey) {
    b != [] && (a == [] || a[0] < b[0] || (a[0] == b[0] && KeyLess(a[1..], b[1..])))
  }

  predicate PathLess(a: Path, b: Path) {
    b != [] && (a == [] || KeyLess(a[0], b[0]) || (a[0] == b[0] && PathLess(a[1..], b[1..])))
  }

  lemma {:induction false} KeyLessIrreflexive(a: BlockKey)
    ensures !KeyLess(a, a)
  {
    if a != [] {
      KeyLessIrreflexive(a[1..]);
    }
  }

  lemma {:induction false} KeyLessTransitive(a: BlockKey, b: BlockKey, c: BlockKey)
    requires KeyLess(a, b) && KeyLess(b, c)
    ensures KeyLess(a, c)
  {
    if a != [] && a[0] == b[0] == c[0] {
      KeyLessTransitive(a[1..], b[1..], c[1..]);
    }
  }

  lemma {:induction false} KeyLessTotal(a: BlockKey, b: BlockKey)
    ensures KeyLess(a, b) || KeyLess(b, a) || a == b
  {
    if a != [] && b != [] && a[0] == b[0] {
      KeyLessTotal(a[1..], b[1..]);
      assert a == [a[0]] + a[1..] && b == [b[0]] + b[1..];
    }
  }

  lemma {:induction false} PathLessIrreflexive(a: Path)
    ensures !PathLess(a, a)
  {
    if a != [] {
      KeyLessIrreflexive(a[0]);
      PathLessIrreflexive(a[1..]);
    }
  }

  lemma {:induction false} PathLessTransitive(a: Path, b: Path, c: Path)
    requires PathLess(a, b) && PathLess(b, c)
    ensures PathLess(a, c)
  {
    if a != [] {
      if KeyLess(a[0], b[0]) && KeyLess(b[0], c[0]) {
        KeyLessTransitive(a[0], b[0], c[0]);
      }
      if a[0] == b[0] == c[0] && PathLess(a[1..], b[1..]) && PathLess(b[1..], c[1..]) {
        PathLessTransitive(a[1..], b[1..], c[1..]);
      }
    }
  }

  lemma {:induction false} PathLessTotal(a: Path, b: Path)
    ensures PathLess(a, b) || PathLess(b, a) || a == b
  {
    if a != [] && b != [] {
      KeyLessTotal(a[0], b[0]);
      if a[0] == b[0] {
        PathLessTotal(a[1..], b[1..]);
        assert a == [a[0]] + a[1..] && b == [b[0]] + b[1..];
      }
    }
  }

  /** Where two paths part decides their order. */
  lemma {:induction false} BranchLess(stem: Path, a: Path, b: Path)
    requires |stem| < |a| && |stem| < |b| && stem <= a && stem <= b && KeyLess(a[|stem|], b[|stem|])
    ensures PathLess(a, b)
  {
    if stem != [] {
      assert stem[0] == a[0] == b[0];
      assert stem[1..] <= a[1..] && stem[1..] <= b[1..];
      BranchLess(stem[1..], a[1..], b[1..]);
    }
  }

  ghost predicate InOrder(prefixes: seq<Prefix>) {
    forall i, j | 0 <= i < j < |prefixes| :: PathLess(prefixes[i].blockKeys, prefixes[j].blockKeys)
  }

  /** `prefixes` is the list a snapshot of `c` contains. */
  ghost predicate IsSnapshot(c: Contents, prefixes: seq<Prefix>) {
    && InOrder(prefixes) && ListsLongest(c, prefixes)
    && forall i | 0 <= i < |prefixes| :: Describes(c, prefixes[i]) && Longest(c, prefixes[i].blockKeys)
  }

  /** The longest prefixes that extend `q`, in order. */
  ghost predicate Lists(c: Contents, q: Path, prefixes: seq<Prefix>) {
    && InOrder(prefixes)
    && (forall i | 0 <= i < |prefixes| ::
         Describes(c, prefixes[i]) && Longest(c, prefixes[i].blockKeys) && q <= prefixes[i].blockKeys)
    && forall p | Longest(c, p) && q <= p :: exists i :: 0 <= i < |prefixes| && prefixes[i].blockKeys == p
  }

  /** The longest prefixes that continue `q` with one of the keys `done`, in order. */
  ghost predicate ListsBranches(c: Contents, q: Path, done: set<BlockKey>, prefixes: seq<Prefix>) {
    && InOrder(prefixes)
    && (forall i | 0 <= i < |prefixes| ::
         Describes(c, prefixes[i]) && Longest(c, prefixes[i].blockKeys) && Branch(q, done, prefixes[i].blockKeys))
    && forall p | Longest(c, p) && Branch(q, done, p) :: exists i :: 0 <= i < |prefixes| && prefixes[i].blockKeys == p
  }

  ghost predicate Branch(q: Path, done: set<BlockKey>, p: Path) {
    q <= p && |q| < |p| && p[|q|] in done
  }

  /** The next branch, whose key comes after all keys so far, goes at the end. */
  lemma AddBranch(c: Contents, q: Path, done: set<BlockKey>, prefixes: seq<Prefix>, k: BlockKey, stem: Path,
      more: seq<Prefix>)
    requires ListsBranches(c, q, done, prefixes) && Lists(c, stem, more)
    requires q + [k] <= stem && forall j | j in done :: KeyLess(j, k)
    requires forall p | Longest(c, p) && Branch(q, {k}, p) :: stem <= p
    ensures ListsBranches(c, q, done + {k}, prefixes + more)
  {
    var all := prefixes + more;
    hide Describes, Longest;
    forall p | stem <= p
      ensures Branch(q, {k}, p)
    {
      assert (q + [k])[|q|] == p[|q|];
    }
    forall i, j | 0 <= i < j < |all|
      ensures PathLess(all[i].blockKeys, all[j].blockKeys)
    {
      if i < |prefixes| <= j {
        assert Branch(q, done, prefixes[i].blockKeys) && Branch(q, {k}, more[j - |prefixes|].blockKeys);
        BranchLess(q, all[i].blockKeys, all[j].blockKeys);
      }
    }
    forall p | Longest(c, p) && Branch(q, done + {k}, p)
      ensures exists i :: 0 <= i < |all| && all[i].blockKeys == p
    {
      if p[|q|] in done {
        assert Branch(q, done, p);
        var i :| 0 <= i < |prefixes| && prefixes[i].blockKeys == p;
        assert all[i].blockKeys == p;
      } else {
        assert Branch(q, {k}, p);
        var i :| 0 <= i < |more| && more[i].blockKeys == p;
        assert all[|prefixes| + i].blockKeys == p;
      }
    }
  }

  /** What the constructors of the snapshot's records check, besides page size and token range. */
  ghost predicate Mergeable(identity: Identity, prefixes: seq<Prefix>) {
    && prefixes != []
    && forall i {:trigger prefixes[i]} | 0 <= i < |prefixes| ::
         0 < |prefixes[i].blockKeys| == |prefixes[i].pages| && PagesOk(prefixes[i].pages, identity)
  }

  lemma SnapshotMergeable(c: Contents, identity: Identity, prefixes: seq<Prefix>)
    requires ContentsOk(c, Some(identity)) && IsSnapshot(c, prefixes)
    ensures Mergeable(identity, prefixes)
  {
    forall i | 0 <= i < |prefixes|
      ensures 0 < |prefixes[i].blockKeys| == |prefixes[i].pages| && PagesOk(prefixes[i].pages, identity)
    {
      assert Describes(c, prefixes[i]);
    }
    var p :| p in c;
    var q := SomeLongest(c, p);
  }

  lemma ListedOnce(c: Contents, prefixes: seq<Prefix>, p: Path) returns (i: nat)
    requires IsSnapshot(c, prefixes) && Longest(c, p)
    ensures i < |prefixes| && prefixes[i].blockKeys == p && prefixes[i].pages == PagesOf(c, p)
  {
    i :| 0 <= i < |prefixes| && prefixes[i].blockKeys == p;
    assert Describes(c, prefixes[i]);
  }

  /** A snapshot depends on the catalog's content alone, not on how it came about or on the shape
      of the tree. */
  lemma {:induction false} SnapshotUnique(c: Contents, a: seq<Prefix>, b: seq<Prefix>)
    requires IsSnapshot(c, a) && IsSnapshot(c, b)
    ensures a == b
  {
    forall n | 0 <= n <= |a| && n <= |b|
      ensures a[..n] == b[..n]
    {
      SamePrefix(c, a, b, n);
    }
    if |a| != |b| {
      var (s, l) := if |a| < |b| then (a, b) else (b, a);
      assert a[..|s|] == b[..|s|];
      var i := ListedOnce(c, s, l[|s|].blockKeys);
      assert s[i] == s[..|s|][i] && l[i] == l[..|s|][i];
      PathLessIrreflexive(l[i].blockKeys);
      assert false;
    }
    assert a == a[..|a|] && b == b[..|b|];
  }

  lemma {:induction false} SamePrefix(c: Contents, a: seq<Prefix>, b: seq<Prefix>, n: nat)
    requires IsSnapshot(c, a) && IsSnapshot(c, b) && n <= |a| && n <= |b|
    ensures a[..n] == b[..n]
  {
    if n > 0 {
      SamePrefix(c, a, b, n - 1);
      var i := ListedOnce(c, b, a[n-1].blockKeys);
      var j := ListedOnce(c, a, b[n-1].blockKeys);
      NotBefore(a, b, n - 1, i);
      NotBefore(b, a, n - 1, j);
      if i != n - 1 {
        assert j > n - 1 || j == n - 1;
        assert PathLess(b[n-1].blockKeys, b[i].blockKeys);
        if j == n - 1 {
          PathLessIrreflexive(a[n-1].blockKeys);
        } else {
          PathLessTransitive(a[n-1].blockKeys, a[j].blockKeys, a[n-1].blockKeys);
          PathLessIrreflexive(a[n-1].blockKeys);
        }
        assert false;
      }
      assert Describes(c, a[n-1]) && Describes(c, b[n-1]);
      assert a[..n] == a[..n-1] + [a[n-1]] && b[..n] == b[..n-1] + [b[n-1]];
    }
  }

  lemma NotBefore(a: seq<Prefix>, b: seq<Prefix>, n: nat, i: nat)
    requires InOrder(a) && n < |a| && n <= |b| && a[..n] == b[..n] && i < |b| && b[i].blockKeys == a[n].blockKeys
    ensures n <= i
  {
    if i < n {
      assert a[i] == a[..n][i] == b[..n][i] == b[i];
      PathLessIrreflexive(a[n].blockKeys);
    }
  }

  /** The round trip: merging the snapshot of a catalog into an empty one restores its content, so
      every lookup and the next snapshot are the same again. */
  lemma SnapshotRoundTrip(c: Contents, prefixes: seq<Prefix>, again: seq<Prefix>)
    requires Closed(c) && IsSnapshot(c, prefixes)
    ensures WellShaped(prefixes) && Merged(map[], prefixes) == c
    ensures IsSnapshot(Merged(map[], prefixes), again) ==> again == prefixes
  {
    forall i | 0 <= i < |prefixes|
      ensures Describes(c, prefixes[i])
    {
    }
    MergeRestores(c, prefixes);
    if IsSnapshot(Merged(map[], prefixes), again) {
      SnapshotUnique(c, again, prefixes);
    }
  }

  lemma RegisteredUpTo(c: Contents, keys: Path, pages: seq<Descriptor>, n: nat)
    requires Closed(c) && IsLookup(c, keys, pages) && 0 < n <= |keys|
    ensures keys[..n] in c <==> n <= |pages|
  {
    if |pages| < n {
      assert keys[..n][..|pages|+1] == keys[..|pages|+1];
      if keys[..n] in c {
        ClosedAt(c, keys[..n], |pages| + 1);
      }
    }
  }

  /** A lookup is determined by the content. */
  lemma LookupUnique(c: Contents, keys: Path, a: seq<Descriptor>, b: seq<Descriptor>)
    requires Closed(c) && IsLookup(c, keys, a) && IsLookup(c, keys, b)
    ensures a == b
  {
    if b != [] {
      RegisteredUpTo(c, keys, a, |b|);
    }
    if a != [] {
      RegisteredUpTo(c, keys, b, |a|);
    }
    forall i | 0 <= i < |a|
      ensures a[i] == b[i]
    {
      assert keys[..i+1] in c;
    }
  }
}
