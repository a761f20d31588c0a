/** The abstract content of a prefix index: which page-aligned token prefixes are indexed and
    which page (or handle) stands for each of them. */
module PrefixView {

  type Token = int

  // The tokens of one page; `BlockKey` in the index.
  type BlockKey = seq<Token>

  // A page-aligned token prefix, one key per page.
  type Path = seq<BlockKey>

  type BlockId = nat

  type View = map<Path, BlockId>

  /** Every prefix of an indexed prefix is indexed, and the empty prefix is not. */
  ghost predicate PrefixClosed(view: View) {
    forall p | p in view :: p != [] && (|p| > 1 ==> p[..|p|-1] in view)
  }

  /** No page stands for two prefixes. */
  ghost predicate Injective(view: View) {
    forall p, q | p in view && q in view && view[p] == view[q] :: p == q
  }

  ghost predicate WellFormed(view: View) {
    PrefixClosed(view) && Injective(view)
  }

  ghost function Prefixes(keys: Path): set<Path> {
    set j | 1 <= j <= |keys| :: keys[..j]
  }

  /** `ids` are the pages of the longest indexed prefix of `keys`. */
  ghost predicate IsMatch(view: View, keys: Path, ids: seq<BlockId>) {
    && |ids| <= |keys|
    && (forall n | 0 < n <= |ids| :: keys[..n] in view && view[keys[..n]] == ids[n-1])
    && (|ids| < |keys| ==> keys[..|ids|+1] !in view)
  }

  /** All of `keys` is indexed. */
  ghost predicate Indexed(view: View, keys: Path) {
    forall n | 0 < n <= |keys| :: keys[..n] in view
  }

  lemma IndexedAt(view: View, keys: Path, n: nat)
    requires Indexed(view, keys) && 0 < n <= |keys|
    ensures keys[..n] in view
  {
  }

  /** Keys all of which are indexed are matched to their end. */
  lemma IndexedMatches(view: View, keys: Path, ids: seq<BlockId>)
    requires Indexed(view, keys) && IsMatch(view, keys, ids)
    ensures |ids| == |keys|
  {
    hide Indexed;
    if |ids| < |keys| {
      IndexedAt(view, keys, |ids| + 1);
    }
  }

  /** The longest indexed prefix of `keys`. */
  ghost function Stem(view: View, keys: Path): Path {
    if keys == [] || keys in view then keys else Stem(view, keys[..|keys|-1])
  }

  /** The content after inserting `keys`: prefixes already present keep their page. */
  ghost function InsertView(view: View, keys: Path, ids: seq<BlockId>): View
    requires |keys| == |ids|
  {
    map p | p in view.Keys + Prefixes(keys) ::
      if p in view then view[p] else if p in Prefixes(keys) then ids[|p|-1] else 0
  }

  /** The content after invalidating prefix `q`: everything that extends it is gone. */
  ghost function RemoveView(view: View, q: Path): View {
    map p | p in view && !(q <= p) :: view[p]
  }

  /** Pages that the insertion would put under new prefixes are not indexed yet. */
  ghost predicate FreshSuffix(view: View, keys: Path, ids: seq<BlockId>)
    requires |keys| == |ids|
  {
    forall n | 0 < n <= |keys| && keys[..n] !in view :: ids[n-1] !in view.Values
  }

  predicate Distinct(ids: seq<BlockId>) {
    forall i, j | 0 <= i < |ids| && 0 <= j < |ids| && ids[i] == ids[j] :: i == j
  }

  lemma {:induction false} PrefixInView(view: View, p: Path, n: nat)
    requires PrefixClosed(view) && p in view && 0 < n <= |p|
    ensures p[..n] in view
    decreases |p|
  {
    if n == |p| {
      assert p[..n] == p;
    } else {
      PrefixInView(view, p[..|p|-1], n);
      assert p[..|p|-1][..n] == p[..n];
    }
  }

  /** What extends `p` continues it with one key first. */
  lemma Continues(view: View, p: Path, q: Path)
    requires PrefixClosed(view) && q in view && p <= q && |p| < |q|
    ensures p + [q[|p|]] in view
  {
    assert q[..|p|+1] == p + [q[|p|]];
    PrefixInView(view, q, |p| + 1);
  }

  /** The indexed prefixes of `keys` are those up to its longest one. */
  lemma IndexedUpTo(view: View, keys: Path, position: nat)
    requires PrefixClosed(view) && position <= |keys|
    requires position > 0 ==> keys[..position] in view
    requires position < |keys| ==> keys[..position+1] !in view
    ensures forall n | 0 < n <= |keys| :: keys[..n] in view <==> n <= position
  {
    forall n | 0 < n <= |keys|
      ensures keys[..n] in view <==> n <= position
    {
      if n <= position {
        assert keys[..position][..n] == keys[..n];
        PrefixInView(view, keys[..position], n);
      } else if keys[..n] in view {
        assert keys[..n][..position+1] == keys[..position+1];
        PrefixInView(view, keys[..n], position + 1);
      }
    }
  }

  lemma {:induction false} StemIs(view: View, keys: Path, position: nat)
    requires PrefixClosed(view) && position <= |keys| && (position > 0 ==> keys[..position] in view)
    requires position < |keys| ==> keys[..position+1] !in view
    ensures Stem(view, keys) == keys[..position] && (position < |keys| ==> keys !in view)
  {
    IndexedUpTo(view, keys, position);
    assert keys[..|keys|] == keys;
    if position < |keys| {
      var shorter := keys[..|keys|-1];
      assert shorter[..position] == keys[..position];
      assert position < |shorter| ==> shorter[..position+1] == keys[..position+1];
      StemIs(view, shorter, position);
    }
  }

  /** A match is the longest one: no prefix beyond it is indexed, and it is the only match. */
  lemma MatchIsLongest(view: View, keys: Path, ids: seq<BlockId>, other: seq<BlockId>)
    requires PrefixClosed(view) && IsMatch(view, keys, ids)
    ensures forall n | 0 < n <= |keys| :: keys[..n] in view <==> n <= |ids|
    ensures IsMatch(view, keys, other) ==> other == ids
  {
    forall n | 0 < n <= |keys|
      ensures keys[..n] in view <==> n <= |ids|
    {
      if |ids| < n && keys[..n] in view {
        assert keys[..n][..|ids|+1] == keys[..|ids|+1];
        PrefixInView(view, keys[..n], |ids| + 1);
      }
    }
    if IsMatch(view, keys, other) {
      var n := if |other| < |ids| then |other| + 1 else |ids| + 1;
      assert n <= |keys| ==> keys[..n] in view || keys[..n] !in view;
      forall i | 0 <= i < |ids| && |other| == |ids|
        ensures other[i] == ids[i]
      {
        assert keys[..i+1] in view;
      }
    }
  }

  lemma MatchAt(view: View, keys: Path, ids: seq<BlockId>, j: nat)
    requires IsMatch(view, keys, ids) && j < |ids|
    ensures j < |keys| && keys[..j+1] in view && view[keys[..j+1]] == ids[j]
  {
  }

  lemma MatchedIdsDistinct(view: View, keys: Path, ids: seq<BlockId>)
    requires Injective(view) && IsMatch(view, keys, ids)
    ensures Distinct(ids)
  {
    forall i, j | 0 <= i < |ids| && 0 <= j < |ids| && ids[i] == ids[j]
      ensures i == j
    {
      assert keys[..i+1] in view && keys[..j+1] in view;
      assert |keys[..i+1]| == |keys[..j+1]|;
    }
  }

  lemma PrefixMember(keys: Path, p: Path)
    ensures p in Prefixes(keys) <==> p != [] && p <= keys
  {
    if p != [] && p <= keys {
      assert p == keys[..|p|];
    }
  }

  /** Insertion keeps the index well formed, keeps existing pages canonical and makes all of
      `keys` matchable. */
  lemma InsertKeepsWellFormed(view: View, keys: Path, ids: seq<BlockId>)
    requires |keys| == |ids| && WellFormed(view) && Distinct(ids) && FreshSuffix(view, keys, ids)
    ensures WellFormed(InsertView(view, keys, ids))
    ensures forall p | p in view :: p in InsertView(view, keys, ids) && InsertView(view, keys, ids)[p] == view[p]
    ensures forall n | 0 < n <= |keys| :: keys[..n] in InsertView(view, keys, ids)
  {
    var v := InsertView(view, keys, ids);
    forall p | p in v
      ensures p != [] && (|p| > 1 ==> p[..|p|-1] in v)
    {
      PrefixMember(keys, p);
      if |p| > 1 && p !in view {
        assert p[..|p|-1] <= keys;
        PrefixMember(keys, p[..|p|-1]);
      }
    }
    forall p, q | p in v && q in v && v[p] == v[q]
      ensures p == q
    {
      InsertedIdsDiffer(view, keys, ids, p, q);
    }
    forall n | 0 < n <= |keys|
      ensures keys[..n] in v
    {
      PrefixMember(keys, keys[..n]);
    }
  }

  /** Where a page of the new content comes from. */
  lemma InsertedId(view: View, keys: Path, ids: seq<BlockId>, p: Path)
    requires |keys| == |ids| && FreshSuffix(view, keys, ids) && p in InsertView(view, keys, ids)
    requires [] !in view
    ensures var id := InsertView(view, keys, ids)[p];
      if p in view then id == view[p] && id in view.Values
      else 0 < |p| <= |keys| && p == keys[..|p|] && id == ids[|p|-1] && id !in view.Values
  {
    PrefixMember(keys, p);
    if p !in view {
      assert p == keys[..|p|];
    }
  }

  lemma InsertedIdsDiffer(view: View, keys: Path, ids: seq<BlockId>, p: Path, q: Path)
    requires |keys| == |ids| && WellFormed(view) && Distinct(ids) && FreshSuffix(view, keys, ids)
    requires p in InsertView(view, keys, ids) && q in InsertView(view, keys, ids)
    requires InsertView(view, keys, ids)[p] == InsertView(view, keys, ids)[q]
    ensures p == q
  {
    InsertedId(view, keys, ids, p);
    InsertedId(view, keys, ids, q);
    hide InsertView, FreshSuffix, PrefixClosed;
  }

  lemma RemoveKeepsWellFormed(view: View, q: Path)
    requires WellFormed(view)
    ensures WellFormed(RemoveView(view, q))
  {
  }

  /** Invalidating a prefix of `keys` shortens the match to just before it; invalidating
      anything else leaves the match alone. */
  lemma MatchAfterRemove(view: View, q: Path, keys: Path, ids: seq<BlockId>)
    requires PrefixClosed(view) && q != [] && IsMatch(view, keys, ids)
    ensures IsMatch(RemoveView(view, q), keys, if q <= keys && |q| <= |ids| then ids[..|q|-1] else ids)
  {
    if q <= keys && |q| <= |ids| {
      assert keys[..|q|] == q;
    } else {
      forall n | 0 < n <= |ids|
        ensures !(q <= keys[..n])
      {
        assert q <= keys[..n] ==> q <= keys;
      }
    }
  }
}
