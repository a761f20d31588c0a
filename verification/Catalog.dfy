/** The remote prefix catalog: a prefix index whose pages are handles of remote object descriptors,
    proved to refine operations on its content. */
module Catalog {
  import opened Wrappers
  import opened PrefixView
  import opened RadixTree
  import opened RadixCache
  import opened CatalogView

  // The exceptions `register` raises.
  datatype RegisterOutcome = Done | LengthsDiffer | WrongPageIndexes | MixedIdentities | ForeignIdentity

  datatype SnapshotOutcome = Empty | Malformed | Taken(snapshot: Snapshot)

  /** Handles as `register` numbers them. */
  function Handles(first: nat, count: nat): (hs: seq<BlockId>)
    ensures |hs| == count && forall i {:trigger hs[i]} | 0 <= i < count :: hs[i] == first + i
  {
    seq(count, i requires 0 <= i => first + i)
  }

  /** The content behind a prefix index and a descriptor table. */
  ghost function ContentOf(view: View, descriptors: map<BlockId, Descriptor>): Contents {
    map p | p in view && view[p] in descriptors :: descriptors[view[p]]
  }

  function DescriptorsAt(descriptors: map<BlockId, Descriptor>, handles: seq<BlockId>): (pages: seq<Descriptor>)
    requires forall h | h in handles :: h in descriptors
    ensures |pages| == |handles| && forall i | 0 <= i < |pages| :: pages[i] == descriptors[handles[i]]
  {
    seq(|handles|, i requires 0 <= i < |handles| => descriptors[handles[i]])
  }

  predicate Numbered(pages: seq<Descriptor>) {
    forall i | 0 <= i < |pages| :: pages[i].pageIndex == i
  }

  predicate SameIdentity(pages: seq<Descriptor>) {
    forall i, j | 0 <= i < |pages| && 0 <= j < |pages| :: pages[i].identity == pages[j].identity
  }

  /** What `register` answers. */
  function Checked(identity: Option<Identity>, keys: Path, pages: seq<Descriptor>): RegisterOutcome {
    if |keys| != |pages| then LengthsDiffer
    else if keys == [] then Done
    else if !Numbered(pages) then WrongPageIndexes
    else if !SameIdentity(pages) then MixedIdentities
    else if identity.Some? && identity.value != pages[0].identity then ForeignIdentity
    else Done
  }

  /** A snapshot's page size: one length for all token blocks, and tokens that fit in 32 bits. */
  predicate WritableKey(key: BlockKey, size: nat) {
    0 < |key| == size && forall i | 0 <= i < |key| :: 0 <= key[i] < 0x1_0000_0000
  }

  predicate WritablePath(p: Path, size: nat) {
    forall i | 0 <= i < |p| :: WritableKey(p[i], size)
  }

  ghost predicate OfPageSize(c: Contents, size: nat) {
    forall p | p in c :: WritablePath(p, size)
  }

  ghost predicate Writable(c: Contents) {
    exists size: nat :: OfPageSize(c, size)
  }

  // ---------- the index and the descriptors behind it ----------

  /** Every handle in the index has its descriptor, and nothing else does. */
  ghost predicate Described(view: View, descriptors: map<BlockId, Descriptor>, next: nat) {
    && descriptors.Keys == view.Values
    && forall h | h in descriptors :: h < next
  }

  lemma FreshHandles(view: View, descriptors: map<BlockId, Descriptor>, next: nat, keys: Path)
    requires Described(view, descriptors, next)
    ensures FreshSuffix(view, keys, Handles(next, |keys|)) && Distinct(Handles(next, |keys|))
    ensures descriptors.Keys == view.Values && forall h | h in Handles(next, |keys|) :: h !in descriptors
  {
  }

  lemma NoEmptyPath(view: View)
    requires WellFormed(view)
    ensures [] !in view
  {
  }

  lemma RegisterRefinesAt(view: View, before: map<BlockId, Descriptor>, next: nat, keys: Path, pages: seq<Descriptor>,
      after: map<BlockId, Descriptor>, p: Path)
    requires WellFormed(view) && Described(view, before, next) && |keys| == |pages|
    requires var to := InsertView(view, keys, Handles(next, |keys|));
      && p in to && to[p] in after
      && (forall h | h in before :: h in after ==> after[h] == before[h])
      && (forall i | 0 <= i < |keys| :: next + i in after ==> after[next + i] == pages[i])
    ensures var to := InsertView(view, keys, Handles(next, |keys|));
      && to[p] < next + |keys|
      && p in Registered(ContentOf(view, before), keys, pages)
      && after[to[p]] == Registered(ContentOf(view, before), keys, pages)[p]
  {
    hide WellFormed, InsertView, FreshSuffix;
    var hs := Handles(next, |keys|);
    NoEmptyPath(view);
    FreshHandles(view, before, next, keys);
    InsertedId(view, keys, hs, p);
    PrefixMember(keys, p);
    if p !in view {
      assert hs[|p|-1] == next + (|p| - 1);
    }
  }

  /** After the index took the new handles, the descriptors of exactly its handles, old ones kept,
      are what registration is to produce. */
  lemma RegisterRefines(view: View, before: map<BlockId, Descriptor>, next: nat, keys: Path, pages: seq<Descriptor>,
      after: map<BlockId, Descriptor>)
    requires WellFormed(view) && Described(view, before, next) && |keys| == |pages|
    requires var to := InsertView(view, keys, Handles(next, |keys|));
      && after.Keys == to.Values
      && (forall h | h in before :: h in after ==> after[h] == before[h])
      && (forall i | 0 <= i < |keys| :: next + i in after ==> after[next + i] == pages[i])
    ensures var to := InsertView(view, keys, Handles(next, |keys|));
      Described(to, after, next + |keys|) && ContentOf(to, after) == Registered(ContentOf(view, before), keys, pages)
  {
    hide WellFormed, InsertView, FreshSuffix, Registered;
    var hs := Handles(next, |keys|);
    var to := InsertView(view, keys, hs);
    FreshHandles(view, before, next, keys);
    forall p | p in to
      ensures p in ContentOf(to, after) && to[p] < next + |keys|
      ensures p in Registered(ContentOf(view, before), keys, pages)
      ensures ContentOf(to, after)[p] == Registered(ContentOf(view, before), keys, pages)[p]
    {
      RegisterRefinesAt(view, before, next, keys, pages, after, p);
    }
    forall h | h in after
      ensures h < next + |keys|
    {
      var p :| p in to && to[p] == h;
    }
    SameKeys(view, before, keys, pages, hs);
  }

  lemma SameKeys(view: View, before: map<BlockId, Descriptor>, keys: Path, pages: seq<Descriptor>, ids: seq<BlockId>)
    requires before.Keys == view.Values && |keys| == |pages| == |ids|
    ensures Registered(ContentOf(view, before), keys, pages).Keys == InsertView(view, keys, ids).Keys
  {
    var c := ContentOf(view, before);
    forall p
      ensures p in Registered(c, keys, pages) <==> p in InsertView(view, keys, ids)
    {
      PrefixMember(keys, p);
    }
  }

  class RemotePrefixCatalog {
    const index: RadixPrefixCache
    var descriptors: map<BlockId, Descriptor>
    var nextHandle: nat
    var identity: Option<Identity>

    ghost predicate Valid()
      reads this, index, index.nodes
    {
      && index.Valid() && Described(index.view, descriptors, nextHandle)
      && ContentsOk(Content(), identity)
    }

    /** A descriptor per registered prefix. */
    ghost function Content(): Contents
      reads `descriptors, index`view
    {
      ContentOf(index.view, descriptors)
    }

    constructor ()
      ensures Valid() && fresh(index) && fresh(index.nodes) && Content() == map[] && identity == None
    {
      index := new RadixPrefixCache();
      descriptors, nextHandle, identity := map[], 0, None;
    }

    lemma IndexFacts()
      requires Valid()
      ensures WellFormed(index.view) && index.blockLocations.Keys == index.view.Values
        && Content().Keys == index.view.Keys
      ensures forall p | p in index.view :: index.view[p] in descriptors && Content()[p] == descriptors[index.view[p]]
    {
      index.Shape().ViewWellFormed();
      index.Parts();
    }

    // ---------- registration ----------

    method Store(handles: seq<BlockId>, pages: seq<Descriptor>)
      requires |handles| == |pages| && Distinct(handles)
      modifies `descriptors
      ensures descriptors.Keys == old(descriptors.Keys) + set h | h in handles
      ensures forall h | h in old(descriptors) && h !in handles :: descriptors[h] == old(descriptors[h])
      ensures forall i | 0 <= i < |handles| :: descriptors[handles[i]] == pages[i]
    {
      var n := 0;
      while n < |handles|
        invariant 0 <= n <= |handles|
        invariant descriptors.Keys == old(descriptors.Keys) + set h | h in handles[..n]
        invariant forall h | h in old(descriptors) && h !in handles[..n] :: descriptors[h] == old(descriptors[h])
        invariant forall i | 0 <= i < n :: handles[i] in handles[..n] && descriptors[handles[i]] == pages[i]
      {
        assert handles[..n+1] == handles[..n] + [handles[n]];
        descriptors := descriptors[handles[n] := pages[n]];
        n := n + 1;
      }
      assert handles[..n] == handles;
    }

    /** Forget the descriptors of handles that the index did not take. */
    method DropUnused(handles: seq<BlockId>)
      modifies `descriptors
      ensures descriptors == map h | h in old(descriptors) && (h !in handles || h in index.blockLocations) ::
        old(descriptors[h])
    {
      var n := 0;
      while n < |handles|
        invariant 0 <= n <= |handles|
        invariant descriptors == map h | h in old(descriptors) && (h !in handles[..n] || h in index.blockLocations) ::
          old(descriptors[h])
      {
        assert handles[..n+1] == handles[..n] + [handles[n]];
        if handles[n] !in index.blockLocations {
          descriptors := descriptors - {handles[n]};
        }
        n := n + 1;
      }
      assert handles[..n] == handles;
    }

    /** Register a page-aligned prefix. Prefixes registered before keep their descriptors; anything
        wrong with the arguments is reported and changes nothing. */
    method Register(keys: Path, pages: seq<Descriptor>) returns (outcome: RegisterOutcome)
      requires Valid()
      modifies this, index, index.nodes
      ensures Valid() && fresh(index.nodes - old(index.nodes))
      ensures outcome == Checked(old(identity), keys, pages)
      ensures Content() == if outcome == Done then Registered(old(Content()), keys, pages) else old(Content())
      ensures identity == if outcome == Done && keys != [] then Some(pages[0].identity) else old(identity)
    {
      if |keys| != |pages| {
        return LengthsDiffer;
      }
      if keys == [] {
        assert Registered(Content(), keys, pages) == Content();
        return Done;
      }
      if !Numbered(pages) {
        return WrongPageIndexes;
      }
      if !SameIdentity(pages) {
        return MixedIdentities;
      }
      if identity.Some? && identity.value != pages[0].identity {
        return ForeignIdentity;
      }
      RegisterPages(keys, pages);
      return Done;
    }

    method RegisterPages(keys: Path, pages: seq<Descriptor>)
      requires Valid() && 0 < |keys| == |pages| && PagesOk(pages, pages[0].identity)
      requires identity.Some? ==> identity.value == pages[0].identity
      modifies this, index, index.nodes
      ensures Valid() && fresh(index.nodes - old(index.nodes))
      ensures Content() == Registered(old(Content()), keys, pages) && identity == Some(pages[0].identity)
    {
      hide ContentsOk, Registered, InsertView, FreshSuffix, Described, Handles, RadixPrefixCache.Valid;
      IndexFacts();
      RegisteredOk(Content(), identity, keys, pages);
      ghost var view, before, next := index.view, descriptors, nextHandle;
      FreshHandles(view, before, next, keys);
      identity := Some(pages[0].identity);
      var handles := Handles(nextHandle, |keys|);
      nextHandle := nextHandle + |handles|;
      IndexPages(keys, handles, pages, next);
      HandlesAre(next, handles, descriptors, pages);
      RegisterRefines(view, before, next, keys, pages, descriptors);
    }

    /** Index `keys` under `handles`, and keep the descriptors of the handles that were taken. */
    method IndexPages(keys: Path, handles: seq<BlockId>, pages: seq<Descriptor>, ghost next: nat)
      requires index.Valid() && 0 < |keys| == |pages| == |handles| && Distinct(handles)
      requires FreshSuffix(index.view, keys, handles) && WellFormed(index.view)
      requires descriptors.Keys == index.view.Values && forall h | h in handles :: h !in descriptors
      modifies `descriptors, index, index.nodes
      ensures index.Valid() && fresh(index.nodes - old(index.nodes))
      ensures index.view == InsertView(old(index.view), keys, handles) && descriptors.Keys == index.view.Values
      ensures forall h | h in old(descriptors) :: h in descriptors ==> descriptors[h] == old(descriptors[h])
      ensures forall i | 0 <= i < |keys| :: handles[i] in descriptors ==> descriptors[handles[i]] == pages[i]
    {
      hide InsertView, FreshSuffix, WellFormed, RadixPrefixCache.Shape, RadixPrefixCache.Valid;
      ghost var view := index.view;
      InsertedIds(view, keys, handles);
      Store(handles, pages);
      var inserted := index.Insert(keys, handles);
      LiveHandles();
      DropUnused(handles);
    }

    lemma LiveHandles()
      requires index.Valid()
      ensures index.blockLocations.Keys == index.view.Values
    {
      index.Shape().ViewWellFormed();
      index.Parts();
    }

    // ---------- lookup ----------

    method MatchHandles(keys: Path) returns (handles: seq<BlockId>)
      requires Valid()
      modifies index`clock, index.nodes`lastAccess
      ensures Valid() && IsMatch(index.view, keys, handles)
    {
      hide RadixPrefixCache.Valid, RadixPrefixCache.Shape, ContentsOk, ContentOf, Described, IsMatch;
      handles := index.Match(keys);
    }

    /** The descriptors of the longest registered prefix of `keys`. */
    method Match(keys: Path) returns (pages: seq<Descriptor>)
      requires Valid()
      modifies index`clock, index.nodes`lastAccess
      ensures Valid() && Content() == old(Content())
      ensures IsLookup(Content(), keys, pages)
    {
      hide RadixPrefixCache.Valid, ContentsOk, ContentOf, IsMatch, IsLookup;
      var handles := MatchHandles(keys);
      LookupOf(index.view, descriptors, keys, handles);
      pages := DescriptorsAt(descriptors, handles);
    }

    // ---------- snapshots ----------

    /** The child that comes first. */
    static method First(children: map<BlockKey, RadixNode>, todo: set<BlockKey>) returns (k: BlockKey)
      requires todo != {} && todo <= children.Keys
      ensures k in todo && forall j | j in todo :: !PathLess(children[j].edgeKeys, children[k].edgeKeys)
    {
      k :| k in todo;
      PathLessIrreflexive(children[k].edgeKeys);
      var left := todo - {k};
      while left != {}
        invariant left <= todo && k in todo
        invariant forall j | j in todo - left :: !PathLess(children[j].edgeKeys, children[k].edgeKeys)
      {
        var j :| j in left;
        left := left - {j};
        if PathLess(children[j].edgeKeys, children[k].edgeKeys) {
          forall i | i in todo - left
            ensures !PathLess(children[i].edgeKeys, children[j].edgeKeys)
          {
            PathLessIrreflexive(children[j].edgeKeys);
            if i != j {
              StillFirst(children[i].edgeKeys, children[j].edgeKeys, children[k].edgeKeys);
            }
          }
          k := j;
        }
      }
    }

    /** The longest registered prefixes at and below `node`, in order. */
    method Visit(node: RadixNode, parentKeys: Path, parentHandles: seq<BlockId>, ghost trie: Trie)
        returns (prefixes: seq<Prefix>)
      requires trie.Inv() && node in trie.tree && trie.root == index.root
      requires forall m | m in trie.Subtree(node) :: m.State() == trie.tree[m]
      requires Entered(trie, node, parentKeys, parentHandles) && Described(trie.view, descriptors, nextHandle)
      ensures Lists(ContentOf(trie.view, descriptors), trie.tree[node].path, prefixes)
      decreases trie.Subtree(node)
    {
      hide Trie.Inv, Trie.Subtree, Lists, ListsBranches, Described, ContentOf, IsMatch;
      trie.SelfBelow(node);
      var keys, handles := parentKeys + node.edgeKeys, parentHandles + node.blockIds;
      HandlesKnown(trie.view, descriptors, nextHandle, keys, handles);
      if node != index.root && node.children == map[] {
        LeafLists(trie, node, descriptors, nextHandle, handles);
        return [Prefix(keys, DescriptorsAt(descriptors, handles))];
      }
      prefixes := VisitChildren(node, keys, handles, trie);
      AllBranches(trie, node, descriptors, nextHandle, prefixes);
    }

    method VisitChildren(node: RadixNode, keys: Path, handles: seq<BlockId>, ghost trie: Trie)
        returns (prefixes: seq<Prefix>)
      requires trie.Inv() && node in trie.tree && trie.root == index.root
      requires forall m | m in trie.Subtree(node) :: m.State() == trie.tree[m]
      requires keys == trie.tree[node].path && |handles| == |keys| && IsMatch(trie.view, keys, handles)
      requires Described(trie.view, descriptors, nextHandle)
      ensures ListsBranches(ContentOf(trie.view, descriptors), keys, trie.tree[node].children.Keys, prefixes)
      decreases trie.Subtree(node), 0
    {
      hide Trie.Inv, Trie.Subtree, Trie.ChildOk, Trie.Linked, Lists, ListsBranches, Described, ContentOf, IsMatch;
      trie.SelfBelow(node);
      ghost var c := ContentOf(trie.view, descriptors);
      var todo := node.children.Keys;
      prefixes := [];
      NoBranches(c, keys);
      ChildrenBelow(trie, node);
      assert node.children.Keys - todo == {};
      while todo != {}
        invariant todo <= node.children.Keys && ListsBranches(c, keys, node.children.Keys - todo, prefixes)
        invariant forall j, k | j in node.children.Keys - todo && k in todo :: KeyLess(j, k)
      {
        var k := First(node.children, todo);
        FirstBranch(trie, node, todo, k);
        var child := node.children[k];
        trie.ChildBelow(node, k);
        trie.ChildNotRoot(node, k);
        ChildEntered(trie, node, k, keys, handles);
        InSubtree(trie, node, child);
        var more := Visit(child, keys, handles, trie);
        ChildBranch(trie, node, descriptors, nextHandle, k);
        AddBranch(c, keys, node.children.Keys - todo, prefixes, k, trie.tree[child].path, more);
        prefixes := prefixes + more;
        assert node.children.Keys - (todo - {k}) == node.children.Keys - todo + {k};
        todo := todo - {k};
      }
      assert node.children.Keys - todo == node.children.Keys;
    }

    /** What is to be saved: nothing before the first registration; an error if the content has no
        single page size or a token that does not fit; otherwise the longest prefixes, in order. */
    method TakeSnapshot() returns (outcome: SnapshotOutcome)
      requires Valid()
      ensures outcome.Empty? <==> identity.None?
      ensures outcome.Malformed? <==> identity.Some? && !Writable(Content())
      ensures outcome.Taken? ==>
        outcome.snapshot.identity == identity.value && IsSnapshot(Content(), outcome.snapshot.prefixes)
      ensures outcome.Taken? ==> Mergeable(identity.value, outcome.snapshot.prefixes)
    {
      if identity.None? {
        return Empty;
      }
      var prefixes := VisitRoot();
      SnapshotMergeable(Content(), identity.value, prefixes);
      var size := |prefixes[0].blockKeys[0]|;
      WritableChecked(Content(), prefixes);
      hide Mergeable, IsSnapshot, RadixPrefixCache.Valid;
      if !forall i | 0 <= i < |prefixes| :: WritablePath(prefixes[i].blockKeys, size) {
        return Malformed;
      }
      return Taken(Snapshot(identity.value, prefixes));
    }

    method VisitRoot() returns (prefixes: seq<Prefix>)
      requires Valid()
      ensures IsSnapshot(Content(), prefixes)
    {
      hide ContentsOk, Described, Trie.Inv;
      ghost var trie := index.Shape();
      index.AllStates();
      index.Parts();
      trie.RootPath();
      trie.AllBelowRoot();
      RootEntered(trie);
      hide RadixPrefixCache.Shape, RadixNode.State;
      prefixes := Visit(index.root, [], [], trie);
      ListsAll(Content(), prefixes);
    }

    // ---------- merging ----------

    /** Register every prefix of a snapshot, which must be of this catalog's identity. */
    method MergeSnapshot(snapshot: Snapshot) returns (merged: Option<nat>)
      requires Valid() && Mergeable(snapshot.identity, snapshot.prefixes)
      modifies this, index, index.nodes
      ensures Valid() && fresh(index.nodes - old(index.nodes))
      ensures merged == if old(identity).Some? && old(identity).value != snapshot.identity then None
        else Some(|snapshot.prefixes|)
      ensures WellShaped(snapshot.prefixes)
      ensures Content() == if merged.Some? then Merged(old(Content()), snapshot.prefixes) else old(Content())
      ensures identity == if merged.Some? then Some(snapshot.identity) else old(identity)
    {
      if identity.Some? && identity.value != snapshot.identity {
        return None;
      }
      MergeAll(snapshot.identity, snapshot.prefixes);
      return Some(|snapshot.prefixes|);
    }

    method MergeAll(wanted: Identity, prefixes: seq<Prefix>)
      requires Valid() && Mergeable(wanted, prefixes)
      requires identity.Some? ==> identity.value == wanted
      modifies this, index, index.nodes
      ensures Valid() && fresh(index.nodes - old(index.nodes)) && identity == Some(wanted)
      ensures WellShaped(prefixes) && Content() == Merged(old(Content()), prefixes)
    {
      hide *;
      ghost var before := Content();
      MergedNone(before, prefixes);
      var n := 0;
      while n < |prefixes|
        invariant 0 <= n <= |prefixes|
        invariant Valid() && fresh(index.nodes - old(index.nodes))
        invariant WellShaped(prefixes[..n]) && Content() == Merged(before, prefixes[..n])
        invariant if n > 0 then identity == Some(wanted) else identity == old(identity)
      {
        MergedMore(before, wanted, prefixes, n);
        MergePrefix(wanted, prefixes[n]);
        n := n + 1;
      }
      NotEmpty(wanted, prefixes);
      assert prefixes[..n] == prefixes;
    }

    method MergePrefix(wanted: Identity, prefix: Prefix)
      requires Valid() && 0 < |prefix.blockKeys| == |prefix.pages| && PagesOk(prefix.pages, wanted)
      requires identity.Some? ==> identity.value == wanted
      modifies this, index, index.nodes
      ensures Valid() && fresh(index.nodes - old(index.nodes))
      ensures Content() == Registered(old(Content()), prefix.blockKeys, prefix.pages) && identity == Some(wanted)
    {
      hide RemotePrefixCatalog.Valid, RemotePrefixCatalog.Content, Registered, Checked, PagesOk;
      PagesChecked(identity, wanted, prefix.blockKeys, prefix.pages);
      var outcome := Register(prefix.blockKeys, prefix.pages);
    }
  }

  /** A content with blocks of two lengths has no page size. */
  lemma TwoSizes(c: Contents, p: Path, q: Path)
    requires p in c && q in c && p != [] && q != [] && |p[0]| != |q[0]|
    ensures !Writable(c)
  {
    if Writable(c) {
      var size: nat :| OfPageSize(c, size);
      FirstBlockSize(c, p, size);
      FirstBlockSize(c, q, size);
    }
  }

  lemma FirstBlockSize(c: Contents, p: Path, size: nat)
    requires OfPageSize(c, size) && p in c && p != []
    ensures |p[0]| == size
  {
    assert WritablePath(p, size) && WritableKey(p[0], size);
  }

  /** Such contents arise: `register` accepts a block of one token and then one of two, for pages of
      the same identity, and the catalog that it leaves cannot be saved. */
  method MixedPageSizes(page: Descriptor) returns (catalog: RemotePrefixCatalog, outcome: SnapshotOutcome)
    requires page.pageIndex == 0
    ensures fresh(catalog) && catalog.Valid()
    ensures catalog.Content() == map[[[1]] := page, [[2, 3]] := page] && catalog.identity == Some(page.identity)
    ensures !Writable(catalog.Content()) && outcome == Malformed
  {
    hide RemotePrefixCatalog.Valid, RemotePrefixCatalog.Content, Writable;
    catalog := new RemotePrefixCatalog();
    var one := catalog.Register([[1]], [page]);
    OneRegistered(map[], [1], page);
    var two := catalog.Register([[2, 3]], [page]);
    OneRegistered(map[[[1]] := page], [2, 3], page);
    TwoSizes(catalog.Content(), [[1]], [[2, 3]]);
    outcome := catalog.TakeSnapshot();
  }

  lemma OneRegistered(c: Contents, key: BlockKey, page: Descriptor)
    requires [key] !in c
    ensures Registered(c, [key], [page]) == c[[key] := page]
  {
    assert [key][..1] == [key];
  }

  lemma NotEmpty(identity: Identity, prefixes: seq<Prefix>)
    requires Mergeable(identity, prefixes)
    ensures prefixes != []
  {
  }

  lemma MergedNone(c: Contents, prefixes: seq<Prefix>)
    ensures prefixes[..0] == [] && WellShaped(prefixes[..0]) && Merged(c, prefixes[..0]) == c
  {
  }

  lemma MergedMore(c: Contents, identity: Identity, prefixes: seq<Prefix>, n: nat)
    requires Mergeable(identity, prefixes) && n < |prefixes|
    ensures WellShaped(prefixes[..n]) && WellShaped(prefixes[..n+1])
    ensures 0 < |prefixes[n].blockKeys| == |prefixes[n].pages| && PagesOk(prefixes[n].pages, identity)
    ensures Merged(c, prefixes[..n+1]) == Registered(Merged(c, prefixes[..n]), prefixes[n].blockKeys, prefixes[n].pages)
  {
    assert prefixes[..n+1][..n] == prefixes[..n];
  }

  lemma PagesChecked(identity: Option<Identity>, wanted: Identity, keys: Path, pages: seq<Descriptor>)
    requires 0 < |keys| == |pages| && PagesOk(pages, wanted) && (identity.Some? ==> identity.value == wanted)
    ensures Checked(identity, keys, pages) == Done && pages[0].identity == wanted
  {
  }

  lemma StillFirst(a: Path, b: Path, c: Path)
    requires PathLess(b, c) && !PathLess(a, c)
    ensures !PathLess(a, b)
  {
    if PathLess(a, b) {
      PathLessTransitive(a, b, c);
    }
  }

  // ---------- the tree behind a snapshot ----------

  /** The visit reaches `node` with the keys and handles of everything above it. */
  ghost predicate Entered(trie: Trie, node: RadixNode, parentKeys: Path, parentHandles: seq<BlockId>)
    requires node in trie.tree
  {
    var s := trie.tree[node];
    && parentKeys + s.edgeKeys == s.path && |parentHandles + s.blockIds| == |s.path|
    && IsMatch(trie.view, s.path, parentHandles + s.blockIds)
  }

  lemma RootEntered(trie: Trie)
    requires trie.Inv()
    ensures trie.root in trie.tree && Entered(trie, trie.root, [], [])
  {
  }

  lemma ChildEntered(trie: Trie, node: RadixNode, k: BlockKey, keys: Path, handles: seq<BlockId>)
    requires trie.Inv() && node in trie.tree && k in trie.tree[node].children
    requires keys == trie.tree[node].path && |handles| == |keys| && IsMatch(trie.view, keys, handles)
    ensures trie.tree[node].children[k] in trie.tree && Entered(trie, trie.tree[node].children[k], keys, handles)
  {
    trie.ChildBelow(node, k);
    var child := trie.tree[node].children[k];
    var s := trie.tree[child];
    assert trie.Linked(child);
    var all := handles + s.blockIds;
    forall n | 0 < n <= |all|
      ensures s.path[..n] in trie.view && trie.view[s.path[..n]] == all[n-1]
    {
      if n <= |keys| {
        assert s.path[..n] == keys[..n];
        MatchAt(trie.view, keys, handles, n - 1);
      } else {
        assert trie.Located(child, n - |keys| - 1);
        assert s.EndPath(n - |keys| - 1) == s.path[..n];
      }
    }
  }

  lemma InSubtree(trie: Trie, node: RadixNode, child: RadixNode)
    requires node in trie.tree && child in trie.tree && trie.Subtree(child) <= trie.Subtree(node)
    ensures forall m | m in trie.Subtree(child) :: m in trie.Subtree(node)
  {
  }

  lemma HandlesKnown(view: View, descriptors: map<BlockId, Descriptor>, next: nat, keys: Path, handles: seq<BlockId>)
    requires Described(view, descriptors, next) && |handles| == |keys| && IsMatch(view, keys, handles)
    ensures forall h | h in handles :: h in descriptors
  {
    LookupOf(view, descriptors, keys, handles);
  }

  /** A longest prefix is one below which the index has nothing. */
  lemma LongestIsMaximal(trie: Trie, descriptors: map<BlockId, Descriptor>, next: nat, p: Path)
    requires Described(trie.view, descriptors, next)
    ensures Longest(ContentOf(trie.view, descriptors), p) <==> p in trie.view && trie.Maximal(p)
  {
    var c := ContentOf(trie.view, descriptors);
    assert c.Keys == trie.view.Keys;
  }

  lemma LeafLists(trie: Trie, node: RadixNode, descriptors: map<BlockId, Descriptor>, next: nat, handles: seq<BlockId>)
    requires trie.Inv() && node in trie.tree && node != trie.root && trie.tree[node].children == map[]
    requires Described(trie.view, descriptors, next) && |handles| == |trie.tree[node].path|
    requires IsMatch(trie.view, trie.tree[node].path, handles) && forall h | h in handles :: h in descriptors
    ensures var q := trie.tree[node].path;
      Lists(ContentOf(trie.view, descriptors), q, [Prefix(q, DescriptorsAt(descriptors, handles))])
  {
    var q, c := trie.tree[node].path, ContentOf(trie.view, descriptors);
    trie.LeafMaximal(node);
    trie.LastEndPath(node);
    LongestIsMaximal(trie, descriptors, next, q);
    LookupOf(trie.view, descriptors, q, handles);
    hide Trie.Inv, Described, ContentOf, IsMatch;
    var only := Prefix(q, DescriptorsAt(descriptors, handles));
    assert only.pages == PagesOf(c, q);
    assert Describes(c, only);
    assert [only][0].blockKeys == q;
  }

  lemma NoBranches(c: Contents, q: Path)
    ensures ListsBranches(c, q, {}, [])
  {
  }

  lemma ChildrenBelow(trie: Trie, node: RadixNode)
    requires trie.Inv() && node in trie.tree
    ensures forall k | k in trie.tree[node].children ::
      trie.tree[node].children[k] in trie.tree && trie.tree[node].children[k] in trie.Subtree(node)
  {
    forall k | k in trie.tree[node].children
      ensures trie.tree[node].children[k] in trie.tree && trie.tree[node].children[k] in trie.Subtree(node)
    {
      trie.ChildBelow(node, k);
      trie.SelfBelow(trie.tree[node].children[k]);
    }
  }

  /** Keys at which siblings start differ, so they decide the siblings' order. */
  lemma FirstBranch(trie: Trie, node: RadixNode, todo: set<BlockKey>, k: BlockKey)
    requires trie.Inv() && node in trie.tree && todo <= trie.tree[node].children.Keys && k in todo
    requires forall j | j in todo :: trie.tree[node].children[j] in trie.tree
    requires forall j | j in todo ::
      !PathLess(trie.tree[trie.tree[node].children[j]].edgeKeys, trie.tree[trie.tree[node].children[k]].edgeKeys)
    ensures forall j | j in todo - {k} :: KeyLess(k, j)
  {
    forall j | j in todo - {k}
      ensures KeyLess(k, j)
    {
      assert trie.ChildOk(node, j) && trie.ChildOk(node, k);
      KeyLessTotal(k, j);
    }
  }

  /** A longest prefix beyond `node` runs through the child that its next key selects. */
  lemma LongestBelow(trie: Trie, node: RadixNode, p: Path)
    requires trie.Inv() && node in trie.tree && p in trie.view && trie.Maximal(p)
    requires trie.tree[node].path <= p && |trie.tree[node].path| < |p|
    ensures var k := p[|trie.tree[node].path|];
      && k in trie.tree[node].children && trie.tree[node].children[k] in trie.tree
      && trie.tree[trie.tree[node].children[k]].path <= p
  {
    trie.MaximalInLeaf(p);
    var (n, i) := trie.locs[trie.view[p]];
    assert trie.Represented(p);
    trie.LastEndPath(n);
    assert trie.Below(node, n);
    var k := trie.ChildAbove(node, n);
    trie.ChildBelow(node, k);
    var child := trie.tree[node].children[k];
    assert trie.Linked(child);
    assert trie.tree[child].path[|trie.tree[node].path|] == k;
  }

  lemma ChildBranch(trie: Trie, node: RadixNode, descriptors: map<BlockId, Descriptor>, next: nat, k: BlockKey)
    requires trie.Inv() && node in trie.tree && k in trie.tree[node].children && Described(trie.view, descriptors, next)
    ensures trie.tree[node].children[k] in trie.tree
    ensures var q, stem := trie.tree[node].path, trie.tree[trie.tree[node].children[k]].path;
      && q + [k] <= stem
      && forall p | Longest(ContentOf(trie.view, descriptors), p) && Branch(q, {k}, p) :: stem <= p
  {
    trie.ChildBelow(node, k);
    var child := trie.tree[node].children[k];
    assert trie.Linked(child);
    hide Trie.Inv, Longest, ContentOf, Described;
    forall p | Longest(ContentOf(trie.view, descriptors), p) && Branch(trie.tree[node].path, {k}, p)
      ensures trie.tree[child].path <= p
    {
      LongestIsMaximal(trie, descriptors, next, p);
      LongestBelow(trie, node, p);
    }
  }

  /** All branches together are everything below `node`. */
  lemma AllBranches(trie: Trie, node: RadixNode, descriptors: map<BlockId, Descriptor>, next: nat,
      prefixes: seq<Prefix>)
    requires trie.Inv() && node in trie.tree && Described(trie.view, descriptors, next)
    requires node == trie.root || trie.tree[node].children != map[]
    requires ListsBranches(ContentOf(trie.view, descriptors), trie.tree[node].path, trie.tree[node].children.Keys,
      prefixes)
    ensures Lists(ContentOf(trie.view, descriptors), trie.tree[node].path, prefixes)
  {
    hide Trie.Inv, Described, ContentOf, Describes, InOrder, Injective, Longest;
    var q, c := trie.tree[node].path, ContentOf(trie.view, descriptors);
    trie.ViewWellFormed();
    trie.RootPath();
    if node != trie.root {
      var k :| k in trie.tree[node].children;
      trie.ChildExtends(node, k);
    }
    forall p | Longest(c, p) && q <= p
      ensures Branch(q, trie.tree[node].children.Keys, p)
    {
      BranchBelow(trie, node, descriptors, next, p);
    }
  }

  lemma BranchBelow(trie: Trie, node: RadixNode, descriptors: map<BlockId, Descriptor>, next: nat, p: Path)
    requires trie.Inv() && node in trie.tree && Described(trie.view, descriptors, next)
    requires Longest(ContentOf(trie.view, descriptors), p) && trie.tree[node].path <= p
    requires p == trie.tree[node].path ==> p !in trie.view || !trie.Maximal(p)
    ensures Branch(trie.tree[node].path, trie.tree[node].children.Keys, p)
  {
    LongestIsMaximal(trie, descriptors, next, p);
    hide Trie.Inv, Described, ContentOf, Longest;
    LongestBelow(trie, node, p);
  }

  lemma ListsAll(c: Contents, prefixes: seq<Prefix>)
    requires Lists(c, [], prefixes)
    ensures IsSnapshot(c, prefixes)
  {
    forall p | Longest(c, p)
      ensures exists i :: 0 <= i < |prefixes| && prefixes[i].blockKeys == p
    {
      assert [] <= p;
    }
  }

  /** It is enough to check the longest prefixes against the size of the very first block. */
  lemma WritableChecked(c: Contents, prefixes: seq<Prefix>)
    requires IsSnapshot(c, prefixes) && prefixes != [] && prefixes[0].blockKeys != []
    ensures Writable(c) <==> forall i | 0 <= i < |prefixes| ::
      WritablePath(prefixes[i].blockKeys, |prefixes[0].blockKeys[0]|)
  {
    var size := |prefixes[0].blockKeys[0]|;
    if forall i | 0 <= i < |prefixes| :: WritablePath(prefixes[i].blockKeys, size) {
      forall p | p in c
        ensures WritablePath(p, size)
      {
        var q := SomeLongest(c, p);
        var i := ListedOnce(c, prefixes, q);
        assert forall j | 0 <= j < |p| :: p[j] == q[j] && WritableKey(q[j], size);
      }
      assert OfPageSize(c, size);
    }
    if Writable(c) {
      var s: nat :| OfPageSize(c, s);
      forall i | 0 <= i < |prefixes|
        ensures WritablePath(prefixes[i].blockKeys, s)
      {
        assert Longest(c, prefixes[i].blockKeys);
      }
      assert WritableKey(prefixes[0].blockKeys[0], s);
    }
  }

  lemma LookupOf(view: View, descriptors: map<BlockId, Descriptor>, keys: Path, handles: seq<BlockId>)
    requires IsMatch(view, keys, handles) && descriptors.Keys == view.Values
    ensures forall h | h in handles :: h in descriptors
    ensures IsLookup(ContentOf(view, descriptors), keys, DescriptorsAt(descriptors, handles))
  {
    forall n | 0 < n <= |handles|
      ensures handles[n-1] in descriptors && keys[..n] in ContentOf(view, descriptors)
      ensures ContentOf(view, descriptors)[keys[..n]] == descriptors[handles[n-1]]
    {
      MatchAt(view, keys, handles, n - 1);
    }
    forall h | h in handles
      ensures h in descriptors
    {
      var i :| 0 <= i < |handles| && handles[i] == h;
      MatchAt(view, keys, handles, i);
    }
  }

  lemma HandlesAre(next: nat, handles: seq<BlockId>, descriptors: map<BlockId, Descriptor>, pages: seq<Descriptor>)
    requires |handles| == |pages| && handles == Handles(next, |pages|)
    requires forall i | 0 <= i < |pages| :: handles[i] in descriptors ==> descriptors[handles[i]] == pages[i]
    ensures forall i | 0 <= i < |pages| :: next + i in descriptors ==> descriptors[next + i] == pages[i]
  {
    forall i | 0 <= i < |pages|
      ensures next + i in descriptors ==> descriptors[next + i] == pages[i]
    {
      assert handles[i] == next + i;
    }
  }

  /** The handles in the index after an insertion are old ones and new ones. */
  lemma InsertedIds(view: View, keys: Path, ids: seq<BlockId>)
    requires |keys| == |ids| && WellFormed(view) && FreshSuffix(view, keys, ids)
    ensures view.Values <= InsertView(view, keys, ids).Values <= view.Values + set id | id in ids
  {
    var to := InsertView(view, keys, ids);
    forall id | id in view.Values
      ensures id in to.Values
    {
      var p :| p in view && view[p] == id;
      assert to[p] == id;
    }
    forall id | id in to.Values
      ensures id in view.Values + set id | id in ids
    {
      var p :| p in to && to[p] == id;
      InsertedId(view, keys, ids, p);
    }
  }
}
