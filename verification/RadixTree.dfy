/** The shape of the path-compressed trie, as a value: what every node holds at one moment, the
    inverse index and the content represented. The invariant is flat: it relates each node to its
    neighbours, to the inverse index and to the content, so no part of it recurses over the tree.

    Triggers name the per-node predicates, so each use of the invariant says where it applies. */
module RadixTree {
  import opened PrefixView

  class RadixNode {
    var edgeKeys: Path
    var blockIds: seq<BlockId>
    var parent: RadixNode?
    var children: map<BlockKey, RadixNode>
    var lastAccess: nat
    ghost var path: Path  // the full prefix this node ends at

    constructor (edgeKeys: Path, blockIds: seq<BlockId>, parent: RadixNode?, ghost path: Path)
      ensures State() == NodeState(edgeKeys, blockIds, parent, map[], path) && lastAccess == 0
    {
      this.edgeKeys, this.blockIds, this.parent := edgeKeys, blockIds, parent;
      children, lastAccess := map[], 0;
      this.path := path;
    }

    ghost function State(): NodeState
      reads `edgeKeys, `blockIds, `parent, `children, `path
    {
      NodeState(edgeKeys, blockIds, parent, children, path)
    }
  }

  datatype NodeState = NodeState(
    edgeKeys: Path,
    blockIds: seq<BlockId>,
    parent: RadixNode?,
    children: map<BlockKey, RadixNode>,
    path: Path)
  {
    /** The prefix that ends at the `i`-th key of the edge. */
    ghost function EndPath(i: nat): Path {
      if i < |edgeKeys| <= |path| then path[..|path| - |edgeKeys| + i + 1] else path
    }

    lemma SplitEndPath(common: nat, i: nat, head: NodeState, rest: NodeState)
      requires i < |edgeKeys| <= |path| && 0 < common < |edgeKeys|
      requires head.edgeKeys == edgeKeys[..common] && head.path == EndPath(common - 1)
      requires rest.edgeKeys == edgeKeys[common..] && rest.path == path
      ensures i < common ==> head.EndPath(i) == EndPath(i)
      ensures common <= i ==> rest.EndPath(i - common) == EndPath(i)
    {
    }
  }

  type Tree = map<RadixNode, NodeState>

  type Locations = map<BlockId, (RadixNode, nat)>

  datatype Trie = Trie(root: RadixNode, tree: Tree, locs: Locations, view: View) {

    ghost predicate Linked(n: RadixNode)
      requires n in tree
    {
      var s := tree[n];
      && s.parent != null && s.parent in tree
      && 0 < |s.edgeKeys| == |s.blockIds|
      && s.edgeKeys[0] in tree[s.parent].children && tree[s.parent].children[s.edgeKeys[0]] == n
      && s.path == tree[s.parent].path + s.edgeKeys
    }

    ghost predicate ChildOk(n: RadixNode, k: BlockKey)
      requires n in tree && k in tree[n].children
    {
      var c := tree[n].children[k];
      c in tree && tree[c].parent == n && 0 < |tree[c].edgeKeys| && tree[c].edgeKeys[0] == k
    }

    ghost predicate Located(n: RadixNode, i: nat)
      requires n in tree && i < |tree[n].blockIds|
    {
      var s := tree[n];
      && s.blockIds[i] in locs && locs[s.blockIds[i]] == (n, i)
      && s.EndPath(i) in view && view[s.EndPath(i)] == s.blockIds[i]
    }

    ghost predicate Stored(id: BlockId)
      requires id in locs
    {
      var (n, i) := locs[id];
      n in tree && i < |tree[n].blockIds| && tree[n].blockIds[i] == id
    }

    ghost predicate Represented(p: Path)
      requires p in view
    {
      && p != [] && view[p] in locs
      && locs[view[p]].0 in tree
      && tree[locs[view[p]].0].EndPath(locs[view[p]].1) == p
    }

    ghost predicate LinksOk() {
      && root in tree && tree[root].parent == null
      && tree[root].path == [] && tree[root].edgeKeys == [] && tree[root].blockIds == []
      && (forall n {:trigger Linked(n)} | n in tree && n != root :: Linked(n))
      && (forall n, k {:trigger ChildOk(n, k)} | n in tree && k in tree[n].children :: ChildOk(n, k))
    }

    ghost predicate PagesOk() {
      forall n, i: nat {:trigger Located(n, i)} | n in tree && i < |tree[n].blockIds| :: Located(n, i)
    }

    ghost predicate StoredOk() {
      forall id {:trigger Stored(id)} | id in locs :: Stored(id)
    }

    ghost predicate ViewOk() {
      forall p {:trigger Represented(p)} | p in view :: Represented(p)
    }

    ghost predicate Inv() {
      LinksOk() && PagesOk() && StoredOk() && ViewOk()
    }

    // ---------- consequences of the invariant ----------

    lemma RootPath()
      requires Inv()
      ensures root in tree && tree[root].path == []
    {
    }

    lemma SameEndPath(n: RadixNode, i: nat, m: RadixNode, j: nat)
      requires Inv() && n in tree && m in tree
      requires i < |tree[n].blockIds| && j < |tree[m].blockIds|
      requires tree[n].EndPath(i) == tree[m].EndPath(j)
      ensures n == m && i == j
    {
      assert Located(n, i) && Located(m, j);
    }

    lemma SameId(n: RadixNode, i: nat, m: RadixNode, j: nat)
      requires Inv() && n in tree && m in tree
      requires i < |tree[n].blockIds| && j < |tree[m].blockIds|
      requires tree[n].blockIds[i] == tree[m].blockIds[j]
      ensures n == m && i == j
    {
      assert Located(n, i) && Located(m, j);
    }

    lemma OwnParent(n: RadixNode)
      requires Inv() && n in tree && n != root
      ensures Linked(n) && tree[n].parent != n
    {
      assert Linked(n);
    }

    lemma NodeIdsDistinct(n: RadixNode)
      requires Inv() && n in tree
      ensures Distinct(tree[n].blockIds)
      ensures forall k | 0 <= k <= |tree[n].blockIds| ::
        Distinct(tree[n].blockIds[..k]) && Distinct(tree[n].blockIds[k..])
    {
      var ids := tree[n].blockIds;
      forall i, j | 0 <= i < |ids| && 0 <= j < |ids| && ids[i] == ids[j]
        ensures i == j
      {
        SameId(n, i, n, j);
      }
    }

    lemma LastEndPath(n: RadixNode)
      requires Inv() && n in tree && n != root
      ensures var s := tree[n];
        && 0 < |s.edgeKeys| == |s.blockIds| <= |s.path|
        && s.EndPath(|s.blockIds| - 1) == s.path
        && s.path in view && view[s.path] == s.blockIds[|s.blockIds| - 1]
    {
      assert Linked(n) && Located(n, |tree[n].blockIds| - 1);
      assert tree[n].EndPath(|tree[n].blockIds| - 1) == tree[n].path;
    }

    lemma SamePath(n: RadixNode, m: RadixNode)
      requires Inv() && n in tree && m in tree && tree[n].path == tree[m].path
      ensures n == m
    {
      if n != root {
        LastEndPath(n);
      }
      if m != root {
        LastEndPath(m);
      }
      if n != root && m != root {
        SameEndPath(n, |tree[n].blockIds| - 1, m, |tree[m].blockIds| - 1);
      }
    }

    /** What precedes an indexed prefix: the previous key on the same edge, or the end of the
        parent node. */
    lemma Predecessor(n: RadixNode, i: nat)
      requires Inv() && n in tree && i < |tree[n].blockIds|
      ensures var s := tree[n];
        && n != root && s.parent != null && s.parent in tree && i < |s.edgeKeys| == |s.blockIds| <= |s.path|
        && s.EndPath(i) == tree[s.parent].path + s.edgeKeys[..i+1]
        && s.EndPath(i) == (if i == 0 then tree[s.parent].path else s.EndPath(i-1)) + [s.edgeKeys[i]]
    {
      assert Linked(n);
    }

    /** An indexed one-key extension of a node's prefix is the first key of one of its children. */
    lemma ChildFor(node: RadixNode, k: BlockKey)
      requires Inv() && node in tree && tree[node].path + [k] in view
      ensures k in tree[node].children && view[tree[node].path + [k]] in locs
      ensures locs[view[tree[node].path + [k]]] == (tree[node].children[k], 0)
    {
      var p := tree[node].path + [k];
      assert Represented(p) && Stored(view[p]);
      var (m, i) := locs[view[p]];
      Predecessor(m, i);
      assert p[..|p|-1] == tree[node].path;
      if i == 0 {
        SamePath(tree[m].parent, node);
        assert Linked(m);
      } else {
        assert node != root;
        LastEndPath(node);
        SameEndPath(m, i - 1, node, |tree[node].blockIds| - 1);
        assert false;
      }
    }

    lemma Locate(p: Path) returns (at: (RadixNode, nat))
      requires Inv() && p in view
      ensures at.0 in tree && at.1 < |tree[at.0].blockIds| && tree[at.0].EndPath(at.1) == p
    {
      assert Represented(p) && Stored(view[p]);
      at := locs[view[p]];
    }

    /** An indexed one-key extension of a prefix inside an edge follows that edge. */
    lemma EdgeFor(c: RadixNode, j: nat, k: BlockKey)
      requires Inv() && c in tree && 0 < j < |tree[c].blockIds| && tree[c].EndPath(j-1) + [k] in view
      ensures j < |tree[c].edgeKeys| && tree[c].edgeKeys[j] == k
    {
      hide Inv, NodeState.EndPath;
      var p := tree[c].EndPath(j-1) + [k];
      var at := Locate(p);
      var (m, i) := at;
      Predecessor(m, i);
      Predecessor(c, j - 1);
      Predecessor(c, j);
      assert p[..|p|-1] == tree[c].EndPath(j-1);
      if i == 0 {
        var a := tree[m].parent;
        RootPath();
        assert a != root;
        LastEndPath(a);
        SameEndPath(a, |tree[a].blockIds| - 1, c, j - 1);
        assert false;
      } else {
        SameEndPath(m, i - 1, c, j - 1);
      }
    }

    /** The represented content is prefix-closed and no page occurs twice in the tree. */
    lemma ViewWellFormed()
      requires Inv()
      ensures WellFormed(view) && locs.Keys == view.Values
    {
      forall p | p in view
        ensures p != [] && (|p| > 1 ==> p[..|p|-1] in view)
      {
        assert Represented(p) && Stored(view[p]);
        var (m, i) := locs[view[p]];
        Predecessor(m, i);
        if i > 0 {
          assert Located(m, i - 1);
        } else if tree[m].parent != root {
          LastEndPath(tree[m].parent);
        }
      }
      forall p, q | p in view && q in view && view[p] == view[q]
        ensures p == q
      {
        assert Represented(p) && Represented(q);
      }
      forall id | id in locs
        ensures id in view.Values
      {
        assert Stored(id) && Located(locs[id].0, locs[id].1);
      }
      forall id | id in view.Values
        ensures id in locs
      {
        var p :| p in view && view[p] == id;
        assert Represented(p);
      }
    }

    /** Where the inverse index says page `id` is, its prefix ends. */
    lemma PageAt(id: BlockId)
      requires Inv() && id in locs
      ensures id in view.Values
      ensures var (n, i) := locs[id];
        && n in tree && n != root && Linked(n) && tree[n].parent != null && tree[n].parent in tree
             && tree[n].parent != n
        && i < |tree[n].blockIds| == |tree[n].edgeKeys|
        && tree[n].EndPath(i) == PathOf(view, id) && !Below(n, tree[n].parent)
    {
      ViewWellFormed();
      var (n, i) := locs[id];
      assert Stored(id) && Located(n, i) && Linked(n);
    }

    // ---------- walking down ----------

    lemma EndInView(n: RadixNode, i: nat)
      requires Inv() && n in tree && i < |tree[n].blockIds|
      ensures tree[n].EndPath(i) in view && view[tree[n].EndPath(i)] == tree[n].blockIds[i]
    {
      assert Located(n, i);
    }

    lemma LinkedEdge(n: RadixNode)
      requires n in tree && Linked(n)
      ensures |tree[n].edgeKeys| == |tree[n].blockIds|
    {
    }

    /** Following the first `common` keys of a child's edge yields that child's pages. */
    lemma OnEdge(child: RadixNode, keys: Path, position: nat, common: nat)
      requires Inv() && child in tree && child != root && position <= |keys|
      requires Linked(child) && tree[tree[child].parent].path == keys[..position]
      requires common <= |tree[child].edgeKeys| && position + common <= |keys|
      requires tree[child].edgeKeys[..common] == keys[position..][..common]
      ensures forall n | position < n <= position + common ::
        && keys[..n] == tree[child].EndPath(n - position - 1)
        && keys[..n] in view && view[keys[..n]] == tree[child].blockIds[n - position - 1]
    {
      hide Inv, NodeState.EndPath;
      LinkedEdge(child);
      forall n | position < n <= position + common
        ensures keys[..n] == tree[child].EndPath(n - position - 1)
        ensures keys[..n] in view && view[keys[..n]] == tree[child].blockIds[n - position - 1]
      {
        Predecessor(child, n - position - 1);
        EdgePart(tree[child].edgeKeys, keys, position, common, n - position);
        EndInView(child, n - position - 1);
      }
    }

    lemma MissAtNode(node: RadixNode, keys: Path, position: nat)
      requires Inv() && node in tree && position < |keys| && tree[node].path == keys[..position]
      requires keys[position] !in tree[node].children
      ensures keys[..position+1] !in view
    {
      assert keys[..position] + [keys[position]] == keys[..position+1];
      if keys[..position+1] in view {
        ChildFor(node, keys[position]);
      }
    }

    lemma MissOnEdge(child: RadixNode, keys: Path, position: nat, common: nat)
      requires Inv() && child in tree && 0 < common < |tree[child].blockIds| == |tree[child].edgeKeys|
      requires position <= |keys| && keys[..position] == tree[child].EndPath(common-1)
      requires position < |keys| ==> tree[child].edgeKeys[common] != keys[position]
      ensures position < |keys| ==> keys[..position+1] !in view
    {
      if position < |keys| && keys[..position+1] in view {
        assert keys[..position+1] == tree[child].EndPath(common-1) + [keys[position]];
        EdgeFor(child, common, keys[position]);
      }
    }

    // ---------- hanging a leaf ----------

    /** The rest of `keys` hung below `node`, which represents its first `position` keys. */
    ghost predicate AddsLeaf(node: RadixNode, child: RadixNode, keys: Path, ids: seq<BlockId>, position: nat,
        to: Trie) {
      && node in tree && child !in tree && position < |keys| == |ids|
      && tree[node].path == keys[..position] && keys[position] !in tree[node].children
      && Distinct(ids) && FreshSuffix(view, keys, ids)
      && to.root == root
      && to.tree == tree[node := tree[node].(children := tree[node].children[keys[position] := child])]
                        [child := NodeState(keys[position..], ids[position..], node, map[], keys)]
      && Reindexed(locs, child, ids[position..], to.locs)
      && to.view == InsertView(view, keys, ids)
    }

    lemma AddsLeafUpTo(node: RadixNode, keys: Path, position: nat)
      requires Inv() && node in tree && position < |keys|
      requires tree[node].path == keys[..position] && keys[position] !in tree[node].children
      ensures forall n | 0 < n <= |keys| :: keys[..n] in view <==> n <= position
    {
      ViewWellFormed();
      MissAtNode(node, keys, position);
      if node != root {
        LastEndPath(node);
      }
      IndexedUpTo(view, keys, position);
    }

    /** A new leaf represents prefixes that were not indexed, with pages that were not. */
    lemma AddsLeafFresh(node: RadixNode, keys: Path, ids: seq<BlockId>, position: nat)
      requires Inv() && node in tree && position < |keys| == |ids|
      requires tree[node].path == keys[..position] && keys[position] !in tree[node].children
      requires FreshSuffix(view, keys, ids)
      ensures forall n | 0 < n <= |keys| :: keys[..n] in view <==> n <= position
      ensures forall id | id in ids[position..] :: id !in locs
    {
      hide Inv;
      ViewWellFormed();
      AddsLeafUpTo(node, keys, position);
      forall id | id in ids[position..]
        ensures id !in locs
      {
        var i :| 0 <= i < |ids[position..]| && ids[position..][i] == id;
        assert keys[..position+i+1] !in view;
      }
    }

    lemma AddsLeafLinks(node: RadixNode, child: RadixNode, keys: Path, ids: seq<BlockId>, position: nat, to: Trie)
      requires Inv() && AddsLeaf(node, child, keys, ids, position, to)
      ensures to.LinksOk()
    {
      forall n | n in to.tree && n != root
        ensures to.Linked(n)
      {
        AddsLeafLinked(node, child, keys, ids, position, to, n);
      }
      forall n, k | n in to.tree && k in to.tree[n].children
        ensures to.ChildOk(n, k)
      {
        AddsLeafChildOk(node, child, keys, ids, position, to, n, k);
      }
    }

    lemma AddsLeafLinked(node: RadixNode, child: RadixNode, keys: Path, ids: seq<BlockId>, position: nat, to: Trie,
        n: RadixNode)
      requires Inv() && AddsLeaf(node, child, keys, ids, position, to) && n in to.tree && n != root
      ensures to.Linked(n)
    {
      if n != child {
        assert Linked(n);
      }
    }

    lemma AddsLeafChildOk(node: RadixNode, child: RadixNode, keys: Path, ids: seq<BlockId>, position: nat, to: Trie,
        n: RadixNode, k: BlockKey)
      requires Inv() && AddsLeaf(node, child, keys, ids, position, to)
      requires n in to.tree && k in to.tree[n].children
      ensures to.ChildOk(n, k)
    {
      if n != child && !(n == node && k == keys[position]) {
        assert ChildOk(n, k);
      }
    }

    lemma AddsLeafPages(node: RadixNode, child: RadixNode, keys: Path, ids: seq<BlockId>, position: nat, to: Trie)
      requires Inv() && AddsLeaf(node, child, keys, ids, position, to)
      ensures to.PagesOk() && to.StoredOk()
    {
      AddsLeafFresh(node, keys, ids, position);
      forall n, i: nat | n in to.tree && i < |to.tree[n].blockIds|
        ensures to.Located(n, i)
      {
        if n != child {
          assert Located(n, i);
          assert tree[n].EndPath(i) == to.tree[n].EndPath(i);
        } else {
          AddsLeafNew(node, child, keys, ids, position, to, i);
        }
      }
      forall id | id in to.locs
        ensures to.Stored(id)
      {
        if id !in ids[position..] {
          assert Stored(id);
        }
      }
    }

    lemma AddsLeafView(node: RadixNode, child: RadixNode, keys: Path, ids: seq<BlockId>, position: nat, to: Trie)
      requires Inv() && AddsLeaf(node, child, keys, ids, position, to)
      ensures to.ViewOk()
    {
      forall p | p in to.view
        ensures to.Represented(p)
      {
        if p in view {
          AddsLeafOld(node, child, keys, ids, position, to, p);
        } else {
          AddsLeafFresh(node, keys, ids, position);
          PrefixMember(keys, p);
          assert p == keys[..|p|];
          AddsLeafNew(node, child, keys, ids, position, to, |p| - 1 - position);
        }
      }
    }

    lemma AddsLeafOld(node: RadixNode, child: RadixNode, keys: Path, ids: seq<BlockId>, position: nat, to: Trie,
        p: Path)
      requires Inv() && AddsLeaf(node, child, keys, ids, position, to) && p in view
      ensures to.Represented(p)
    {
      AddsLeafFresh(node, keys, ids, position);
      assert Represented(p) && Stored(view[p]);
      var (m, i) := locs[view[p]];
      assert to.locs[view[p]] == (m, i);
      assert tree[m].EndPath(i) == to.tree[m].EndPath(i);
    }

    lemma NewPrefix(keys: Path, ids: seq<BlockId>, m: nat)
      requires |keys| == |ids| && 0 < m <= |keys| && keys[..m] !in view
      ensures keys[..m] in InsertView(view, keys, ids) && InsertView(view, keys, ids)[keys[..m]] == ids[m-1]
    {
      PrefixMember(keys, keys[..m]);
    }

    lemma AddsLeafNew(node: RadixNode, child: RadixNode, keys: Path, ids: seq<BlockId>, position: nat, to: Trie, i: nat)
      requires Inv() && AddsLeaf(node, child, keys, ids, position, to) && position + i < |keys|
      ensures to.tree[child].EndPath(i) == keys[..position+i+1] && to.Located(child, i)
    {
      AddsLeafFresh(node, keys, ids, position);
      hide Inv, Distinct, FreshSuffix;
      var m := position + i + 1;
      assert to.tree[child] == NodeState(keys[position..], ids[position..], node, map[], keys);
      assert to.tree[child].EndPath(i) == keys[..m];
      NewPrefix(keys, ids, m);
      assert ids[position..][i] == ids[m-1] && ids[position..][i] in ids[position..];
    }

    lemma AddsLeafInv(node: RadixNode, child: RadixNode, keys: Path, ids: seq<BlockId>, position: nat, to: Trie)
      requires Inv() && AddsLeaf(node, child, keys, ids, position, to)
      ensures to.Inv()
    {
      AddsLeafLinks(node, child, keys, ids, position, to);
      AddsLeafPages(node, child, keys, ids, position, to);
      AddsLeafView(node, child, keys, ids, position, to);
    }

    // ---------- splitting an edge ----------

    /** `split` takes over the first `common` keys of `child`'s edge. */
    ghost predicate SplitsEdge(child: RadixNode, split: RadixNode, common: nat, mid: Locations, to: Trie) {
      && child in tree && child != root && split !in tree && 0 < common < |tree[child].edgeKeys|
      && Linked(child) && |tree[child].blockIds| == |tree[child].edgeKeys|
      && var s, node := tree[child], tree[child].parent;
      && to.root == root && to.view == view
      && to.tree == tree[node := tree[node].(children := tree[node].children[s.edgeKeys[0] := split])]
                        [child := NodeState(s.edgeKeys[common..], s.blockIds[common..], split, s.children, s.path)]
                        [split := NodeState(s.edgeKeys[..common], s.blockIds[..common], node,
                                            map[s.edgeKeys[common] := child], s.EndPath(common-1))]
      && Reindexed(locs, split, s.blockIds[..common], mid)
      && Reindexed(mid, child, s.blockIds[common..], to.locs)
    }

    lemma SplitsEdgeLinked(child: RadixNode, split: RadixNode, common: nat, mid: Locations, to: Trie, n: RadixNode)
      requires Inv() && SplitsEdge(child, split, common, mid, to) && n in to.tree && n != root
      ensures to.Linked(n)
    {
      Predecessor(child, common - 1);
      if n != split {
        assert Linked(n);
      }
    }

    lemma SplitsEdgeChild(child: RadixNode, split: RadixNode, common: nat, mid: Locations, to: Trie, n: RadixNode,
        k: BlockKey)
      requires Inv() && SplitsEdge(child, split, common, mid, to) && n in to.tree && k in to.tree[n].children
      ensures to.ChildOk(n, k)
    {
      assert Linked(child);
      if n != split && k in tree[n].children {
        assert ChildOk(n, k);
      }
    }

    lemma SplitsEdgeLinks(child: RadixNode, split: RadixNode, common: nat, mid: Locations, to: Trie)
      requires Inv() && SplitsEdge(child, split, common, mid, to)
      ensures to.LinksOk()
    {
      forall n | n in to.tree && n != root
        ensures to.Linked(n)
      {
        SplitsEdgeLinked(child, split, common, mid, to, n);
      }
      forall n, k | n in to.tree && k in to.tree[n].children
        ensures to.ChildOk(n, k)
      {
        SplitsEdgeChild(child, split, common, mid, to, n, k);
      }
    }

    /** After a split each page is found under the node that now carries it ... */
    lemma SplitsEdgeFinds(child: RadixNode, split: RadixNode, common: nat, mid: Locations, to: Trie, n: RadixNode,
        i: nat)
      requires Inv() && SplitsEdge(child, split, common, mid, to)
      requires n in tree && i < |tree[n].blockIds|
      ensures tree[n].blockIds[i] in to.locs
      ensures to.locs[tree[n].blockIds[i]] ==
        (if n != child then (n, i) else if i < common then (split, i) else (child, i - common))
    {
      assert Located(n, i);
      SplitsEdgeCarrier(child, common, n, i);
      assert tree[n].blockIds[i] in mid;
    }

    /** ... at the prefix it had before. */
    lemma SplitsEdgeMoves(child: RadixNode, split: RadixNode, common: nat, mid: Locations, to: Trie, n: RadixNode,
        i: nat)
      requires Inv() && SplitsEdge(child, split, common, mid, to)
      requires n in tree && i < |tree[n].blockIds|
      ensures var (m, j) := if n != child then (n, i) else if i < common then (split, i) else (child, i - common);
        && m in to.tree && j < |to.tree[m].blockIds| && to.tree[m].blockIds[j] == tree[n].blockIds[i]
        && to.tree[m].EndPath(j) == tree[n].EndPath(i)
        && tree[n].blockIds[i] in to.locs && to.locs[tree[n].blockIds[i]] == (m, j)
    {
      hide Inv, SplitsEdge, NodeState.EndPath;
      SplitsEdgeFinds(child, split, common, mid, to, n, i);
      SplitStates(child, split, common, mid, to, n);
      if n == child {
        tree[child].SplitEndPath(common, i, to.tree[split], to.tree[child]);
      } else {
        SameEnd(tree[n], to.tree[n], i);
      }
    }

    lemma SplitStates(child: RadixNode, split: RadixNode, common: nat, mid: Locations, to: Trie, n: RadixNode)
      requires Inv() && SplitsEdge(child, split, common, mid, to) && n in tree
      ensures child in tree && 0 < common < |tree[child].edgeKeys| == |tree[child].blockIds| <= |tree[child].path|
      ensures n in to.tree
      ensures n != child ==> to.tree[n].blockIds == tree[n].blockIds && to.tree[n].path == tree[n].path
      ensures n != child ==> to.tree[n].edgeKeys == tree[n].edgeKeys
      ensures var s, head, rest := tree[child], to.tree[split], to.tree[child];
        && split in to.tree && child in to.tree
        && head.edgeKeys == s.edgeKeys[..common] && head.path == s.EndPath(common-1)
        && head.blockIds == s.blockIds[..common]
        && rest.edgeKeys == s.edgeKeys[common..] && rest.path == s.path && rest.blockIds == s.blockIds[common..]
    {
      hide Inv, NodeState.EndPath;
      PageFacts(child);
    }

    lemma PageFacts(n: RadixNode)
      requires Inv() && n in tree && n != root
      ensures Linked(n) && tree[n].parent != n && |tree[n].edgeKeys| <= |tree[n].path|
    {
      assert Linked(n);
    }

    lemma SplitsEdgeCarrier(child: RadixNode, common: nat, n: RadixNode, i: nat)
      requires Inv() && child in tree && n in tree && i < |tree[n].blockIds| && common <= |tree[child].blockIds|
      ensures var head, rest := tree[child].blockIds[..common], tree[child].blockIds[common..];
        && (tree[n].blockIds[i] in head <==> n == child && i < common)
        && (tree[n].blockIds[i] in rest <==> n == child && common <= i)
        && (n == child && i < common ==> head[i] == tree[n].blockIds[i])
        && (n == child && common <= i ==> rest[i-common] == tree[n].blockIds[i])
    {
      forall j: nat | j < |tree[child].blockIds| && tree[child].blockIds[j] == tree[n].blockIds[i]
        ensures n == child && i == j
      {
        SameId(child, j, n, i);
      }
    }

    lemma SplitsEdgePages(child: RadixNode, split: RadixNode, common: nat, mid: Locations, to: Trie)
      requires Inv() && SplitsEdge(child, split, common, mid, to)
      ensures to.PagesOk() && to.StoredOk() && to.ViewOk()
    {
      hide Inv, SplitsEdge;
      SplitsEdgeLocated(child, split, common, mid, to);
      SplitsEdgeStored(child, split, common, mid, to);
      SplitsEdgeViews(child, split, common, mid, to);
    }

    lemma SplitsEdgeLocated(child: RadixNode, split: RadixNode, common: nat, mid: Locations, to: Trie)
      requires Inv() && SplitsEdge(child, split, common, mid, to)
      ensures to.PagesOk()
    {
      forall n, i: nat | n in to.tree && i < |to.tree[n].blockIds|
        ensures to.Located(n, i)
      {
        var m := if n == split then child else n;
        var j := if n == child then i + common else i;
        assert Located(m, j);
        SplitsEdgeMoves(child, split, common, mid, to, m, j);
      }
    }

    lemma SplitsEdgeStored(child: RadixNode, split: RadixNode, common: nat, mid: Locations, to: Trie)
      requires Inv() && SplitsEdge(child, split, common, mid, to)
      ensures to.StoredOk()
    {
      forall j: nat | j < |tree[child].blockIds|
        ensures tree[child].blockIds[j] in locs
      {
        EndAt(child, j);
      }
      forall id | id in to.locs
        ensures to.Stored(id)
      {
        assert id in locs && Stored(id);
        SplitsEdgeMoves(child, split, common, mid, to, locs[id].0, locs[id].1);
      }
    }

    lemma SplitsEdgeViews(child: RadixNode, split: RadixNode, common: nat, mid: Locations, to: Trie)
      requires Inv() && SplitsEdge(child, split, common, mid, to)
      ensures to.ViewOk()
    {
      forall p | p in to.view
        ensures to.Represented(p)
      {
        assert Represented(p) && Stored(view[p]);
        SplitsEdgeMoves(child, split, common, mid, to, locs[view[p]].0, locs[view[p]].1);
      }
    }

    lemma SplitsEdgeInv(child: RadixNode, split: RadixNode, common: nat, mid: Locations, to: Trie)
      requires Inv() && SplitsEdge(child, split, common, mid, to)
      ensures to.Inv()
    {
      SplitsEdgeLinks(child, split, common, mid, to);
      SplitsEdgePages(child, split, common, mid, to);
    }

    // ---------- merging a node with its only child ----------

    ghost predicate MergesChild(node: RadixNode, c: RadixNode, to: Trie) {
      && node in tree && node != root && c in tree
      && |tree[node].edgeKeys| == |tree[node].blockIds|
      && (exists k :: tree[node].children == map[k := c])
      && to.root == root && to.view == view
      && to.tree == Spliced(tree, node, c)
      && ReindexedAt(locs, node, tree[c].blockIds, |tree[node].blockIds|, to.locs)
    }

    lemma OnlyChild(node: RadixNode, c: RadixNode, to: Trie)
      requires Inv() && MergesChild(node, c, to)
      ensures Linked(node) && Linked(c) && tree[c].parent == node && c != node && c != root
      ensures forall k | k in tree[node].children :: tree[node].children[k] == c
      ensures to.tree[node].path == tree[c].path
      ensures forall n | n in tree :: n in tree[c].children.Values <==> tree[n].parent == c
    {
      var k :| tree[node].children == map[k := c];
      assert ChildOk(node, k) && Linked(c) && Linked(node);
      ChildrenOf(c);
    }

    lemma ChildrenOf(c: RadixNode)
      requires Inv() && c in tree
      ensures tree[c].children.Values <= tree.Keys
      ensures forall n | n in tree :: n in tree[c].children.Values <==> tree[n].parent == c
    {
      forall g | g in tree[c].children.Values
        ensures g in tree && tree[g].parent == c
      {
        var j :| j in tree[c].children && tree[c].children[j] == g;
        assert ChildOk(c, j);
      }
      forall n | n in tree && tree[n].parent == c
        ensures n in tree[c].children.Values
      {
        assert n != root && Linked(n);
      }
    }

    lemma MergesChildLinked(node: RadixNode, c: RadixNode, to: Trie, n: RadixNode)
      requires Inv() && MergesChild(node, c, to) && n in to.tree && n != root
      ensures to.Linked(n)
    {
      OnlyChild(node, c, to);
      assert Linked(n);
    }

    lemma MergesChildChild(node: RadixNode, c: RadixNode, to: Trie, n: RadixNode, k: BlockKey)
      requires Inv() && MergesChild(node, c, to) && n in to.tree && k in to.tree[n].children
      ensures to.ChildOk(n, k)
    {
      OnlyChild(node, c, to);
      var m := if n == node then c else n;
      assert ChildOk(m, k) && Linked(tree[m].children[k]);
    }

    lemma MergesChildLinks(node: RadixNode, c: RadixNode, to: Trie)
      requires Inv() && MergesChild(node, c, to)
      ensures to.LinksOk()
    {
      OnlyChild(node, c, to);
      forall n | n in to.tree && n != root
        ensures to.Linked(n)
      {
        MergesChildLinked(node, c, to, n);
      }
      forall n, k | n in to.tree && k in to.tree[n].children
        ensures to.ChildOk(n, k)
      {
        MergesChildChild(node, c, to, n, k);
      }
    }

    lemma MergesChildMoves(node: RadixNode, c: RadixNode, to: Trie, n: RadixNode, i: nat)
      requires Inv() && MergesChild(node, c, to) && n in tree && i < |tree[n].blockIds|
      ensures var (m, j) := if n == c then (node, |tree[node].blockIds| + i) else (n, i);
        && m in to.tree && j < |to.tree[m].blockIds| && to.tree[m].blockIds[j] == tree[n].blockIds[i]
        && to.tree[m].EndPath(j) == tree[n].EndPath(i)
        && tree[n].blockIds[i] in to.locs && to.locs[tree[n].blockIds[i]] == (m, j)
    {
      OnlyChild(node, c, to);
      assert Located(n, i) && Linked(n);
      MergesChildFinds(node, c, to, n, i);
    }

    lemma MergesChildFinds(node: RadixNode, c: RadixNode, to: Trie, n: RadixNode, i: nat)
      requires Inv() && MergesChild(node, c, to) && n in tree && i < |tree[n].blockIds|
      ensures tree[n].blockIds[i] in to.locs
      ensures to.locs[tree[n].blockIds[i]] == if n == c then (node, |tree[node].blockIds| + i) else (n, i)
    {
      assert Located(n, i);
      SplitsEdgeCarrier(c, 0, n, i);
      assert tree[c].blockIds[0..] == tree[c].blockIds;
    }

    lemma MergesChildSameIds(node: RadixNode, c: RadixNode, to: Trie, id: BlockId)
      requires Inv() && MergesChild(node, c, to) && id in to.locs
      ensures id in locs
    {
      if id in tree[c].blockIds {
        var i :| 0 <= i < |tree[c].blockIds| && tree[c].blockIds[i] == id;
        assert Located(c, i);
      }
    }

    lemma MergesChildPages(node: RadixNode, c: RadixNode, to: Trie)
      requires Inv() && MergesChild(node, c, to)
      ensures to.PagesOk() && to.StoredOk() && to.ViewOk()
    {
      hide Inv, MergesChild;
      MergesChildLocated(node, c, to);
      MergesChildStored(node, c, to);
      MergesChildViews(node, c, to);
    }

    lemma MergesChildLocated(node: RadixNode, c: RadixNode, to: Trie)
      requires Inv() && MergesChild(node, c, to)
      ensures to.PagesOk()
    {
      OnlyChild(node, c, to);
      var offset := |tree[node].blockIds|;
      forall n, i: nat | n in to.tree && i < |to.tree[n].blockIds|
        ensures to.Located(n, i)
      {
        var (m, j) := if n == node && offset <= i then (c, i - offset) else (n, i);
        assert Located(m, j);
        MergesChildMoves(node, c, to, m, j);
      }
    }

    lemma MergesChildStored(node: RadixNode, c: RadixNode, to: Trie)
      requires Inv() && MergesChild(node, c, to)
      ensures to.StoredOk()
    {
      forall id | id in to.locs
        ensures to.Stored(id)
      {
        MergesChildSameIds(node, c, to, id);
        assert Stored(id);
        MergesChildMoves(node, c, to, locs[id].0, locs[id].1);
      }
    }

    lemma MergesChildViews(node: RadixNode, c: RadixNode, to: Trie)
      requires Inv() && MergesChild(node, c, to)
      ensures to.ViewOk()
    {
      forall p | p in to.view
        ensures to.Represented(p)
      {
        assert Represented(p) && Stored(view[p]);
        MergesChildMoves(node, c, to, locs[view[p]].0, locs[view[p]].1);
      }
    }

    lemma MergesChildInv(node: RadixNode, c: RadixNode, to: Trie)
      requires Inv() && MergesChild(node, c, to)
      ensures to.Inv()
    {
      MergesChildLinks(node, c, to);
      MergesChildPages(node, c, to);
    }

    // ---------- dropping a subtree ----------

    ghost predicate Below(node: RadixNode, m: RadixNode)
      requires node in tree && m in tree
    {
      tree[node].path <= tree[m].path
    }

    ghost function Subtree(node: RadixNode): set<RadixNode>
      requires node in tree
    {
      set m | m in tree && Below(node, m)
    }

    /** A node that ends below `node` hangs below `node`. */
    lemma ParentBelow(node: RadixNode, m: RadixNode)
      requires Inv() && node in tree && m in tree && Below(node, m) && m != node
      ensures Linked(m) && Below(node, tree[m].parent)
    {
      var p := tree[node].path;
      if m == root {
        assert p == tree[root].path;
        SamePath(node, m);
      }
      assert Linked(m);
      var s, a := tree[m], tree[m].parent;
      assert |p| == |s.path| ==> p == s.path;
      if |p| == |s.path| {
        SamePath(node, m);
      }
      if |tree[a].path| < |p| {
        LastEndPath(node);
        var j := |p| - |tree[a].path| - 1;
        Predecessor(m, j);
        assert s.EndPath(j) == p;
        SameEndPath(m, j, node, |tree[node].blockIds| - 1);
      }
      assert tree[a].path == s.path[..|tree[a].path|];
      assert p == s.path[..|p|];
    }

    /** Below a node, other than itself, everything is below one of its children. */
    lemma {:induction false} ChildAbove(node: RadixNode, m: RadixNode) returns (k: BlockKey)
      requires Inv() && node in tree && m in tree && Below(node, m) && m != node
      ensures k in tree[node].children && ChildOk(node, k) && Below(tree[node].children[k], m)
      decreases |tree[m].path|
    {
      ParentBelow(node, m);
      var a := tree[m].parent;
      if a == node {
        k := tree[m].edgeKeys[0];
        assert ChildOk(node, k);
      } else {
        k := ChildAbove(node, a);
      }
    }

    lemma SelfBelow(node: RadixNode)
      requires node in tree
      ensures node in Subtree(node) && Subtree(node) <= tree.Keys
    {
      assert Below(node, node);
    }

    lemma ChildBelow(node: RadixNode, k: BlockKey)
      requires Inv() && node in tree && k in tree[node].children
      ensures ChildOk(node, k) && Linked(tree[node].children[k])
      ensures Subtree(tree[node].children[k]) < Subtree(node) && node !in Subtree(tree[node].children[k])
    {
      assert ChildOk(node, k) && Linked(tree[node].children[k]);
      var c := tree[node].children[k];
      assert Below(node, node) && !Below(c, node);
      forall m | m in Subtree(c)
        ensures m in Subtree(node)
      {
        assert tree[node].path <= tree[c].path;
      }
      assert node in Subtree(node) && node !in Subtree(c);
    }

    lemma ChildNotRoot(node: RadixNode, k: BlockKey)
      requires Inv() && node in tree && k in tree[node].children
      ensures tree[node].children[k] in tree && tree[node].children[k] != root
    {
      assert ChildOk(node, k);
    }

    lemma AllBelowRoot()
      requires Inv()
      ensures root in tree && Subtree(root) == tree.Keys
    {
      assert forall m | m in tree :: Below(root, m);
    }

    ghost predicate Survives(node: RadixNode, index: nat, m: RadixNode)
      requires node in tree && m in tree
    {
      if m == node then index > 0 else !Below(node, m)
    }

    /** The subtree that hangs below the `index`-th key of `node`'s edge is gone, that key included. */
    ghost predicate Prunes(node: RadixNode, index: nat, to: Trie) {
      && node in tree && node != root && index < |tree[node].blockIds| == |tree[node].edgeKeys|
      && var s := tree[node];
      && to.root == root && to.view == RemoveView(view, s.EndPath(index))
      && to.tree == (map m | m in tree && Survives(node, index, m) ::
           if m == node then NodeState(s.edgeKeys[..index], s.blockIds[..index], s.parent, map[], s.EndPath(index-1))
           else if index == 0 && m == s.parent then tree[m].(children := tree[m].children - {s.edgeKeys[0]})
           else tree[m])
      && to.locs == KeptPages(node, index)
    }

    ghost function KeptPages(node: RadixNode, index: nat): Locations
      requires node in tree
    {
      map id | id in locs && locs[id].0 in tree && Kept(node, index, locs[id].0, locs[id].1) :: locs[id]
    }

    ghost predicate Kept(node: RadixNode, index: nat, m: RadixNode, i: int)
      requires node in tree && m in tree
    {
      Survives(node, index, m) && (m == node ==> i < index)
    }

    /** What is dropped are exactly the prefixes that extend the pruned one. */
    lemma {:induction false} KeptOrExtends(node: RadixNode, index: nat, m: RadixNode, i: nat)
      requires Inv() && node in tree && index < |tree[node].blockIds|
      requires m in tree && i < |tree[m].blockIds|
      ensures Kept(node, index, m, i) <==> !(tree[node].EndPath(index) <= tree[m].EndPath(i))
      decreases |tree[m].EndPath(i)|
    {
      var q, p := tree[node].EndPath(index), tree[m].EndPath(i);
      Predecessor(node, index);
      Predecessor(m, i);
      if p == q {
        SameEndPath(node, index, m, i);
      } else {
        assert q <= p <==> q <= p[..|p|-1];
        if i > 0 {
          assert p[..|p|-1] == tree[m].EndPath(i-1);
          KeptOrExtends(node, index, m, i - 1);
        } else {
          var a := tree[m].parent;
          assert p[..|p|-1] == tree[a].path;
          KeptBelowParent(node, index, m);
          if a != root {
            LastEndPath(a);
            KeptOrExtends(node, index, a, |tree[a].blockIds| - 1);
          }
        }
      }
    }

    lemma KeptBelowParent(node: RadixNode, index: nat, m: RadixNode)
      requires Inv() && node in tree && node != root && m in tree && m != root && index < |tree[node].blockIds|
      requires m == node ==> index > 0
      ensures Linked(m)
      ensures var a := tree[m].parent;
        Kept(node, index, m, 0) <==> a == root || Kept(node, index, a, |tree[a].blockIds| - 1)
    {
      assert Linked(m) && Linked(node);
      var a := tree[m].parent;
      if a != root {
        assert Linked(a);
      }
      if m != node && Below(node, m) {
        ParentBelow(node, m);
      }
      assert Below(node, a) ==> Below(node, m);
    }

    lemma PrunesLinked(node: RadixNode, index: nat, to: Trie, n: RadixNode)
      requires Inv() && Prunes(node, index, to) && n in to.tree && n != root
      ensures to.Linked(n)
    {
      KeptBelowParent(node, index, n);
      var a := tree[n].parent;
      Predecessor(node, index);
      if index == 0 && a == tree[node].parent {
        assert Linked(n) && Linked(node);
      }
    }

    lemma PrunesChild(node: RadixNode, index: nat, to: Trie, n: RadixNode, k: BlockKey)
      requires Inv() && Prunes(node, index, to) && n in to.tree && k in to.tree[n].children
      ensures to.ChildOk(n, k)
    {
      assert ChildOk(n, k);
      var c := tree[n].children[k];
      assert Linked(c) && Linked(node);
      if c != node && Below(node, c) {
        ParentBelow(node, c);
      }
    }

    lemma PrunesLinks(node: RadixNode, index: nat, to: Trie)
      requires Inv() && Prunes(node, index, to)
      ensures to.LinksOk()
    {
      assert Linked(node) && !Below(node, root);
      forall n | n in to.tree && n != root
        ensures to.Linked(n)
      {
        PrunesLinked(node, index, to, n);
      }
      forall n, k | n in to.tree && k in to.tree[n].children
        ensures to.ChildOk(n, k)
      {
        PrunesChild(node, index, to, n, k);
      }
    }

    lemma PrunesInv(node: RadixNode, index: nat, to: Trie)
      requires Inv() && Prunes(node, index, to)
      ensures to.Inv()
    {
      PrunesLinks(node, index, to);
      PrunesPages(node, index, to);
    }

    lemma PrunesKeeps(node: RadixNode, index: nat, to: Trie, n: RadixNode, i: nat)
      requires Inv() && Prunes(node, index, to)
      requires n in tree && i < |tree[n].blockIds| && Kept(node, index, n, i)
      ensures n in to.tree && i < |to.tree[n].blockIds| && to.tree[n].blockIds[i] == tree[n].blockIds[i]
      ensures to.tree[n].EndPath(i) == tree[n].EndPath(i) && tree[n].EndPath(i) in to.view
      ensures tree[n].blockIds[i] in to.locs && to.locs[tree[n].blockIds[i]] == (n, i)
    {
      assert Located(n, i) && Stored(tree[n].blockIds[i]);
      KeptOrExtends(node, index, n, i);
      assert Linked(node);
      if n == node {
        tree[node].SplitEndPath(index, i, to.tree[node],
          NodeState(tree[node].edgeKeys[index..], [], null, map[], tree[node].path));
      }
    }

    lemma PrunesPages(node: RadixNode, index: nat, to: Trie)
      requires Inv() && Prunes(node, index, to)
      ensures to.PagesOk() && to.StoredOk() && to.ViewOk()
    {
      forall n, i: nat | n in to.tree && i < |to.tree[n].blockIds|
        ensures to.Located(n, i)
      {
        assert Located(n, i);
        PrunesKeeps(node, index, to, n, i);
      }
      forall id | id in to.locs
        ensures to.Stored(id)
      {
        assert Stored(id);
        PrunesKeeps(node, index, to, locs[id].0, locs[id].1);
      }
      forall p | p in to.view
        ensures to.Represented(p)
      {
        assert Represented(p) && Stored(view[p]);
        KeptOrExtends(node, index, locs[view[p]].0, locs[view[p]].1);
        PrunesKeeps(node, index, to, locs[view[p]].0, locs[view[p]].1);
      }
    }

    /** Everything below `node` is `node` itself or below one of its children. */
    lemma SubtreeParts(node: RadixNode, gone: set<RadixNode>)
      requires Inv() && node in tree && gone <= Subtree(node) && node !in gone
      requires forall k | k in tree[node].children :: ChildOk(node, k) && Subtree(tree[node].children[k]) <= gone
      ensures Subtree(node) == gone + {node}
    {
      assert Below(node, node);
      forall m | m in Subtree(node) && m != node
        ensures m in gone
      {
        var k := ChildAbove(node, m);
        assert m in Subtree(tree[node].children[k]);
      }
    }

    /** Popping a page forgets exactly that page. */
    lemma PopsOwnPages(l: Locations, node: RadixNode, gone: set<RadixNode>)
      requires Inv() && node in tree
      ensures Without(l, this, gone) - (set id | id in tree[node].blockIds) == Without(l, this, gone + {node})
    {
      var ids := tree[node].blockIds;
      forall id | id in locs
        ensures id in ids <==> locs[id].0 == node
      {
        assert Stored(id);
        if id in ids {
          var i :| 0 <= i < |ids| && ids[i] == id;
          assert Located(node, i);
        }
      }
      forall id | id in ids
        ensures id in locs
      {
        var i :| 0 <= i < |ids| && ids[i] == id;
        assert Located(node, i);
      }
    }

    /** The pages kept by pruning `node` at `index` are those left after dropping what is below
        `node` and popping the rest of its edge. */
    lemma PruneDrops(node: RadixNode, index: nat, gone: set<RadixNode>)
      requires Inv() && node in tree && index <= |tree[node].blockIds|
      requires gone + {node} == Subtree(node) && node !in gone
      ensures Without(locs, this, gone) - (set id | id in tree[node].blockIds[index..]) == KeptPages(node, index)
    {
      var ids := tree[node].blockIds;
      forall id | id in locs
        ensures Stored(id) && (id in ids[index..] <==> locs[id].0 == node && index <= locs[id].1)
        ensures locs[id].0 in gone <==> locs[id].0 != node && Below(node, locs[id].0)
      {
        assert Stored(id);
        assert locs[id].0 in Subtree(node) <==> Below(node, locs[id].0);
        SplitsEdgeCarrier(node, index, locs[id].0, locs[id].1);
      }
    }

    lemma HeadDrops(node: RadixNode)
      requires Inv() && node in tree
      ensures Without(locs, this, Subtree(node)) == KeptPages(node, 0)
    {
      SelfBelow(node);
      var gone := Subtree(node) - {node};
      assert gone + {node} == Subtree(node) && tree[node].blockIds[0..] == tree[node].blockIds;
      PruneDrops(node, 0, gone);
      PopsOwnPages(locs, node, gone);
    }

    // ---------- eviction ----------

    /** `id` is the last eligible page of the leaf `n`. */
    ghost predicate LeafPage(n: RadixNode, eligible: set<BlockId>, id: BlockId)
      requires n in tree
    {
      var ids := tree[n].blockIds;
      && n != root && tree[n].children == map[] && id in eligible
      && exists i :: 0 <= i < |ids| && ids[i] == id && forall j | i < j < |ids| :: ids[j] !in eligible
    }

    lemma LeafPageIndexed(n: RadixNode, eligible: set<BlockId>, id: BlockId)
      requires Inv() && n in tree && LeafPage(n, eligible, id)
      ensures id in view.Values
    {
      var ids := tree[n].blockIds;
      var i :| 0 <= i < |ids| && ids[i] == id;
      assert Located(n, i) && Stored(id);
    }

    /** Invalidating the last eligible page of a leaf invalidates no other eligible page. */
    lemma LeafPageAlone(n: RadixNode, eligible: set<BlockId>, id: BlockId, q: Path)
      requires Inv() && n in tree && LeafPage(n, eligible, id) && q in view
      ensures id in view.Values && (PathOf(view, id) <= q && view[q] in eligible ==> view[q] == id)
    {
      var ids := tree[n].blockIds;
      var i :| 0 <= i < |ids| && ids[i] == id && forall j | i < j < |ids| :: ids[j] !in eligible;
      assert Located(n, i) && Represented(q) && Stored(view[q]);
      PageAt(id);
      var (m, j) := locs[view[q]];
      KeptOrExtends(n, i, m, j);
      SelfBelow(n);
      SubtreeParts(n, {});
      assert Below(n, m) ==> m in Subtree(n);
    }

    /** Page `id` and the pages behind it in its node. */
    ghost function Tail(id: BlockId): seq<BlockId> {
      if id in locs && Stored(id) then tree[locs[id].0].blockIds[locs[id].1..] else []
    }

    /** In a leaf these are exactly the pages that invalidating `id` invalidates, and if `id` is its last
        eligible page none of the others is eligible. */
    lemma LeafTail(n: RadixNode, eligible: set<BlockId>, id: BlockId)
      requires Inv() && n in tree && LeafPage(n, eligible, id)
      ensures id in view.Values && OwnTail(view, eligible, id, Tail(id))
    {
      hide Inv, KeptPages, Subtree, NodeState.EndPath;
      var ids := tree[n].blockIds;
      var i: nat :| i < |ids| && ids[i] == id && forall j | i < j < |ids| :: ids[j] !in eligible;
      EndAt(n, i);
      PageAt(id);
      assert forall c | c in ids[i..][1..] :: c !in eligible;
      forall q | q in view
        ensures PathOf(view, id) <= q <==> view[q] in ids[i..]
      {
        TailReaches(n, i, q);
      }
    }

    lemma EndAt(n: RadixNode, i: nat)
      requires Inv() && n in tree && i < |tree[n].blockIds|
      ensures tree[n].blockIds[i] in locs && locs[tree[n].blockIds[i]] == (n, i)
      ensures Stored(tree[n].blockIds[i])
    {
      assert Located(n, i);
    }

    lemma LeafIsAlone(n: RadixNode, m: RadixNode)
      requires Inv() && n in tree && tree[n].children == map[] && m in tree && Below(n, m)
      ensures m == n
    {
      SelfBelow(n);
      SubtreeParts(n, {});
      assert m in Subtree(n);
    }

    lemma TailReaches(n: RadixNode, i: nat, q: Path)
      requires Inv() && n in tree && tree[n].children == map[] && i < |tree[n].blockIds| && q in view
      ensures tree[n].EndPath(i) <= q <==> view[q] in tree[n].blockIds[i..]
    {
      hide Inv, Subtree, NodeState.EndPath;
      var at := Locate(q);
      var (m, j) := at;
      EndInView(m, j);
      EndAt(m, j);
      KeptOrExtends(n, i, m, j);
      if Below(n, m) {
        LeafIsAlone(n, m);
      }
      if k :| i <= k < |tree[n].blockIds| && tree[n].blockIds[k] == view[q] {
        EndAt(n, k);
      }
      assert m == n && i <= j ==> tree[n].blockIds[i..][j - i] == view[q];
    }

    lemma EdgeGoesOn(n: RadixNode, i: nat)
      requires Inv() && n in tree && i + 1 < |tree[n].blockIds|
      ensures !Maximal(tree[n].EndPath(i))
    {
      Predecessor(n, i);
      Predecessor(n, i + 1);
      assert Located(n, i + 1);
      assert tree[n].EndPath(i) <= tree[n].EndPath(i + 1);
    }

    /** Every indexed page below which nothing is indexed lies in a leaf. */
    lemma MaximalInLeaf(p: Path)
      requires Inv() && p in view && Maximal(p)
      ensures view[p] in locs
      ensures var (n, i) := locs[view[p]];
        n in tree && n != root && tree[n].children == map[] && i == |tree[n].blockIds| - 1
    {
      assert Represented(p) && Stored(view[p]);
      var (n, i) := locs[view[p]];
      PageAt(view[p]);
      Predecessor(n, i);
      if i + 1 < |tree[n].blockIds| {
        EdgeGoesOn(n, i);
      } else {
        LastEndPath(n);
        if k :| k in tree[n].children {
          ChildExtends(n, k);
        }
      }
    }

    // ---------- path compression ----------

    /** The nodes below the root that have exactly one child. */
    ghost function Singles(): set<RadixNode> {
      set n | n in tree && IsSingle(n)
    }

    ghost predicate IsSingle(n: RadixNode)
      requires n in tree
    {
      n != root && |tree[n].children| == 1
    }

    /** No node below the root has exactly one child. */
    ghost predicate Compact() {
      Singles() == {}
    }

    /** The nodes that end at `p`: one at most. */
    ghost function Ending(p: Path): set<RadixNode> {
      set n | n in tree && n != root && tree[n].path == p
    }

    /** The single-child nodes after inserting `keys`: a leaf that `keys` extends becomes one, and any
        other node that `keys` branch off from is none any more. */
    ghost function InsertSingles(keys: Path): set<RadixNode> {
      if keys == [] || keys in view then Singles()
      else if ExtendsLeaf(keys) then Singles() + Ending(Stem(view, keys))
      else Singles() - Ending(Stem(view, keys))
    }

    /** What invalidating `q` may drop: nodes at or beyond `q`, and nodes below one along `q` that is left
        with a single child and merged with it. */
    ghost predicate Drops(q: Path, n: RadixNode)
      requires n in tree
    {
      || q <= tree[n].path
      || exists p :: p in tree && p != root && p != n && tree[p].path <= q && Below(p, n)
           && |tree[p].children| == if |q| == |tree[p].path| + 1 then 2 else 1
    }

    /** The single-child nodes after invalidating prefix `q`, if the nodes `left` are left: none of those
        along `q`, and otherwise the same as before. */
    ghost function RemoveSingles(q: Path, left: set<RadixNode>): set<RadixNode> {
      set n | n in Singles() && n in left && !(tree[n].path <= q) && !(q <= tree[n].path)
    }

    /** The next key of `keys` would hang below a leaf: the match of `keys` is a proper prefix of
        it that nothing indexed extends. */
    ghost predicate ExtendsLeaf(keys: Path) {
      exists m :: 0 < m < |keys| && keys[..m] in view && Maximal(keys[..m])
    }

    ghost predicate Maximal(p: Path) {
      forall q | q in view && p <= q :: q == p
    }

    lemma SingleChild(node: RadixNode) returns (k: BlockKey, c: RadixNode)
      requires Inv() && node in tree && |tree[node].children| == 1
      ensures k in tree[node].children && c == tree[node].children[k] && tree[node].children == map[k := c]
      ensures c in tree && Linked(c) && c != node && c != root && tree[c].parent == node
      ensures tree[c].children.Values <= tree.Keys && c !in tree[c].children.Values && node !in tree[c].children.Values
      ensures forall n | n in tree :: n in tree[c].children.Values <==> tree[n].parent == c
    {
      var ks := tree[node].children.Keys;
      assert |ks| == |tree[node].children|;
      k :| k in ks;
      assert |ks - {k}| == 0;
      c := tree[node].children[k];
      assert ChildOk(node, k) && Linked(c);
      ChildrenOf(c);
      if node != root {
        assert Linked(node);
      }
    }

    /** How pruning comes about: `node` loses the rest of its edge, or its parent loses `node`. */
    lemma MakesPrune(node: RadixNode, index: nat, gone: set<RadixNode>, to: Trie)
      requires Inv() && node in tree && node != root && index < |tree[node].blockIds| == |tree[node].edgeKeys|
      requires Linked(node) && !Below(node, tree[node].parent)
      requires to.root == root && to.view == RemoveView(view, tree[node].EndPath(index))
      requires to.locs == KeptPages(node, index)
      requires var s, a := tree[node], tree[node].parent;
        if index == 0 then
          gone == Subtree(node) &&
          to.tree == tree[a := tree[a].(children := tree[a].children - {s.edgeKeys[0]})] - gone
        else
          gone + {node} == Subtree(node) && node !in gone &&
          to.tree == tree[node := NodeState(s.edgeKeys[..index], s.blockIds[..index], a, map[],
            s.EndPath(index-1))] - gone
      ensures Prunes(node, index, to)
    {
      hide Inv, RemoveView, KeptPages, NodeState.EndPath;
      forall m | m in tree
        ensures Survives(node, index, m) <==> m !in gone
      {
        assert m in Subtree(node) <==> Below(node, m);
      }
    }

    lemma Pruned(node: RadixNode, index: nat, to: Trie)
      requires Inv() && Prunes(node, index, to)
      ensures to.Inv() && Linked(node) && tree[node].parent in to.tree
      ensures to.view == RemoveView(view, tree[node].EndPath(index))
    {
      PrunesInv(node, index, to);
      assert Linked(node);
    }

    /** Pruning changes the number of children only along the pruned prefix. */
    lemma PrunedSingles(node: RadixNode, index: nat, to: Trie, left: set<RadixNode>)
      requires Inv() && Prunes(node, index, to) && left <= to.tree.Keys
      ensures Linked(node) && tree[node].parent in to.tree
      ensures (set n | n in to.Singles() && n in left && !to.Below(n, tree[node].parent))
        == RemoveSingles(tree[node].EndPath(index), left)
    {
      Pruned(node, index, to);
      Predecessor(node, index);
      var a := tree[node].parent;
      forall n | n in left
        ensures n in to.Singles() && !to.Below(n, a) <==> n in RemoveSingles(tree[node].EndPath(index), left)
      {
        PrunedSingle(node, index, to, n);
      }
    }

    lemma PrunedDrops(node: RadixNode, index: nat, to: Trie, n: RadixNode)
      requires Inv() && Prunes(node, index, to) && n in tree && Linked(node) && tree[node].parent in to.tree
      requires n in to.tree ==> to.Merges(tree[node].parent, n)
      ensures Drops(tree[node].EndPath(index), n)
    {
      var q, a := tree[node].EndPath(index), tree[node].parent;
      Predecessor(node, index);
      if n !in to.tree {
        assert q <= tree[node].path;
      } else {
        var p :| p in to.tree && p != n && to.IsSingle(p) && to.Below(p, a) && to.Below(p, n);
        Pruned(node, index, to);
        SamePaths(node, index, to, a);
        SamePaths(node, index, to, p);
        SamePaths(node, index, to, n);
        Siblings(node, index, to, p);
        hide Inv, Prunes;
        assert Below(p, n);
      }
    }

    lemma SamePaths(node: RadixNode, index: nat, to: Trie, n: RadixNode)
      requires Inv() && Prunes(node, index, to) && n in to.tree
      ensures n in tree && to.tree[n].path <= tree[n].path && (n != node ==> to.tree[n].path == tree[n].path)
    {
    }

    /** How many children a node along the pruned prefix is left with. */
    lemma Siblings(node: RadixNode, index: nat, to: Trie, p: RadixNode)
      requires Inv() && Prunes(node, index, to) && p in to.tree && p != node && Linked(node)
      requires tree[node].parent in tree && p in tree && tree[p].path <= tree[tree[node].parent].path
      ensures tree[p].path == to.tree[p].path
      ensures |tree[p].children| ==
        |to.tree[p].children| + if |tree[node].EndPath(index)| == |tree[p].path| + 1 then 1 else 0
    {
      Predecessor(node, index);
      var a := tree[node].parent;
      if |tree[node].EndPath(index)| == |tree[p].path| + 1 {
        assert tree[p].path == tree[a].path;
        SamePath(p, a);
        var k := tree[node].edgeKeys[0];
        assert tree[a].children.Keys == to.tree[a].children.Keys + {k};
      } else if index == 0 {
        assert p != a;
      }
    }

    lemma PrunedSingle(node: RadixNode, index: nat, to: Trie, n: RadixNode)
      requires Inv() && Prunes(node, index, to) && n in to.tree && Linked(node) && tree[node].parent in to.tree
      ensures n in tree
      ensures var q := tree[node].EndPath(index);
        to.IsSingle(n) && !to.Below(n, tree[node].parent) <==>
          IsSingle(n) && !(tree[n].path <= q) && !(q <= tree[n].path)
    {
      var q, a := tree[node].EndPath(index), tree[node].parent;
      Predecessor(node, index);
      assert Linked(node);
      if n != node {
        assert tree[n].path <= q ==> tree[n].path <= tree[node].path;
        if tree[n].path <= q {
          ParentBelow(n, node);
        }
        if n != root {
          LastEndPath(n);
          KeptOrExtends(node, index, n, |tree[n].blockIds| - 1);
        }
      }
    }

    // ---------- merging upwards ----------

    /** Half way through merging from `start` to the root, at `node`: the nodes above are as before, and
        of the nodes passed none along `start` has a single child. */
    ghost predicate Climbed(start: RadixNode, node: RadixNode, to: Trie) {
      && start in tree && node in tree && Below(node, start)
      && to.root == root && to.tree.Keys <= tree.Keys
      && (forall n | n in tree && Below(n, node) :: n in to.tree && (n != node ==> to.tree[n] == tree[n]))
      && to.tree[node].parent == tree[node].parent && tree[node].path <= to.tree[node].path
      && (forall n | n in to.tree && !Below(n, node) :: to.IsSingle(n) <==> IsSingle(n) && !Below(n, start))
      && (forall n | n in to.tree && !Below(n, node) :: Below(n, start) || to.tree[n].path == tree[n].path)
      && (to.tree[node].children != tree[node].children ==> IsSingle(node))
      && (forall n | n in tree && n !in to.tree :: Merges(start, n))
    }

    /** `n` hangs below a single-child node along `start`. */
    ghost predicate Merges(start: RadixNode, n: RadixNode)
      requires start in tree && n in tree
    {
      exists p :: p in tree && p != n && IsSingle(p) && Below(p, start) && Below(p, n)
    }

    lemma ClimbStarts(start: RadixNode)
      requires start in tree
      ensures Climbed(start, start, this)
    {
    }

    lemma ChildrenLonger(c: RadixNode)
      requires Inv() && c in tree
      ensures forall n | n in tree[c].children.Values :: n in tree && |tree[c].path| < |tree[n].path|
    {
      forall n | n in tree[c].children.Values
        ensures n in tree && |tree[c].path| < |tree[n].path|
      {
        var k :| k in tree[c].children && tree[c].children[k] == n;
        assert ChildOk(c, k) && Linked(n);
      }
    }

    lemma ClimbMerges(start: RadixNode, node: RadixNode, from: Trie, c: RadixNode, to: Trie)
      requires Climbed(start, node, from) && from.Inv() && from.MergesChild(node, c, to)
      ensures Climbed(start, node, to)
    {
      hide Inv, Merges, MergesChild;
      from.MergedTree(node, c, to);
      from.ChildrenLonger(c);
      MergedChild(start, node, from, c, to);
      forall n | n in tree && Below(n, node)
        ensures n in to.tree && (n != node ==> to.tree[n] == tree[n])
      {
        assert n != node ==> |from.tree[n].path| <= |from.tree[node].path| < |from.tree[c].path|;
      }
    }

    lemma MergedTree(node: RadixNode, c: RadixNode, to: Trie)
      requires Inv() && MergesChild(node, c, to)
      ensures c in tree && node in tree && to.root == root && to.tree.Keys == tree.Keys - {c} && c != node
      ensures forall n | n in to.tree && n != node ::
        to.tree[n].path == tree[n].path && to.tree[n].children == tree[n].children
      ensures forall n | n in to.tree && n != node && n !in tree[c].children.Values :: to.tree[n] == tree[n]
      ensures to.tree[node].parent == tree[node].parent && to.tree[node].path == tree[c].path
      ensures to.tree[node].children == tree[c].children
    {
      OnlyChild(node, c, to);
    }

    lemma MergedChild(start: RadixNode, node: RadixNode, from: Trie, c: RadixNode, to: Trie)
      requires Climbed(start, node, from) && from.Inv() && from.MergesChild(node, c, to)
      ensures |from.tree[node].path| < |from.tree[c].path| && from.tree[node].path <= from.tree[c].path
      ensures IsSingle(node) && c in tree && Merges(start, c)
    {
      from.OnlyChild(node, c, to);
      assert from.Linked(c);
      hide Inv;
      assert from.IsSingle(node) ==> IsSingle(node);
      assert tree[node].path <= from.tree[node].path <= from.tree[c].path;
      assert !Below(c, node) && c != node;
      assert Below(c, start) ==> |tree[node].path| <= |tree[c].path|;
      assert Below(node, c);
    }

    lemma ClimbUp(start: RadixNode, node: RadixNode, to: Trie)
      requires Inv() && Climbed(start, node, to) && node != root && !to.IsSingle(node)
      ensures Linked(node) && Climbed(start, tree[node].parent, to)
    {
      assert Linked(node);
      forall n | n in to.tree && !Below(n, tree[node].parent)
        ensures to.IsSingle(n) <==> IsSingle(n) && !Below(n, start)
      {
        if n != node && Below(n, node) {
          ParentBelow(n, node);
        }
      }
    }

    lemma ClimbEnds(start: RadixNode, to: Trie)
      requires Inv() && Climbed(start, root, to)
      ensures to.Singles() == set n | n in Singles() && n in to.tree && !Below(n, start)
      ensures forall n | n in tree && n !in to.tree :: Merges(start, n)
    {
      forall n | n in to.tree && n != root
        ensures !Below(n, root)
      {
        if Below(n, root) {
          SamePath(n, root);
        }
      }
    }

    // ---------- how insertion changes the number of children ----------

    lemma LeafSingles(node: RadixNode, child: RadixNode, keys: Path, ids: seq<BlockId>, position: nat, to: Trie)
      requires Inv() && AddsLeaf(node, child, keys, ids, position, to)
      ensures to.Singles() ==
        if node == root then Singles()
        else if tree[node].children == map[] then Singles() + {node} else Singles() - {node}
    {
      hide Inv, InsertView, Reindexed, Distinct, FreshSuffix;
      SizeAfterAdding(tree[node].children, keys[position], child);
      assert |to.tree[node].children| == |tree[node].children| + 1 && |to.tree[child].children| == 0;
      assert |tree[node].children| == 0 <==> tree[node].children == map[];
      assert forall n | n in tree && n != node :: to.tree[n].children == tree[n].children;
    }

    lemma SplitSingles(child: RadixNode, split: RadixNode, common: nat, mid: Locations, to: Trie)
      requires Inv() && SplitsEdge(child, split, common, mid, to)
      ensures to.Singles() == Singles() + {split}
    {
      var s, node := tree[child], tree[child].parent;
      assert to.tree[node].children.Keys == tree[node].children.Keys;
      assert |to.tree[node].children| == |tree[node].children|;
      assert to.tree[split].children == map[s.edgeKeys[common] := child];
    }

    lemma SinglesInside()
      ensures Singles() <= tree.Keys
    {
    }

    /** `keys` end, as far as they are indexed, at `node`. */
    lemma StemAtNode(node: RadixNode, keys: Path, position: nat)
      requires Inv() && node in tree && position < |keys| && tree[node].path == keys[..position]
      requires keys[position] !in tree[node].children
      ensures keys !in view && Stem(view, keys) == keys[..position]
      ensures Ending(keys[..position]) == if node == root then {} else {node}
    {
      MissAtNode(node, keys, position);
      if node != root {
        LastEndPath(node);
      }
      ViewWellFormed();
      StemIs(view, keys, position);
      forall n | n in tree && tree[n].path == keys[..position]
        ensures n == node
      {
        SamePath(n, node);
      }
    }

    /** No node ends in the middle of an edge. */
    lemma NoneEndsOnEdge(child: RadixNode, common: nat)
      requires Inv() && child in tree && 0 < common < |tree[child].blockIds|
      ensures Ending(tree[child].EndPath(common-1)) == {}
    {
      hide Inv, NodeState.EndPath;
      forall n | n in tree && n != root
        ensures tree[n].path != tree[child].EndPath(common-1)
      {
        LastEndPath(n);
        if tree[n].path == tree[child].EndPath(common-1) {
          SameEndPath(n, |tree[n].blockIds| - 1, child, common - 1);
        }
      }
    }

    /** `keys` leave the edge of `child` in its middle, where no node ends. */
    lemma StemOnEdge(child: RadixNode, keys: Path, end: nat, common: nat)
      requires Inv() && child in tree && 0 < common < |tree[child].blockIds| == |tree[child].edgeKeys| && end < |keys|
      requires keys[..end] == tree[child].EndPath(common-1) && keys[end] != tree[child].edgeKeys[common]
      ensures keys !in view && Stem(view, keys) == keys[..end] && Ending(keys[..end]) == {}
    {
      hide Inv, NodeState.EndPath, Ending;
      MissOnEdge(child, keys, end, common);
      EndInView(child, common - 1);
      NoneEndsOnEdge(child, common);
      ViewWellFormed();
      StemIs(view, keys, end);
    }

    lemma LeafMaximal(node: RadixNode)
      requires Inv() && node in tree && tree[node].children == map[]
      ensures Maximal(tree[node].path)
    {
      ViewWellFormed();
      hide Inv, PrefixClosed, Injective;
      var p := tree[node].path;
      forall q | q in view && p <= q
        ensures q == p
      {
        if |q| > |p| {
          Continues(view, p, q);
          ChildFor(node, q[|p|]);
        }
      }
    }

    lemma ChildExtends(node: RadixNode, k: BlockKey)
      requires Inv() && node in tree && k in tree[node].children
      ensures tree[node].path + [k] in view && !Maximal(tree[node].path)
    {
      assert ChildOk(node, k);
      var c := tree[node].children[k];
      assert Linked(c) && Located(c, 0);
      assert tree[c].EndPath(0) == tree[node].path + [k];
    }

    lemma LeafExtends(node: RadixNode, keys: Path, position: nat)
      requires Inv() && node in tree && position < |keys| && tree[node].path == keys[..position]
      requires keys[position] !in tree[node].children
      ensures ExtendsLeaf(keys) <==> node != root && tree[node].children == map[]
    {
      MissAtNode(node, keys, position);
      if node != root {
        LastEndPath(node);
      }
      if tree[node].children == map[] {
        LeafMaximal(node);
      } else {
        var k :| k in tree[node].children;
        ChildExtends(node, k);
      }
      if ExtendsLeaf(keys) {
        var m :| 0 < m < |keys| && keys[..m] in view && Maximal(keys[..m]);
        OnlyAtEnd(keys, position, m);
      }
    }

    lemma OnlyAtEnd(keys: Path, position: nat, m: nat)
      requires Inv() && position < |keys| && keys[..position+1] !in view && 0 < m < |keys|
      requires position > 0 ==> keys[..position] in view
      requires keys[..m] in view && Maximal(keys[..m])
      ensures m == position
    {
      hide Inv, Maximal;
      ViewWellFormed();
      if position < m {
        Shorter(keys, position + 1, m);
        PrefixInView(view, keys[..m], position + 1);
      } else {
        Shorter(keys, m, position);
        NothingBeyond(keys[..m], keys[..position]);
      }
    }

    lemma NothingBeyond(p: Path, q: Path)
      requires Maximal(p) && q in view && p <= q
      ensures q == p
    {
    }

    lemma InsideEdge(child: RadixNode, keys: Path, end: nat, common: nat)
      requires Inv() && child in tree && 0 < common < |tree[child].blockIds| == |tree[child].edgeKeys| && end < |keys|
      requires keys[..end] == tree[child].EndPath(common-1) && keys[end] != tree[child].edgeKeys[common]
      ensures !ExtendsLeaf(keys)
    {
      if ExtendsLeaf(keys) {
        MissOnEdge(child, keys, end, common);
        assert Located(child, common) && Located(child, common - 1);
        Predecessor(child, common);
        assert keys[..end] <= tree[child].EndPath(common) && keys[..end] != tree[child].EndPath(common);
        var m :| 0 < m < |keys| && keys[..m] in view && Maximal(keys[..m]);
        OnlyAtEnd(keys, end, m);
      }
    }
  }

  lemma SameEnd(s: NodeState, t: NodeState, i: nat)
    requires s.edgeKeys == t.edgeKeys && s.path == t.path
    ensures s.EndPath(i) == t.EndPath(i)
  {
  }

  lemma Shorter(keys: Path, n: nat, m: nat)
    requires n <= m <= |keys|
    ensures keys[..n] <= keys[..m] && keys[..m][..n] == keys[..n]
  {
  }

  /** If an edge agrees with `keys` from `position` on, so does each shorter part of it. */
  lemma EdgePart(edge: Path, keys: Path, position: nat, common: nat, n: nat)
    requires n <= common <= |edge| && position + common <= |keys|
    requires edge[..common] == keys[position..][..common]
    ensures keys[..position + n] == keys[..position] + edge[..n]
  {
    assert edge[..n] == edge[..common][..n] == keys[position..][..common][..n] == keys[position..position + n];
  }

  lemma SplicedSteps(tree: Tree, node: RadixNode, c: RadixNode)
    requires node in tree && c in tree && node != c && node !in tree[c].children.Values
    ensures var s, t := tree[node], tree[c];
      var absorbed := tree[node := NodeState(s.edgeKeys + t.edgeKeys, s.blockIds + t.blockIds, s.parent, t.children,
        t.path)];
      var adopted := map n | n in absorbed ::
        if n in t.children.Values then absorbed[n].(parent := node) else absorbed[n];
      adopted - {c} == Spliced(tree, node, c)
  {
  }

  lemma SizeAfterAdding<K, V>(m: map<K, V>, k: K, v: V)
    requires k !in m
    ensures |m[k := v]| == |m| + 1 && (|m| == 0 <==> m == map[])
  {
    assert m[k := v].Keys == m.Keys + {k};
    assert |m| == 0 ==> m.Keys == {};
  }

  /** `tail` lists the pages of exactly the prefixes that extend the one of `id`, which comes first,
      and none of the others is eligible. */
  ghost predicate OwnTail(view: View, eligible: set<BlockId>, id: BlockId, tail: seq<BlockId>)
    requires id in view.Values
  {
    && tail != [] && tail[0] == id && (forall c | c in tail[1..] :: c !in eligible)
    && forall q | q in view :: PathOf(view, id) <= q <==> view[q] in tail
  }

  /** The prefix that page `id` stands for. */
  ghost function PathOf(view: View, id: BlockId): Path
    requires id in view.Values
  {
    var p :| p in view && view[p] == id; p
  }

  /** The inverse index without the pages that `trie` keeps in the nodes `gone`. */
  ghost function Without(locs: Locations, trie: Trie, gone: set<RadixNode>): Locations {
    map id | id in locs && !(id in trie.locs && trie.locs[id].0 in gone) :: locs[id]
  }

  /** `node` takes over the edge and the children of its child `c`. */
  ghost function Spliced(tree: Tree, node: RadixNode, c: RadixNode): Tree
    requires node in tree && c in tree
  {
    var s, t := tree[node], tree[c];
    map n | n in tree && n != c ::
      if n == node then NodeState(s.edgeKeys + t.edgeKeys, s.blockIds + t.blockIds, s.parent, t.children, t.path)
      else if n in t.children.Values then tree[n].(parent := node)
      else tree[n]
  }

  /** `to` is `from` with each of `ids` moved to `node`, from index `offset` on. */
  ghost predicate ReindexedAt(from: Locations, node: RadixNode, ids: seq<BlockId>, offset: nat, to: Locations) {
    && (forall id :: id in to <==> id in from || id in ids)
    && (forall i: nat | i < |ids| :: to[ids[i]] == (node, offset + i))
    && (forall id | id in from && id !in ids :: to[id] == from[id])
  }

  ghost predicate Reindexed(from: Locations, node: RadixNode, ids: seq<BlockId>, to: Locations) {
    ReindexedAt(from, node, ids, 0, to)
  }
}
