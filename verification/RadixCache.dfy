/** The prefix index itself: a mutable trie updated in place, proved to refine operations on its
    content `view`. */
module RadixCache {
  import opened Wrappers
  import opened PrefixView
  import opened RadixTree

  datatype InsertOutcome = Inserted | LengthMismatch | DuplicateIds

  datatype LeafCandidate = LeafCandidate(lastAccess: nat, blockId: BlockId)
  {
    predicate AtMost(other: LeafCandidate) {
      lastAccess < other.lastAccess || (lastAccess == other.lastAccess && blockId <= other.blockId)
    }
  }

  /** Length of the longest common prefix. */
  method CommonPrefixLength(left: Path, right: Path) returns (n: nat)
    ensures n <= |left| && n <= |right| && left[..n] == right[..n]
    ensures n < |left| && n < |right| ==> left[n] != right[n]
  {
    n := 0;
    while n < |left| && n < |right| && left[n] == right[n]
      invariant n <= |left| && n <= |right| && left[..n] == right[..n]
    {
      n := n + 1;
    }
  }

  // ---------- the walk, on values ----------

  /** `matched` are the pages of the first `|matched|` keys. */
  ghost predicate MatchedSoFar(view: View, keys: Path, matched: seq<BlockId>) {
    |matched| <= |keys| && forall n | 0 < n <= |matched| :: keys[..n] in view && view[keys[..n]] == matched[n-1]
  }

  /** `child` hangs below `node` and `keys`, after `position` keys, follows `common` keys of its edge. */
  ghost predicate Follows(trie: Trie, node: RadixNode, child: RadixNode, keys: Path, position: nat, common: nat) {
    && child in trie.tree && child != trie.root && trie.Linked(child)
    && var s := trie.tree[child];
    && s.parent == node && 0 < common <= |s.edgeKeys| == |s.blockIds| && position + common <= |keys|
    && keys[..position+common] == s.EndPath(common-1)
    && (forall n | position < n <= position + common ::
         keys[..n] in trie.view && trie.view[keys[..n]] == s.blockIds[n - position - 1])
    && (common == |s.edgeKeys| ==> s.path == keys[..position+common])
    && (common < |s.edgeKeys| && position + common < |keys| ==> s.edgeKeys[common] != keys[position+common])
  }

  lemma MatchedNothing(view: View, keys: Path)
    ensures MatchedSoFar(view, keys, []) && keys[..0] == []
  {
  }

  lemma MatchedMore(trie: Trie, node: RadixNode, child: RadixNode, keys: Path, matched: seq<BlockId>, common: nat)
    requires trie.Inv() && node in trie.tree && Follows(trie, node, child, keys, |matched|, common)
    requires MatchedSoFar(trie.view, keys, matched)
    ensures child in trie.tree
    ensures var s, m := trie.tree[child], |matched| + common;
      && 0 < common <= |s.edgeKeys| == |s.blockIds| && m <= |keys|
      && MatchedSoFar(trie.view, keys, matched + s.blockIds[..common])
      && (common < |s.edgeKeys| ==> IsMatch(trie.view, keys, matched + s.blockIds[..common]))
      && (common == |s.edgeKeys| ==> s.path == keys[..m])
  {
    if common < |trie.tree[child].edgeKeys| {
      trie.MissOnEdge(child, keys, |matched| + common, common);
    }
  }

  lemma MatchedAll(trie: Trie, node: RadixNode, keys: Path, matched: seq<BlockId>)
    requires trie.Inv() && node in trie.tree
    requires MatchedSoFar(trie.view, keys, matched) && trie.tree[node].path == keys[..|matched|]
    requires |matched| == |keys| || keys[|matched|] !in trie.tree[node].children
    ensures IsMatch(trie.view, keys, matched)
  {
    if |matched| < |keys| {
      trie.MissAtNode(node, keys, |matched|);
    }
  }

  lemma InsertPresent(trie: Trie, keys: Path, ids: seq<BlockId>)
    requires trie.Inv() && |keys| == |ids| && keys in trie.view
    ensures InsertView(trie.view, keys, ids) == trie.view
  {
    trie.ViewWellFormed();
    forall q | q in Prefixes(keys)
      ensures q in trie.view
    {
      PrefixMember(keys, q);
      PrefixInView(trie.view, keys, |q|);
    }
    assert trie.view.Keys + Prefixes(keys) == trie.view.Keys;
  }

  lemma PresentExtendsNothing(trie: Trie, keys: Path)
    requires keys in trie.view
    ensures !trie.ExtendsLeaf(keys)
  {
  }

  lemma FollowsInside(trie: Trie, node: RadixNode, child: RadixNode, keys: Path, position: nat, common: nat)
    requires trie.Inv() && Follows(trie, node, child, keys, position, common)
    requires common < |trie.tree[child].edgeKeys| && position + common < |keys|
    ensures !trie.ExtendsLeaf(keys) && keys !in trie.view
    ensures Stem(trie.view, keys) == keys[..position+common] && trie.Ending(keys[..position+common]) == {}
  {
    trie.InsideEdge(child, keys, position + common, common);
    trie.StemOnEdge(child, keys, position + common, common);
  }

  class RadixPrefixCache {
    const root: RadixNode
    var blockLocations: Locations
    var clock: nat
    ghost var nodes: set<RadixNode>
    ghost var view: View

    ghost function Shape(): Trie
      reads `blockLocations, `nodes, `view
      reads nodes`edgeKeys, nodes`blockIds, nodes`parent, nodes`children, nodes`path
    {
      Trie(root, map n | n in nodes :: n.State(), blockLocations, view)
    }

    ghost predicate Valid()
      reads `blockLocations, `nodes, `view
      reads nodes`edgeKeys, nodes`blockIds, nodes`parent, nodes`children, nodes`path
    {
      Shape().Inv()
    }

    lemma Fields(n: RadixNode)
      requires n in nodes
      ensures n in Shape().tree && n.State() == Shape().tree[n]
      ensures n.edgeKeys == Shape().tree[n].edgeKeys && n.blockIds == Shape().tree[n].blockIds
      ensures n.parent == Shape().tree[n].parent && n.children == Shape().tree[n].children
      ensures n.path == Shape().tree[n].path
    {
    }

    lemma Parts()
      ensures Shape().root == root && Shape().tree.Keys == nodes
      ensures Shape().locs == blockLocations && Shape().view == view
    {
    }

    constructor ()
      ensures Valid() && fresh(nodes) && view == map[]
    {
      root := new RadixNode([], [], null, []);
      blockLocations, clock := map[], 0;
      view := map[];
      new;
      nodes := {root};
    }

    // ---------- lookup ----------

    method Touch(node: RadixNode)
      modifies `clock, node`lastAccess
      ensures clock == old(clock) + 1 && node.lastAccess == clock
      ensures Shape() == old(Shape())
    {
      clock := clock + 1;
      node.lastAccess := clock;
    }

    /** The child that continues `keys` after `node`, and how much of its edge `keys` follows. */
    method Descend(node: RadixNode, keys: Path, position: nat, ghost trie: Trie)
      returns (child: RadixNode, common: nat)
      requires Valid() && trie == Shape()
      requires node in trie.tree && position < |keys| && trie.tree[node].path == keys[..position]
      requires keys[position] in trie.tree[node].children
      ensures child in trie.tree && Follows(trie, node, child, keys, position, common)
    {
      child := node.children[keys[position]];
      assert trie.ChildOk(node, keys[position]) && trie.Linked(child);
      common := CommonPrefixLength(child.edgeKeys, keys[position..]);
      trie.OnEdge(child, keys, position, common);
    }

    /** The pages of the longest indexed prefix of `keys`. Only recency changes. */
    method Match(keys: Path) returns (matched: seq<BlockId>)
      requires Valid()
      modifies `clock, nodes`lastAccess
      ensures Valid() && IsMatch(view, keys, matched)
    {
      hide Shape, Trie.Inv, Trie.Linked, IsMatch, MatchedSoFar, Follows;
      ghost var trie := Shape();
      Parts();
      trie.RootPath();
      MatchedNothing(trie.view, keys);
      var node := root;
      var position := 0;
      matched := [];
      while position < |keys|
        invariant |matched| == position <= |keys| && MatchedSoFar(trie.view, keys, matched)
        invariant Shape() == trie && node in trie.tree && trie.tree[node].path == keys[..position]
      {
        Fields(node);
        if keys[position] !in node.children {
          break;
        }
        var child, common := Descend(node, keys, position, trie);
        MatchedMore(trie, node, child, keys, matched, common);
        Fields(child);
        matched := matched + child.blockIds[..common];
        Touch(child);
        Fields(child);
        position := position + common;
        if common < |child.edgeKeys| {
          return;
        }
        node := child;
      }
      MatchedAll(trie, node, keys, matched);
    }

    // ---------- insertion ----------

    /** Record that `ids` live in `node` from index `offset` on. */
    method IndexFrom(node: RadixNode, ids: seq<BlockId>, offset: nat)
      requires Distinct(ids)
      modifies `blockLocations
      ensures ReindexedAt(old(blockLocations), node, ids, offset, blockLocations)
      ensures Shape() == old(Shape()).(locs := blockLocations)
    {
      hide ReindexedAt;
      IndexEach(node, ids, offset);
    }

    method IndexEach(node: RadixNode, ids: seq<BlockId>, offset: nat)
      requires Distinct(ids)
      modifies `blockLocations
      ensures ReindexedAt(old(blockLocations), node, ids, offset, blockLocations)
    {
      hide Shape;
      var index := 0;
      while index < |ids|
        invariant index <= |ids|
        invariant ReindexedAt(old(blockLocations), node, ids[..index], offset, blockLocations)
      {
        blockLocations := blockLocations[ids[index] := (node, offset + index)];
        assert ids[..index+1] == ids[..index] + [ids[index]];
        index := index + 1;
      }
      assert ids[..index] == ids;
    }

    method IndexNode(node: RadixNode)
      requires Distinct(node.blockIds)
      modifies `blockLocations
      ensures Reindexed(old(blockLocations), node, node.blockIds, blockLocations)
      ensures Shape() == old(Shape()).(locs := blockLocations)
    {
      IndexFrom(node, node.blockIds, 0);
    }

    method IndexBoth(split: RadixNode, child: RadixNode) returns (ghost mid: Locations)
      requires Distinct(split.blockIds) && Distinct(child.blockIds)
      modifies `blockLocations
      ensures Reindexed(old(blockLocations), split, split.blockIds, mid)
      ensures Reindexed(mid, child, child.blockIds, blockLocations)
      ensures Shape() == old(Shape()).(locs := blockLocations)
    {
      hide ReindexedAt, Shape;
      IndexNode(split);
      mid := blockLocations;
      IndexNode(child);
    }

    ghost method SetView(v: View)
      modifies `view
      ensures view == v && Shape() == old(Shape()).(view := v)
    {
      view := v;
    }

    method AttachChild(node: RadixNode, keys: Path, ids: seq<BlockId>, ghost path: Path) returns (child: RadixNode)
      requires node in nodes && keys != [] && |keys| == |ids|
      modifies `nodes, node`children
      ensures nodes == old(nodes) + {child} && fresh(child) && child.blockIds == ids
      ensures Shape().tree == old(Shape().tree)
        [node := old(Shape().tree[node]).(children := old(node.children)[keys[0] := child])]
        [child := NodeState(keys, ids, node, map[], path)]
    {
      child := new RadixNode(keys, ids, node, path);
      node.children := node.children[child.edgeKeys[0] := child];
      nodes := nodes + {child};
    }

    /** Hang the rest of `keys` below `node`, which represents its first `position` keys. */
    method AddLeaf(node: RadixNode, keys: Path, ids: seq<BlockId>, position: nat)
      requires Valid() && node in nodes && position < |keys| == |ids| && Distinct(ids)
      requires node.path == keys[..position] && keys[position] !in node.children
      requires FreshSuffix(view, keys, ids)
      modifies this, node
      ensures Valid() && fresh(nodes - old(nodes)) && old(nodes) <= nodes
      ensures view == InsertView(old(view), keys, ids)
      ensures Shape().Singles() == if node == root then old(Shape()).Singles()
        else if old(node.children) == map[] then old(Shape()).Singles() + {node} else old(Shape()).Singles() - {node}
    {
      hide InsertView, FreshSuffix, ReindexedAt, Trie.Inv, Trie.Singles, RadixNode.State, Shape;
      ghost var trie := Shape();
      Fields(node);
      Parts();
      SetView(InsertView(view, keys, ids));
      var child := AttachChild(node, keys[position..], ids[position..], keys);
      IndexNode(child);
      Touch(child);
      Parts();
      trie.AddsLeafInv(node, child, keys, ids, position, Shape());
      trie.LeafSingles(node, child, keys, ids, position, Shape());
    }

    /** Leave `child` the rest of its edge, below `split`. */
    method TrimChild(child: RadixNode, split: RadixNode, common: nat)
      requires child in nodes && split in nodes && child != split
      requires 0 < common < |child.edgeKeys| == |child.blockIds| && split.children == map[]
      modifies child`edgeKeys, child`blockIds, child`parent, split`children
      ensures child.blockIds == old(child.blockIds)[common..] && split.children.Keys == {old(child.edgeKeys)[common]}
      ensures var s := old(Shape().tree[child]);
        Shape() == old(Shape()).(tree := old(Shape().tree)
          [child := NodeState(s.edgeKeys[common..], s.blockIds[common..], split, s.children, s.path)]
          [split := old(Shape().tree[split]).(children := map[s.edgeKeys[common] := child])])
    {
      child.edgeKeys := child.edgeKeys[common..];
      child.blockIds := child.blockIds[common..];
      child.parent := split;
      split.children := split.children[child.edgeKeys[0] := child];
    }

    /** Cut `child`'s edge after its first `common` keys. The content does not change. */
    method SplitEdge(child: RadixNode, common: nat) returns (split: RadixNode)
      requires Valid() && child in nodes && child != root && Shape().Linked(child)
      requires 0 < common < |child.edgeKeys|
      modifies this, child, child.parent
      ensures Valid() && nodes == old(nodes) + {split} && fresh(split) && view == old(view)
      ensures split.path == old(Shape().tree[child]).EndPath(common-1)
      ensures split.children.Keys == {old(child.edgeKeys)[common]}
      ensures Shape().Singles() == old(Shape()).Singles() + {split}
    {
      hide Distinct, ReindexedAt, Trie.Inv, Trie.Singles, RadixNode.State, Shape, NodeState.EndPath, Trie.Linked,
        InsertView, Trie.SplitsEdge;
      ghost var trie := Shape();
      Fields(child);
      Parts();
      trie.NodeIdsDistinct(child);
      trie.OwnParent(child);
      var node := child.parent;
      Fields(node);
      split := AttachChild(node, child.edgeKeys[..common], child.blockIds[..common],
        trie.tree[child].EndPath(common-1));
      Fields(split);
      Parts();
      TrimChild(child, split, common);
      Fields(split);
      ghost var mid := IndexBoth(split, child);
      Touch(split);
      Parts();
      trie.SplitsEdgeInv(child, split, common, mid, Shape());
      trie.SplitSingles(child, split, common, mid, Shape());
    }

    /** Index `keys` under `blockIds`. Prefixes already indexed keep their canonical page; only the
        missing ones are added. On any trie this makes a node with a single child exactly of the leaf,
        if there is one, that `keys` extend. */
    method Insert(keys: Path, blockIds: seq<BlockId>) returns (outcome: InsertOutcome)
      requires Valid()
      requires |keys| == |blockIds| ==> FreshSuffix(view, keys, blockIds)
      modifies this, nodes
      ensures Valid() && fresh(nodes - old(nodes)) && old(nodes) <= nodes
      ensures outcome == (if |keys| != |blockIds| then LengthMismatch
                          else if keys == [] || Distinct(blockIds) then Inserted else DuplicateIds)
      ensures view == if outcome == Inserted then InsertView(old(view), keys, blockIds) else old(view)
      ensures Shape().Singles() == if outcome == Inserted then old(Shape()).InsertSingles(keys)
        else old(Shape()).Singles()
      ensures outcome == Inserted && old(Shape()).ExtendsLeaf(keys) ==> !Shape().Compact()
      ensures outcome == Inserted && old(Shape()).Compact() ==> (Shape().Compact() <==> !old(Shape()).ExtendsLeaf(keys))
    {
      if |keys| != |blockIds| {
        return LengthMismatch;
      }
      if keys == [] {
        assert InsertView(view, keys, blockIds) == view;
        return Inserted;
      }
      if !Distinct(blockIds) {
        return DuplicateIds;
      }
      InsertPath(keys, blockIds);
      return Inserted;
    }

    method InsertPath(keys: Path, blockIds: seq<BlockId>)
      requires Valid() && 0 < |keys| == |blockIds| && FreshSuffix(view, keys, blockIds) && Distinct(blockIds)
      modifies this, nodes
      ensures Valid() && fresh(nodes - old(nodes)) && old(nodes) <= nodes
      ensures view == InsertView(old(view), keys, blockIds)
      ensures Shape().Singles() == old(Shape()).InsertSingles(keys)
      ensures old(Shape()).ExtendsLeaf(keys) ==> Shape().Singles() != {}
    {
      hide Shape, Trie.Inv, Trie.Singles, Trie.Ending, Trie.ExtendsLeaf, Follows, InsertView, FreshSuffix,
        RadixNode.State, NodeState.EndPath;
      ghost var trie := Shape();
      Parts();
      trie.RootPath();
      var node := root;
      var position := 0;
      while position < |keys|
        invariant Shape() == trie && view == old(view) && nodes == old(nodes)
        invariant node in trie.tree && position <= |keys| && trie.tree[node].path == keys[..position]
      {
        Fields(node);
        if keys[position] !in node.children {
          trie.LeafExtends(node, keys, position);
          trie.StemAtNode(node, keys, position);
          AddLeaf(node, keys, blockIds, position);
          return;
        }
        var child, common := Descend(node, keys, position, trie);
        Fields(child);
        if common == |child.edgeKeys| {
          Touch(child);
          node := child;
          position := position + common;
          continue;
        }
        if position + common == |keys| {
          Touch(child);
          assert keys[..|keys|] == keys;
          InsertPresent(trie, keys, blockIds);
          PresentExtendsNothing(trie, keys);
          return;
        }
        FollowsInside(trie, node, child, keys, position, common);
        trie.SinglesInside();
        Parts();
        var split := SplitEdge(child, common);
        position := position + common;
        AddLeaf(split, keys, blockIds, position);
        return;
      }
      trie.LastEndPath(node);
      assert keys[..|keys|] == keys;
      InsertPresent(trie, keys, blockIds);
      PresentExtendsNothing(trie, keys);
    }

    // ---------- removal ----------

    /** Splice `child`, the only child of `node`, into `node`. */
    method Splice(node: RadixNode, child: RadixNode)
      requires node in nodes && child in nodes && node != child
      requires child.children.Values <= nodes && child !in child.children.Values && node !in child.children.Values
      modifies `nodes, node`edgeKeys, node`blockIds, node`children, node`path, child.children.Values`parent
      ensures nodes == old(nodes) - {child}
      ensures Shape() == old(Shape()).(tree := Spliced(old(Shape().tree), node, child))
    {
      Fields(child);
      Parts();
      SplicedSteps(Shape().tree, node, child);
      hide Shape, RadixNode.State, Spliced;
      Absorb(node, child);
      Adopt(child.children.Values, node);
      Forget({child});
    }

    method Absorb(node: RadixNode, child: RadixNode)
      requires node in nodes && child in nodes
      modifies node`edgeKeys, node`blockIds, node`children, node`path
      ensures var s, t := old(Shape().tree[node]), old(Shape().tree[child]);
        Shape() == old(Shape()).(tree := old(Shape().tree)[node :=
          NodeState(s.edgeKeys + t.edgeKeys, s.blockIds + t.blockIds, s.parent, t.children, t.path)])
    {
      hide Shape;
      Fields(node);
      Fields(child);
      node.edgeKeys := node.edgeKeys + child.edgeKeys;
      node.blockIds := node.blockIds + child.blockIds;
      node.children := child.children;
      node.path := child.path;
      OnlyNode(node);
    }

    /** Nothing but `node` has changed. */
    twostate lemma OnlyNode(node: RadixNode)
      requires node in nodes && nodes == old(nodes) && view == old(view) && blockLocations == old(blockLocations)
      requires forall n | n in nodes && n != node :: n.State() == old(n.State())
      ensures node in old(Shape()).tree && Shape() == old(Shape()).(tree := old(Shape()).tree[node := node.State()])
    {
    }

    method Adopt(grandchildren: set<RadixNode>, node: RadixNode)
      requires grandchildren <= nodes
      modifies grandchildren`parent
      ensures Shape() == old(Shape()).(tree := map n | n in old(Shape().tree) ::
        if n in grandchildren then old(Shape().tree)[n].(parent := node) else old(Shape().tree)[n])
    {
      forall grandchild | grandchild in grandchildren {
        grandchild.parent := node;
      }
    }

    /** Splice only children into their parents, from `start` up to the root. The content does not
        change; no node left along `start` has a single child, and the others have as many as before. */
    method Compress(start: RadixNode)
      requires Valid() && start in nodes
      modifies this, nodes
      ensures Valid() && nodes <= old(nodes) && view == old(view)
      ensures Shape().Singles() == set n | n in old(Shape()).Singles() && n in nodes && !old(Shape()).Below(n, start)
      ensures forall n | n in old(nodes) && n !in nodes :: old(Shape()).Merges(start, n)
    {
      hide Shape, Trie.Inv, Trie.Singles, Trie.IsSingle, Trie.Climbed, Trie.Merges, RadixNode.State;
      ghost var before := Shape();
      Parts();
      before.ClimbStarts(start);
      var node := start;
      while node != root
        invariant Valid() && node in nodes && nodes <= old(nodes) && view == old(view)
        invariant before.Climbed(start, node, Shape())
        decreases nodes, |node.path|
      {
        Parts();
        Fields(node);
        ghost var trie := Shape();
        Climbing(before, start, node, trie);
        if |node.children| == 1 {
          MergeOnlyChild(node, before, start);
        } else {
          before.ClimbUp(start, node, trie);
          trie.OwnParent(node);
          Shorter(trie, node);
          Fields(node.parent);
          node := node.parent;
        }
      }
      Parts();
      before.ClimbEnds(start, Shape());
    }

    static lemma Shorter(trie: Trie, node: RadixNode)
      requires trie.Inv() && node in trie.tree && node != trie.root
      ensures trie.tree[node].parent != null && trie.tree[node].parent in trie.tree
      ensures |trie.tree[trie.tree[node].parent].path| < |trie.tree[node].path|
    {
      assert trie.Linked(node);
    }

    static lemma Climbing(before: Trie, start: RadixNode, node: RadixNode, trie: Trie)
      requires before.Climbed(start, node, trie)
      ensures node in before.tree && node in trie.tree && trie.root == before.root
        && trie.tree[node].parent == before.tree[node].parent
      ensures trie.IsSingle(node) <==> node != trie.root && |trie.tree[node].children| == 1
    {
    }

    method MergeOnlyChild(node: RadixNode, ghost before: Trie, ghost start: RadixNode)
      requires Valid() && node in nodes && node != root && |node.children| == 1 && before.Climbed(start, node, Shape())
      modifies this, nodes
      ensures Valid() && nodes < old(nodes) && node in nodes && view == old(view)
      ensures before.Climbed(start, node, Shape())
    {
      hide Shape, Trie.Inv, Trie.Climbed, RadixNode.State, ReindexedAt, Spliced, Distinct;
      ghost var trie := Shape();
      Parts();
      Fields(node);
      ghost var k, c := trie.SingleChild(node);
      var key :| key in node.children;
      var child := node.children[key];
      Fields(child);
      trie.NodeIdsDistinct(child);
      trie.OwnParent(node);
      trie.OwnParent(child);
      var offset := |node.blockIds|;
      var moved := child.blockIds;
      Splice(node, child);
      IndexFrom(node, moved, offset);
      Touch(node);
      Parts();
      trie.MergesChildInv(node, child, Shape());
      before.ClimbMerges(start, node, trie, child, Shape());
    }

    /** Forget the pages of every node below `node`, `node` included. */
    method DropSubtree(node: RadixNode, ghost trie: Trie)
      requires trie.Inv() && node in trie.tree
      requires forall m | m in trie.Subtree(node) :: m.State() == trie.tree[m]
      modifies `blockLocations
      ensures blockLocations == Without(old(blockLocations), trie, trie.Subtree(node))
      decreases trie.Subtree(node)
    {
      hide Trie.Inv, Trie.ChildOk, Trie.Linked;
      ghost var gone := DropChildren(node, trie);
      trie.SelfBelow(node);
      PopPages(node.blockIds);
      trie.PopsOwnPages(old(blockLocations), node, gone);
    }

    method PopPages(ids: seq<BlockId>)
      modifies `blockLocations
      ensures blockLocations == old(blockLocations) - (set id | id in ids)
    {
      var index := 0;
      while index < |ids|
        invariant index <= |ids|
        invariant blockLocations == old(blockLocations) - (set id | id in ids[..index])
      {
        blockLocations := blockLocations - {ids[index]};
        assert ids[..index+1] == ids[..index] + [ids[index]];
        index := index + 1;
      }
    }

    method DropChildren(node: RadixNode, ghost trie: Trie) returns (ghost gone: set<RadixNode>)
      requires trie.Inv() && node in trie.tree
      requires forall m | m in trie.Subtree(node) :: m.State() == trie.tree[m]
      modifies `blockLocations
      ensures gone + {node} == trie.Subtree(node) && node !in gone
      ensures blockLocations == Without(old(blockLocations), trie, gone)
      decreases trie.Subtree(node), 0
    {
      hide Trie.Inv, Trie.ChildOk, Trie.Linked, Trie.Subtree;
      trie.SelfBelow(node);
      var todo := node.children.Keys;
      gone := {};
      assert blockLocations == Without(blockLocations, trie, gone) by { }
      while todo != {}
        invariant todo <= node.children.Keys && gone <= trie.Subtree(node) && node !in gone
        invariant forall k | k in node.children && k !in todo ::
          node.children[k] in trie.tree && trie.ChildOk(node, k) && trie.Subtree(node.children[k]) <= gone
        invariant blockLocations == Without(old(blockLocations), trie, gone)
      {
        var k :| k in todo;
        var child := node.children[k];
        trie.ChildBelow(node, k);
        DropSubtree(child, trie);
        gone := gone + trie.Subtree(child);
        todo := todo - {k};
      }
      trie.SubtreeParts(node, gone);
    }

    method Detach(parent: RadixNode, key: BlockKey)
      requires parent in nodes
      modifies parent`children
      ensures Shape() == old(Shape()).(tree := old(Shape().tree)[parent :=
        old(Shape().tree[parent]).(children := old(parent.children) - {key})])
    {
      parent.children := parent.children - {key};
    }

    method TrimTail(node: RadixNode, index: nat, ghost path: Path)
      requires node in nodes && index <= |node.edgeKeys| && index <= |node.blockIds|
      modifies node`edgeKeys, node`blockIds, node`children, node`path
      ensures var s := old(Shape().tree[node]);
        Shape() == old(Shape()).(tree := old(Shape().tree)[node :=
          NodeState(s.edgeKeys[..index], s.blockIds[..index], s.parent, map[], path)])
    {
      hide Shape;
      Fields(node);
      node.edgeKeys := node.edgeKeys[..index];
      node.blockIds := node.blockIds[..index];
      node.children := map[];
      node.path := path;
      OnlyNode(node);
    }

    ghost method Forget(gone: set<RadixNode>)
      modifies `nodes
      ensures nodes == old(nodes) - gone && Shape() == old(Shape()).(tree := old(Shape().tree) - gone)
    {
      nodes := nodes - gone;
    }

    lemma AllStates()
      ensures forall m | m in nodes :: m in Shape().tree && m.State() == Shape().tree[m]
    {
    }

    /** Cut off `node` with everything below it. */
    method PruneHead(node: RadixNode)
      requires Valid() && node in nodes && node != root && 0 < |node.blockIds| == |node.edgeKeys|
      requires Shape().Linked(node) && !Shape().Below(node, Shape().tree[node].parent)
      modifies this, node.parent`children
      ensures old(Shape()).Prunes(node, 0, Shape()) && nodes <= old(nodes)
    {
      ghost var trie := Shape();
      Fields(node);
      var parent := node.parent;
      Detach(parent, node.edgeKeys[0]);
      DropDetached(node, parent, trie);
      ghost var gone := trie.Subtree(node);
      hide Shape, Trie.Inv, Trie.KeptPages, Trie.Prunes, Trie.Subtree, Without, RemoveView, RadixNode.State,
        NodeState.EndPath;
      SetView(RemoveView(view, trie.tree[node].EndPath(0)));
      Forget(gone);
      trie.MakesPrune(node, 0, gone, Shape());
    }

    method DropDetached(node: RadixNode, parent: RadixNode, ghost trie: Trie)
      requires trie.Inv() && node in trie.tree && parent in trie.tree && parent !in trie.Subtree(node)
      requires nodes == trie.tree.Keys && blockLocations == trie.locs
      requires forall n | n in trie.tree && n != parent :: Shape().tree[n] == trie.tree[n]
      modifies `blockLocations
      ensures Shape() == old(Shape()).(locs := trie.KeptPages(node, 0))
    {
      hide Trie.Inv, Trie.Below, Trie.KeptPages, Without, RadixNode.State;
      trie.SelfBelow(node);
      AllStates();
      DropSubtree(node, trie);
      trie.HeadDrops(node);
    }

    /** Cut `node`'s edge before its `index`-th key, with everything below it. */
    method PruneTail(node: RadixNode, index: nat)
      requires Valid() && node in nodes && node != root && 0 < index < |node.blockIds| == |node.edgeKeys|
      requires Shape().Linked(node) && !Shape().Below(node, Shape().tree[node].parent)
      modifies this, node
      ensures old(Shape()).Prunes(node, index, Shape()) && nodes <= old(nodes)
    {
      ghost var trie := Shape();
      ghost var gone := DropTail(node, index, trie);
      hide Shape, Trie.Inv, Trie.KeptPages, Trie.Prunes, Trie.Subtree, Without, RemoveView, RadixNode.State,
        NodeState.EndPath;
      Parts();
      TrimTail(node, index, trie.tree[node].EndPath(index-1));
      SetView(RemoveView(view, trie.tree[node].EndPath(index)));
      Forget(gone);
      trie.MakesPrune(node, index, gone, Shape());
    }

    method DropTail(node: RadixNode, index: nat, ghost trie: Trie) returns (ghost gone: set<RadixNode>)
      requires Valid() && trie == Shape() && node in nodes && index <= |node.blockIds|
      modifies `blockLocations
      ensures gone + {node} == trie.Subtree(node) && node !in gone
      ensures Shape() == trie.(locs := trie.KeptPages(node, index))
    {
      hide Trie.Inv, Trie.KeptPages, Without, RadixNode.State;
      AllStates();
      Fields(node);
      trie.SelfBelow(node);
      gone := DropChildren(node, trie);
      PopPages(node.blockIds[index..]);
      trie.PruneDrops(node, index, gone);
    }

    /** Invalidate page `blockId`: exactly the prefixes that extend its prefix disappear. No node left
        along that prefix has a single child, and the others have as many children as before. */
    method RemoveBlock(blockId: BlockId) returns (removed: bool)
      requires Valid()
      modifies this, nodes
      ensures Valid() && nodes <= old(nodes)
      ensures removed <==> blockId in old(view).Values
      ensures view == if removed then RemoveView(old(view), PathOf(old(view), blockId)) else old(view)
      ensures Shape().Singles() == if removed then old(Shape()).RemoveSingles(PathOf(old(view), blockId), nodes)
        else old(Shape()).Singles()
      ensures forall n | n in old(nodes) && n !in nodes :: removed && old(Shape()).Drops(PathOf(old(view), blockId), n)
    {
      hide Shape, Trie.Inv, Trie.Singles, Trie.RemoveSingles, Trie.Prunes, Trie.Merges, Trie.Drops, RemoveView, PathOf,
        RadixNode.State;
      ghost var trie := Shape();
      Parts();
      trie.ViewWellFormed();
      if blockId !in blockLocations {
        return false;
      }
      var (node, index) := blockLocations[blockId];
      trie.PageAt(blockId);
      Fields(node);
      var parent := node.parent;
      if index == 0 {
        PruneHead(node);
      } else {
        PruneTail(node, index);
      }
      Parts();
      trie.Pruned(node, index, Shape());
      ghost var pruned := Shape();
      Compress(parent);
      Parts();
      trie.PrunedSingles(node, index, pruned, nodes);
      forall n | n in old(nodes) && n !in nodes
        ensures trie.Drops(trie.tree[node].EndPath(index), n)
      {
        trie.PrunedDrops(node, index, pruned, n);
      }
      return true;
    }

    // ---------- eviction order ----------

    /** `candidates` lists, with their recency, the evictable pages of the nodes `visited`. */
    ghost predicate Lists(trie: Trie, visited: set<RadixNode>, eligible: set<BlockId>, candidates: set<LeafCandidate>)
      requires visited <= trie.tree.Keys
      reads visited`lastAccess
    {
      && (forall c | c in candidates ::
           exists n | n in visited :: n.lastAccess == c.lastAccess && trie.LeafPage(n, eligible, c.blockId))
      && (forall n, id | n in visited && trie.LeafPage(n, eligible, id) ::
           LeafCandidate(n.lastAccess, id) in candidates)
    }

    method Visit(node: RadixNode, eligible: set<BlockId>, ghost trie: Trie) returns (candidates: set<LeafCandidate>)
      requires trie.Inv() && node in trie.tree && node != trie.root
      requires forall m | m in trie.Subtree(node) :: m.State() == trie.tree[m]
      ensures trie.Subtree(node) <= trie.tree.Keys && Lists(trie, trie.Subtree(node), eligible, candidates)
      decreases trie.Subtree(node)
    {
      hide Trie.Inv, Trie.ChildOk;
      trie.SelfBelow(node);
      if node.children == map[] {
        trie.SubtreeParts(node, {});
        candidates := VisitLeaf(node, eligible, trie);
        return;
      }
      ghost var visited;
      candidates, visited := VisitChildren(node, eligible, trie);
    }

    method VisitLeaf(node: RadixNode, eligible: set<BlockId>, ghost trie: Trie) returns (candidates: set<LeafCandidate>)
      requires node in trie.tree && node != trie.root && node.State() == trie.tree[node] && node.children == map[]
      ensures Lists(trie, {node}, eligible, candidates)
    {
      var index := |node.blockIds|;
      while index > 0
        invariant 0 <= index <= |node.blockIds|
        invariant forall j | index <= j < |node.blockIds| :: node.blockIds[j] !in eligible
      {
        index := index - 1;
        if node.blockIds[index] in eligible {
          candidates := {LeafCandidate(node.lastAccess, node.blockIds[index])};
          assert trie.LeafPage(node, eligible, node.blockIds[index]);
          return;
        }
      }
      candidates := {};
    }

    method VisitChildren(node: RadixNode, eligible: set<BlockId>, ghost trie: Trie)
      returns (candidates: set<LeafCandidate>, ghost visited: set<RadixNode>)
      requires trie.Inv() && node in trie.tree
      requires forall m | m in trie.Subtree(node) :: m.State() == trie.tree[m]
      ensures visited + {node} == trie.Subtree(node) <= trie.tree.Keys && node !in visited
      ensures Lists(trie, visited, eligible, candidates)
      ensures node.children != map[] ==> Lists(trie, trie.Subtree(node), eligible, candidates)
      decreases trie.Subtree(node), 0
    {
      hide Trie.Inv, Trie.ChildOk, Trie.Linked, Trie.Subtree, Trie.LeafPage, Lists;
      trie.SelfBelow(node);
      var todo := node.children.Keys;
      candidates, visited := {}, {};
      NothingListed(trie, eligible);
      while todo != {}
        invariant todo <= node.children.Keys && visited <= trie.Subtree(node) && node !in visited
        invariant forall k | k in node.children && k !in todo ::
          node.children[k] in trie.tree && trie.ChildOk(node, k) && trie.Subtree(node.children[k]) <= visited
        invariant Lists(trie, visited, eligible, candidates)
      {
        var k :| k in todo;
        var child := node.children[k];
        trie.ChildBelow(node, k);
        trie.ChildNotRoot(node, k);
        var more := Visit(child, eligible, trie);
        ListedTogether(trie, visited, trie.Subtree(child), eligible, candidates, more);
        candidates := candidates + more;
        visited := visited + trie.Subtree(child);
        todo := todo - {k};
      }
      trie.SubtreeParts(node, visited);
      if node.children != map[] {
        InnerListsNothing(trie, visited, node, eligible, candidates);
      }
    }

    lemma NothingListed(trie: Trie, eligible: set<BlockId>)
      ensures Lists(trie, {}, eligible, {})
    {
    }

    lemma ListedTogether(trie: Trie, a: set<RadixNode>, b: set<RadixNode>, eligible: set<BlockId>,
        c: set<LeafCandidate>, d: set<LeafCandidate>)
      requires a <= trie.tree.Keys && b <= trie.tree.Keys
      requires Lists(trie, a, eligible, c) && Lists(trie, b, eligible, d)
      ensures Lists(trie, a + b, eligible, c + d)
    {
      hide Trie.LeafPage;
      forall x | x in c + d
        ensures exists n | n in a + b :: n.lastAccess == x.lastAccess && trie.LeafPage(n, eligible, x.blockId)
      {
        var n :|
          n in (if x in c then a else b) && n.lastAccess == x.lastAccess && trie.LeafPage(n, eligible, x.blockId);
      }
    }

    /** A node with children has no evictable page. */
    lemma InnerListsNothing(trie: Trie, a: set<RadixNode>, node: RadixNode, eligible: set<BlockId>,
        c: set<LeafCandidate>)
      requires a <= trie.tree.Keys && node in trie.tree && trie.tree[node].children != map[]
      requires Lists(trie, a, eligible, c)
      ensures Lists(trie, a + {node}, eligible, c)
    {
      assert forall id :: !trie.LeafPage(node, eligible, id);
      forall x | x in c
        ensures exists n | n in a + {node} :: n.lastAccess == x.lastAccess && trie.LeafPage(n, eligible, x.blockId)
      {
        var n :| n in a && n.lastAccess == x.lastAccess && trie.LeafPage(n, eligible, x.blockId);
      }
    }

    /** The page to evict: among the last eligible pages of all leaves, one of the leaf used least
        recently, the smallest page id breaking ties. */
    method LruLeafBlock(eligible: set<BlockId>) returns (best: Option<BlockId>)
      requires Valid()
      ensures best.None? ==> forall n, id | n in nodes :: !Shape().LeafPage(n, eligible, id)
      ensures best.Some? ==> exists n | n in nodes ::
        && Shape().LeafPage(n, eligible, best.value)
        && forall m, id | m in nodes && Shape().LeafPage(m, eligible, id) ::
             LeafCandidate(n.lastAccess, best.value).AtMost(LeafCandidate(m.lastAccess, id))
    {
      hide Shape, Trie.Inv, RadixNode.State, Trie.Subtree;
      ghost var trie := Shape();
      AllStates();
      Parts();
      trie.RootPath();
      trie.AllBelowRoot();
      var candidates, visited := VisitChildren(root, eligible, trie);
      if candidates == {} {
        return None;
      }
      var least := Least(candidates);
      return Some(least.blockId);
    }

    static method Least(candidates: set<LeafCandidate>) returns (least: LeafCandidate)
      requires candidates != {}
      ensures least in candidates && forall c | c in candidates :: least.AtMost(c)
    {
      least :| least in candidates;
      var todo := candidates - {least};
      while todo != {}
        invariant todo <= candidates && least in candidates
        invariant forall c | c in candidates - todo :: least.AtMost(c)
      {
        var c :| c in todo;
        todo := todo - {c};
        if !least.AtMost(c) {
          assert forall d | d in candidates - todo :: d == c || (least.AtMost(d) && c.AtMost(least));
          least := c;
        }
      }
    }
  }

  // ---------- where `validate` fails ----------

  /** The smallest case: indexing a prefix and then a longer one leaves a node with a single child. */
  method ExtendLeaf(a: BlockKey, b: BlockKey) returns (cache: RadixPrefixCache)
    ensures fresh(cache) && fresh(cache.nodes) && cache.Valid() && cache.view == map[[a] := 0, [a, b] := 1]
    ensures !cache.Shape().Compact()
  {
    hide InsertView, FreshSuffix, Trie.Inv, RadixPrefixCache.Shape, Trie.ExtendsLeaf, Trie.Singles, Trie.InsertSingles,
      WellFormed;
    cache := new RadixPrefixCache();
    FreshOne(map[], a, 0);
    var first := cache.Insert([a], [0]);
    IndexedOne(map[], a, 0);
    cache.Parts();
    ExtendsOne(cache.Shape(), a, b);
    FreshTwo(a, b);
    var second := cache.Insert([a, b], [0, 1]);
    IndexedTwo(cache.view, a, b);
  }

  lemma ExtendsOne(trie: Trie, a: BlockKey, b: BlockKey)
    requires trie.view == map[[a] := 0]
    ensures trie.ExtendsLeaf([a, b])
  {
    assert [a, b][..1] == [a] && trie.Maximal([a]);
  }

  lemma FreshOne(view: View, a: BlockKey, id: BlockId)
    requires id !in view.Values
    ensures FreshSuffix(view, [a], [id])
  {
  }

  lemma FreshTwo(a: BlockKey, b: BlockKey)
    ensures FreshSuffix(map[[a] := 0], [a, b], [0, 1])
  {
    assert [a, b][..1] == [a];
  }

  lemma IndexedOne(view: View, a: BlockKey, id: BlockId)
    requires [a] !in view
    ensures InsertView(view, [a], [id]) == view[[a] := id]
  {
    forall p
      ensures p in Prefixes([a]) <==> p == [a]
    {
      PrefixMember([a], p);
      assert p != [] && p <= [a] ==> p[0] == a;
    }
  }

  lemma IndexedTwo(view: View, a: BlockKey, b: BlockKey)
    requires view == InsertView(map[[a] := 0], [a, b], [0, 1])
    ensures view == map[[a] := 0, [a, b] := 1]
  {
    forall p
      ensures p in Prefixes([a, b]) <==> p == [a] || p == [a, b]
    {
      PrefixMember([a, b], p);
      assert p != [] && p <= [a, b] ==> p == [a] || p == [a, b];
    }
  }

  /** Removing a page elsewhere does not repair it. */
  method RemoveElsewhere(a: BlockKey, b: BlockKey, c: BlockKey) returns (cache: RadixPrefixCache)
    requires a != c
    ensures fresh(cache) && cache.Valid() && cache.view == map[[a] := 0, [a, b] := 1]
    ensures !cache.Shape().Compact()
  {
    hide InsertView, RemoveView, FreshSuffix, Trie.Inv, RadixPrefixCache.Shape, Trie.ExtendsLeaf, Trie.Singles,
      Trie.InsertSingles, Trie.RemoveSingles, Trie.Drops, WellFormed, PathOf;
    cache := ExtendLeaf(a, b);
    ghost var before := cache.Shape();
    cache.Parts();
    TwoPages(before.view, a, b);
    FreshOne(before.view, c, 2);
    var third := cache.Insert([c], [2]);
    IndexedOne(before.view, c, 2);
    ghost var full := cache.Shape();
    cache.Parts();
    StaysSingle(before, full, a, b, c);
    PageOfLast(full.view, c);
    var removed := cache.RemoveBlock(2);
    cache.Parts();
    SurvivesRemoval(full, cache.Shape(), a, b, c);
    RemovedOne(before.view, a, b, c);
  }

  lemma RemovedOne(view: View, a: BlockKey, b: BlockKey, c: BlockKey)
    requires view == map[[a] := 0, [a, b] := 1] && a != c
    ensures RemoveView(view[[c] := 2], [c]) == view
  {
    forall p | p in view
      ensures !([c] <= p)
    {
      assert p[0] == a;
    }
  }

  lemma TwoPages(view: View, a: BlockKey, b: BlockKey)
    requires view == map[[a] := 0, [a, b] := 1]
    ensures forall id | id in view.Values :: id < 2
  {
    assert forall p | p in view :: view[p] < 2;
  }

  lemma PageOfLast(view: View, c: BlockKey)
    requires [c] in view && view[[c]] == 2 && forall p | p in view :: view[p] == 2 ==> p == [c]
    ensures 2 in view.Values && PathOf(view, 2) == [c]
  {
  }

  lemma StaysSingle(before: Trie, full: Trie, a: BlockKey, b: BlockKey, c: BlockKey)
    requires before.Inv() && before.view == map[[a] := 0, [a, b] := 1] && !before.Compact() && a != c
    requires full.Singles() == before.InsertSingles([c])
    ensures !full.Compact()
  {
    NothingEndsAtRoot(before);
    assert Stem(before.view, [c]) == [];
  }

  lemma SurvivesRemoval(full: Trie, left: Trie, a: BlockKey, b: BlockKey, c: BlockKey)
    requires full.Inv() && full.view == map[[a] := 0, [a, b] := 1][[c] := 2] && !full.Compact() && a != c
    requires left.Singles() == full.RemoveSingles([c], left.tree.Keys)
    requires forall n | n in full.tree && n !in left.tree :: full.Drops([c], n)
    ensures !left.Compact()
  {
    var n :| n in full.Singles();
    SingleAbove(full, a, b, c, n);
    NothingEndsAtRoot(full);
    forall p | p in full.tree && p != full.root && full.tree[p].path <= [c]
      ensures !full.Below(p, n)
    {
      assert p !in full.Ending([]);
      assert full.tree[p].path[0] == [c][0] == c && full.tree[n].path[0] == a;
    }
    assert !([c] <= full.tree[n].path) && !(full.tree[n].path <= [c]) by {
      assert [c][0] != [a][0];
    }
    assert n in left.Singles();
  }

  lemma NothingEndsAtRoot(trie: Trie)
    requires trie.Inv()
    ensures trie.Ending([]) == {}
  {
    forall n | n in trie.tree && n != trie.root
      ensures trie.tree[n].path != []
    {
      trie.LastEndPath(n);
    }
  }

  lemma SingleAbove(trie: Trie, a: BlockKey, b: BlockKey, c: BlockKey, n: RadixNode)
    requires trie.Inv() && n in trie.Singles() && trie.view == map[[a] := 0, [a, b] := 1][[c] := 2]
    requires a != c
    ensures n in trie.tree && trie.tree[n].path == [a]
  {
    trie.LastEndPath(n);
    assert trie.tree[n].children.Keys != {};
    var k :| k in trie.tree[n].children;
    trie.ChildExtends(n, k);
  }
}
