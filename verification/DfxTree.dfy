/** The diagnostic tree on the heap. */
module DfxTree {
  import opened DfxShape
  import opened DfxEdits

  class DfxTreeNode {
    var nodeInfo: NodeInfo
    var children: seq<DfxTreeNode>

    constructor (info: NodeInfo)
      ensures nodeInfo == info && children == []
    {
      nodeInfo, children := info, [];
    }
  }

  ghost function Cells(nodes: set<DfxTreeNode>): map<DfxTreeNode, Cell<DfxTreeNode>>
    reads nodes
  {
    map n | n in nodes :: Cell(n.nodeInfo, n.children)
  }

  lemma CellIs(nodes: set<DfxTreeNode>, n: DfxTreeNode)
    requires n in Cells(nodes)
    ensures Cells(nodes)[n] == Cell(n.nodeInfo, n.children)
  {
  }

  /** Push the children of a node on a queue. */
  method PushChildren(q: seq<DfxTreeNode>, node: DfxTreeNode) returns (r: seq<DfxTreeNode>)
    ensures r == q + node.children
  {
    r := q;
    for i := 0 to |node.children|
      invariant r == q + node.children[..i]
    {
      r := r + [node.children[i]];
    }
  }

  /** Push the children of a node on a queue up to the first that has an id. */
  method PushUntil(q: seq<DfxTreeNode>, node: DfxTreeNode, nodeId: nat, ghost kids: Forest<DfxTreeNode>)
    returns (hit: bool, r: seq<DfxTreeNode>)
    requires node.children == Roots(kids)
    requires forall i :: 0 <= i < |kids| ==> node.children[i].nodeInfo == kids[i].info
    ensures hit <==> FirstWithId(kids, nodeId) < |kids|
    ensures !hit ==> r == q + node.children
  {
    r := q;
    for i := 0 to |node.children|
      invariant r == q + node.children[..i]
      invariant forall k :: 0 <= k < i ==> kids[k].info.nodeId != nodeId
    {
      if node.children[i].nodeInfo.nodeId == nodeId {
        return true, r;
      }
      r := r + [node.children[i]];
    }
    return false, r;
  }

  lemma KidLabels(kids: Forest<DfxTreeNode>, cells: map<DfxTreeNode, Cell<DfxTreeNode>>, nodes: set<DfxTreeNode>)
    requires Matches(kids, cells) && cells == Cells(nodes)
    ensures forall i :: 0 <= i < |kids| ==> kids[i].node.nodeInfo == kids[i].info
  {
    forall i | 0 <= i < |kids| ensures kids[i].node.nodeInfo == kids[i].info {
      CellOf(kids, cells, i);
    }
  }

  /** Position of a node among children. */
  method IndexOfChild(children: seq<DfxTreeNode>, node: DfxTreeNode) returns (c: nat)
    ensures c <= |children| && (c < |children| ==> children[c] == node)
    ensures c == |children| ==> node !in children
  {
    c := 0;
    while c < |children| && children[c] != node
      invariant c <= |children| && node !in children[..c]
    {
      c := c + 1;
    }
  }

  /** The nodes of a forest hold it. */
  ghost predicate Holds(f: Forest<DfxTreeNode>, nodes: set<DfxTreeNode>)
    reads nodes
  {
    nodes == NodeSet(f) && Separated(f) && Matches(f, Cells(nodes))
  }

  lemma PruneAll(f: Forest<DfxTreeNode>)
    requires |f| == 1
    ensures Prune(f, f[0].node) == [] && Holds([], {})
  {
  }

  /** The node the id search finds has the id. */
  lemma LabelFound(f: Forest<DfxTreeNode>, nodes: set<DfxTreeNode>, id: nat)
    requires Holds(f, nodes) && FirstWithId(Bfs(f), id) < |Bfs(f)|
    ensures Bfs(f)[FirstWithId(Bfs(f), id)].node.nodeInfo.nodeId == id
  {
    WalkCell(f, Cells(nodes), FirstWithId(Bfs(f), id));
  }

  /** The node the parent search finds has the found node among its children. */
  lemma ParentFound(f: Forest<DfxTreeNode>, nodes: set<DfxTreeNode>, id: nat)
    requires Holds(f, nodes) && |f| == 1
    requires FirstWithId(Bfs(f), id) < |Bfs(f)| && Bfs(f)[FirstWithId(Bfs(f), id)].node != f[0].node
    ensures var walk := Bfs(f);
            var p := FirstWithKid(walk, id);
            && p < |walk| && walk[p].node in nodes
            && walk[FirstWithId(walk, id)].node in walk[p].node.children
  {
    RealParent(f, Cells(nodes), id);
  }

  lemma CellsAre(nodes: set<DfxTreeNode>)
    ensures Cells(nodes).Keys == nodes
    ensures forall n :: n in nodes ==> Cells(nodes)[n] == Cell(n.nodeInfo, n.children)
  {
  }

  /** After the child is erased, the heap holds the pruned forest. */
  lemma Erased(f: Forest<DfxTreeNode>, nodes: set<DfxTreeNode>, cells: map<DfxTreeNode, Cell<DfxTreeNode>>,
               parent: DfxTreeNode, c: nat)
    requires nodes == NodeSet(f) == cells.Keys && Separated(f) && Matches(f, cells)
    requires parent in nodes && c < |cells[parent].children| && parent.nodeInfo == cells[parent].info
    requires parent.children == cells[parent].children[..c] + cells[parent].children[c + 1..]
    requires forall n :: n in nodes && n != parent ==> cells[n] == Cell(n.nodeInfo, n.children)
    ensures var f' := Prune(f, cells[parent].children[c]);
            NodeSet(f') <= nodes && Holds(f', NodeSet(f')) && Roots(f') == Roots(f)
  {
    var n := cells[parent].children[c];
    EraseChild(f, cells, parent, c);
    PruneExact(f, n);
    MatchesAgree(Prune(f, n), cells[parent := Cell(parent.nodeInfo, parent.children)], Cells(NodeSet(Prune(f, n))));
  }

  /** find_if over the children. */
  method HasChildWithId(node: DfxTreeNode, nodeId: nat, ghost kids: Forest<DfxTreeNode>) returns (present: bool)
    requires node.children == Roots(kids)
    requires forall i :: 0 <= i < |kids| ==> node.children[i].nodeInfo == kids[i].info
    ensures present <==> nodeId in Ids(kids)
  {
    for i := 0 to |node.children|
      invariant nodeId !in Ids(kids)[..i]
    {
      assert Ids(kids)[i] == kids[i].info.nodeId;
      if node.children[i].nodeInfo.nodeId == nodeId {
        return true;
      }
    }
    return false;
  }

  lemma NothingToFind(id: nat)
    ensures var none: Forest<DfxTreeNode> := []; FirstWithId(Bfs(none), id) == |Bfs(none)|
  {
  }

  /** What is stored at the node the id search finds, and at its children. */
  lemma FoundCell(f: Forest<DfxTreeNode>, nodes: set<DfxTreeNode>, id: nat)
    requires Holds(f, nodes) && FirstWithId(Bfs(f), id) < |Bfs(f)|
    ensures var t := Bfs(f)[FirstWithId(Bfs(f), id)];
            && t.node in nodes && t.node.children == Roots(t.kids) && Subtree(f, t.node) == [t]
            && (forall i :: 0 <= i < |t.kids| ==> t.node.children[i].nodeInfo == t.kids[i].info)
  {
    var k := FirstWithId(Bfs(f), id);
    var t := Bfs(f)[k];
    WalkMeetsSubtrees(f, k);
    WalkCell(f, Cells(nodes), k);
    WalkKids(f, Cells(nodes), k);
    KidLabels(t.kids, Cells(nodes), nodes);
  }

  lemma GraftSiblings(f: Forest<DfxTreeNode>, t: Shape<DfxTreeNode>, n: DfxTreeNode, info: NodeInfo)
    requires Subtree(f, t.node) == [t] && info.nodeId !in Ids(t.kids)
    ensures SiblingsDistinct(f) ==> SiblingsDistinct(Graft(f, t.node, Shape(n, info, [])))
  {
    if SiblingsDistinct(f) {
      GraftKeepsIds(f, t.node, Shape(n, info, []));
    }
  }

  lemma LeafHeld(n: DfxTreeNode, info: NodeInfo)
    requires n.nodeInfo == info && n.children == []
    ensures Holds([Shape(n, info, [])], {n}) && SiblingsDistinct([Shape(n, info, [])])
  {
  }

  /** After the child is appended, the heap holds the larger forest. */
  lemma Appended(f: Forest<DfxTreeNode>, nodes: set<DfxTreeNode>, cells: map<DfxTreeNode, Cell<DfxTreeNode>>,
                 parent: DfxTreeNode, n: DfxTreeNode, info: NodeInfo)
    requires nodes == NodeSet(f) == cells.Keys && Separated(f) && Matches(f, cells)
    requires parent in nodes && parent.nodeInfo == cells[parent].info
    requires n !in nodes && n.nodeInfo == info && n.children == []
    requires parent.children == cells[parent].children + [n]
    requires forall m :: m in nodes && m != parent ==> cells[m] == Cell(m.nodeInfo, m.children)
    ensures var f' := Graft(f, parent, Shape(n, info, []));
            Holds(f', nodes + {n}) && Roots(f') == Roots(f)
  {
    var cells1 := cells[n := Cell(info, [])];
    MatchesElsewhere(f, cells, n, Cell(info, []));
    AppendChild(f, cells1, parent, n, info);
    GraftExact(f, parent, n, info);
    MatchesAgree(Graft(f, parent, Shape(n, info, [])), cells1[parent := Cell(parent.nodeInfo, parent.children)],
                 Cells(nodes + {n}));
  }

  /** After a node is relabelled, the heap holds the relabelled forest. */
  lemma Relabelled(f: Forest<DfxTreeNode>, nodes: set<DfxTreeNode>, cells: map<DfxTreeNode, Cell<DfxTreeNode>>,
                   n: DfxTreeNode, info: NodeInfo)
    requires nodes == NodeSet(f) == cells.Keys && Separated(f) && Matches(f, cells)
    requires n in nodes && n.nodeInfo == info && n.children == cells[n].children
    requires forall m :: m in nodes && m != n ==> cells[m] == Cell(m.nodeInfo, m.children)
    ensures var f' := Relabel(f, n, info);
            Holds(f', nodes) && Roots(f') == Roots(f)
  {
    RelabelCell(f, cells, n, info);
    MatchesAgree(Relabel(f, n, info), cells[n := Cell(info, n.children)], Cells(nodes));
  }

  class HpaeDfxTree {
    var root: DfxTreeNode?
    ghost var shape: Forest<DfxTreeNode>
    ghost var nodes: set<DfxTreeNode>

    ghost predicate Valid()
      reads this, nodes
    {
      && (root == null ==> shape == [])
      && (root != null ==> |shape| == 1 && shape[0].node == root)
      && Holds(shape, nodes)
    }

    constructor ()
      ensures Valid() && shape == [] && nodes == {}
    {
      root, shape, nodes := null, [], {};
    }

    /** Breadth-first search, testing nodes as they leave the queue. */
    static method FindDfxNode(currentNode: DfxTreeNode?, nodeId: nat,
                              ghost f: Forest<DfxTreeNode>, ghost nodes: set<DfxTreeNode>)
      returns (found: DfxTreeNode?)
      requires Holds(f, nodes) && Roots(f) == if currentNode == null then [] else [currentNode]
      ensures var walk := Bfs(f);
              found == if FirstWithId(walk, nodeId) < |walk| then walk[FirstWithId(walk, nodeId)].node else null
    {
      if currentNode == null {
        return null;
      }
      var q: seq<DfxTreeNode> := [currentNode];
      ghost var queue: Forest<DfxTreeNode>, visited: Forest<DfxTreeNode> := f, [];
      ghost var cells := Cells(nodes);
      hide Matches, Separated, Bfs, Size, FirstWithId, Walking, NodeSet, Cells;
      StartWalk(f, cells);
      while q != []
        invariant cells == Cells(nodes)
        invariant q == Roots(queue) && Walking(f, visited, queue, cells)
        invariant FirstWithId(visited, nodeId) == |visited|
        decreases Size(queue)
      {
        var node := q[0];
        q := q[1..];
        Visit(f, visited, queue, cells);
        CellIs(nodes, node);
        ghost var t := queue[0];
        FirstOfAppend(visited, [t], nodeId);
        if node.nodeInfo.nodeId == nodeId {
          FirstOfPrefix(Bfs(f), nodeId, |visited|);
          return node;
        }
        q := PushChildren(q, node);
        visited := visited + [t];
        queue := queue[1..] + t.kids;
      }
      EndWalk(f, visited, cells);
      return null;
    }

    /** Breadth-first search for a parent, testing children as they enter the queue. */
    method FindDfxParent(target: DfxTreeNode) returns (parent: DfxTreeNode?)
      requires Valid()
      ensures var walk, id := Bfs(shape), target.nodeInfo.nodeId;
              parent == if root != target && FirstWithKid(walk, id) < |walk| then walk[FirstWithKid(walk, id)].node
                        else null
    {
      if root == null || target == root {
        return null;
      }
      var q: seq<DfxTreeNode> := [root];
      ghost var queue: Forest<DfxTreeNode>, visited: Forest<DfxTreeNode> := shape, [];
      ghost var f, nodes := shape, nodes;
      ghost var cells := Cells(nodes);
      var id := target.nodeInfo.nodeId;
      hide Matches, Separated, Bfs, Size, FirstWithId, FirstWithKid, Walking, NodeSet, Cells;
      StartWalk(f, cells);
      while q != []
        invariant cells == Cells(nodes)
        invariant q == Roots(queue) && Walking(f, visited, queue, cells)
        invariant forall k :: 0 <= k < |visited| ==> !HasKid(visited[k], id)
        decreases Size(queue)
      {
        var node := q[0];
        q := q[1..];
        Visit(f, visited, queue, cells);
        CellIs(nodes, node);
        ghost var t := queue[0];
        KidLabels(t.kids, cells, nodes);
        var hit: bool;
        hit, q := PushUntil(q, node, id, t.kids);
        if hit {
          FirstKidAt(Bfs(f), id, |visited|);
          return node;
        }
        visited := visited + [t];
        queue := queue[1..] + t.kids;
      }
      EndWalk(f, visited, cells);
      return null;
    }

    /** One list of labels per level. */
    method LevelOrderTraversal() returns (result: seq<seq<NodeInfo>>)
      requires Valid()
      ensures result == LevelLabels(Levels(shape))
    {
      result := [];
      if root == null {
        return;
      }
      var q: seq<DfxTreeNode> := [root];
      ghost var level: Forest<DfxTreeNode> := shape;
      ghost var done: seq<Forest<DfxTreeNode>>, cells := [], Cells(nodes);
      assert [] + Levels(shape) == Levels(shape);
      hide Matches, Separated, Size, NodeSet, Kids, Levels, LevelLabels, Cells;
      while q != []
        invariant cells == Cells(nodes)
        invariant q == Roots(level) && Matches(level, cells)
        invariant Levels(shape) == done + Levels(level)
        invariant result == LevelLabels(done)
        decreases Size(level)
      {
        var levelSize := |q|;
        var curLevelResult: seq<NodeInfo> := [];
        assert level[0..] + Kids(level[..0]) == level by {
          NoKids(level[..0]);
        }
        for i := 0 to levelSize
          invariant |level| == levelSize && q == Roots(level[i..] + Kids(level[..i]))
          invariant curLevelResult == Labels(level[..i])
        {
          StepInLevel(level, cells, i);
          var node := q[0];
          q := q[1..];
          CellIs(nodes, node);
          curLevelResult := curLevelResult + [node.nodeInfo];
          q := PushChildren(q, node);
        }
        assert level[..levelSize] == level;
        result := result + [curLevelResult];
        StepLevel(shape, done, level, cells);
        done := done + [level];
        level := Kids(level);
      }
      LevelsEnd(shape, done);
    }

    /** Erase a node from its parent's children. */
    method Detach(parent: DfxTreeNode, node: DfxTreeNode) returns (ok: bool)
      requires Valid() && parent in nodes && node in parent.children
      modifies this`shape, this`nodes, nodes
      ensures Valid() && nodes <= old(nodes)
      ensures ok && shape == Prune(old(shape), node)
    {
      hide Matches, Separated, Cells, NodeSet, Prune;
      var c := IndexOfChild(parent.children, node);
      if c == |parent.children| {
        return false;
      }
      ghost var cells := Cells(nodes);
      CellsAre(nodes);
      parent.children := parent.children[..c] + parent.children[c + 1..];
      Erased(shape, nodes, cells, parent, c);
      shape := Prune(shape, node);
      nodes := NodeSet(shape);
      return true;
    }

    /** Remove takes out exactly the subtree of the first match of the walk, and fails only if there is no match. */
    method Remove(nodeId: nat) returns (ok: bool)
      requires Valid()
      modifies this, nodes
      ensures Valid() && nodes <= old(nodes)
      ensures var walk := Bfs(old(shape));
              var k := FirstWithId(walk, nodeId);
              && (ok <==> k < |walk|)
              && shape == if ok then Prune(old(shape), walk[k].node) else old(shape)
      ensures old(SiblingsDistinct(shape)) ==> SiblingsDistinct(shape)
    {
      if root == null {
        return false;
      }
      hide Matches, Separated, Cells, NodeSet, Bfs, FirstWithId, FirstWithKid, SiblingsDistinct;
      var nodeToRemove := FindDfxNode(root, nodeId, shape, nodes);
      if nodeToRemove == null {
        return false;
      }
      ghost var f := shape;
      PruneSiblings(f, nodeToRemove);
      if nodeToRemove == root {
        PruneAll(f);
        root, shape, nodes := null, [], {};
        return true;
      }
      LabelFound(f, nodes, nodeId);
      var parent := FindDfxParent(nodeToRemove);
      ParentFound(f, nodes, nodeId);
      if parent == null {
        return false;
      }
      ok := Detach(parent, nodeToRemove);
    }

    /** Insert adds a leaf below the first match of the walk unless a child there has its id already; the first insertion
        makes the root, whatever parent it names. */
    method Insert(parentNodeId: nat, info: NodeInfo) returns (ok: bool)
      requires Valid()
      modifies this, nodes
      ensures Valid() && fresh(nodes - old(nodes))
      ensures old(shape) == [] ==> ok && |shape| == 1 && shape[0].info == info && shape[0].kids == []
      ensures var walk := Bfs(old(shape));
              var k := FirstWithId(walk, parentNodeId);
              old(shape) != [] ==>
                && (ok <==> k < |walk|)
                && (if k < |walk| && info.nodeId !in Ids(walk[k].kids) then
                      exists n :: n !in old(nodes) && nodes == old(nodes) + {n}
                                  && shape == Graft(old(shape), walk[k].node, Shape(n, info, []))
                    else shape == old(shape) && nodes == old(nodes))
      ensures old(SiblingsDistinct(shape)) ==> SiblingsDistinct(shape)
    {
      if root == null {
        root := new DfxTreeNode(info);
        LeafHeld(root, info);
        shape, nodes := [Shape(root, info, [])], {root};
        return true;
      }
      hide Matches, Separated, Cells, NodeSet, Bfs, FirstWithId, SiblingsDistinct, Graft;
      var parent := FindDfxNode(root, parentNodeId, shape, nodes);
      if parent == null {
        return false;
      }
      ghost var t := Bfs(shape)[FirstWithId(Bfs(shape), parentNodeId)];
      FoundCell(shape, nodes, parentNodeId);
      var present := HasChildWithId(parent, info.nodeId, t.kids);
      if !present {
        ghost var f := shape;
        var n := AppendNew(parent, info);
        GraftSiblings(f, t, n, info);
      }
      return true;
    }

    /** Append a new node to the children of one in the tree. */
    method AppendNew(parent: DfxTreeNode, info: NodeInfo) returns (n: DfxTreeNode)
      requires Valid() && parent in nodes
      modifies this`shape, this`nodes, parent
      ensures Valid() && fresh(n) && nodes == old(nodes) + {n}
      ensures shape == Graft(old(shape), parent, Shape(n, info, []))
    {
      hide Matches, Separated, Cells, NodeSet, Graft;
      n := new DfxTreeNode(info);
      ghost var cells := Cells(nodes);
      CellsAre(nodes);
      parent.children := parent.children + [n];
      Appended(shape, nodes, cells, parent, n, info);
      shape := Graft(shape, parent, Shape(n, info, []));
      nodes := nodes + {n};
    }

    /** UpdateNodeInfo relabels the first match of the walk and nothing else. */
    method UpdateNodeInfo(nodeId: nat, nodeInfo: NodeInfo)
      requires Valid()
      modifies this`shape, nodes
      ensures Valid() && nodes == old(nodes)
      ensures var walk := Bfs(old(shape));
              var k := FirstWithId(walk, nodeId);
              shape == if k < |walk| then Relabel(old(shape), walk[k].node, nodeInfo) else old(shape)
    {
      hide Matches, Separated, Cells, NodeSet, Bfs, FirstWithId, Relabel;
      if root == null {
        NothingToFind(nodeId);
        return;
      }
      var target := FindDfxNode(root, nodeId, shape, nodes);
      if target == null {
        return;
      }
      FoundCell(shape, nodes, nodeId);
      ghost var cells := Cells(nodes);
      CellsAre(nodes);
      target.nodeInfo := nodeInfo;
      Relabelled(shape, nodes, cells, target, nodeInfo);
      shape := Relabel(shape, target, nodeInfo);
    }
  }
}
