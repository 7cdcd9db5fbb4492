/** What inserting, removing and relabelling a node makes of a forest and of the cells that hold it. */
module DfxEdits {
  import opened DfxShape

  /** The subtree kept at a node, if there is one. */
  function Subtree<N(==)>(f: Forest<N>, n: N): Forest<N> {
    if f == [] then []
    else if f[0].node == n then [f[0]]
    else Subtree(f[0].kids, n) + Subtree(f[1..], n)
  }

  /** Take out the subtree at a node. */
  function Prune<N(==)>(f: Forest<N>, n: N): Forest<N> {
    if f == [] then []
    else if f[0].node == n then f[1..]
    else [Shape(f[0].node, f[0].info, Prune(f[0].kids, n))] + Prune(f[1..], n)
  }

  /** Add a subtree as the last child of a node. */
  function Graft<N(==)>(f: Forest<N>, parent: N, t: Shape<N>): Forest<N> {
    if f == [] then []
    else if f[0].node == parent then [Shape(parent, f[0].info, f[0].kids + [t])] + f[1..]
    else [Shape(f[0].node, f[0].info, Graft(f[0].kids, parent, t))] + Graft(f[1..], parent, t)
  }

  function Relabel<N(==)>(f: Forest<N>, n: N, info: NodeInfo): Forest<N> {
    if f == [] then []
    else if f[0].node == n then [Shape(n, info, f[0].kids)] + f[1..]
    else [Shape(f[0].node, f[0].info, Relabel(f[0].kids, n, info))] + Relabel(f[1..], n, info)
  }

  /** A forest is its first tree and the rest. */
  lemma First<N>(t: Shape<N>, rest: Forest<N>, cells: map<N, Cell<N>>)
    ensures var f := [t] + rest;
            && NodeSet(f) == {t.node} + NodeSet(t.kids) + NodeSet(rest)
            && (Separated(f) <==> t.node !in NodeSet(t.kids) + NodeSet(rest) && NodeSet(t.kids) !! NodeSet(rest)
                                  && Separated(t.kids) && Separated(rest))
            && (Matches(f, cells) <==> t.node in cells && cells[t.node] == Cell(t.info, Roots(t.kids))
                                       && Matches(t.kids, cells) && Matches(rest, cells))
            && Roots(f) == [t.node] + Roots(rest)
  {
    assert ([t] + rest)[1..] == rest;
  }

  // ---------------------------------------------------------------- subtrees

  lemma {:induction false} SubtreeOutside<N>(f: Forest<N>, n: N)
    ensures n !in NodeSet(f) <==> Subtree(f, n) == []
    ensures NodeSet(Subtree(f, n)) <= NodeSet(f)
  {
    if f != [] {
      SubtreeOutside(f[0].kids, n);
      SubtreeOutside(f[1..], n);
      NodesOfAppend(Subtree(f[0].kids, n), Subtree(f[1..], n));
    }
  }

  lemma {:induction false} SubtreeOfAppend<N>(f: Forest<N>, g: Forest<N>, n: N)
    requires n !in NodeSet(f) || n !in NodeSet(g)
    ensures Subtree(f + g, n) == Subtree(f, n) + Subtree(g, n)
  {
    if f == [] {
      assert f + g == g;
    } else {
      assert (f + g)[1..] == f[1..] + g;
      if f[0].node == n {
        SubtreeOutside(g, n);
      } else {
        SubtreeOfAppend(f[1..], g, n);
      }
    }
  }

  /** What the walk meets at a node is the subtree there. */
  lemma {:induction false} WalkMeetsSubtrees<N>(queue: Forest<N>, k: nat)
    requires Separated(queue) && k < |Bfs(queue)|
    ensures Subtree(queue, Bfs(queue)[k].node) == [Bfs(queue)[k]]
    ensures Bfs(queue)[k].node in NodeSet(queue)
    decreases Size(queue)
  {
    var t, rest := queue[0], queue[1..];
    Dequeue(queue);
    if k != 0 {
      var n := Bfs(queue)[k].node;
      WalkMeetsSubtrees(rest + t.kids, k - 1);
      NodesOfAppend(rest, t.kids);
      SubtreeOfAppend(rest, t.kids, n);
      SubtreeOutside(rest, n);
      SubtreeOutside(t.kids, n);
    }
  }

  // ---------------------------------------------------------------- removing

  lemma {:induction false} PruneOutside<N>(f: Forest<N>, n: N)
    requires n !in NodeSet(f)
    ensures Prune(f, n) == f
  {
    if f != [] {
      PruneOutside(f[0].kids, n);
      PruneOutside(f[1..], n);
    }
  }

  /** Removal takes out exactly the nodes of the subtree. */
  lemma {:induction false} PruneExact<N>(f: Forest<N>, n: N)
    requires Separated(f)
    ensures Separated(Prune(f, n))
    ensures NodeSet(Prune(f, n)) == NodeSet(f) - NodeSet(Subtree(f, n))
  {
    if f != [] {
      var t, kids, rest := f[0], f[0].kids, f[1..];
      First(t, rest, map[]);
      assert f == [t] + rest;
      if t.node == n {
        First(t, [], map[]);
        assert [t] + [] == [t];
      } else {
        PruneExact(kids, n);
        PruneExact(rest, n);
        SubtreeOutside(kids, n);
        SubtreeOutside(rest, n);
        NodesOfAppend(Subtree(kids, n), Subtree(rest, n));
        First(Shape(t.node, t.info, Prune(kids, n)), Prune(rest, n), map[]);
        hide Separated, NodeSet;
      }
    }
  }

  /** Removing what a search found removes that subtree's nodes and no others. */
  lemma RemovalIsExact<N>(f: Forest<N>, k: nat)
    requires Separated(f) && k < |Bfs(f)|
    ensures var t := Bfs(f)[k];
            Separated(Prune(f, t.node)) && NodeSet(Prune(f, t.node)) == NodeSet(f) - NodeSet([t])
  {
    WalkMeetsSubtrees(f, k);
    PruneExact(f, Bfs(f)[k].node);
  }

  /** Every subtree that stays keeps its label and its place among its siblings. */
  lemma {:induction false} PruneKeepsOthers<N>(f: Forest<N>, n: N, m: N)
    requires Separated(f) && m in NodeSet(Prune(f, n))
    ensures m in NodeSet(f)
    ensures Subtree(Prune(f, n), m) == Prune(Subtree(f, m), n)
    decreases f, 1
  {
    PruneExact(f, n);
    var t, kids, rest := f[0], f[0].kids, f[1..];
    First(t, rest, map[]);
    assert f == [t] + rest;
    if t.node == m {
      assert Prune([t], n) == [Prune(f, n)[0]];
    } else {
      assert Subtree(f, m) == Subtree(kids, m) + Subtree(rest, m);
      SubtreeOutside(kids, m);
      SubtreeOutside(rest, m);
      if t.node == n {
        hide Separated, NodeSet, Subtree;
        assert [] + Subtree(rest, m) == Subtree(rest, m);
        PruneOutside(Subtree(rest, m), n);
      } else {
        PruneKeepsBelow(f, n, m);
      }
    }
  }

  lemma {:induction false} PruneKeepsBelow<N>(f: Forest<N>, n: N, m: N)
    requires Separated(f) && m in NodeSet(Prune(f, n))
    requires f[0].node != n && f[0].node != m
    ensures m in NodeSet(f)
    ensures Subtree(Prune(f, n), m) == Prune(Subtree(f, m), n)
    decreases f, 0
  {
    var t, kids, rest := f[0], f[0].kids, f[1..];
    var kids', rest' := Prune(kids, n), Prune(rest, n);
    var t' := Shape(t.node, t.info, kids');
    assert f == [t] + rest && Prune(f, n) == [t'] + rest';
    First(t, rest, map[]);
    First(t', rest', map[]);
    assert Subtree(f, m) == Subtree(kids, m) + Subtree(rest, m);
    assert Subtree([t'] + rest', m) == Subtree(kids', m) + Subtree(rest', m);
    hide Separated, NodeSet, Subtree, Prune;
    PruneExact(kids, n);
    PruneExact(rest, n);
    SubtreeOutside(kids, m);
    SubtreeOutside(rest, m);
    SubtreeOutside(kids', m);
    SubtreeOutside(rest', m);
    if m in NodeSet(kids') {
      PruneKeepsOthers(kids, n, m);
      assert Subtree(kids, m) + [] == Subtree(kids, m);
    } else {
      PruneKeepsOthers(rest, n, m);
      assert [] + Subtree(rest, m) == Subtree(rest, m);
    }
  }

  lemma {:induction false} PruneRoot<N>(f: Forest<N>, n: N, c: nat)
    requires Separated(f) && c < |f| && f[c].node == n
    ensures Prune(f, n) == f[..c] + f[c + 1..]
  {
    if c != 0 {
      NodeInside(f[1..], c - 1);
      PruneOutside(f[0].kids, n);
      PruneRoot(f[1..], n, c - 1);
      assert Prune(f, n) == [f[0]] + Prune(f[1..], n);
      assert f[..c] == [f[0]] + f[1..][..c - 1] && f[c + 1..] == f[1..][c..];
    }
  }

  lemma {:induction false} NodeInside<N>(f: Forest<N>, c: nat)
    requires c < |f|
    ensures f[c].node in NodeSet(f)
  {
    if c != 0 {
      NodeInside(f[1..], c - 1);
    }
  }

  lemma {:induction false} MatchesElsewhere<N>(f: Forest<N>, cells: map<N, Cell<N>>, n: N, cell: Cell<N>)
    requires n !in NodeSet(f) && Matches(f, cells)
    ensures Matches(f, cells[n := cell])
  {
    if f != [] {
      MatchesElsewhere(f[0].kids, cells, n, cell);
      MatchesElsewhere(f[1..], cells, n, cell);
    }
  }

  lemma {:induction false} MatchesHasNodes<N>(f: Forest<N>, cells: map<N, Cell<N>>, n: N)
    requires Matches(f, cells) && n in NodeSet(f)
    ensures n in cells
  {
    if f[0].node != n {
      if n in NodeSet(f[0].kids) {
        MatchesHasNodes(f[0].kids, cells, n);
      } else {
        MatchesHasNodes(f[1..], cells, n);
      }
    }
  }

  /** A child is inside the forest but is not one of its roots. */
  lemma {:induction false} ChildInside<N>(f: Forest<N>, cells: map<N, Cell<N>>, p: N, c: nat)
    requires Separated(f) && Matches(f, cells) && p in NodeSet(f) && p in cells && c < |cells[p].children|
    ensures cells[p].children[c] in NodeSet(f)
    ensures f[0].node != cells[p].children[c]
  {
    var t, kids, rest := f[0], f[0].kids, f[1..];
    First(t, rest, cells);
    assert f == [t] + rest;
    hide Matches, Separated, NodeSet;
    if p == t.node {
      NodeInside(kids, c);
    } else if p in NodeSet(kids) {
      ChildInside(kids, cells, p, c);
    } else {
      ChildInside(rest, cells, p, c);
    }
  }

  lemma EraseHere<N>(kids: Forest<N>, cells: map<N, Cell<N>>, p: N, c: nat, cell: Cell<N>)
    requires Separated(kids) && Matches(kids, cells) && p !in NodeSet(kids) && c < |kids|
    ensures var kids' := Prune(kids, kids[c].node);
            Matches(kids', cells[p := cell]) && Roots(kids') == Roots(kids)[..c] + Roots(kids)[c + 1..]
  {
    var cells' := cells[p := cell];
    PruneRoot(kids, kids[c].node, c);
    assert Roots(kids[..c] + kids[c + 1..]) == Roots(kids)[..c] + Roots(kids)[c + 1..];
    MatchesElsewhere(kids, cells, p, cell);
    MatchesAppend(kids[..c], kids[c..], cells');
    MatchesAppend(kids[..c], kids[c + 1..], cells');
    assert kids == kids[..c] + kids[c..] && kids[c..][1..] == kids[c + 1..];
  }

  /** Erasing a child from its parent's cell removes that child's subtree from the forest. */
  lemma {:induction false} EraseChild<N>(f: Forest<N>, cells: map<N, Cell<N>>, p: N, c: nat)
    requires Separated(f) && Matches(f, cells) && p in NodeSet(f) && p in cells && c < |cells[p].children|
    ensures var Cell(info, children) := cells[p];
            var f' := Prune(f, children[c]);
            && Matches(f', cells[p := Cell(info, children[..c] + children[c + 1..])])
            && Roots(f') == Roots(f)
  {
    var n := cells[p].children[c];
    var cell := Cell(cells[p].info, cells[p].children[..c] + cells[p].children[c + 1..]);
    var cells' := cells[p := cell];
    var t, kids, rest := f[0], f[0].kids, f[1..];
    ChildInside(f, cells, p, c);
    First(t, rest, cells);
    assert f == [t] + rest;
    assert Prune(f, n) == [Shape(t.node, t.info, Prune(kids, n))] + Prune(rest, n);
    First(Shape(t.node, t.info, Prune(kids, n)), Prune(rest, n), cells');
    hide Matches, Separated, NodeSet, Prune;
    if p == t.node {
      NodeInside(kids, c);
      EraseHere(kids, cells, p, c, cell);
      PruneOutside(rest, n);
      MatchesElsewhere(rest, cells, p, cell);
    } else if p in NodeSet(kids) {
      ChildInside(kids, cells, p, c);
      EraseChild(kids, cells, p, c);
      PruneOutside(rest, n);
      MatchesElsewhere(rest, cells, p, cell);
    } else {
      ChildInside(rest, cells, p, c);
      EraseChild(rest, cells, p, c);
      PruneOutside(kids, n);
      MatchesElsewhere(kids, cells, p, cell);
    }
  }

  // ---------------------------------------------------------------- inserting

  lemma {:induction false} GraftOutside<N>(f: Forest<N>, p: N, t: Shape<N>)
    requires p !in NodeSet(f)
    ensures Graft(f, p, t) == f
  {
    if f != [] {
      GraftOutside(f[0].kids, p, t);
      GraftOutside(f[1..], p, t);
    }
  }

  lemma LeafAlone<N>(n: N, info: NodeInfo)
    ensures NodeSet([Shape(n, info, [])]) == {n} && Separated([Shape(n, info, [])])
  {
  }

  lemma LeafMatches<N>(n: N, info: NodeInfo, cells: map<N, Cell<N>>)
    requires n in cells && cells[n] == Cell(info, [])
    ensures Matches([Shape(n, info, [])], cells)
  {
  }

  /** Adding a leaf adds that node and nothing else ... */
  lemma {:induction false} GraftExact<N>(f: Forest<N>, p: N, n: N, info: NodeInfo)
    requires Separated(f) && p in NodeSet(f) && n !in NodeSet(f)
    ensures var f' := Graft(f, p, Shape(n, info, []));
            Separated(f') && NodeSet(f') == NodeSet(f) + {n} && Roots(f') == Roots(f)
  {
    assert f != [];
    hide Separated, NodeSet;
    var leaf := Shape(n, info, []);
    var t, kids, rest := f[0], f[0].kids, f[1..];
    First(t, rest, map[]);
    assert f == [t] + rest;
    var t' := Shape(t.node, t.info, if p == t.node then kids + [leaf] else Graft(kids, p, leaf));
    var rest' := if p == t.node then rest else Graft(rest, p, leaf);
    assert Graft(f, p, leaf) == [t'] + rest';
    First(t', rest', map[]);
    LeafAlone(n, info);
    hide Graft;
    if p == t.node {
      SeparatedAppend(kids, [leaf]);
      NodesOfAppend(kids, [leaf]);
    } else if p in NodeSet(kids) {
      GraftExact(kids, p, n, info);
      GraftOutside(rest, p, leaf);
    } else {
      GraftExact(rest, p, n, info);
      GraftOutside(kids, p, leaf);
    }
  }

  /** The leaf becomes the last child of its parent, whose label and other children stay; every other subtree stays where
      it is, but for what happens below it. */
  lemma {:induction false} GraftKeepsOthers<N>(f: Forest<N>, p: N, n: N, info: NodeInfo, m: N)
    requires Separated(f) && p in NodeSet(f) && n !in NodeSet(f) && m in NodeSet(f)
    ensures var leaf := Shape(n, info, []);
            var at, at' := Subtree(f, m), Subtree(Graft(f, p, leaf), m);
            if m == p then |at| == 1 && at' == [Shape(m, at[0].info, at[0].kids + [leaf])]
            else at' == Graft(at, p, leaf)
    decreases f, 2
  {
    var leaf, t := Shape(n, info, []), f[0];
    if t.node == m {
      hide Separated, NodeSet;
      assert Graft([t], p, leaf) == [Graft(f, p, leaf)[0]];
    } else if t.node == p {
      GraftAtTop(f, n, info, m);
    } else {
      GraftKeepsBelow(f, p, n, info, m);
    }
  }

  lemma GraftAtTop<N>(f: Forest<N>, n: N, info: NodeInfo, m: N)
    requires Separated(f) && n !in NodeSet(f) && m in NodeSet(f) && f[0].node != m
    ensures var leaf := Shape(n, info, []);
            && Subtree(Graft(f, f[0].node, leaf), m) == Subtree(f, m) == Graft(Subtree(f, m), f[0].node, leaf)
  {
    var leaf, t, kids, rest := Shape(n, info, []), f[0], f[0].kids, f[1..];
    First(t, rest, map[]);
    assert f == [t] + rest;
    assert Subtree(f, m) == Subtree(kids, m) + Subtree(rest, m);
    assert Subtree(Graft(f, t.node, leaf), m) == Subtree(kids + [leaf], m) + Subtree(rest, m);
    assert Subtree([leaf], m) == [] && Subtree(kids, m) + [] == Subtree(kids, m);
    assert n !in NodeSet(kids) && m !in NodeSet([leaf]);
    hide Separated, NodeSet, Graft, Subtree;
    SubtreeOutside(kids, m);
    SubtreeOutside(rest, m);
    SubtreeOfAppend(kids, [leaf], m);
    NodesOfAppend(Subtree(kids, m), Subtree(rest, m));
    GraftOutside(Subtree(f, m), t.node, leaf);
  }

  lemma {:induction false} GraftKeepsBelow<N>(f: Forest<N>, p: N, n: N, info: NodeInfo, m: N)
    requires Separated(f) && p in NodeSet(f) && n !in NodeSet(f) && m in NodeSet(f)
    requires f[0].node != m && f[0].node != p
    ensures var leaf := Shape(n, info, []);
            var at, at' := Subtree(f, m), Subtree(Graft(f, p, leaf), m);
            if m == p then |at| == 1 && at' == [Shape(m, at[0].info, at[0].kids + [leaf])]
            else at' == Graft(at, p, leaf)
    decreases f, 1
  {
    var leaf, t, kids, rest := Shape(n, info, []), f[0], f[0].kids, f[1..];
    var kids', rest' := Graft(kids, p, leaf), Graft(rest, p, leaf);
    assert f == [t] + rest && Graft(f, p, leaf) == [Shape(t.node, t.info, kids')] + rest';
    First(t, rest, map[]);
    assert Subtree(f, m) == Subtree(kids, m) + Subtree(rest, m);
    assert Subtree(Graft(f, p, leaf), m) == Subtree(kids', m) + Subtree(rest', m);
    hide Separated, NodeSet, Subtree, Graft;
    if p in NodeSet(kids) {
      GraftOutside(rest, p, leaf);
      GraftInPart(kids, rest, p, n, info, m);
      assert m in NodeSet(kids) ==> Subtree(kids', m) + [] == Subtree(kids', m) && Subtree(kids, m) + [] == Subtree(kids, m);
      assert m in NodeSet(rest) ==> [] + Subtree(rest, m) == Subtree(rest, m);
    } else {
      GraftOutside(kids, p, leaf);
      GraftInPart(rest, kids, p, n, info, m);
      assert m in NodeSet(rest) ==> [] + Subtree(rest', m) == Subtree(rest', m) && [] + Subtree(rest, m) == Subtree(rest, m);
      assert m in NodeSet(kids) ==> Subtree(kids, m) + [] == Subtree(kids, m);
    }
  }

  /** One of two disjoint parts takes the leaf. */
  lemma {:induction false} GraftInPart<N>(f: Forest<N>, g: Forest<N>, p: N, n: N, info: NodeInfo, m: N)
    requires Separated(f) && p in NodeSet(f) && n !in NodeSet(f) + NodeSet(g) && NodeSet(f) !! NodeSet(g)
    requires m in NodeSet(f) + NodeSet(g)
    ensures var leaf := Shape(n, info, []);
            var at, at' := Subtree(f, m), Subtree(Graft(f, p, leaf), m);
            if m in NodeSet(g) then at == at' == [] && Graft(Subtree(g, m), p, leaf) == Subtree(g, m)
            else Subtree(g, m) == []
                 && if m == p then |at| == 1 && at' == [Shape(m, at[0].info, at[0].kids + [leaf])]
                    else at' == Graft(at, p, leaf)
    decreases f, 3
  {
    hide Subtree, Graft, Separated, NodeSet;
    SubtreeOutside(g, m);
    SubtreeOutside(f, m);
    if m in NodeSet(g) {
      GraftExact(f, p, n, info);
      SubtreeOutside(Graft(f, p, Shape(n, info, [])), m);
      GraftOutside(Subtree(g, m), p, Shape(n, info, []));
    } else {
      GraftKeepsOthers(f, p, n, info, m);
    }
  }

  /** ... which is what appending it to the children in its parent's cell does. */
  lemma {:induction false} AppendChild<N>(f: Forest<N>, cells: map<N, Cell<N>>, p: N, n: N, info: NodeInfo)
    requires Separated(f) && Matches(f, cells) && p in NodeSet(f) && p in cells
    requires n !in NodeSet(f) && n in cells && cells[n] == Cell(info, [])
    ensures Matches(Graft(f, p, Shape(n, info, [])), cells[p := Cell(cells[p].info, cells[p].children + [n])])
    ensures Roots(Graft(f, p, Shape(n, info, []))) == Roots(f)
  {
    assert f != [];
    hide Matches, Separated, NodeSet;
    var leaf, cell := Shape(n, info, []), Cell(cells[p].info, cells[p].children + [n]);
    var cells' := cells[p := cell];
    var t, kids, rest := f[0], f[0].kids, f[1..];
    First(t, rest, cells);
    assert f == [t] + rest;
    var t' := Shape(t.node, t.info, if p == t.node then kids + [leaf] else Graft(kids, p, leaf));
    var rest' := if p == t.node then rest else Graft(rest, p, leaf);
    assert Graft(f, p, leaf) == [t'] + rest';
    First(t', rest', cells');
    hide Graft;
    if p == t.node {
      MatchesElsewhere(kids, cells, p, cell);
      MatchesElsewhere(rest, cells, p, cell);
      LeafMatches(n, info, cells');
      MatchesAppend(kids, [leaf], cells');
    } else if p in NodeSet(kids) {
      AppendChild(kids, cells, p, n, info);
      GraftOutside(rest, p, leaf);
      MatchesElsewhere(rest, cells, p, cell);
    } else {
      AppendChild(rest, cells, p, n, info);
      GraftOutside(kids, p, leaf);
      MatchesElsewhere(kids, cells, p, cell);
    }
  }

  // ---------------------------------------------------------------- relabelling

  lemma {:induction false} RelabelOutside<N>(f: Forest<N>, n: N, info: NodeInfo)
    requires n !in NodeSet(f)
    ensures Relabel(f, n, info) == f
  {
    if f != [] {
      RelabelOutside(f[0].kids, n, info);
      RelabelOutside(f[1..], n, info);
    }
  }

  lemma {:induction false} RelabelCell<N>(f: Forest<N>, cells: map<N, Cell<N>>, n: N, info: NodeInfo)
    requires Separated(f) && Matches(f, cells) && n in NodeSet(f) && n in cells
    ensures var f' := Relabel(f, n, info);
            && Matches(f', cells[n := Cell(info, cells[n].children)])
            && Separated(f') && NodeSet(f') == NodeSet(f) && Roots(f') == Roots(f)
  {
    var cell := Cell(info, cells[n].children);
    var cells' := cells[n := cell];
    var t, kids, rest := f[0], f[0].kids, f[1..];
    First(t, rest, cells);
    assert f == [t] + rest;
    var t' := if n == t.node then Shape(n, info, kids) else Shape(t.node, t.info, Relabel(kids, n, info));
    var rest' := if n == t.node then rest else Relabel(rest, n, info);
    assert Relabel(f, n, info) == [t'] + rest';
    First(t', rest', cells');
    hide Matches, Separated, NodeSet, Relabel;
    if n == t.node {
      MatchesElsewhere(kids, cells, n, cell);
      MatchesElsewhere(rest, cells, n, cell);
    } else if n in NodeSet(kids) {
      RelabelCell(kids, cells, n, info);
      RelabelOutside(rest, n, info);
      MatchesElsewhere(rest, cells, n, cell);
    } else {
      RelabelCell(rest, cells, n, info);
      RelabelOutside(kids, n, info);
      MatchesElsewhere(kids, cells, n, cell);
    }
  }

  /** Only that node's label changes: its children stay, and so does every other subtree, but for what happens below it. */
  lemma {:induction false} RelabelKeepsOthers<N>(f: Forest<N>, n: N, info: NodeInfo, m: N)
    requires Separated(f)
    ensures var at, at' := Subtree(f, m), Subtree(Relabel(f, n, info), m);
            && at' == Relabel(at, n, info)
            && (m == n && m in NodeSet(f) ==> |at| == 1 && at' == [Shape(m, info, at[0].kids)])
  {
    if f != [] {
      var t, kids, rest := f[0], f[0].kids, f[1..];
      First(t, rest, map[]);
      assert f == [t] + rest;
      if t.node == m {
        assert Relabel([t], n, info) == [Relabel(f, n, info)[0]];
      } else {
        var kids', rest' := Relabel(kids, n, info), Relabel(rest, n, info);
        assert Subtree(f, m) == Subtree(kids, m) + Subtree(rest, m);
        if t.node == n {
          assert Subtree(Relabel(f, n, info), m) == Subtree(f, m);
          hide Separated, NodeSet, Relabel, Subtree;
          SubtreeOutside(kids, m);
          SubtreeOutside(rest, m);
          NodesOfAppend(Subtree(kids, m), Subtree(rest, m));
          RelabelOutside(Subtree(f, m), n, info);
        } else {
          assert Subtree(Relabel(f, n, info), m) == Subtree(kids', m) + Subtree(rest', m);
          hide Separated, NodeSet, Relabel, Subtree;
          RelabelKeepsOthers(kids, n, info, m);
          RelabelKeepsOthers(rest, n, info, m);
          SubtreeOutside(kids, m);
          SubtreeOutside(rest, m);
          RelabelOfNone(n, info);
          assert Subtree(kids, m) == [] ==> [] + Subtree(rest, m) == Subtree(rest, m)
                                            && [] + Subtree(rest', m) == Subtree(rest', m);
          assert Subtree(rest, m) == [] ==> Subtree(kids, m) + [] == Subtree(kids, m)
                                            && Subtree(kids', m) + [] == Subtree(kids', m);
        }
      }
    }
  }

  lemma RelabelOfNone<N>(n: N, info: NodeInfo)
    ensures Relabel<N>([], n, info) == []
  {
  }

  // ---------------------------------------------------------------- sibling ids

  ghost predicate DistinctIds<N>(f: Forest<N>) {
    forall i, j :: 0 <= i < j < |f| ==> f[i].info.nodeId != f[j].info.nodeId
  }

  /** No two children of a node have the same id. */
  ghost predicate SiblingsDistinct<N>(f: Forest<N>) {
    f != [] ==> DistinctIds(f[0].kids) && SiblingsDistinct(f[0].kids) && SiblingsDistinct(f[1..])
  }

  /** The labels on the roots, in order. */
  function Ids<N>(f: Forest<N>): (ids: seq<nat>)
    ensures |ids| == |f| && (forall i :: 0 <= i < |f| ==> ids[i] == f[i].info.nodeId)
  {
    seq(|f|, i requires 0 <= i < |f| => f[i].info.nodeId)
  }

  lemma {:induction false} PruneIds<N>(f: Forest<N>, n: N)
    requires DistinctIds(f)
    ensures DistinctIds(Prune(f, n))
    ensures forall id :: id in Ids(Prune(f, n)) ==> id in Ids(f)
  {
    if f != [] {
      assert forall k :: 0 <= k < |f[1..]| ==> Ids(f[1..])[k] == Ids(f)[k + 1];
      if f[0].node != n {
        PruneIds(f[1..], n);
        var f', rest' := Prune(f, n), Prune(f[1..], n);
        forall k | 1 <= k < |f'| ensures f'[k].info.nodeId != f'[0].info.nodeId && f'[k].info.nodeId in Ids(f) {
          assert Ids(rest')[k - 1] in Ids(rest');
        }
        assert Ids(f)[0] in Ids(f);
      }
    }
  }

  /** Removing a node keeps sibling ids distinct ... */
  lemma {:induction false} PruneKeepsIds<N>(f: Forest<N>, n: N)
    requires SiblingsDistinct(f)
    ensures SiblingsDistinct(Prune(f, n))
  {
    if f != [] && f[0].node != n {
      PruneIds(f[0].kids, n);
      PruneKeepsIds(f[0].kids, n);
      PruneKeepsIds(f[1..], n);
      var f' := Prune(f, n);
      assert f'[0].kids == Prune(f[0].kids, n) && f'[1..] == Prune(f[1..], n);
    }
  }

  lemma {:induction false} SiblingsAppend<N>(f: Forest<N>, g: Forest<N>)
    ensures SiblingsDistinct(f + g) <==> SiblingsDistinct(f) && SiblingsDistinct(g)
  {
    if f == [] {
      assert f + g == g;
    } else {
      assert (f + g)[1..] == f[1..] + g;
      SiblingsAppend(f[1..], g);
    }
  }

  lemma {:induction false} GraftIds<N>(f: Forest<N>, p: N, t: Shape<N>)
    ensures Ids(Graft(f, p, t)) == Ids(f)
  {
    if f != [] {
      GraftIds(f[1..], p, t);
      assert Ids(f) == [f[0].info.nodeId] + Ids(f[1..]);
      var f' := Graft(f, p, t);
      assert Ids(f') == [f'[0].info.nodeId] + Ids(f'[1..]);
    }
  }

  /** ... and so does inserting one whose id no child of the parent has. */
  lemma {:induction false} GraftKeepsIds<N>(f: Forest<N>, p: N, t: Shape<N>)
    requires SiblingsDistinct(f) && SiblingsDistinct([t])
    requires forall s :: s in Subtree(f, p) ==> t.info.nodeId !in Ids(s.kids)
    ensures SiblingsDistinct(Graft(f, p, t))
  {
    if f != [] {
      var kids, rest := f[0].kids, f[1..];
      var f' := Graft(f, p, t);
      assert f'[1..] == if p == f[0].node then rest else Graft(rest, p, t);
      if p == f[0].node {
        SiblingsAppend(kids, [t]);
        assert f[0] in Subtree(f, p);
        assert forall k :: 0 <= k < |kids| ==> Ids(kids)[k] in Ids(kids);
      } else {
        GraftKeepsIds(kids, p, t);
        GraftKeepsIds(rest, p, t);
        GraftIds(kids, p, t);
        assert forall k :: 0 <= k < |kids| ==> Ids(f'[0].kids)[k] == Ids(kids)[k];
      }
    }
  }

  // ---------------------------------------------------------------- walking over cells

  /** Where a walk stands: the subtrees visited, and the queue whose walk is still to come. */
  ghost predicate Walking<N>(f: Forest<N>, visited: Forest<N>, queue: Forest<N>, cells: map<N, Cell<N>>) {
    && Separated(queue) && Matches(queue, cells)
    && Bfs(f) == visited + Bfs(queue)
  }

  lemma StartWalk<N>(f: Forest<N>, cells: map<N, Cell<N>>)
    requires Separated(f) && Matches(f, cells)
    ensures Walking(f, [], f, cells)
  {
    assert [] + Bfs(f) == Bfs(f);
  }

  /** One step of a walk: the cell of the front node shows the label and the children of the next subtree visited. */
  lemma Visit<N>(f: Forest<N>, visited: Forest<N>, queue: Forest<N>, cells: map<N, Cell<N>>)
    requires queue != [] && Walking(f, visited, queue, cells)
    ensures var t := queue[0];
            var next := queue[1..] + t.kids;
            && t.node in cells && cells[t.node] == Cell(t.info, Roots(t.kids)) && Matches(t.kids, cells)
            && |visited| < |Bfs(f)| && Bfs(f)[|visited|] == t && Bfs(f)[..|visited|] == visited
            && Walking(f, visited + [t], next, cells)
            && Size(next) < Size(queue)
            && Roots(next) == Roots(queue)[1..] + Roots(t.kids)
  {
    var t, next := queue[0], queue[1..] + queue[0].kids;
    Dequeue(queue);
    MatchesAppend(queue[1..], t.kids, cells);
    assert visited + ([t] + Bfs(next)) == visited + [t] + Bfs(next);
  }

  lemma EndWalk<N>(f: Forest<N>, visited: Forest<N>, cells: map<N, Cell<N>>)
    requires Walking(f, visited, [], cells)
    ensures Bfs(f) == visited
  {
  }

  /** The cell of a tree in a list shows its label and children. */
  lemma {:induction false} CellOf<N>(list: Forest<N>, cells: map<N, Cell<N>>, i: nat)
    requires Matches(list, cells) && i < |list|
    ensures list[i].node in cells && cells[list[i].node] == Cell(list[i].info, Roots(list[i].kids))
  {
    if i != 0 {
      CellOf(list[1..], cells, i - 1);
    }
  }

  lemma {:induction false} MatchesKids<N>(f: Forest<N>, cells: map<N, Cell<N>>)
    requires Matches(f, cells)
    ensures Matches(Kids(f), cells)
  {
    if f != [] {
      MatchesKids(f[1..], cells);
      MatchesAppend(f[0].kids, Kids(f[1..]), cells);
    }
  }

  /** The cell of every subtree the walk meets shows its label and children. */
  lemma {:induction false} WalkCell<N>(queue: Forest<N>, cells: map<N, Cell<N>>, k: nat)
    requires Matches(queue, cells) && k < |Bfs(queue)|
    ensures var t := Bfs(queue)[k];
            t.node in cells && cells[t.node] == Cell(t.info, Roots(t.kids))
    decreases Size(queue)
  {
    if k != 0 {
      SizeOfAppend(queue[1..], queue[0].kids);
      MatchesAppend(queue[1..], queue[0].kids, cells);
      WalkCell(queue[1..] + queue[0].kids, cells, k - 1);
    }
  }

  lemma {:induction false} WalkKids<N>(queue: Forest<N>, cells: map<N, Cell<N>>, k: nat)
    requires Matches(queue, cells) && k < |Bfs(queue)|
    ensures Matches(Bfs(queue)[k].kids, cells)
    decreases Size(queue)
  {
    if k != 0 {
      SizeOfAppend(queue[1..], queue[0].kids);
      MatchesAppend(queue[1..], queue[0].kids, cells);
      WalkKids(queue[1..] + queue[0].kids, cells, k - 1);
    }
  }

  lemma {:induction false} MatchesAgree<N>(f: Forest<N>, cells: map<N, Cell<N>>, cells': map<N, Cell<N>>)
    requires Matches(f, cells)
    requires forall n :: n in NodeSet(f) && n in cells ==> n in cells' && cells'[n] == cells[n]
    ensures Matches(f, cells')
  {
    if f != [] {
      MatchesAgree(f[0].kids, cells, cells');
      MatchesAgree(f[1..], cells, cells');
    }
  }

  lemma KidsSnoc<N>(level: Forest<N>, i: nat)
    requires i < |level|
    ensures Kids(level[..i + 1]) == Kids(level[..i]) + level[i].kids
    ensures Labels(level[..i + 1]) == Labels(level[..i]) + [level[i].info]
  {
    KidsOfAppend(level[..i], [level[i]]);
    assert level[..i] + [level[i]] == level[..i + 1];
    assert Kids([level[i]]) == level[i].kids;
  }

  lemma QueueStep<N>(rest: Forest<N>, got: Forest<N>)
    requires rest != []
    ensures Roots(rest + got)[0] == rest[0].node
    ensures Roots(rest[1..] + (got + rest[0].kids)) == Roots(rest + got)[1..] + Roots(rest[0].kids)
  {
  }

  /** One step inside a level: the queue holds the rest of the level and the children of what was taken. */
  lemma StepInLevel<N>(level: Forest<N>, cells: map<N, Cell<N>>, i: nat)
    requires Matches(level, cells) && i < |level|
    ensures var q, q' := Roots(level[i..] + Kids(level[..i])), Roots(level[i + 1..] + Kids(level[..i + 1]));
            && level[i].node in cells && cells[level[i].node] == Cell(level[i].info, Roots(level[i].kids))
            && q[0] == level[i].node
            && q' == q[1..] + Roots(level[i].kids)
            && Labels(level[..i + 1]) == Labels(level[..i]) + [level[i].info]
  {
    hide *;
    CellOf(level, cells, i);
    KidsSnoc(level, i);
    QueueStep(level[i..], Kids(level[..i]));
    assert level[i..][1..] == level[i + 1..];
  }

  /** One level done. */
  lemma StepLevel<N>(f: Forest<N>, done: seq<Forest<N>>, level: Forest<N>, cells: map<N, Cell<N>>)
    requires Matches(level, cells) && level != [] && Levels(f) == done + Levels(level)
    ensures Matches(Kids(level), cells) && Size(Kids(level)) < Size(level)
    ensures Levels(f) == done + [level] + Levels(Kids(level))
    ensures LevelLabels(done + [level]) == LevelLabels(done) + [Labels(level)]
    ensures Roots(level[|level|..] + Kids(level[..|level|])) == Roots(Kids(level))
  {
    assert Levels(level) == [level] + Levels(Kids(level));
    hide *;
    SizeOfKids(level);
    MatchesKids(level, cells);
    assert level[..|level|] == level && level[|level|..] + Kids(level) == Kids(level);
    assert done + ([level] + Levels(Kids(level))) == done + [level] + Levels(Kids(level));
  }

  lemma PruneSiblings<N>(f: Forest<N>, n: N)
    ensures SiblingsDistinct(f) ==> SiblingsDistinct(Prune(f, n))
  {
    if SiblingsDistinct(f) {
      PruneKeepsIds(f, n);
    }
  }

  /** In a tree, the parent search finds a node whose cell lists the node the id search found. */
  lemma RealParent<N>(f: Forest<N>, cells: map<N, Cell<N>>, id: nat)
    requires |f| == 1 && Separated(f) && Matches(f, cells)
    requires var walk := Bfs(f);
             FirstWithId(walk, id) < |walk| && walk[FirstWithId(walk, id)].node != f[0].node
    ensures var walk := Bfs(f);
            var p := FirstWithKid(walk, id);
            && p < |walk| && walk[p].node in NodeSet(f) && walk[p].node in cells
            && walk[FirstWithId(walk, id)].node in cells[walk[p].node].children
  {
    var walk, root := Bfs(f), f[0];
    assert f == [root];
    assert walk[0] == root;
    ParentExists(root, id);
    ParentOfFirst(root, id);
    var p := FirstWithKid(walk, id);
    WalkMeetsSubtrees(f, p);
    WalkCell(f, cells, p);
    var kids := walk[p].kids;
    assert Roots(kids)[FirstWithId(kids, id)] in Roots(kids);
  }
}
