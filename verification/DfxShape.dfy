/** Ordered forests, and the two ways the diagnostic tree walks them: breadth first and by level. */
module DfxShape {

  /** HpaeDfxNodeInfo; the walks look at the id only. */
  datatype NodeInfo = NodeInfo(nodeId: nat, sessionId: nat, frameLen: nat, streamType: int, nodeName: string)

  /** A subtree: where its root is kept, what is stored there, and the subtrees below, left to right. */
  datatype Shape<N> = Shape(node: N, info: NodeInfo, kids: seq<Shape<N>>)

  type Forest<N> = seq<Shape<N>>

  /** What is stored at a node. */
  datatype Cell<N> = Cell(info: NodeInfo, children: seq<N>)

  function Roots<N>(f: Forest<N>): (nodes: seq<N>)
    ensures |nodes| == |f|
    ensures forall i :: 0 <= i < |f| ==> nodes[i] == f[i].node
  {
    seq(|f|, i requires 0 <= i < |f| => f[i].node)
  }

  function Size<N>(f: Forest<N>): nat {
    if f == [] then 0 else 1 + Size(f[0].kids) + Size(f[1..])
  }

  function NodeSet<N>(f: Forest<N>): set<N> {
    if f == [] then {} else {f[0].node} + NodeSet(f[0].kids) + NodeSet(f[1..])
  }

  /** No node occurs twice. */
  ghost predicate Separated<N>(f: Forest<N>) {
    f != [] ==>
      && f[0].node !in NodeSet(f[0].kids) + NodeSet(f[1..])
      && NodeSet(f[0].kids) !! NodeSet(f[1..])
      && Separated(f[0].kids)
      && Separated(f[1..])
  }

  /** The cells hold the forest. */
  ghost predicate Matches<N>(f: Forest<N>, cells: map<N, Cell<N>>) {
    f != [] ==>
      && f[0].node in cells
      && cells[f[0].node] == Cell(f[0].info, Roots(f[0].kids))
      && Matches(f[0].kids, cells)
      && Matches(f[1..], cells)
  }

  // ---------------------------------------------------------------- walks

  /** All subtrees in the order a queue visits them. */
  function Bfs<N>(queue: Forest<N>): Forest<N>
    decreases Size(queue)
  {
    if queue == [] then []
    else
      SizeOfAppend(queue[1..], queue[0].kids);
      [queue[0]] + Bfs(queue[1..] + queue[0].kids)
  }

  /** The subtrees right below. */
  function Kids<N>(f: Forest<N>): Forest<N> {
    if f == [] then [] else f[0].kids + Kids(f[1..])
  }

  function Levels<N>(f: Forest<N>): seq<Forest<N>>
    decreases Size(f)
  {
    if f == [] then []
    else
      SizeOfKids(f);
      [f] + Levels(Kids(f))
  }

  /** The subtrees at a depth, left to right. */
  function AtDepth<N>(f: Forest<N>, depth: nat): Forest<N> {
    if f == [] then []
    else (if depth == 0 then [f[0]] else AtDepth(f[0].kids, depth - 1)) + AtDepth(f[1..], depth)
  }

  function Concat<N>(levels: seq<Forest<N>>): Forest<N> {
    if levels == [] then [] else levels[0] + Concat(levels[1..])
  }

  lemma NoKids<N>(f: Forest<N>)
    requires f == []
    ensures Kids(f) == []
  {
  }

  lemma LevelsEnd<N>(f: Forest<N>, done: seq<Forest<N>>)
    requires Levels(f) == done + Levels([])
    ensures Levels(f) == done
  {
  }

  lemma {:induction false} SizeOfAppend<N>(f: Forest<N>, g: Forest<N>)
    ensures Size(f + g) == Size(f) + Size(g)
  {
    if f == [] {
      assert f + g == g;
    } else {
      assert (f + g)[1..] == f[1..] + g;
      SizeOfAppend(f[1..], g);
    }
  }

  lemma {:induction false} SizeOfKids<N>(f: Forest<N>)
    ensures Size(f) == |f| + Size(Kids(f))
  {
    if f != [] {
      SizeOfKids(f[1..]);
      SizeOfAppend(f[0].kids, Kids(f[1..]));
    }
  }

  lemma {:induction false} KidsOfAppend<N>(f: Forest<N>, g: Forest<N>)
    ensures Kids(f + g) == Kids(f) + Kids(g)
  {
    if f == [] {
      assert f + g == g;
    } else {
      assert (f + g)[1..] == f[1..] + g;
      KidsOfAppend(f[1..], g);
    }
  }

  /** The queue hands out its contents first; what is enqueued meanwhile comes after. */
  lemma {:induction false} BfsOfAppend<N>(f: Forest<N>, g: Forest<N>)
    ensures Bfs(f + g) == f + Bfs(g + Kids(f))
    decreases |f|
  {
    if f == [] {
      assert f + g == g && g + Kids(f) == g;
    } else {
      assert (f + g)[1..] + f[0].kids == f[1..] + (g + f[0].kids);
      BfsOfAppend(f[1..], g + f[0].kids);
      assert g + f[0].kids + Kids(f[1..]) == g + Kids(f);
    }
  }

  /** Breadth-first order is the levels, one after another. */
  lemma {:induction false} BfsIsLevels<N>(f: Forest<N>)
    ensures Bfs(f) == Concat(Levels(f))
    decreases Size(f)
  {
    if f != [] {
      SizeOfKids(f);
      BfsOfAppend(f, []);
      assert f + [] == f && [] + Kids(f) == Kids(f);
      BfsIsLevels(Kids(f));
    }
  }

  lemma Regroup<N>(t: Shape<N>, rest: Forest<N>, kids: Forest<N>, later: Forest<N>, queue: Forest<N>)
    requires queue != [] && queue[0] == t && queue[1..] == rest
    ensures [t] + (rest + kids + later) == queue + (kids + later)
  {
  }

  /** Subtrees are enqueued in the order in which they are dequeued: behind the initial queue come the children of the
      visited subtrees, in visiting order. */
  lemma {:induction false} BfsIsEnqueueOrder<N>(queue: Forest<N>)
    ensures Bfs(queue) == queue + Kids(Bfs(queue))
    decreases Size(queue)
  {
    if queue != [] {
      var t, rest := queue[0], queue[1..];
      SizeOfAppend(rest, t.kids);
      BfsIsEnqueueOrder(rest + t.kids);
      var visited := Bfs(rest + t.kids);
      assert Bfs(queue) == [t] + visited;
      assert Kids([t] + visited) == t.kids + Kids(visited) by {
        assert ([t] + visited)[1..] == visited;
      }
      hide *;
      Regroup(t, rest, t.kids, Kids(visited), queue);
    }
  }

  // ---------------------------------------------------------------- levels are depths

  lemma {:induction false} DepthOfAppend<N>(f: Forest<N>, g: Forest<N>, depth: nat)
    ensures AtDepth(f + g, depth) == AtDepth(f, depth) + AtDepth(g, depth)
  {
    if f == [] {
      assert f + g == g;
    } else {
      assert (f + g)[1..] == f[1..] + g;
      DepthOfAppend(f[1..], g, depth);
    }
  }

  lemma {:induction false} DepthZero<N>(f: Forest<N>)
    ensures AtDepth(f, 0) == f
  {
    if f != [] {
      DepthZero(f[1..]);
    }
  }

  lemma {:induction false} OneDeeper<N>(f: Forest<N>, depth: nat)
    ensures AtDepth(f, depth + 1) == AtDepth(Kids(f), depth)
  {
    if f != [] {
      OneDeeper(f[1..], depth);
      DepthOfAppend(f[0].kids, Kids(f[1..]), depth);
    }
  }

  function Level<N>(f: Forest<N>, d: nat): Forest<N> {
    if d < |Levels(f)| then Levels(f)[d] else []
  }

  lemma NextLevel<N>(f: Forest<N>, d: nat)
    ensures Level(f, 0) == f
    ensures f != [] ==> Level(f, d + 1) == Level(Kids(f), d)
    ensures f == [] ==> Level(f, d) == []
  {
  }

  /** Level `d` lists exactly the subtrees of depth `d`, left to right ... */
  lemma {:induction false} LevelsAreDepths<N>(f: Forest<N>, d: nat)
    ensures Level(f, d) == AtDepth(f, d)
    decreases d
  {
    hide Level, Levels;
    if f == [] {
      NextLevel(f, d);
    } else if d == 0 {
      NextLevel(f, 0);
      DepthZero(f);
    } else {
      var e: nat := d - 1;
      NextLevel(f, e);
      OneDeeper(f, e);
      LevelsAreDepths(Kids(f), e);
    }
  }

  /** ... and the levels end where the depths do. */
  lemma {:induction false} LevelsAreInhabited<N>(f: Forest<N>, d: nat)
    requires d < |Levels(f)|
    ensures Levels(f)[d] != []
    decreases d
  {
    if d != 0 {
      LevelsAreInhabited(Kids(f), d - 1);
    }
  }

  // ---------------------------------------------------------------- every node once

  lemma {:induction false} NodesOfAppend<N>(f: Forest<N>, g: Forest<N>)
    ensures NodeSet(f + g) == NodeSet(f) + NodeSet(g)
  {
    if f == [] {
      assert f + g == g;
    } else {
      assert (f + g)[1..] == f[1..] + g;
      NodesOfAppend(f[1..], g);
    }
  }

  lemma {:induction false} SeparatedAppend<N>(f: Forest<N>, g: Forest<N>)
    ensures Separated(f + g) <==> Separated(f) && Separated(g) && NodeSet(f) !! NodeSet(g)
  {
    if f == [] {
      assert f + g == g;
    } else {
      assert (f + g)[1..] == f[1..] + g;
      SeparatedAppend(f[1..], g);
      NodesOfAppend(f[1..], g);
    }
  }

  lemma {:induction false} MatchesAppend<N>(f: Forest<N>, g: Forest<N>, cells: map<N, Cell<N>>)
    ensures Matches(f + g, cells) <==> Matches(f, cells) && Matches(g, cells)
  {
    if f == [] {
      assert f + g == g;
    } else {
      assert (f + g)[1..] == f[1..] + g;
      MatchesAppend(f[1..], g, cells);
    }
  }

  /** Taking a subtree off the queue and adding what is below it loses and doubles nothing. */
  lemma Dequeue<N>(queue: Forest<N>)
    requires queue != [] && Separated(queue)
    ensures var next := queue[1..] + queue[0].kids;
            Separated(next) && NodeSet(queue) == {queue[0].node} + NodeSet(next) && queue[0].node !in NodeSet(next)
            && Size(queue) == 1 + Size(next)
  {
    SeparatedAppend(queue[1..], queue[0].kids);
    NodesOfAppend(queue[1..], queue[0].kids);
    SizeOfAppend(queue[1..], queue[0].kids);
  }

  /** The breadth-first walk meets every node of the forest exactly once. */
  lemma {:induction false} BfsVisitsOnce<N>(queue: Forest<N>)
    requires Separated(queue)
    ensures |Bfs(queue)| == Size(queue)
    ensures forall n :: n in NodeSet(queue) <==> n in Roots(Bfs(queue))
    ensures forall i, j :: 0 <= i < j < |Bfs(queue)| ==> Bfs(queue)[i].node != Bfs(queue)[j].node
    decreases Size(queue)
  {
    if queue != [] {
      Dequeue(queue);
      var next := queue[1..] + queue[0].kids;
      BfsVisitsOnce(next);
      var rest := Bfs(next);
      assert Bfs(queue) == [queue[0]] + rest;
      hide Bfs, Separated, NodeSet, Size;
      assert Roots(Bfs(queue)) == [queue[0].node] + Roots(rest);
      forall j | 0 <= j < |rest| ensures rest[j].node != queue[0].node {
        assert Roots(rest)[j] in Roots(rest);
      }
    }
  }

  // ---------------------------------------------------------------- searches

  /** Position of the first subtree with an id, or the length. */
  function FirstWithId<N>(list: Forest<N>, id: nat): (k: nat)
    ensures k <= |list|
    ensures k < |list| ==> list[k].info.nodeId == id
    ensures forall i :: 0 <= i < k ==> list[i].info.nodeId != id
  {
    if list == [] || list[0].info.nodeId == id then 0 else 1 + FirstWithId(list[1..], id)
  }

  ghost predicate HasKid<N>(t: Shape<N>, id: nat) {
    FirstWithId(t.kids, id) < |t.kids|
  }

  /** Position of the first subtree that has such a child, or the length. */
  ghost function FirstWithKid<N>(list: Forest<N>, id: nat): (p: nat)
    ensures p <= |list|
    ensures p < |list| ==> HasKid(list[p], id)
    ensures forall i :: 0 <= i < p ==> !HasKid(list[i], id)
  {
    if list == [] || HasKid(list[0], id) then 0 else 1 + FirstWithKid(list[1..], id)
  }

  lemma FirstIsUnique<N>(list: Forest<N>, id: nat, k: nat)
    requires k <= |list| && (k < |list| ==> list[k].info.nodeId == id)
    requires forall i :: 0 <= i < k ==> list[i].info.nodeId != id
    ensures FirstWithId(list, id) == k
  {
  }

  lemma FirstOfAppend<N>(f: Forest<N>, g: Forest<N>, id: nat)
    ensures FirstWithId(f + g, id)
            == if FirstWithId(f, id) < |f| then FirstWithId(f, id) else |f| + FirstWithId(g, id)
  {
    var k := if FirstWithId(f, id) < |f| then FirstWithId(f, id) else |f| + FirstWithId(g, id);
    assert forall i :: 0 <= i < k ==> (f + g)[i].info.nodeId != id;
    FirstIsUnique(f + g, id, k);
  }

  /** A match behind a prefix without one is the first. */
  lemma FirstOfPrefix<N>(list: Forest<N>, id: nat, k: nat)
    requires k < |list| && FirstWithId(list[..k], id) == k && list[k].info.nodeId == id
    ensures FirstWithId(list, id) == k
  {
    assert list == list[..k] + list[k..];
    FirstOfAppend(list[..k], list[k..], id);
  }

  lemma FirstKidAt<N>(list: Forest<N>, id: nat, p: nat)
    requires p < |list| && HasKid(list[p], id) && (forall i :: 0 <= i < p ==> !HasKid(list[..p][i], id))
    ensures FirstWithKid(list, id) == p
  {
    assert forall i :: 0 <= i < p ==> list[..p][i] == list[i];
  }

  /** The two searches agree: in any list of subtrees, the first child with an id is the matching child of the first
      subtree that has one. */
  lemma {:induction false} FirstKid<N>(list: Forest<N>, id: nat, p: nat)
    requires p < |list| && HasKid(list[p], id) && (forall i :: 0 <= i < p ==> !HasKid(list[i], id))
    ensures FirstWithId(Kids(list), id) < |Kids(list)|
    ensures Kids(list)[FirstWithId(Kids(list), id)] == list[p].kids[FirstWithId(list[p].kids, id)]
  {
    hide FirstWithId, FirstWithKid;
    var kids, rest := list[0].kids, list[1..];
    assert Kids(list) == kids + Kids(rest);
    FirstOfAppend(kids, Kids(rest), id);
    if p != 0 {
      assert !HasKid(list[0], id);
      FirstKid(list[1..], id, p - 1);
    }
  }

  lemma {:induction false} NoKid<N>(list: Forest<N>, id: nat)
    requires forall i :: 0 <= i < |list| ==> !HasKid(list[i], id)
    ensures FirstWithId(Kids(list), id) == |Kids(list)|
  {
    if list != [] {
      assert !HasKid(list[0], id);
      FirstOfAppend(list[0].kids, Kids(list[1..]), id);
      NoKid(list[1..], id);
    }
  }

  /** FindDfxParent returns the real parent of what FindDfxNode found: the first subtree of the walk that has a child
      with the id has the first match of the walk as its first such child, whatever ids occur twice. */
  lemma ParentOfFirst<N>(root: Shape<N>, id: nat)
    requires root.info.nodeId != id && FirstWithKid(Bfs([root]), id) < |Bfs([root])|
    ensures var walk := Bfs([root]);
            var parent := walk[FirstWithKid(walk, id)];
            && FirstWithId(walk, id) < |walk|
            && walk[FirstWithId(walk, id)] == parent.kids[FirstWithId(parent.kids, id)]
  {
    var walk := Bfs([root]);
    BfsIsEnqueueOrder([root]);
    FirstKid(walk, id, FirstWithKid(walk, id));
    FirstOfAppend([root], Kids(walk), id);
  }

  /** ... and there is one whenever something other than the root was found. */
  lemma ParentExists<N>(root: Shape<N>, id: nat)
    requires root.info.nodeId != id && FirstWithId(Bfs([root]), id) < |Bfs([root])|
    ensures FirstWithKid(Bfs([root]), id) < |Bfs([root])|
  {
    var walk := Bfs([root]);
    BfsIsEnqueueOrder([root]);
    FirstOfAppend([root], Kids(walk), id);
    hide Bfs, Kids;
    if FirstWithKid(walk, id) == |walk| {
      NoKid(walk, id);
    }
  }

  // ---------------------------------------------------------------- labels

  function Labels<N>(f: Forest<N>): (labels: seq<NodeInfo>)
    ensures |labels| == |f| && (forall i :: 0 <= i < |f| ==> labels[i] == f[i].info)
  {
    seq(|f|, i requires 0 <= i < |f| => f[i].info)
  }

  function LevelLabels<N>(levels: seq<Forest<N>>): (labels: seq<seq<NodeInfo>>)
    ensures |labels| == |levels| && (forall i :: 0 <= i < |levels| ==> labels[i] == Labels(levels[i]))
  {
    seq(|levels|, i requires 0 <= i < |levels| => Labels(levels[i]))
  }
}
