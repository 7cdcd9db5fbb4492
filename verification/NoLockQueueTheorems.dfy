/**
  What the lock-free request queue guarantees on every run: node conservation, ABA safety, FIFO delivery, drops only
  when full, interference behind every failed exchange, bounded processing, and faithfulness of the packed words.
*/
module NoLockQueueTheorems {
  import opened NoLockQueue

  /** The configuration a schedule leads to, from a fresh queue. */
  function After(capacity: nat, producers: nat, actions: seq<Action>): Config
    requires 0 < capacity <= MAX_REQUEST_COUNT
  {
    Run(Init(capacity, producers), actions)
  }

  lemma Reach(capacity: nat, producers: nat, actions: seq<Action>) returns (v: View)
    requires 0 < capacity <= MAX_REQUEST_COUNT
    ensures Inv(After(capacity, producers, actions), v)
    ensures |After(capacity, producers, actions).nodes| == capacity
  {
    InitInv(capacity, producers);
    v := RunInv(Init(capacity, producers), InitView(capacity), actions);
    SameCapacity(Init(capacity, producers), actions);
  }

  lemma {:induction false} SameCapacity(c: Config, actions: seq<Action>)
    ensures |Run(c, actions).nodes| == |c.nodes|
    decreases |actions|
  {
    if actions != [] {
      SameCapacity(Step(c, actions[0]), actions[1..]);
    }
  }

  // ---------------------------------------------------------------- node conservation

  /** The indices met from `head` along the `next` fields, top last; the walk ends at the invalid index. */
  ghost predicate Chain(nodes: seq<RequestNode>, head: Link, list: seq<nat>) {
    && head.index == (if list == [] then INVALID_REQUEST_ID else Top(list))
    && (forall k :: 0 <= k < |list| ==> list[k] < |nodes|)
    && (forall k {:trigger nodes[list[k]]} :: 0 <= k < |list| ==>
          nodes[list[k]].next.index == if k == 0 then INVALID_REQUEST_ID else list[k - 1])
  }

  lemma LinkedIsChain(nodes: seq<RequestNode>, flags: seq<nat>, head: Link, list: seq<nat>)
    requires Linked(nodes, flags, head, list)
    ensures Chain(nodes, head, list)
  {
    forall k | 0 <= k < |list|
      ensures nodes[list[k]].next.index == if k == 0 then INVALID_REQUEST_ID else list[k - 1]
    {
      assert Points(flags, nodes[list[k]].next, list, k);
    }
  }

  /** The node a producer has popped and not yet committed, if any. */
  function HeldNode(p: Producer): multiset<nat> {
    match p
    case Fill(_, w) => multiset{w.index}
    case LoadPending(_, w) => multiset{w.index}
    case LinkPending(_, w, _) => multiset{w.index}
    case CasPending(_, w, _) => multiset{w.index}
    case _ => multiset{}
  }

  function HeldNodes(producers: seq<Producer>): multiset<nat> {
    if producers == [] then multiset{}
    else HeldNodes(producers[..|producers| - 1]) + HeldNode(producers[|producers| - 1])
  }

  /** The node the consumer has taken off its detached list but not yet given back, if any. */
  function NodeInHand(s: Consumer): multiset<nat> {
    match s
    case Take(_, _, l, _) => multiset{l.index}
    case LoadFreeHead(_, _, l, _) => multiset{l.index}
    case LinkFree(_, _, l, _, _) => multiset{l.index}
    case CasFreeHead(_, _, l, _, _) => multiset{l.index}
    case _ => multiset{}
  }

  /** Where the rest of the detached list starts. */
  function Remainder(s: Consumer): Link {
    match s
    case Walk(_, _, l) => l
    case Take(_, _, _, n) => n
    case LoadFreeHead(_, _, _, n) => n
    case LinkFree(_, _, _, n, _) => n
    case CasFreeHead(_, _, _, n, _) => n
    case _ => NIL
  }

  function Indices(capacity: nat): seq<nat> {
    seq(capacity, (i: nat) => i)
  }

  lemma {:induction false} OccursOnce(list: seq<nat>, places: seq<nat>, n: nat)
    requires forall k :: 0 <= k < |list| ==> list[k] < |places| && places[list[k]] == k
    ensures multiset(list)[n] == if n < |places| && places[n] < |list| && list[places[n]] == n then 1 else 0
  {
    if list != [] {
      var rest := list[..|list| - 1];
      assert list == rest + [list[|list| - 1]];
      OccursOnce(rest, places, n);
    }
  }

  lemma OwnedOnce(owners: seq<Owner>, places: seq<nat>, o: Owner, list: seq<nat>, n: nat)
    requires Owns(owners, places, o, list)
    ensures multiset(list)[n] == if n < |owners| && owners[n] == o then 1 else 0
  {
    forall k | 0 <= k < |list| ensures list[k] < |places| && places[list[k]] == k {
      assert owners[list[k]] == o;
    }
    OccursOnce(list, places, n);
    if n < |owners| && owners[n] != o && places[n] < |list| {
      NotOn(owners, places, o, list, n);
    }
  }

  lemma HeldBefore(nodes: seq<RequestNode>, p: Producer, v: View, m: nat, n: nat)
    requires ProducerInv(nodes, p, v, m)
    ensures HeldNode(p)[n] == if n < |v.owners| && v.owners[n] == HeldBy(m) then 1 else 0
  {
  }

  lemma {:induction false} HeldOnce(nodes: seq<RequestNode>, producers: seq<Producer>, v: View, m: nat, n: nat)
    requires m <= |producers| && ProducersInv(nodes, producers, v)
    ensures HeldNodes(producers[..m])[n] ==
            if n < |v.owners| && v.owners[n].HeldBy? && v.owners[n].thread < m then 1 else 0
  {
    if m != 0 {
      HeldOnce(nodes, producers, v, m - 1, n);
      assert producers[..m][..m - 1] == producers[..m - 1];
      HeldBefore(nodes, producers[m - 1], v, m - 1, n);
    }
  }

  lemma SplitDetached(nodes: seq<RequestNode>, s: Consumer, v: View) returns (rest: seq<nat>)
    requires ConsumerInv(nodes, s, v)
    ensures Chain(nodes, Remainder(s), rest)
    ensures multiset(v.detached) == multiset(rest) + NodeInHand(s)
  {
    if NodeInHand(s) == multiset{} {
      rest := v.detached;
    } else {
      rest := Below(v.detached);
      assert v.detached == rest + [Top(v.detached)];
    }
    if s.Walk? || NodeInHand(s) != multiset{} {
      LinkedIsChain(nodes, v.flags, Remainder(s), rest);
    }
  }

  lemma IndicesOnce(capacity: nat, n: nat)
    ensures multiset(Indices(capacity))[n] == if n < capacity then 1 else 0
  {
    OccursOnce(Indices(capacity), Indices(capacity), n);
  }

  /** The three chains and everything outside them. */
  ghost predicate Conserved(c: Config, free: seq<nat>, pending: seq<nat>, rest: seq<nat>) {
    && Chain(c.nodes, c.free, free)
    && Chain(c.nodes, c.pending, pending)
    && Chain(c.nodes, Remainder(c.consumer), rest)
    && multiset(free) + multiset(pending) + multiset(rest) + NodeInHand(c.consumer) + HeldNodes(c.producers)
       == multiset(Indices(|c.nodes|))
    && |free| + |pending| + |rest| + |NodeInHand(c.consumer)| + |HeldNodes(c.producers)| == |c.nodes|
  }

  /**
    Node conservation.  After every step of every schedule the free chain, the pending chain, the rest of the detached
    chain, the node in the consumer's hand and the nodes held by producers together hold every node exactly once; so
    no chain has a cycle, no two share a node and the counts add up to the capacity.
  */
  lemma NodeConservation(capacity: nat, producers: nat, actions: seq<Action>)
    requires 0 < capacity <= MAX_REQUEST_COUNT
    ensures |After(capacity, producers, actions).nodes| == capacity
    ensures exists free, pending, rest :: Conserved(After(capacity, producers, actions), free, pending, rest)
  {
    var v := Reach(capacity, producers, actions);
    var rest := ConservedBy(After(capacity, producers, actions), v);
  }

  lemma ConservedBy(c: Config, v: View) returns (rest: seq<nat>)
    requires Inv(c, v)
    ensures Conserved(c, v.free, v.pending, rest)
  {
    rest := SplitDetached(c.nodes, c.consumer, v);
    LinkedIsChain(c.nodes, v.flags, c.free, v.free);
    LinkedIsChain(c.nodes, v.flags, c.pending, v.pending);
    AllAccounted(c, v);
    var all := multiset(v.free) + multiset(v.pending) + multiset(rest) + NodeInHand(c.consumer)
               + HeldNodes(c.producers);
    assert |all| == |multiset(Indices(|c.nodes|))|;
  }

  lemma AllAccounted(c: Config, v: View)
    requires Inv(c, v)
    ensures multiset(v.free) + multiset(v.pending) + multiset(v.detached) + HeldNodes(c.producers)
            == multiset(Indices(|c.nodes|))
  {
    forall n: nat
      ensures multiset(v.free)[n] + multiset(v.pending)[n] + multiset(v.detached)[n] + HeldNodes(c.producers)[n]
              == multiset(Indices(|c.nodes|))[n]
    {
      OnceEach(c, v, n);
    }
  }

  lemma OnceEach(c: Config, v: View, n: nat)
    requires Inv(c, v)
    ensures multiset(v.free)[n] + multiset(v.pending)[n] + multiset(v.detached)[n] + HeldNodes(c.producers)[n]
            == multiset(Indices(|c.nodes|))[n]
  {
    OwnedOnce(v.owners, v.places, InFree, v.free, n);
    OwnedOnce(v.owners, v.places, InPending, v.pending, n);
    OwnedOnce(v.owners, v.places, InDetached, v.detached, n);
    assert c.producers[..|c.producers|] == c.producers;
    HeldOnce(c.nodes, c.producers, v, |c.producers|, n);
    IndicesOnce(|c.nodes|, n);
  }

  // ---------------------------------------------------------------- ABA safety

  /**
    A pop whose compare-and-swap is about to succeed, however stale its snapshot: the node was not allocated again
    since (its allocation count is still the snapshot's flag), the `next` it read is still the node's, and the pop
    takes exactly the top off the free chain.
  */
  lemma PopInstallsTrueSuccessor(capacity: nat, producers: nat, actions: seq<Action>, i: nat)
    requires 0 < capacity <= MAX_REQUEST_COUNT
    requires var c := After(capacity, producers, actions);
             i < |c.producers| && c.producers[i].CasFree? && c.free == c.producers[i].head
    ensures var c := After(capacity, producers, actions);
            var CasFree(r, h, next) := c.producers[i];
            var c' := Step(c, Produce(i));
            && Allocations(c.events, h.index) == h.flag
            && NodeAt(c, h).next == next
            && exists rest :: Chain(c.nodes, c.free, rest + [h.index]) && Chain(c'.nodes, c'.free, rest)
  {
    var v := Reach(capacity, producers, actions);
    PopCurrent(After(capacity, producers, actions), v, i);
  }

  lemma PopCurrent(c: Config, v: View, i: nat)
    requires Inv(c, v)
    requires i < |c.producers| && c.producers[i].CasFree? && c.free == c.producers[i].head
    ensures var CasFree(r, h, next) := c.producers[i];
            var c' := Step(c, Produce(i));
            && Allocations(c.events, h.index) == h.flag
            && NodeAt(c, h).next == next
            && exists rest :: Chain(c.nodes, c.free, rest + [h.index]) && Chain(c'.nodes, c'.free, rest)
  {
    var h := c.producers[i].head;
    SnapshotCurrent(c, v, i);
    hide *;
    FreeChain(c, v);
    StepPop(c, v, i);
    FreeChain(Step(c, Produce(i)), ViewStep(c, v, Produce(i)));
  }

  /** The snapshot of a pop about to succeed: its flag is the allocation count, its node the top of the free list, its
      successor read the successor still; and the pop leaves the list below. */
  lemma SnapshotCurrent(c: Config, v: View, i: nat)
    requires Inv(c, v)
    requires i < |c.producers| && c.producers[i].CasFree? && c.free == c.producers[i].head
    ensures var CasFree(r, h, next) := c.producers[i];
            && Allocations(c.events, h.index) == h.flag
            && NodeAt(c, h).next == next
            && v.free == Below(v.free) + [h.index]
            && ViewStep(c, v, Produce(i)).free == Below(v.free)
  {
    var h := c.producers[i].head;
    SnapshotFlag(c, v, i);
    CurrentHead(c, v, h);
    CurrentPop(c, v, i);
    hide *;
    TopLast(v.free, h.index);
  }

  lemma TopLast(list: seq<nat>, n: nat)
    requires list != [] && Top(list) == n
    ensures list == Below(list) + [n]
  {
  }

  lemma CurrentPop(c: Config, v: View, i: nat)
    requires i < |c.producers| && c.producers[i].CasFree? && c.free == c.producers[i].head
    requires c.free.index < |v.owners| && c.free.index < |v.flags| && v.free != []
    ensures ViewStep(c, v, Produce(i)).free == Below(v.free)
  {
  }

  lemma SnapshotFlag(c: Config, v: View, i: nat)
    requires Inv(c, v)
    requires i < |c.producers| && c.producers[i].CasFree? && c.free == c.producers[i].head
    ensures var CasFree(r, h, next) := c.producers[i];
            && Snapshot(c.nodes, v, h)
            && v.flags[h.index] == Allocations(c.events, h.index)
            && (h.flag == v.flags[h.index] ==> NodeAt(c, h).next == next)
  {
    hide Linked, Owns, ConsumerInv, QueueInv, DueInv, Allocations;
    assert ProducerInv(c.nodes, c.producers[i], v, i);
  }

  lemma FreeChain(c: Config, v: View)
    requires Inv(c, v)
    ensures Chain(c.nodes, c.free, v.free)
  {
    LinkedIsChain(c.nodes, v.flags, c.free, v.free);
  }

  lemma {:induction false} EventsGrow(c: Config, actions: seq<Action>) returns (more: seq<Event>)
    ensures Run(c, actions).events == c.events + more
    decreases |actions|
  {
    hide Step;
    if actions == [] {
      more := [];
    } else {
      var first := StepLog(c, actions[0], Empty);
      var rest := EventsGrow(Step(c, actions[0]), actions[1..]);
      more := first + rest;
    }
  }

  /**
    ABA safety over a run: from the configuration in which the free head was `h` to the one in which thread `i`
    successfully exchanges its snapshot `h`, nobody allocated that node.
  */
  lemma NotReallocatedSinceSnapshot(capacity: nat, producers: nat, before: seq<Action>, between: seq<Action>, i: nat)
    requires 0 < capacity <= MAX_REQUEST_COUNT
    requires var c := After(capacity, producers, before);
             var d := Run(c, between);
             && c.free.index != INVALID_REQUEST_ID
             && i < |d.producers| && d.producers[i].CasFree? && d.producers[i].head == c.free && d.free == c.free
    ensures var c := After(capacity, producers, before);
            var d := Run(c, between);
            && c.events <= d.events
            && Allocated(c.free.index) !in d.events[|c.events|..]
  {
    var c := After(capacity, producers, before);
    var d := Run(c, between);
    RunSplit(Init(capacity, producers), before, between);
    PopInstallsTrueSuccessor(capacity, producers, before + between, i);
    var v := Reach(capacity, producers, before);
    assert v.flags[c.free.index] == Allocations(c.events, c.free.index);
    var more := EventsGrow(c, between);
    assert multiset(d.events) == multiset(c.events) + multiset(more);
    assert d.events[|c.events|..] == more;
  }

  lemma {:induction false} RunSplit(c: Config, a: seq<Action>, b: seq<Action>)
    ensures Run(c, a + b) == Run(Run(c, a), b)
    decreases |a|
  {
    if a == [] {
      assert a + b == b;
    } else {
      assert (a + b)[1..] == a[1..] + b;
      RunSplit(Step(c, a[0]), a[1..], b);
    }
  }

  // ---------------------------------------------------------------- FIFO and exactly once

  predicate NothingInHand(s: Consumer) {
    s.Resting? || s.LoadDetach? || s.CasDetach? || s.LoadFlag? || s.Exchange?
  }

  /**
    FIFO, exactly once.  What has run so far is a prefix of what the specification's queue says is due: every batch is
    everything committed before its detach and not taken before, in commit order, without the null requests; between
    batches everything due has run.  The pending chain is the specification's queue.
  */
  lemma Fifo(capacity: nat, producers: nat, actions: seq<Action>)
    requires 0 < capacity <= MAX_REQUEST_COUNT
    ensures var c := After(capacity, producers, actions);
            var ledger := Replay(c.events);
            && ExecutedIds(c.events) <= ledger.due
            && (NothingInHand(c.consumer) ==> ExecutedIds(c.events) == ledger.due)
            && exists pending ::
                 && Chain(c.nodes, c.pending, pending)
                 && |pending| == |ledger.queue|
                 && forall k :: 0 <= k < |pending| ==> c.nodes[pending[k]].request == ledger.queue[k]
  {
    var c := After(capacity, producers, actions);
    var v := Reach(capacity, producers, actions);
    LinkedIsChain(c.nodes, v.flags, c.pending, v.pending);
    assert ExecutedIds(c.events) + [] == ExecutedIds(c.events);
  }

  /** IsFinishProcess answers true exactly when every committed request has been taken. */
  lemma IsFinishProcess(capacity: nat, producers: nat, actions: seq<Action>)
    requires 0 < capacity <= MAX_REQUEST_COUNT
    ensures var c := After(capacity, producers, actions);
            c.pending.index == INVALID_REQUEST_ID <==> Replay(c.events).queue == []
  {
    var v := Reach(capacity, producers, actions);
    if v.pending != [] {
      assert Top(v.pending) < capacity;
    }
  }

  function Commits(events: seq<Event>): seq<Request> {
    if events == [] then []
    else
      var e := events[|events| - 1];
      Commits(events[..|events| - 1]) + if e.Committed? then [e.request] else []
  }

  /** What resets threw away. */
  function Discards(events: seq<Event>): seq<int> {
    if events == [] then []
    else
      var before := events[..|events| - 1];
      Discards(before) +
      if events[|events| - 1] == Detached(false) then Tasks(Replay(before).queue) else []
  }

  lemma {:induction false} TasksSplit(a: seq<Request>, b: seq<Request>)
    ensures Tasks(a + b) == Tasks(a) + Tasks(b)
  {
    if a == [] {
      assert a + b == b;
    } else {
      assert (a + b)[1..] == a[1..] + b && (a + b)[0] == a[0];
      TasksSplit(a[1..], b);
      var first := if a[0].Task? then [a[0].id] else [];
      assert Tasks(a + b) == first + Tasks(a[1..] + b) && Tasks(a) == first + Tasks(a[1..]);
      hide *;
      assert first + (Tasks(a[1..]) + Tasks(b)) == first + Tasks(a[1..]) + Tasks(b);
    }
  }

  /** Nothing committed is lost or duplicated by the specification: due, queued and discarded tasks are the committed
      ones; without a reset they are the committed ones in commit order. */
  lemma {:induction false} LedgerKeepsEverything(events: seq<Event>)
    ensures multiset(Replay(events).due) + multiset(Tasks(Replay(events).queue)) + multiset(Discards(events))
            == multiset(Tasks(Commits(events)))
    ensures Detached(false) !in events ==>
              Replay(events).due + Tasks(Replay(events).queue) == Tasks(Commits(events))
  {
    if events != [] {
      var before, e := events[..|events| - 1], events[|events| - 1];
      assert events == before + [e];
      LedgerKeepsEverything(before);
      LedgerStep(before, e);
      CommitsStep(before, e);
    }
  }

  lemma AppendMore(events: seq<Event>, e: Event)
    ensures Commits(events + [e]) == Commits(events) + if e.Committed? then [e.request] else []
    ensures Discards(events + [e]) ==
            Discards(events) + if e == Detached(false) then Tasks(Replay(events).queue) else []
  {
    assert (events + [e])[..|events + [e]| - 1] == events;
  }

  /** What an event adds to the committed tasks. */
  function NewTasks(e: Event): seq<int> {
    if e.Committed? then Tasks([e.request]) else []
  }

  lemma CommitsStep(before: seq<Event>, e: Event)
    ensures Tasks(Commits(before + [e])) == Tasks(Commits(before)) + NewTasks(e)
  {
    hide Tasks;
    AppendMore(before, e);
    if e.Committed? {
      TasksSplit(Commits(before), [e.request]);
    } else {
      assert Commits(before + [e]) == Commits(before);
    }
  }

  lemma LedgerStep(before: seq<Event>, e: Event)
    ensures var (l, l') := (Replay(before), Replay(before + [e]));
            && multiset(l'.due) + multiset(Tasks(l'.queue)) + multiset(Discards(before + [e]))
               == multiset(l.due) + multiset(Tasks(l.queue)) + multiset(Discards(before)) + multiset(NewTasks(e))
            && (e != Detached(false) ==> l'.due + Tasks(l'.queue) == l.due + Tasks(l.queue) + NewTasks(e))
  {
    Append(before, e);
    AppendMore(before, e);
    if e.Committed? {
      TasksSplit(Replay(before).queue, [e.request]);
    }
    assert Tasks([]) == [];
    hide Replay, Discards, Tasks;
    Rearranged(Replay(before), Replay(before + [e]), Tasks(Replay(before).queue), Tasks(Replay(before + [e]).queue),
               Discards(before), Discards(before + [e]), NewTasks(e), e);
  }

  lemma Rearranged(l: Ledger, l': Ledger, waiting: seq<int>, waiting': seq<int>, gone: seq<int>, gone': seq<int>,
                   more: seq<int>, e: Event)
    requires !e.Detached? ==> l'.due == l.due && waiting' == waiting + more && gone' == gone
    requires e == Detached(true) ==> more == [] && l'.due == l.due + waiting && waiting' == [] && gone' == gone
    requires e == Detached(false) ==> more == [] && l'.due == l.due && waiting' == [] && gone' == gone + waiting
    ensures multiset(l'.due) + multiset(waiting') + multiset(gone')
            == multiset(l.due) + multiset(waiting) + multiset(gone) + multiset(more)
    ensures e != Detached(false) ==> l'.due + waiting' == l.due + waiting + more
  {
  }

  // ---------------------------------------------------------------- calls end in a commit or a drop

  /** How many producers are inside PushRequest with request `r`. */
  function InFlight(producers: seq<Producer>, r: Request): nat {
    if producers == [] then 0
    else
      var p := producers[|producers| - 1];
      InFlight(producers[..|producers| - 1], r) + if !p.Idle? && p.request == r then 1 else 0
  }

  ghost predicate Accounted(c: Config) {
    forall r ::
      multiset(c.events)[Began(r)] ==
      multiset(c.events)[Committed(r)] + multiset(c.events)[Dropped(r)] + InFlight(c.producers, r)
  }

  function Carries(p: Producer, r: Request): nat {
    if !p.Idle? && p.request == r then 1 else 0
  }

  lemma {:induction false} InFlightUpdate(producers: seq<Producer>, i: nat, p: Producer, r: Request)
    requires i < |producers|
    ensures InFlight(producers[i := p], r) + Carries(producers[i], r) == InFlight(producers, r) + Carries(p, r)
  {
    var m := |producers| - 1;
    var producers' := producers[i := p];
    if i == m {
      assert producers'[..m] == producers[..m];
    } else {
      assert producers'[..m] == producers[..m][i := p];
      InFlightUpdate(producers[..m], i, p, r);
    }
  }

  /** What a step logs and what it does to the requests that thread carries. */
  lemma StepLog(c: Config, a: Action, r: Request) returns (news: seq<Event>)
    ensures Step(c, a).events == c.events + news
    ensures (a.Produce? || a.BeginPush?) && a.thread < |c.producers| ==>
              var p' := Step(c, a).producers[a.thread];
              && Step(c, a).producers == c.producers[a.thread := p']
              && Carries(c.producers[a.thread], r) + multiset(news)[Began(r)] ==
                 Carries(p', r) + multiset(news)[Committed(r)] + multiset(news)[Dropped(r)]
    ensures !((a.Produce? || a.BeginPush?) && a.thread < |c.producers|) ==>
              && Step(c, a).producers == c.producers
              && multiset(news)[Began(r)] == multiset(news)[Committed(r)] + multiset(news)[Dropped(r)]
  {
    var c' := Step(c, a);
    news := if c'.events == c.events then [] else [c'.events[|c.events|]];
  }

  lemma AccountedStep(c: Config, a: Action)
    requires Accounted(c)
    ensures Accounted(Step(c, a))
  {
    var c' := Step(c, a);
    forall r ensures multiset(c'.events)[Began(r)] ==
                     multiset(c'.events)[Committed(r)] + multiset(c'.events)[Dropped(r)] + InFlight(c'.producers, r)
    {
      AccountedFor(c, a, c', r);
    }
  }

  lemma AccountedFor(c: Config, a: Action, c': Config, r: Request)
    requires Accounted(c) && c' == Step(c, a)
    ensures multiset(c'.events)[Began(r)] ==
            multiset(c'.events)[Committed(r)] + multiset(c'.events)[Dropped(r)] + InFlight(c'.producers, r)
  {
    var news := StepLog(c, a, r);
    if (a.Produce? || a.BeginPush?) && a.thread < |c.producers| {
      InFlightUpdate(c.producers, a.thread, c'.producers[a.thread], r);
    }
    assert multiset(c'.events) == multiset(c.events) + multiset(news);
  }

  lemma {:induction false} AccountedRun(c: Config, actions: seq<Action>)
    requires Accounted(c)
    ensures Accounted(Run(c, actions))
    decreases |actions|
  {
    if actions != [] {
      AccountedStep(c, actions[0]);
      AccountedRun(Step(c, actions[0]), actions[1..]);
    }
  }

  lemma {:induction false} NobodyInFlight(n: nat, r: Request)
    ensures InFlight(seq(n, _ => Idle), r) == 0
  {
    if n != 0 {
      NobodyInFlight(n - 1, r);
      assert seq(n, _ => Idle)[..n - 1] == seq(n - 1, _ => Idle);
    }
  }

  /** Every PushRequest that began has committed once, been dropped once, or is still under way. */
  lemma PushesAccounted(capacity: nat, producers: nat, actions: seq<Action>)
    requires 0 < capacity <= MAX_REQUEST_COUNT
    ensures Accounted(After(capacity, producers, actions))
  {
    var idle := seq(producers, _ => Idle);
    forall r ensures InFlight(idle, r) == 0 {
      NobodyInFlight(producers, r);
    }
    AccountedRun(Init(capacity, producers), actions);
  }

  /** The nodes that are not free: pending, detached, in the consumer's hand or held by a producer. */
  ghost predicate InUse(c: Config, count: nat) {
    exists pending, rest ::
      && Chain(c.nodes, c.pending, pending)
      && Chain(c.nodes, Remainder(c.consumer), rest)
      && count == |pending| + |rest| + |NodeInHand(c.consumer)| + |HeldNodes(c.producers)|
  }

  /** A step of the whole system drops a request exactly when it is the load of a push of that request while every node of
      the queue is in use: a failed exchange never drops one. */
  lemma DroppedOnlyWhenFull(capacity: nat, producers: nat, actions: seq<Action>, a: Action, r: Request)
    requires 0 < capacity <= MAX_REQUEST_COUNT
    ensures var c := After(capacity, producers, actions);
            Step(c, a).events == c.events + [Dropped(r)] <==>
            a.Produce? && a.thread < |c.producers| && c.producers[a.thread] == LoadFree(r) && InUse(c, capacity)
  {
    var c := After(capacity, producers, actions);
    var v := Reach(capacity, producers, actions);
    hide Inv, Run, Init, InUse;
    InUseMeansNoneFree(c, v);
    EmptyFreeHead(c, v);
    DropsOnEmptyHead(c, a, r);
    hide Step;
  }

  lemma DropsOnEmptyHead(c: Config, a: Action, r: Request)
    ensures Step(c, a).events == c.events + [Dropped(r)] <==>
            a.Produce? && a.thread < |c.producers| && c.producers[a.thread] == LoadFree(r)
            && c.free.index == INVALID_REQUEST_ID
  {
    var n, more := |c.events|, Step(c, a).events;
    assert more == c.events || (|more| == n + 1 && more == c.events + [more[n]]);
    assert (c.events + [Dropped(r)])[n] == Dropped(r);
  }

  lemma InUseMeansNoneFree(c: Config, v: View)
    requires Inv(c, v)
    ensures InUse(c, |c.nodes|) <==> v.free == []
  {
    assert |c.nodes| <= INVALID_REQUEST_ID;
    hide Inv, Chain;
    var rest := ConservedBy(c, v);
    InUseUnique(c, v.pending, rest);
  }

  lemma EmptyFreeHead(c: Config, v: View)
    requires Inv(c, v)
    ensures c.free.index == INVALID_REQUEST_ID <==> v.free == []
  {
    if v.free != [] {
      assert Top(v.free) < |c.nodes|;
    }
  }

  lemma InUseUnique(c: Config, pending: seq<nat>, rest: seq<nat>)
    requires |c.nodes| <= INVALID_REQUEST_ID
    requires Chain(c.nodes, c.pending, pending) && Chain(c.nodes, Remainder(c.consumer), rest)
    ensures forall count :: InUse(c, count) ==>
              count == |pending| + |rest| + |NodeInHand(c.consumer)| + |HeldNodes(c.producers)|
  {
    forall list | Chain(c.nodes, c.pending, list) ensures list == pending {
      ChainUnique(c.nodes, c.pending, list, pending);
    }
    forall list | Chain(c.nodes, Remainder(c.consumer), list) ensures list == rest {
      ChainUnique(c.nodes, Remainder(c.consumer), list, rest);
    }
  }

  /** From a head there is one chain. */
  lemma {:induction false} ChainUnique(nodes: seq<RequestNode>, head: Link, a: seq<nat>, b: seq<nat>)
    requires |nodes| <= INVALID_REQUEST_ID
    requires Chain(nodes, head, a) && Chain(nodes, head, b)
    ensures a == b
    decreases |a|
  {
    HeadInside(nodes, head, a);
    HeadInside(nodes, head, b);
    if a != [] {
      ChainTail(nodes, head, a);
      ChainTail(nodes, head, b);
      ChainUnique(nodes, nodes[Top(a)].next, Below(a), Below(b));
      assert a == Below(a) + [Top(a)] && b == Below(b) + [Top(b)];
    }
  }

  lemma HeadInside(nodes: seq<RequestNode>, head: Link, list: seq<nat>)
    requires |nodes| <= INVALID_REQUEST_ID
    requires Chain(nodes, head, list)
    ensures list != [] <==> head.index < |nodes|
  {
    if list != [] {
      assert list[|list| - 1] < |nodes|;
    }
  }

  lemma ChainTail(nodes: seq<RequestNode>, head: Link, list: seq<nat>)
    requires Chain(nodes, head, list) && list != []
    ensures Chain(nodes, nodes[Top(list)].next, Below(list))
  {
    var rest := Below(list);
    assert nodes[list[|list| - 1]].next.index == if |list| == 1 then INVALID_REQUEST_ID else list[|list| - 2];
    forall k | 0 <= k < |rest|
      ensures nodes[rest[k]].next.index == if k == 0 then INVALID_REQUEST_ID else rest[k - 1]
    {
      assert rest[k] == list[k];
    }
  }
}
