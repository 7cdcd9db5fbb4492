/**
  The queue in the form of its code: loops over atomic accesses, with the other threads running in between.  Every method
  is one thread's calls; `others` says what the remaining threads do before each of its accesses.
*/
module NoLockQueueClass {
  import opened NoLockQueue
  import opened NoLockQueueTheorems

  /** The thread inside HandleRequests or Reset, where a producer would have its number. */
  const CONSUMER := -1

  /** An action of a thread other than `me`. */
  predicate Foreign(me: int, a: Action) {
    match a
    case BeginPush(t, _) => t != me
    case Produce(t) => t != me
    case _ => me != CONSUMER
  }

  predicate AllForeign(me: int, others: seq<seq<Action>>) {
    forall k, j :: 0 <= k < |others| && 0 <= j < |others[k]| ==> Foreign(me, others[k][j])
  }

  lemma NextTurn(me: int, others: seq<seq<Action>>)
    requires AllForeign(me, others) && others != []
    ensures forall j :: 0 <= j < |others[0]| ==> Foreign(me, others[0][j])
    ensures AllForeign(me, others[1..])
  {
  }

  /** Other threads leave a thread where it is. */
  lemma {:induction false} OthersRun(c: Config, actions: seq<Action>, me: int)
    requires forall j :: 0 <= j < |actions| ==> Foreign(me, actions[j])
    ensures var c' := Run(c, actions);
            && |c'.producers| == |c.producers| && |c'.nodes| == |c.nodes|
            && (0 <= me < |c.producers| ==> c'.producers[me] == c.producers[me])
            && (me == CONSUMER ==> c'.consumer == c.consumer)
            && c.events <= c'.events
    decreases |actions|
  {
    if actions != [] {
      OthersRun(Step(c, actions[0]), actions[1..], me);
    }
  }

  lemma StepTaken(start: Config, history: seq<Action>, c: Config, v: View, a: Action)
    requires c == Run(start, history) && Inv(c, v)
    ensures Step(c, a) == Run(start, history + [a]) && Inv(Step(c, a), ViewStep(c, v, a))
  {
    hide Inv, Step, ViewStep;
    StepInv(c, v, a);
    RunSplit(start, history, [a]);
    assert Run(c, [a]) == Step(c, a);
  }

  /** The auxiliary view after a run. */
  ghost function RunView(c: Config, v: View, actions: seq<Action>): View
    decreases |actions|
  {
    if actions == [] then v else RunView(Step(c, actions[0]), ViewStep(c, v, actions[0]), actions[1..])
  }

  lemma {:induction false} RunViewInv(c: Config, v: View, actions: seq<Action>)
    requires Inv(c, v)
    ensures Inv(Run(c, actions), RunView(c, v, actions))
    decreases |actions|
  {
    if actions != [] {
      StepInv(c, v, actions[0]);
      RunViewInv(Step(c, actions[0]), ViewStep(c, v, actions[0]), actions[1..]);
    }
  }

  /** Producers leave the nodes the consumer detached alone. */
  lemma {:induction false} OthersKeepDetached(c: Config, v: View, actions: seq<Action>)
    requires forall j :: 0 <= j < |actions| ==> Foreign(CONSUMER, actions[j])
    ensures RunView(c, v, actions).detached == v.detached
    decreases |actions|
  {
    if actions != [] {
      OthersKeepDetached(Step(c, actions[0]), ViewStep(c, v, actions[0]), actions[1..]);
    }
  }

  /** What the other threads' actions between two accesses of `me` do. */
  lemma TurnOf(start: Config, history: seq<Action>, s: Config, v: View, actions: seq<Action>, me: int)
    requires s == Run(start, history) && Inv(s, v) && CONSUMER <= me < |s.producers|
    requires forall j :: 0 <= j < |actions| ==> Foreign(me, actions[j])
    ensures var c := Run(s, actions);
            && c == Run(start, history + actions) && Inv(c, RunView(s, v, actions))
            && |c.producers| == |s.producers| && |c.nodes| == |s.nodes| && s.events <= c.events
            && (me >= 0 ==> c.producers[me] == s.producers[me])
            && (me == CONSUMER ==> c.consumer == s.consumer && RunView(s, v, actions).detached == v.detached
                                   && OnlyAdded(s.events, c.events))
  {
    hide Inv, Run, RunView;
    OthersRun(s, actions, me);
    RunSplit(start, history, actions);
    RunViewInv(s, v, actions);
    if me == CONSUMER {
      OthersKeepDetached(s, v, actions);
      OthersOnlyAdd(s, actions);
    }
  }

  /** The queue has only been added to: nothing was taken over, to be run or to be thrown away. */
  predicate OnlyAdded(a: seq<Event>, b: seq<Event>) {
    Replay(a).due == Replay(b).due && Replay(a).queue <= Replay(b).queue && Discards(a) == Discards(b)
  }

  /** All that is executed or will be when the queue is taken over. */
  function Promised(l: Ledger): seq<int> {
    l.due + Tasks(l.queue)
  }

  /** What was queued stays a prefix of what is queued. */
  lemma QueueGrows(a: seq<Event>, b: seq<Event>)
    requires OnlyAdded(a, b)
    ensures Tasks(Replay(a).queue) <= Tasks(Replay(b).queue)
  {
    var q, r := Replay(a).queue, Replay(b).queue;
    TasksSplit(q, r[|q|..]);
    assert r == q + r[|q|..];
  }

  lemma PromiseGrows(a: seq<Event>, b: seq<Event>)
    requires OnlyAdded(a, b)
    ensures Promised(Replay(a)) <= Promised(Replay(b))
  {
    QueueGrows(a, b);
  }

  /** An event that is no detach adds to the queue at most. */
  lemma OneEvent(events: seq<Event>, e: Event)
    requires !e.Detached?
    ensures OnlyAdded(events, events + [e])
    ensures !e.Committed? ==> Replay(events + [e]) == Replay(events)
  {
    Append(events, e);
    AppendMore(events, e);
  }

  /** Producers only add to the queue. */
  lemma {:induction false} OthersOnlyAdd(c: Config, actions: seq<Action>)
    requires forall j :: 0 <= j < |actions| ==> Foreign(CONSUMER, actions[j])
    ensures OnlyAdded(c.events, Run(c, actions).events)
    decreases |actions|
  {
    if actions != [] {
      OneAdds(c, actions[0]);
      OthersOnlyAdd(Step(c, actions[0]), actions[1..]);
    }
  }

  lemma OneAdds(c: Config, a: Action)
    requires Foreign(CONSUMER, a)
    ensures OnlyAdded(c.events, Step(c, a).events)
  {
    hide Replay, Discards;
    var more := Step(c, a).events;
    if more != c.events {
      OneEvent(c.events, more[|c.events|]);
      assert more == c.events + [more[|c.events|]];
    }
  }

  /** Only detaching takes anything over. */
  lemma ConsumerTakesNothing(c: Config)
    requires !c.consumer.CasDetach? && !c.consumer.Exchange?
    ensures Replay(Step(c, Consume).events) == Replay(c.events)
    ensures Discards(Step(c, Consume).events) == Discards(c.events)
  {
    hide Replay, Discards;
    var more := Step(c, Consume).events;
    if more != c.events {
      OneEvent(c.events, more[|c.events|]);
      assert more == c.events + [more[|c.events|]];
    }
  }

  /** A detach takes over all that was added to the queue, to be run or, in a reset, to be thrown away. */
  lemma DetachTakesAll(before: seq<Event>, events: seq<Event>)
    requires OnlyAdded(before, events)
    ensures Promised(Replay(before)) <= Replay(events + [Detached(true)]).due
    ensures Discards(events + [Detached(true)]) == Discards(before)
    ensures Replay(events + [Detached(false)]).due == Replay(before).due
    ensures Discards(before) + Tasks(Replay(before).queue) <= Discards(events + [Detached(false)])
  {
    hide Replay, Discards, Tasks;
    Append(events, Detached(true));
    AppendMore(events, Detached(true));
    Append(events, Detached(false));
    AppendMore(events, Detached(false));
    QueueGrows(before, events);
  }

  class HpaeNoLockQueue {
    var freeRequestHeadIndex: Link
    var requestHeadIndex: Link
    var requestQueue: seq<RequestNode>
    var tempRequestQueue: seq<Request>
    var producers: seq<Producer>       // where the other threads are
    var consumer: Consumer
    var events: seq<Event>
    ghost const start: Config
    ghost var history: seq<Action>
    ghost var view: View

    function State(): Config
      reads this
    {
      Config(freeRequestHeadIndex, requestHeadIndex, requestQueue, producers, consumer, events)
    }

    /** The object is where the interleaving `history` of atomic accesses leads, and the queue invariant holds there. */
    ghost predicate Valid()
      reads this
    {
      State() == Run(start, history) && Inv(State(), view)
    }

    /** The constructor cuts the capacity down to the maximum and calls InitQueue, which gives up on a capacity of zero:
        the heads are then never set, and the object is not a queue. */
    constructor (maxRequestCount: nat, threads: nat)
      ensures maxRequestCount == 0 ==> requestQueue == []
      ensures maxRequestCount > 0 ==>
                && Valid() && history == []
                && State() == start
                   == Init(if maxRequestCount > MAX_REQUEST_COUNT then MAX_REQUEST_COUNT else maxRequestCount, threads)
    {
      var count := if maxRequestCount > MAX_REQUEST_COUNT then MAX_REQUEST_COUNT else maxRequestCount;
      var nodes, free, pending := [], *, *;
      if count > 0 {
        nodes := seq(count, _ => RequestNode(Empty, Link(0, 0)));
        free := Link(0, 0);
        var i := 0;
        while i < count - 1
          invariant i <= count - 1 && |nodes| == count
          invariant forall k :: 0 <= k < i ==> nodes[k] == RequestNode(Empty, Link(0, k + 1))
          invariant forall k :: i <= k < count ==> nodes[k] == RequestNode(Empty, Link(0, 0))
        {
          nodes := nodes[i := nodes[i].(next := Link(0, i + 1))];
          i := i + 1;
        }
        nodes := nodes[count - 1 := nodes[count - 1].(next := NIL)];
        pending := NIL;
      }
      freeRequestHeadIndex, requestQueue, requestHeadIndex := free, nodes, pending;
      tempRequestQueue := [];
      producers, consumer, events := seq(threads, _ => Idle), Resting, [];
      history := [];
      if count > 0 {
        start, view := Init(count, threads), InitView(count);
      } else {
        start, view := *, *;
      }
      new;
      if count > 0 {
        assert requestQueue == start.nodes;
        InitInv(count, threads);
      }
    }

    /** Record one access of the running thread, which has just been made. */
    method Took(before: Config, a: Action)
      requires before == Run(start, history) && Inv(before, view)
      requires var c := Step(before, a);
               freeRequestHeadIndex == c.free && requestHeadIndex == c.pending && requestQueue == c.nodes
      modifies this`producers, this`consumer, this`events, this`history, this`view
      ensures Valid() && State() == Step(before, a) && history == old(history) + [a]
      ensures view == ViewStep(before, old(view), a)
    {
      hide Inv, Run, Step, ViewStep;
      StepTaken(start, history, before, view, a);
      var c := Step(before, a);
      producers, consumer, events := c.producers, c.consumer, c.events;
      view, history := ViewStep(before, view, a), history + [a];
    }

    /** What every access leaves as it was, and what it uses up of the other threads' turns. */
    twostate predicate Onward(me: int, others: seq<seq<Action>>, rest: seq<seq<Action>>)
      reads this
    {
      && Valid()
      && AllForeign(me, rest) && |rest| <= |others| && (others != [] ==> |rest| < |others|)
      && |producers| == old(|producers|) && |requestQueue| == old(|requestQueue|)
      && old(events) <= events && old(history) <= history
    }

    /** The other threads take the steps `actions`. */
    method OthersMove(me: int, actions: seq<Action>)
      requires Valid() && CONSUMER <= me < |producers|
      requires forall j :: 0 <= j < |actions| ==> Foreign(me, actions[j])
      modifies this`freeRequestHeadIndex, this`requestHeadIndex, this`requestQueue, this`producers, this`consumer,
               this`events, this`history, this`view
      ensures Valid()
      ensures State() == Run(old(State()), actions) && history == old(history) + actions
      ensures |producers| == old(|producers|) && |requestQueue| == old(|requestQueue|) && old(events) <= events
      ensures me == CONSUMER ==>
                consumer == old(consumer) && view.detached == old(view.detached)
                && OnlyAdded(old(events), events)
      ensures me >= 0 ==> producers[me] == old(producers[me])
    {
      hide Inv, Run, RunView, Foreign;
      var s := State();
      TurnOf(start, history, s, view, actions, me);
      var c := Run(s, actions);
      view, history := RunView(s, view, actions), history + actions;
      freeRequestHeadIndex, requestHeadIndex, requestQueue := c.free, c.pending, c.nodes;
      producers, consumer, events := c.producers, c.consumer, c.events;
    }

    /** The other threads run until the next access of `me`. */
    method Turn(me: int, others: seq<seq<Action>>) returns (rest: seq<seq<Action>>)
      requires Valid() && AllForeign(me, others) && CONSUMER <= me < |producers|
      modifies this`freeRequestHeadIndex, this`requestHeadIndex, this`requestQueue, this`producers, this`consumer,
               this`events, this`history, this`view
      ensures Onward(me, others, rest)
      ensures others == [] ==> State() == old(State())
      ensures me == CONSUMER ==>
                consumer == old(consumer) && view.detached == old(view.detached)
                && OnlyAdded(old(events), events)
      ensures me >= 0 ==> producers[me] == old(producers[me])
    {
      hide Inv, Run, AllForeign, Foreign;
      if others == [] {
        return [];
      }
      NextTurn(me, others);
      OthersMove(me, others[0]);
      rest := others[1..];
    }

    // ------------------------------------------------------------ accesses of a producer

    /** Where producer `i` reads or writes a node, the node exists. */
    lemma InBounds(i: nat)
      requires Valid() && i < |producers|
      ensures match producers[i]
              case ReadNext(_, h) => h.index < |requestQueue|
              case CasFree(_, h, _) => h.index < |requestQueue|
              case Fill(_, w) => w.index < |requestQueue|
              case LinkPending(_, w, _) => w.index < |requestQueue|
              case _ => true
    {
      assert ProducerInv(requestQueue, producers[i], view, i);
    }

    method LoadFreeHead(i: nat, request: Request, others: seq<seq<Action>>)
      returns (head: Link, rest: seq<seq<Action>>)
      requires Valid() && i < |producers| && producers[i] == Producer.LoadFree(request) && AllForeign(i, others)
      modifies this`freeRequestHeadIndex, this`requestHeadIndex, this`requestQueue, this`producers, this`consumer,
               this`events, this`history, this`view
      ensures Onward(i, others, rest) && head == freeRequestHeadIndex
      ensures if head.index == INVALID_REQUEST_ID
              then producers[i] == Idle && events != [] && events[|events| - 1] == Dropped(request)
              else producers[i] == ReadNext(request, head)
    {
      hide Inv, Run, AllForeign, Replay, Discards, Tasks;
      rest := Turn(i, others);
      head := freeRequestHeadIndex;
      Took(State(), Produce(i));
    }

    method LoadNext(i: nat, request: Request, head: Link, others: seq<seq<Action>>)
      returns (next: Link, rest: seq<seq<Action>>)
      requires Valid() && i < |producers| && producers[i] == ReadNext(request, head) && AllForeign(i, others)
      modifies this`freeRequestHeadIndex, this`requestHeadIndex, this`requestQueue, this`producers, this`consumer,
               this`events, this`history, this`view
      ensures Onward(i, others, rest) && producers[i] == CasFree(request, head, next)
      ensures others == [] ==> freeRequestHeadIndex == old(freeRequestHeadIndex)
    {
      hide Inv, Run, AllForeign, Replay, Discards, Tasks;
      rest := Turn(i, others);
      InBounds(i);
      next := requestQueue[head.index].next;
      Took(State(), Produce(i));
    }

    method CompareExchangeFree(i: nat, request: Request, head: Link, next: Link, others: seq<seq<Action>>)
      returns (ok: bool, rest: seq<seq<Action>>)
      requires Valid() && i < |producers| && producers[i] == CasFree(request, head, next) && AllForeign(i, others)
      modifies this`freeRequestHeadIndex, this`requestHeadIndex, this`requestQueue, this`producers, this`consumer,
               this`events, this`history, this`view
      ensures Onward(i, others, rest)
      ensures producers[i] == if ok then Fill(request, IncRequestIndex(head)) else Producer.LoadFree(request)
      ensures others == [] && head == old(freeRequestHeadIndex) ==> ok
    {
      hide Inv, Run, AllForeign, Replay, Discards, Tasks;
      rest := Turn(i, others);
      var before := State();
      ok := freeRequestHeadIndex == head;
      if ok {
        freeRequestHeadIndex := next;
      }
      Took(before, Produce(i));
    }

    static function IncRequestIndex(requestIndex: Link): Link {
      Link(requestIndex.flag + 1, requestIndex.index)
    }

    /** Pop a node off the free list by compare-and-exchange, retrying while other threads interfere. */
    method GetRequestNode(i: nat, request: Request, others: seq<seq<Action>>)
      returns (node: Link, rest: seq<seq<Action>>)
      requires Valid() && i < |producers| && producers[i] == Producer.LoadFree(request) && AllForeign(i, others)
      modifies this`freeRequestHeadIndex, this`requestHeadIndex, this`requestQueue, this`producers, this`consumer,
               this`events, this`history, this`view
      ensures Onward(i, others, rest)
      ensures if node.index == INVALID_REQUEST_ID
              then producers[i] == Idle && events != [] && events[|events| - 1] == Dropped(request)
              else producers[i] == Fill(request, node)
    {
      hide Inv, Run, AllForeign, Replay, Discards, Tasks;
      rest := others;
      var ok, head := false, NIL;
      while !ok
        invariant ok ==> Onward(i, others, rest)
        invariant Valid() && AllForeign(i, rest) && |rest| <= |others| && |producers| == old(|producers|)
        invariant |requestQueue| == old(|requestQueue|) && old(events) <= events && old(history) <= history
        invariant producers[i] == if ok then Fill(request, IncRequestIndex(head)) else Producer.LoadFree(request)
        invariant ok ==> head.index != INVALID_REQUEST_ID
        decreases !ok, |rest|
      {
        head, rest := LoadFreeHead(i, request, rest);
        if head.index == INVALID_REQUEST_ID {
          return Link(0, INVALID_REQUEST_ID), rest;
        }
        var next: Link;
        next, rest := LoadNext(i, request, head, rest);
        ok, rest := CompareExchangeFree(i, request, head, next, rest);
      }
      return IncRequestIndex(head), rest;
    }

    method StoreRequest(i: nat, request: Request, node: Link, others: seq<seq<Action>>) returns (rest: seq<seq<Action>>)
      requires Valid() && i < |producers| && producers[i] == Fill(request, node) && AllForeign(i, others)
      modifies this`freeRequestHeadIndex, this`requestHeadIndex, this`requestQueue, this`producers, this`consumer,
               this`events, this`history, this`view
      ensures Onward(i, others, rest) && producers[i] == LoadPending(request, node)
    {
      hide Inv, Run, AllForeign, Replay, Discards, Tasks;
      rest := Turn(i, others);
      InBounds(i);
      var before := State();
      requestQueue := requestQueue[node.index := requestQueue[node.index].(request := request)];
      Took(before, Produce(i));
    }

    method LoadPendingHead(i: nat, request: Request, node: Link, others: seq<seq<Action>>)
      returns (head: Link, rest: seq<seq<Action>>)
      requires Valid() && i < |producers| && producers[i] == LoadPending(request, node) && AllForeign(i, others)
      modifies this`freeRequestHeadIndex, this`requestHeadIndex, this`requestQueue, this`producers, this`consumer,
               this`events, this`history, this`view
      ensures Onward(i, others, rest) && head == requestHeadIndex
      ensures producers[i] == LinkPending(request, node, head)
    {
      hide Inv, Run, AllForeign, Replay, Discards, Tasks;
      rest := Turn(i, others);
      head := requestHeadIndex;
      Took(State(), Produce(i));
    }

    method StoreNext(i: nat, request: Request, node: Link, head: Link, others: seq<seq<Action>>)
      returns (rest: seq<seq<Action>>)
      requires Valid() && i < |producers| && producers[i] == LinkPending(request, node, head) && AllForeign(i, others)
      modifies this`freeRequestHeadIndex, this`requestHeadIndex, this`requestQueue, this`producers, this`consumer,
               this`events, this`history, this`view
      ensures Onward(i, others, rest) && producers[i] == CasPending(request, node, head)
      ensures others == [] ==> requestHeadIndex == old(requestHeadIndex)
    {
      hide Inv, Run, AllForeign, Replay, Discards, Tasks;
      rest := Turn(i, others);
      InBounds(i);
      var before := State();
      requestQueue := requestQueue[node.index := requestQueue[node.index].(next := head)];
      Took(before, Produce(i));
    }

    method CompareExchangePending(i: nat, request: Request, node: Link, head: Link, others: seq<seq<Action>>)
      returns (ok: bool, rest: seq<seq<Action>>)
      requires Valid() && i < |producers| && producers[i] == CasPending(request, node, head) && AllForeign(i, others)
      modifies this`freeRequestHeadIndex, this`requestHeadIndex, this`requestQueue, this`producers, this`consumer,
               this`events, this`history, this`view
      ensures Onward(i, others, rest)
      ensures if ok then producers[i] == Idle && events != [] && events[|events| - 1] == Committed(request)
              else producers[i] == LoadPending(request, node)
      ensures others == [] && head == old(requestHeadIndex) ==> ok
    {
      hide Inv, Run, AllForeign, Replay, Discards, Tasks;
      rest := Turn(i, others);
      var before := State();
      ok := requestHeadIndex == head;
      if ok {
        requestHeadIndex := node;
      }
      Took(before, Produce(i));
    }

    /** Push a filled node on the pending list by compare-and-exchange. */
    method PushRequestNode(i: nat, request: Request, node: Link, others: seq<seq<Action>>)
      returns (rest: seq<seq<Action>>)
      requires Valid() && i < |producers| && producers[i] == LoadPending(request, node) && AllForeign(i, others)
      modifies this`freeRequestHeadIndex, this`requestHeadIndex, this`requestQueue, this`producers, this`consumer,
               this`events, this`history, this`view
      ensures Valid() && AllForeign(i, rest) && |producers| == old(|producers|)
      ensures old(events) <= events && old(history) <= history
      ensures producers[i] == Idle && events != [] && events[|events| - 1] == Committed(request)
    {
      hide Inv, Run, AllForeign, Replay, Discards, Tasks;
      rest := others;
      var ok := false;
      while !ok
        invariant Valid() && AllForeign(i, rest) && |producers| == old(|producers|)
        invariant old(events) <= events && old(history) <= history
        invariant if ok then producers[i] == Idle && events != [] && events[|events| - 1] == Committed(request)
                  else producers[i] == LoadPending(request, node)
        decreases !ok, |rest|
      {
        var head: Link;
        head, rest := LoadPendingHead(i, request, node, rest);
        rest := StoreNext(i, request, node, head, rest);
        ok, rest := CompareExchangePending(i, request, node, head, rest);
      }
    }

    /** PushRequest by thread `i`: whatever the other threads do meanwhile, it ends, having committed the request, or
        dropped it. */
    method PushRequest(i: nat, request: Request, others: seq<seq<Action>>)
      requires Valid() && i < |producers| && producers[i] == Idle && AllForeign(i, others)
      modifies this`freeRequestHeadIndex, this`requestHeadIndex, this`requestQueue, this`producers, this`consumer,
               this`events, this`history, this`view
      ensures Valid() && |producers| == old(|producers|) && producers[i] == Idle
      ensures old(events) < events && old(history) <= history
      ensures events[|events| - 1] == Committed(request) || events[|events| - 1] == Dropped(request)
    {
      hide Inv, Run, AllForeign, Replay, Discards, Tasks;
      Took(State(), BeginPush(i, request));
      assert |events| == |old(events)| + 1;
      var node, rest := GetRequestNode(i, request, others);
      if node.index == INVALID_REQUEST_ID {
        return;
      }
      rest := StoreRequest(i, request, node, rest);
      rest := PushRequestNode(i, request, node, rest);
    }

    /** The queue is empty for an observer that looks at the pending head. */
    method IsFinishProcess() returns (finished: bool)
      requires Valid()
      ensures finished <==> Replay(events).queue == []
    {
      finished := requestHeadIndex.index == INVALID_REQUEST_ID;
    }

    // ------------------------------------------------------------ accesses of the consumer

    /** Where the consumer reads or writes a node, the node exists, and it is one of those detached. */
    lemma InHandInBounds()
      requires Valid()
      ensures match consumer
              case Walk(_, _, l) => l.index != INVALID_REQUEST_ID ==> l.index < |requestQueue| && view.detached != []
              case Take(_, _, l, _) => l.index < |requestQueue| && view.detached != []
              case LinkFree(_, _, l, _, _) => l.index < |requestQueue| && view.detached != []
              case _ => true
    {
      assert ConsumerInv(requestQueue, consumer, view);
    }

    lemma ReturnShrinks(c: Config, v: View)
      requires Inv(c, v) && c.consumer.CasFreeHead? && c.free == c.consumer.head
      ensures |ViewStep(c, v, Consume).detached| < |v.detached|
    {
      assert ConsumerInv(c.nodes, c.consumer, v);
    }

    method LoadForDetach(others: seq<seq<Action>>) returns (head: Link, rest: seq<seq<Action>>)
      requires Valid() && consumer == LoadDetach && AllForeign(CONSUMER, others)
      modifies this`freeRequestHeadIndex, this`requestHeadIndex, this`requestQueue, this`producers, this`consumer,
               this`events, this`history, this`view
      ensures Onward(CONSUMER, others, rest) && consumer == CasDetach(head) && head == requestHeadIndex
      ensures OnlyAdded(old(events), events)
    {
      hide Inv, Run, AllForeign, Replay, Discards, Tasks;
      rest := Turn(CONSUMER, others);
      head := requestHeadIndex;
      ConsumerTakesNothing(State());
      Took(State(), Consume);
    }

    method CompareExchangeDetach(head: Link, others: seq<seq<Action>>) returns (ok: bool, rest: seq<seq<Action>>)
      requires Valid() && consumer == CasDetach(head) && AllForeign(CONSUMER, others)
      modifies this`freeRequestHeadIndex, this`requestHeadIndex, this`requestQueue, this`producers, this`consumer,
               this`events, this`history, this`view
      ensures Onward(CONSUMER, others, rest)
      ensures consumer == if ok then Walk(true, [], head) else LoadDetach
      ensures ok ==> |old(events)| < |events| && events[|events| - 1] == Detached(true)
      ensures others == [] && head == old(requestHeadIndex) ==> ok
      ensures if ok then Promised(Replay(old(events))) <= Replay(events).due && Discards(events) == Discards(old(events))
              else OnlyAdded(old(events), events)
    {
      hide Inv, Run, AllForeign, Replay, Discards, Tasks;
      rest := Turn(CONSUMER, others);
      var before := State();
      ok := requestHeadIndex == head;
      if ok {
        DetachTakesAll(old(events), before.events);
        requestHeadIndex := Link(head.flag, INVALID_REQUEST_ID);
      }
      Took(before, Consume);
    }

    method LoadNextInHand(p: bool, b: seq<Request>, l: Link, others: seq<seq<Action>>)
      returns (next: Link, rest: seq<seq<Action>>)
      requires Valid() && consumer == Walk(p, b, l) && l.index != INVALID_REQUEST_ID && AllForeign(CONSUMER, others)
      modifies this`freeRequestHeadIndex, this`requestHeadIndex, this`requestQueue, this`producers, this`consumer,
               this`events, this`history, this`view
      ensures Onward(CONSUMER, others, rest) && consumer == Take(p, b, l, next) && view.detached == old(view.detached)
      ensures OnlyAdded(old(events), events)
    {
      hide Inv, Run, AllForeign, Replay, Discards, Tasks;
      rest := Turn(CONSUMER, others);
      InHandInBounds();
      next := requestQueue[l.index].next;
      ConsumerTakesNothing(State());
      Took(State(), Consume);
    }

    /** Move the request out of the node in hand. */
    method TakeRequest(p: bool, b: seq<Request>, l: Link, n: Link, others: seq<seq<Action>>)
      returns (rest: seq<seq<Action>>)
      requires Valid() && consumer == Take(p, b, l, n) && AllForeign(CONSUMER, others) && tempRequestQueue == b
      modifies this`freeRequestHeadIndex, this`requestHeadIndex, this`requestQueue, this`producers, this`consumer,
               this`events, this`history, this`view, this`tempRequestQueue
      ensures Onward(CONSUMER, others, rest) && view.detached == old(view.detached)
      ensures consumer == Consumer.LoadFreeHead(p, tempRequestQueue, l, n)
      ensures OnlyAdded(old(events), events)
    {
      hide Inv, Run, AllForeign, Replay, Discards, Tasks;
      rest := Turn(CONSUMER, others);
      InHandInBounds();
      var before := State();
      tempRequestQueue := tempRequestQueue + [requestQueue[l.index].request];
      requestQueue := requestQueue[l.index := requestQueue[l.index].(request := Empty)];
      ConsumerTakesNothing(before);
      Took(before, Consume);
    }

    method LoadFreeForReturn(p: bool, b: seq<Request>, l: Link, n: Link, others: seq<seq<Action>>)
      returns (head: Link, rest: seq<seq<Action>>)
      requires Valid() && consumer == Consumer.LoadFreeHead(p, b, l, n) && AllForeign(CONSUMER, others)
      modifies this`freeRequestHeadIndex, this`requestHeadIndex, this`requestQueue, this`producers, this`consumer,
               this`events, this`history, this`view
      ensures Onward(CONSUMER, others, rest) && view.detached == old(view.detached)
      ensures consumer == LinkFree(p, b, l, n, head) && head == freeRequestHeadIndex
      ensures OnlyAdded(old(events), events)
    {
      hide Inv, Run, AllForeign, Replay, Discards, Tasks;
      rest := Turn(CONSUMER, others);
      head := freeRequestHeadIndex;
      ConsumerTakesNothing(State());
      Took(State(), Consume);
    }

    method StoreNextForReturn(p: bool, b: seq<Request>, l: Link, n: Link, head: Link, others: seq<seq<Action>>)
      returns (rest: seq<seq<Action>>)
      requires Valid() && consumer == LinkFree(p, b, l, n, head) && AllForeign(CONSUMER, others)
      modifies this`freeRequestHeadIndex, this`requestHeadIndex, this`requestQueue, this`producers, this`consumer,
               this`events, this`history, this`view
      ensures Onward(CONSUMER, others, rest) && view.detached == old(view.detached)
      ensures consumer == CasFreeHead(p, b, l, n, head)
      ensures others == [] ==> freeRequestHeadIndex == old(freeRequestHeadIndex)
      ensures OnlyAdded(old(events), events)
    {
      hide Inv, Run, AllForeign, Replay, Discards, Tasks;
      rest := Turn(CONSUMER, others);
      InHandInBounds();
      var before := State();
      requestQueue := requestQueue[l.index := requestQueue[l.index].(next := head)];
      ConsumerTakesNothing(before);
      Took(before, Consume);
    }

    method CompareExchangeReturn(p: bool, b: seq<Request>, l: Link, n: Link, head: Link, others: seq<seq<Action>>)
      returns (ok: bool, rest: seq<seq<Action>>)
      requires Valid() && consumer == CasFreeHead(p, b, l, n, head) && AllForeign(CONSUMER, others)
      modifies this`freeRequestHeadIndex, this`requestHeadIndex, this`requestQueue, this`producers, this`consumer,
               this`events, this`history, this`view
      ensures Onward(CONSUMER, others, rest)
      ensures consumer == if ok then Walk(p, b, n) else Consumer.LoadFreeHead(p, b, l, n)
      ensures if ok then |view.detached| < |old(view.detached)| else view.detached == old(view.detached)
      ensures others == [] && head == old(freeRequestHeadIndex) ==> ok
      ensures OnlyAdded(old(events), events)
    {
      hide Inv, Run, AllForeign, Replay, Discards, Tasks;
      rest := Turn(CONSUMER, others);
      var before := State();
      ok := freeRequestHeadIndex == head;
      if ok {
        ReturnShrinks(before, view);
        freeRequestHeadIndex := l;
      }
      ConsumerTakesNothing(before);
      Took(before, Consume);
    }

    /** Push the node in hand back on the free list by compare-and-exchange. */
    method PushFreeNode(p: bool, b: seq<Request>, l: Link, n: Link, others: seq<seq<Action>>)
      returns (rest: seq<seq<Action>>)
      requires Valid() && consumer == Consumer.LoadFreeHead(p, b, l, n) && AllForeign(CONSUMER, others)
      modifies this`freeRequestHeadIndex, this`requestHeadIndex, this`requestQueue, this`producers, this`consumer,
               this`events, this`history, this`view
      ensures Valid() && AllForeign(CONSUMER, rest) && |producers| == old(|producers|)
      ensures old(events) <= events && old(history) <= history
      ensures consumer == Walk(p, b, n) && |view.detached| < |old(view.detached)|
      ensures OnlyAdded(old(events), events)
    {
      hide Inv, Run, AllForeign, Replay, Discards, Tasks;
      rest := others;
      var ok := false;
      while !ok
        invariant Valid() && AllForeign(CONSUMER, rest) && |producers| == old(|producers|)
        invariant OnlyAdded(old(events), events)
        invariant old(events) <= events && old(history) <= history
        invariant consumer == if ok then Walk(p, b, n) else Consumer.LoadFreeHead(p, b, l, n)
        invariant if ok then |view.detached| < |old(view.detached)| else view.detached == old(view.detached)
        decreases !ok, |rest|
      {
        var head: Link;
        head, rest := LoadFreeForReturn(p, b, l, n, rest);
        rest := StoreNextForReturn(p, b, l, n, head, rest);
        ok, rest := CompareExchangeReturn(p, b, l, n, head, rest);
      }
    }

    /** ProcessRequests: walk down the detached list, which gets shorter although its nodes are being pushed again, then
        run the batch from its last element to its first. */
    method ProcessRequests(requestHead: Link, isProcess: bool, others: seq<seq<Action>>)
      requires Valid() && consumer == Walk(isProcess, [], requestHead) && AllForeign(CONSUMER, others)
      requires tempRequestQueue == []
      modifies this`freeRequestHeadIndex, this`requestHeadIndex, this`requestQueue, this`producers, this`consumer,
               this`events, this`history, this`view, this`tempRequestQueue
      ensures Valid() && consumer == Resting && tempRequestQueue == [] && |producers| == old(|producers|)
      ensures old(events) <= events && old(history) <= history
      ensures OnlyAdded(old(events), events)
    {
      hide Inv, Run, AllForeign, Replay, Discards, Tasks;
      var tempIndex, rest := requestHead, others;
      while tempIndex.index != INVALID_REQUEST_ID
        invariant Valid() && AllForeign(CONSUMER, rest) && |producers| == old(|producers|)
        invariant OnlyAdded(old(events), events)
        invariant old(events) <= events && old(history) <= history
        invariant consumer == Walk(isProcess, tempRequestQueue, tempIndex)
        decreases |view.detached|
      {
        var next: Link;
        next, rest := LoadNextInHand(isProcess, tempRequestQueue, tempIndex, rest);
        rest := TakeRequest(isProcess, tempRequestQueue, tempIndex, next, rest);
        rest := PushFreeNode(isProcess, tempRequestQueue, tempIndex, next, rest);
        tempIndex := next;
      }
      ConsumerTakesNothing(State());
      Took(State(), Consume);
      if isProcess {
        ExecuteBatch(rest);
      }
      tempRequestQueue := [];
    }

    /** Run the requests taken, newest first in the batch, oldest first in time. */
    method ExecuteBatch(others: seq<seq<Action>>)
      requires Valid() && consumer == Execute(tempRequestQueue, |tempRequestQueue|) && AllForeign(CONSUMER, others)
      modifies this`freeRequestHeadIndex, this`requestHeadIndex, this`requestQueue, this`producers, this`consumer,
               this`events, this`history, this`view
      ensures Valid() && consumer == Resting && |producers| == old(|producers|)
      ensures old(events) <= events && old(history) <= history
      ensures OnlyAdded(old(events), events)
    {
      hide Inv, Run, AllForeign, Replay, Discards, Tasks;
      var k: nat, rest := |tempRequestQueue|, others;
      while k > 0
        invariant k <= |tempRequestQueue|
        invariant Valid() && AllForeign(CONSUMER, rest) && |producers| == old(|producers|)
        invariant OnlyAdded(old(events), events)
        invariant old(events) <= events && old(history) <= history
        invariant consumer == Execute(tempRequestQueue, k)
      {
        rest := Turn(CONSUMER, rest);
        ConsumerTakesNothing(State());
        Took(State(), Consume);
        k := k - 1;
      }
      ConsumerTakesNothing(State());
      Took(State(), Consume);
    }

    /** At rest the consumer has run everything it ever took over, in commit order. */
    lemma RestingRanAll()
      requires Valid() && consumer == Resting
      ensures ExecutedIds(events) == Replay(events).due
    {
      assert ConsumerInv(requestQueue, consumer, view);
      assert DueInv(false, events, view.plan);
    }

    /** HandleRequests: whatever the producers do meanwhile, it ends, with every task that was committed before the call
        executed, and in the order of the commits. */
    method HandleRequests(others: seq<seq<Action>>)
      requires Valid() && consumer == Resting && tempRequestQueue == [] && AllForeign(CONSUMER, others)
      modifies this`freeRequestHeadIndex, this`requestHeadIndex, this`requestQueue, this`producers, this`consumer,
               this`events, this`history, this`view, this`tempRequestQueue
      ensures Valid() && consumer == Resting && tempRequestQueue == [] && |producers| == old(|producers|)
      ensures old(events) < events && old(history) <= history
      ensures Promised(Replay(old(events))) <= ExecutedIds(events)
      ensures ExecutedIds(events) == Replay(events).due && Discards(events) == Discards(old(events))
    {
      hide Inv, Run, AllForeign, Replay, Tasks, Promised, Discards;
      Took(State(), BeginHandle);
      var rest, ok, head := others, false, NIL;
      while !ok
        invariant Valid() && AllForeign(CONSUMER, rest) && |producers| == old(|producers|) && tempRequestQueue == []
        invariant old(events) <= events && old(history) <= history
        invariant consumer == if ok then Walk(true, [], head) else LoadDetach
        invariant ok ==> |old(events)| < |events|
        invariant if ok then Promised(Replay(old(events))) <= Replay(events).due && Discards(events) == Discards(old(events))
                  else OnlyAdded(old(events), events)
        decreases !ok, |rest|
      {
        head, rest := LoadForDetach(rest);
        PromiseGrows(old(events), events);
        ok, rest := CompareExchangeDetach(head, rest);
      }
      ProcessRequests(head, true, rest);
      RestingRanAll();
    }

    method LoadFlagForReset(others: seq<seq<Action>>) returns (flag: nat, rest: seq<seq<Action>>)
      requires Valid() && consumer == LoadFlag && AllForeign(CONSUMER, others)
      modifies this`freeRequestHeadIndex, this`requestHeadIndex, this`requestQueue, this`producers, this`consumer,
               this`events, this`history, this`view
      ensures Onward(CONSUMER, others, rest) && consumer == Exchange(flag)
      ensures OnlyAdded(old(events), events)
    {
      hide Inv, Run, AllForeign, Replay, Discards, Tasks;
      rest := Turn(CONSUMER, others);
      flag := requestHeadIndex.flag;
      ConsumerTakesNothing(State());
      Took(State(), Consume);
    }

    method ExchangeForReset(flag: nat, others: seq<seq<Action>>) returns (head: Link, rest: seq<seq<Action>>)
      requires Valid() && consumer == Exchange(flag) && AllForeign(CONSUMER, others)
      modifies this`freeRequestHeadIndex, this`requestHeadIndex, this`requestQueue, this`producers, this`consumer,
               this`events, this`history, this`view
      ensures Onward(CONSUMER, others, rest) && consumer == Walk(false, [], head)
      ensures |old(events)| < |events| && events[|events| - 1] == Detached(false)
      ensures Replay(events).due == Replay(old(events)).due
      ensures Discards(old(events)) + Tasks(Replay(old(events)).queue) <= Discards(events)
    {
      hide Inv, Run, AllForeign, Replay, Discards, Tasks;
      rest := Turn(CONSUMER, others);
      var before := State();
      DetachTakesAll(old(events), before.events);
      head := requestHeadIndex;
      requestHeadIndex := Link(flag, INVALID_REQUEST_ID);
      Took(before, Consume);
    }

    /** Reset: whatever the producers do meanwhile, it ends, with every task that was queued before the call thrown away,
        in the order of the commits, and none run. */
    method Reset(others: seq<seq<Action>>)
      requires Valid() && consumer == Resting && tempRequestQueue == [] && AllForeign(CONSUMER, others)
      modifies this`freeRequestHeadIndex, this`requestHeadIndex, this`requestQueue, this`producers, this`consumer,
               this`events, this`history, this`view, this`tempRequestQueue
      ensures Valid() && consumer == Resting && tempRequestQueue == [] && |producers| == old(|producers|)
      ensures old(events) < events && old(history) <= history
      ensures exists j :: |old(events)| <= j < |events| && events[j] == Detached(false)
      ensures Discards(old(events)) + Tasks(Replay(old(events)).queue) <= Discards(events)
      ensures ExecutedIds(events) == Replay(events).due == old(ExecutedIds(events)) == old(Replay(events).due)
    {
      hide Inv, Run, AllForeign, Replay, Tasks, Discards, ExecutedIds;
      RestingRanAll();
      Took(State(), BeginReset);
      var flag, rest := LoadFlagForReset(others);
      QueueGrows(old(events), events);
      var head: Link;
      head, rest := ExchangeForReset(flag, rest);
      assert events[|events| - 1] == Detached(false);
      ProcessRequests(head, false, rest);
      RestingRanAll();
    }
  }
}
