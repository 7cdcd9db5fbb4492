/**
  The lock-free request queue of the audio engine as a state machine: one atomic access per step, any number of
  producers and one consumer, every interleaving.  A run is a sequence of actions; an action names the thread that
  moves, so quantifying over action sequences quantifies over schedules.
*/
module NoLockQueue {

  const MAX_REQUEST_COUNT: nat := 10000000
  const INVALID_REQUEST_ID: nat := 0xFFFF_FFFF

  /** A list head or a `next` field: allocation flag in the high half, node index in the low half. */
  datatype Link = Link(flag: nat, index: nat)

  /** A queued function object; `Empty` is a null function, which is queued but never run. */
  datatype Request = Empty | Task(id: int)

  datatype RequestNode = RequestNode(request: Request, next: Link)

  /** What an observer of the run sees, in order. */
  datatype Event =
    | Began(request: Request)
    | Allocated(node: nat)
    | Committed(request: Request)
    | Dropped(request: Request)
    | Detached(process: bool)
    | Executed(id: int)

  /** Program counter of a thread inside PushRequest, one constructor per pending atomic access. */
  datatype Producer =
    | Idle
    | LoadFree(request: Request)
    | ReadNext(request: Request, head: Link)
    | CasFree(request: Request, head: Link, next: Link)
    | Fill(request: Request, node: Link)
    | LoadPending(request: Request, node: Link)
    | LinkPending(request: Request, node: Link, head: Link)
    | CasPending(request: Request, node: Link, head: Link)

  /** Program counter of the thread inside HandleRequests, Reset and ProcessRequests. */
  datatype Consumer =
    | Resting
    | LoadDetach
    | CasDetach(head: Link)
    | LoadFlag
    | Exchange(flag: nat)
    | Walk(process: bool, batch: seq<Request>, current: Link)
    | Take(process: bool, batch: seq<Request>, current: Link, next: Link)
    | LoadFreeHead(process: bool, batch: seq<Request>, current: Link, next: Link)
    | LinkFree(process: bool, batch: seq<Request>, current: Link, next: Link, head: Link)
    | CasFreeHead(process: bool, batch: seq<Request>, current: Link, next: Link, head: Link)
    | Execute(batch: seq<Request>, left: nat)

  datatype Config = Config(
    free: Link,
    pending: Link,
    nodes: seq<RequestNode>,
    producers: seq<Producer>,
    consumer: Consumer,
    events: seq<Event>)

  datatype Action =
    | BeginPush(thread: nat, request: Request)
    | Produce(thread: nat)
    | BeginHandle
    | BeginReset
    | Consume

  const NIL := Link(0, INVALID_REQUEST_ID)

  // ---------------------------------------------------------------- the transition function

  /** InitQueue: every node on the free list in index order, nothing pending. */
  function Init(capacity: nat, producers: nat): Config
    requires 0 < capacity <= MAX_REQUEST_COUNT
  {
    Config(
      Link(0, 0),
      NIL,
      seq(capacity, (i: nat) => RequestNode(Empty, Link(0, if i + 1 < capacity then i + 1 else INVALID_REQUEST_ID))),
      seq(producers, _ => Idle),
      Resting,
      [])
  }

  /** The node a link names; reading outside the array never happens on a reachable configuration. */
  function NodeAt(c: Config, l: Link): RequestNode {
    if l.index < |c.nodes| then c.nodes[l.index] else RequestNode(Empty, NIL)
  }

  function WithNext(nodes: seq<RequestNode>, l: Link, next: Link): seq<RequestNode> {
    if l.index < |nodes| then nodes[l.index := nodes[l.index].(next := next)] else nodes
  }

  function WithRequest(nodes: seq<RequestNode>, l: Link, r: Request): seq<RequestNode> {
    if l.index < |nodes| then nodes[l.index := nodes[l.index].(request := r)] else nodes
  }

  function ProducerStep(c: Config, i: nat): Config
    requires i < |c.producers|
  {
    match c.producers[i]
    case Idle => c
    case LoadFree(r) =>
      if c.free.index == INVALID_REQUEST_ID
      then c.(producers := c.producers[i := Idle], events := c.events + [Dropped(r)])
      else c.(producers := c.producers[i := ReadNext(r, c.free)])
    case ReadNext(r, h) => c.(producers := c.producers[i := CasFree(r, h, NodeAt(c, h).next)])
    case CasFree(r, h, n) =>
      if c.free == h
      then c.(free := n, producers := c.producers[i := Fill(r, Link(h.flag + 1, h.index))],
              events := c.events + [Allocated(h.index)])
      else c.(producers := c.producers[i := LoadFree(r)])
    case Fill(r, w) =>
      c.(nodes := WithRequest(c.nodes, w, r), producers := c.producers[i := LoadPending(r, w)])
    case LoadPending(r, w) => c.(producers := c.producers[i := LinkPending(r, w, c.pending)])
    case LinkPending(r, w, h) =>
      c.(nodes := WithNext(c.nodes, w, h), producers := c.producers[i := CasPending(r, w, h)])
    case CasPending(r, w, h) =>
      if c.pending == h
      then c.(pending := w, producers := c.producers[i := Idle], events := c.events + [Committed(r)])
      else c.(producers := c.producers[i := LoadPending(r, w)])
  }

  function ConsumerStep(c: Config): Config {
    match c.consumer
    case Resting => c
    case LoadDetach => c.(consumer := CasDetach(c.pending))
    case CasDetach(h) =>
      if c.pending == h
      then c.(pending := Link(h.flag, INVALID_REQUEST_ID), consumer := Walk(true, [], h),
              events := c.events + [Detached(true)])
      else c.(consumer := LoadDetach)
    case LoadFlag => c.(consumer := Exchange(c.pending.flag))
    case Exchange(f) =>
      c.(pending := Link(f, INVALID_REQUEST_ID), consumer := Walk(false, [], c.pending),
         events := c.events + [Detached(false)])
    case Walk(p, b, l) =>
      if l.index == INVALID_REQUEST_ID
      then c.(consumer := if p then Execute(b, |b|) else Resting)
      else c.(consumer := Take(p, b, l, NodeAt(c, l).next))
    case Take(p, b, l, n) =>
      c.(nodes := WithRequest(c.nodes, l, Empty), consumer := LoadFreeHead(p, b + [NodeAt(c, l).request], l, n))
    case LoadFreeHead(p, b, l, n) => c.(consumer := LinkFree(p, b, l, n, c.free))
    case LinkFree(p, b, l, n, h) =>
      c.(nodes := WithNext(c.nodes, l, h), consumer := CasFreeHead(p, b, l, n, h))
    case CasFreeHead(p, b, l, n, h) =>
      if c.free == h
      then c.(free := l, consumer := Walk(p, b, n))
      else c.(consumer := LoadFreeHead(p, b, l, n))
    case Execute(b, k) =>
      if 0 < k <= |b|
      then c.(consumer := Execute(b, k - 1),
              events := if b[k - 1].Task? then c.events + [Executed(b[k - 1].id)] else c.events)
      else c.(consumer := Resting)
  }

  function Step(c: Config, a: Action): Config {
    match a
    case BeginPush(i, r) =>
      if i < |c.producers| && c.producers[i].Idle?
      then c.(producers := c.producers[i := LoadFree(r)], events := c.events + [Began(r)])
      else c
    case Produce(i) => if i < |c.producers| then ProducerStep(c, i) else c
    case BeginHandle => if c.consumer.Resting? then c.(consumer := LoadDetach) else c
    case BeginReset => if c.consumer.Resting? then c.(consumer := LoadFlag) else c
    case Consume => ConsumerStep(c)
  }

  function Run(c: Config, actions: seq<Action>): Config
    decreases |actions|
  {
    if actions == [] then c else Run(Step(c, actions[0]), actions[1..])
  }

  // ---------------------------------------------------------------- what the history says

  /** The specification: a FIFO queue and the ids that have been handed over for execution. */
  datatype Ledger = Ledger(queue: seq<Request>, due: seq<int>)

  function Tasks(requests: seq<Request>): seq<int> {
    if requests == [] then []
    else (if requests[0].Task? then [requests[0].id] else []) + Tasks(requests[1..])
  }

  /** A commit appends; a detach hands over everything queued, in commit order, or throws it away on a reset. */
  function Replay(events: seq<Event>): Ledger {
    if events == [] then Ledger([], [])
    else
      var before := Replay(events[..|events| - 1]);
      match events[|events| - 1]
      case Committed(r) => before.(queue := before.queue + [r])
      case Detached(process) => Ledger([], if process then before.due + Tasks(before.queue) else before.due)
      case _ => before
  }

  function ExecutedIds(events: seq<Event>): seq<int> {
    if events == [] then []
    else
      var e := events[|events| - 1];
      ExecutedIds(events[..|events| - 1]) + if e.Executed? then [e.id] else []
  }

  function Allocations(events: seq<Event>, node: nat): nat {
    multiset(events)[Allocated(node)]
  }

  /** One more event: the ledger, the run list and the allocation counts change as the event says. */
  lemma Append(events: seq<Event>, e: Event)
    ensures Replay(events + [e]) ==
            match e
            case Committed(r) => Replay(events).(queue := Replay(events).queue + [r])
            case Detached(p) =>
              Ledger([], if p then Replay(events).due + Tasks(Replay(events).queue) else Replay(events).due)
            case _ => Replay(events)
    ensures ExecutedIds(events + [e]) == ExecutedIds(events) + if e.Executed? then [e.id] else []
    ensures forall n: nat ::
              Allocations(events + [e], n) == Allocations(events, n) + if e == Allocated(n) then 1 else 0
  {
    assert (events + [e])[..|events + [e]| - 1] == events;
  }

  // ---------------------------------------------------------------- the invariant

  datatype Owner = InFree | InPending | InDetached | HeldBy(thread: nat)

  /** Auxiliary view of the node array: the three lists, each with its top last; for every node its owner, its place
      in the owner's list and its allocation count; and the requests of the batch in hand, in commit order. */
  datatype View = View(
    free: seq<nat>,
    pending: seq<nat>,
    detached: seq<nat>,
    owners: seq<Owner>,
    places: seq<nat>,
    flags: seq<nat>,
    plan: seq<Request>)

  /** `l` names the top of the first `k` elements of `list`, with that node's current flag. */
  ghost predicate Points(flags: seq<nat>, l: Link, list: seq<nat>, k: int) {
    if 0 < k <= |list|
    then list[k - 1] < |flags| && l == Link(flags[list[k - 1]], list[k - 1])
    else l.index == INVALID_REQUEST_ID
  }

  /** `head` leads through the `next` fields down `list`, every link carrying the current flag of its node. */
  ghost predicate Linked(nodes: seq<RequestNode>, flags: seq<nat>, head: Link, list: seq<nat>) {
    && Points(flags, head, list, |list|)
    && (forall k :: 0 <= k < |list| ==> list[k] < |nodes|)
    && (forall k {:trigger nodes[list[k]]} :: 0 <= k < |list| ==> Points(flags, nodes[list[k]].next, list, k))
  }

  /** `list` has no repetition and holds exactly the nodes owned by `o`. */
  ghost predicate Owns(owners: seq<Owner>, places: seq<nat>, o: Owner, list: seq<nat>) {
    && |places| == |owners|
    && (forall k :: 0 <= k < |list| ==> list[k] < |owners|)
    && (forall k {:trigger owners[list[k]]} {:trigger places[list[k]]} :: 0 <= k < |list| ==>
          owners[list[k]] == o && places[list[k]] == k)
    && (forall n {:trigger owners[n]} :: 0 <= n < |owners| && owners[n] == o ==> places[n] < |list| && list[places[n]] == n)
  }

  ghost predicate HoldsNothing(owners: seq<Owner>, i: nat) {
    forall n :: 0 <= n < |owners| ==> owners[n] != HeldBy(i)
  }

  ghost predicate Holds(nodes: seq<RequestNode>, v: View, i: nat, w: Link) {
    && w.index < |nodes|
    && w.index < |v.owners| && w.index < |v.flags|
    && v.owners[w.index] == HeldBy(i)
    && v.flags[w.index] == w.flag
    && (forall n :: 0 <= n < |v.owners| && v.owners[n] == HeldBy(i) ==> n == w.index)
  }

  /** A snapshot of the free head is current or stale for ever: its flag is at most the node's, and when they are
      equal the node has stayed on the free list. */
  ghost predicate Snapshot(nodes: seq<RequestNode>, v: View, h: Link) {
    && h.index < |nodes|
    && h.index < |v.owners| && h.index < |v.flags|
    && h.flag <= v.flags[h.index]
    && (h.flag == v.flags[h.index] ==> v.owners[h.index] == InFree)
  }

  ghost predicate ProducerInv(nodes: seq<RequestNode>, p: Producer, v: View, i: nat) {
    match p
    case Idle => HoldsNothing(v.owners, i)
    case LoadFree(_) => HoldsNothing(v.owners, i)
    case ReadNext(_, h) => HoldsNothing(v.owners, i) && Snapshot(nodes, v, h)
    case CasFree(_, h, n) =>
      && HoldsNothing(v.owners, i)
      && Snapshot(nodes, v, h)
      && (h.flag == v.flags[h.index] ==> nodes[h.index].next == n)
    case Fill(_, w) => Holds(nodes, v, i, w)
    case LoadPending(r, w) => Holds(nodes, v, i, w) && nodes[w.index].request == r
    case LinkPending(r, w, _) => Holds(nodes, v, i, w) && nodes[w.index].request == r
    case CasPending(r, w, h) => Holds(nodes, v, i, w) && nodes[w.index] == RequestNode(r, h)
  }

  ghost predicate ProducersInv(nodes: seq<RequestNode>, producers: seq<Producer>, v: View) {
    && (forall i :: 0 <= i < |producers| ==> ProducerInv(nodes, producers[i], v, i))
    && (forall n :: 0 <= n < |v.owners| && v.owners[n].HeldBy? ==> v.owners[n].thread < |producers|)
  }

  function Top(list: seq<nat>): nat
    requires list != []
  {
    list[|list| - 1]
  }

  function Below(list: seq<nat>): seq<nat> {
    if list == [] then [] else list[..|list| - 1]
  }

  ghost predicate InHand(nodes: seq<RequestNode>, v: View, l: Link, next: Link) {
    && v.detached != []
    && Points(v.flags, l, v.detached, |v.detached|)
    && l.index < |nodes|
    && Linked(nodes, v.flags, next, Below(v.detached))
  }

  /** `batch` holds the newest requests of `plan`, newest first. */
  ghost predicate Collected(plan: seq<Request>, batch: seq<Request>, rest: int) {
    && 0 <= rest && |plan| == |batch| + rest
    && (forall k :: 0 <= k < |batch| ==> batch[k] == plan[|plan| - 1 - k])
  }

  /** The nodes along `list` hold the oldest requests of `plan`. */
  ghost predicate Uncollected(nodes: seq<RequestNode>, plan: seq<Request>, list: seq<nat>) {
    && |list| <= |plan|
    && (forall k :: 0 <= k < |list| ==> list[k] < |nodes|)
    && (forall k {:trigger nodes[list[k]]} :: 0 <= k < |list| ==> nodes[list[k]].request == plan[k])
  }

  ghost predicate ConsumerInv(nodes: seq<RequestNode>, s: Consumer, v: View) {
    match s
    case Walk(_, b, l) =>
      && Linked(nodes, v.flags, l, v.detached)
      && Collected(v.plan, b, |v.detached|) && Uncollected(nodes, v.plan, v.detached)
    case Take(_, b, l, n) =>
      && InHand(nodes, v, l, n)
      && Collected(v.plan, b, |v.detached|) && Uncollected(nodes, v.plan, v.detached)
    case LoadFreeHead(_, b, l, n) =>
      && InHand(nodes, v, l, n)
      && Collected(v.plan, b, |v.detached| - 1) && Uncollected(nodes, v.plan, Below(v.detached))
    case LinkFree(_, b, l, n, _) =>
      && InHand(nodes, v, l, n)
      && Collected(v.plan, b, |v.detached| - 1) && Uncollected(nodes, v.plan, Below(v.detached))
    case CasFreeHead(_, b, l, n, h) =>
      && InHand(nodes, v, l, n) && nodes[l.index].next == h
      && Collected(v.plan, b, |v.detached| - 1) && Uncollected(nodes, v.plan, Below(v.detached))
    case Execute(b, k) => v.detached == [] && k <= |b| && Collected(v.plan, b[..k], 0)
    case _ => v.detached == [] && v.plan == []
  }

  predicate Discarding(s: Consumer) {
    match s
    case Walk(p, _, _) => !p
    case Take(p, _, _, _) => !p
    case LoadFreeHead(p, _, _, _) => !p
    case LinkFree(p, _, _, _, _) => !p
    case CasFreeHead(p, _, _, _, _) => !p
    case _ => false
  }

  /** The concrete pending list is the specification's queue, newest first. */
  ghost predicate QueueInv(nodes: seq<RequestNode>, queue: seq<Request>, pending: seq<nat>) {
    |queue| == |pending| && Uncollected(nodes, queue, pending)
  }

  /** What is due is what has run followed by what the consumer still holds. */
  ghost predicate DueInv(discarding: bool, events: seq<Event>, plan: seq<Request>) {
    Replay(events).due == ExecutedIds(events) + if discarding then [] else Tasks(plan)
  }

  ghost predicate FlagsInv(events: seq<Event>, flags: seq<nat>) {
    forall n :: 0 <= n < |flags| ==> flags[n] == Allocations(events, n)
  }

  ghost predicate Partition(size: nat, v: View) {
    && 0 < size <= MAX_REQUEST_COUNT
    && |v.owners| == size && |v.flags| == size
    && Owns(v.owners, v.places, InFree, v.free)
    && Owns(v.owners, v.places, InPending, v.pending)
    && Owns(v.owners, v.places, InDetached, v.detached)
  }

  ghost predicate Inv(c: Config, v: View) {
    && Partition(|c.nodes|, v)
    && Linked(c.nodes, v.flags, c.free, v.free)
    && Linked(c.nodes, v.flags, c.pending, v.pending)
    && ProducersInv(c.nodes, c.producers, v)
    && ConsumerInv(c.nodes, c.consumer, v)
    && QueueInv(c.nodes, Replay(c.events).queue, v.pending)
    && DueInv(Discarding(c.consumer), c.events, v.plan)
    && FlagsInv(c.events, v.flags)
  }

  /** How the auxiliary view follows a step. */
  ghost function ViewStep(c: Config, v: View, a: Action): View {
    match a
    case Produce(i) => if i < |c.producers| then ProducerView(c, v, i) else v
    case Consume => ConsumerView(c, v)
    case _ => v
  }

  ghost function ProducerView(c: Config, v: View, i: nat): View
    requires i < |c.producers|
  {
    match c.producers[i]
    case CasFree(_, h, _) =>
      if c.free == h && h.index < |v.owners| && h.index < |v.flags| && v.free != []
      then v.(free := Below(v.free), owners := v.owners[h.index := HeldBy(i)], flags := v.flags[h.index := h.flag + 1])
      else v
    case CasPending(_, w, h) =>
      if c.pending == h && w.index < |v.owners| && w.index < |v.places|
      then v.(pending := v.pending + [w.index], owners := v.owners[w.index := InPending],
              places := v.places[w.index := |v.pending|])
      else v
    case _ => v
  }

  ghost function ConsumerView(c: Config, v: View): View {
    match c.consumer
    case CasDetach(h) => if c.pending == h then DetachAll(v, Replay(c.events).queue) else v
    case Exchange(_) => DetachAll(v, Replay(c.events).queue)
    case Walk(p, _, l) => if l.index == INVALID_REQUEST_ID && !p then v.(plan := []) else v
    case CasFreeHead(_, _, l, _, h) =>
      if c.free == h && l.index < |v.owners| && l.index < |v.places|
      then v.(free := v.free + [l.index], detached := Below(v.detached), owners := v.owners[l.index := InFree],
              places := v.places[l.index := |v.free|])
      else v
    case Execute(b, k) => if 0 < k && v.plan != [] then v.(plan := v.plan[1..]) else v
    case _ => v
  }

  ghost function DetachAll(v: View, queue: seq<Request>): (v': View)
    ensures v'.free == v.free && v'.pending == [] && v'.detached == v.pending
    ensures v'.flags == v.flags && v'.plan == queue
  {
    v.(pending := [], detached := v.pending, plan := queue,
       owners := seq(|v.owners|, (n: nat) requires n < |v.owners| =>
           if v.owners[n] == InPending then InDetached else v.owners[n]))
  }

  // ---------------------------------------------------------------- every step keeps the invariant

  /** What a step must leave alone for the invariant of thread `j` to survive it. */
  ghost predicate Undisturbed(nodes: seq<RequestNode>, v: View, nodes': seq<RequestNode>, v': View, j: nat) {
    && |nodes'| == |nodes| == |v.owners| == |v'.owners| == |v.flags| == |v'.flags|
    && (forall n :: 0 <= n < |nodes| ==>
          && v.flags[n] <= v'.flags[n]
          && (v'.owners[n] == HeldBy(j) <==> v.owners[n] == HeldBy(j))
          && (v.owners[n] == HeldBy(j) ==> v'.flags[n] == v.flags[n] && nodes'[n] == nodes[n])
          && (v.owners[n] == InFree && v'.flags[n] == v.flags[n] ==>
                v'.owners[n] == InFree && nodes'[n] == nodes[n]))
  }

  lemma OtherProducer(nodes: seq<RequestNode>, v: View, nodes': seq<RequestNode>, v': View, p: Producer, j: nat)
    requires ProducerInv(nodes, p, v, j)
    requires Undisturbed(nodes, v, nodes', v', j)
    ensures ProducerInv(nodes', p, v', j)
  {
  }

  /** Thread `i` moved to `p`; the others only have to be undisturbed. */
  lemma ProducersStep(nodes: seq<RequestNode>, v: View, nodes': seq<RequestNode>, v': View,
                      producers: seq<Producer>, i: nat, p: Producer)
    requires i < |producers|
    requires ProducersInv(nodes, producers, v)
    requires forall j: nat :: j < |producers| && j != i ==> Undisturbed(nodes, v, nodes', v', j)
    requires ProducerInv(nodes', p, v', i)
    requires forall n :: 0 <= n < |v'.owners| && v'.owners[n].HeldBy? ==> v'.owners[n].thread < |producers|
    ensures ProducersInv(nodes', producers[i := p], v')
  {
    var producers' := producers[i := p];
    forall j | 0 <= j < |producers| ensures ProducerInv(nodes', producers'[j], v', j) {
      if j != i {
        OtherProducer(nodes, v, nodes', v', producers[j], j);
      }
    }
  }

  lemma LocalStep(nodes: seq<RequestNode>, v: View, producers: seq<Producer>, i: nat, p: Producer)
    requires i < |producers|
    requires |nodes| == |v.owners| == |v.flags|
    requires ProducersInv(nodes, producers, v)
    requires ProducerInv(nodes, p, v, i)
    ensures ProducersInv(nodes, producers[i := p], v)
  {
    ProducersStep(nodes, v, nodes, v, producers, i, p);
  }

  /** An event that is neither an allocation, a commit, a detach nor an execution changes none of the three. */
  lemma QuietEvent(nodes: seq<RequestNode>, v: View, discarding: bool, events: seq<Event>, e: Event)
    requires e.Began? || e.Dropped?
    requires QueueInv(nodes, Replay(events).queue, v.pending)
    requires DueInv(discarding, events, v.plan)
    requires FlagsInv(events, v.flags)
    ensures QueueInv(nodes, Replay(events + [e]).queue, v.pending)
    ensures DueInv(discarding, events + [e], v.plan)
    ensures FlagsInv(events + [e], v.flags)
  {
    hide QueueInv, Replay, ExecutedIds, Allocations, Tasks;
    Append(events, e);
    assert ExecutedIds(events + [e]) == ExecutedIds(events);
  }

  lemma StepBegin(c: Config, v: View, a: Action)
    requires Inv(c, v)
    requires a.BeginPush? || a.BeginHandle? || a.BeginReset?
    ensures Inv(Step(c, a), ViewStep(c, v, a))
  {
    if a.BeginPush? && a.thread < |c.producers| && c.producers[a.thread].Idle? {
      QuietEvent(c.nodes, v, Discarding(c.consumer), c.events, Began(a.request));
      LocalStep(c.nodes, v, c.producers, a.thread, LoadFree(a.request));
    }
  }

  lemma StepLoadFree(c: Config, v: View, i: nat)
    requires Inv(c, v) && i < |c.producers| && c.producers[i].LoadFree?
    ensures Inv(Step(c, Produce(i)), ViewStep(c, v, Produce(i)))
  {
    var r := c.producers[i].request;
    if c.free.index == INVALID_REQUEST_ID {
      QuietEvent(c.nodes, v, Discarding(c.consumer), c.events, Dropped(r));
      LocalStep(c.nodes, v, c.producers, i, Idle);
    } else {
      LocalStep(c.nodes, v, c.producers, i, ReadNext(r, c.free));
    }
  }

  lemma StepRead(c: Config, v: View, i: nat)
    requires Inv(c, v) && i < |c.producers| && (c.producers[i].ReadNext? || c.producers[i].LoadPending?)
    ensures Inv(Step(c, Produce(i)), ViewStep(c, v, Produce(i)))
  {
    LocalStep(c.nodes, v, c.producers, i, Step(c, Produce(i)).producers[i]);
  }

  /** A node with another owner is not on the list. */
  lemma NotOn(owners: seq<Owner>, places: seq<nat>, o: Owner, list: seq<nat>, n: nat)
    requires Owns(owners, places, o, list)
    requires n < |owners| && owners[n] != o
    ensures forall k :: 0 <= k < |list| ==> list[k] != n
  {
    forall k | 0 <= k < |list| ensures list[k] != n {
      assert owners[list[k]] == o;
    }
  }

  lemma NotBelowTop(owners: seq<Owner>, places: seq<nat>, o: Owner, list: seq<nat>)
    requires Owns(owners, places, o, list) && list != []
    ensures forall k :: 0 <= k < |list| - 1 ==> list[k] != Top(list)
  {
    forall k | 0 <= k < |list| - 1 ensures list[k] != Top(list) {
      assert places[list[k]] == k && places[Top(list)] == |list| - 1;
    }
  }

  // Nodes outside a list may change without the list noticing.

  ghost predicate SameOn(nodes: seq<RequestNode>, nodes': seq<RequestNode>, flags: seq<nat>, flags': seq<nat>,
                         list: seq<nat>) {
    && |nodes'| == |nodes| && |flags'| == |flags|
    && (forall k :: 0 <= k < |list| ==>
          list[k] < |nodes| && list[k] < |flags| &&
          nodes'[list[k]] == nodes[list[k]] && flags'[list[k]] == flags[list[k]])
  }

  lemma FrameLinked(nodes: seq<RequestNode>, flags: seq<nat>, nodes': seq<RequestNode>, flags': seq<nat>,
                    head: Link, list: seq<nat>)
    requires Linked(nodes, flags, head, list)
    requires SameOn(nodes, nodes', flags, flags', list)
    ensures Linked(nodes', flags', head, list)
  {
  }

  lemma FrameUncollected(nodes: seq<RequestNode>, nodes': seq<RequestNode>, plan: seq<Request>, list: seq<nat>)
    requires Uncollected(nodes, plan, list)
    requires |nodes'| == |nodes|
    requires forall k {:trigger nodes'[list[k]]} :: 0 <= k < |list| ==>
               list[k] < |nodes| && nodes'[list[k]] == nodes[list[k]]
    ensures Uncollected(nodes', plan, list)
  {
  }

  lemma FrameConsumer(nodes: seq<RequestNode>, v: View, nodes': seq<RequestNode>, v': View, s: Consumer)
    requires ConsumerInv(nodes, s, v)
    requires v'.detached == v.detached && v'.plan == v.plan
    requires SameOn(nodes, nodes', v.flags, v'.flags, v.detached)
    ensures ConsumerInv(nodes', s, v')
  {
    var rest := Below(v.detached);
    assert forall k :: 0 <= k < |rest| ==> rest[k] == v.detached[k];
    match s
    case Walk(_, _, l) =>
      FrameLinked(nodes, v.flags, nodes', v'.flags, l, v.detached);
      FrameUncollected(nodes, nodes', v.plan, v.detached);
    case Take(_, _, l, n) =>
      FrameLinked(nodes, v.flags, nodes', v'.flags, n, rest);
      FrameUncollected(nodes, nodes', v.plan, v.detached);
    case LoadFreeHead(_, _, l, n) =>
      FrameLinked(nodes, v.flags, nodes', v'.flags, n, rest);
      FrameUncollected(nodes, nodes', v.plan, rest);
    case LinkFree(_, _, l, n, _) =>
      FrameLinked(nodes, v.flags, nodes', v'.flags, n, rest);
      FrameUncollected(nodes, nodes', v.plan, rest);
    case CasFreeHead(_, _, l, n, _) =>
      FrameLinked(nodes, v.flags, nodes', v'.flags, n, rest);
      FrameUncollected(nodes, nodes', v.plan, rest);
    case _ =>
  }

  /** Writing a node leaves alone every list that does not hold it. */
  lemma WriteOff(nodes: seq<RequestNode>, v: View, o: Owner, list: seq<nat>, n: nat, x: RequestNode)
    requires Partition(|nodes|, v) && Owns(v.owners, v.places, o, list)
    requires n < |nodes| && v.owners[n] != o
    ensures SameOn(nodes, nodes[n := x], v.flags, v.flags, list)
  {
    NotOn(v.owners, v.places, o, list, n);
  }

  lemma WriteUndisturbing(nodes: seq<RequestNode>, v: View, n: nat, x: RequestNode, j: nat)
    requires |nodes| == |v.owners| == |v.flags|
    requires n < |nodes| && v.owners[n] != InFree && v.owners[n] != HeldBy(j)
    ensures Undisturbed(nodes, v, nodes[n := x], v, j)
  {
  }

  /** Nobody but the writer sees a write to a node that is neither free nor pending. */
  lemma WriteOwned(c: Config, v: View, n: nat, x: RequestNode)
    requires Inv(c, v) && n < |c.nodes|
    requires v.owners[n] != InFree && v.owners[n] != InPending
    ensures Linked(c.nodes[n := x], v.flags, c.free, v.free)
    ensures Linked(c.nodes[n := x], v.flags, c.pending, v.pending)
    ensures QueueInv(c.nodes[n := x], Replay(c.events).queue, v.pending)
  {
    WriteOff(c.nodes, v, InFree, v.free, n, x);
    WriteOff(c.nodes, v, InPending, v.pending, n, x);
    FrameLinked(c.nodes, v.flags, c.nodes[n := x], v.flags, c.free, v.free);
    FrameLinked(c.nodes, v.flags, c.nodes[n := x], v.flags, c.pending, v.pending);
    FrameUncollected(c.nodes, c.nodes[n := x], Replay(c.events).queue, v.pending);
  }

  lemma WriteHeld(c: Config, v: View, i: nat, n: nat, x: RequestNode, p: Producer)
    requires Inv(c, v) && i < |c.producers| && n < |c.nodes| && v.owners[n] == HeldBy(i)
    requires ProducerInv(c.nodes[n := x], p, v, i)
    ensures Inv(c.(nodes := c.nodes[n := x], producers := c.producers[i := p]), v)
  {
    WriteOwned(c, v, n, x);
    WriteOff(c.nodes, v, InDetached, v.detached, n, x);
    FrameConsumer(c.nodes, v, c.nodes[n := x], v, c.consumer);
    var nodes' := c.nodes[n := x];
    forall j: nat | j < |c.producers| && j != i ensures Undisturbed(c.nodes, v, nodes', v, j) {
      WriteUndisturbing(c.nodes, v, n, x, j);
    }
    ProducersStep(c.nodes, v, nodes', v, c.producers, i, p);
  }

  /** Writing the request or the `next` field of a node that the writer holds. */
  lemma StepWriteHeld(c: Config, v: View, i: nat)
    requires Inv(c, v) && i < |c.producers| && (c.producers[i].Fill? || c.producers[i].LinkPending?)
    ensures Inv(Step(c, Produce(i)), ViewStep(c, v, Produce(i)))
  {
    var c' := Step(c, Produce(i));
    var n := c.producers[i].node.index;
    assert ProducerInv(c.nodes, c.producers[i], v, i);
    WriteHeld(c, v, i, n, c'.nodes[n], c'.producers[i]);
  }

  /** The pop: by the snapshot invariant the expected head is current, so the installed head is its true successor. */
  lemma StepPop(c: Config, v: View, i: nat)
    requires Inv(c, v) && i < |c.producers| && c.producers[i].CasFree?
    ensures Inv(Step(c, Produce(i)), ViewStep(c, v, Produce(i)))
  {
    var CasFree(r, h, n) := c.producers[i];
    PopperKnows(c, v, i);
    if c.free == h {
      hide Inv, Snapshot, HoldsNothing, Replay;
      CurrentHead(c, v, h);
      PopSucceeds(c, v, ViewStep(c, v, Produce(i)), i, r, h, n);
    } else {
      LocalStep(c.nodes, v, c.producers, i, LoadFree(r));
    }
  }

  lemma PopperKnows(c: Config, v: View, i: nat)
    requires Inv(c, v) && i < |c.producers| && c.producers[i].CasFree?
    ensures |c.nodes| == |v.owners| == |v.flags|
    ensures var CasFree(_, h, n) := c.producers[i];
            && HoldsNothing(v.owners, i) && Snapshot(c.nodes, v, h)
            && h.index < |c.nodes| && (h.flag == v.flags[h.index] ==> c.nodes[h.index].next == n)
  {
    assert ProducerInv(c.nodes, c.producers[i], v, i);
  }

  /** A snapshot that equals the head is current. */
  lemma CurrentHead(c: Config, v: View, h: Link)
    requires Inv(c, v) && c.free == h && Snapshot(c.nodes, v, h)
    ensures v.free != [] && Top(v.free) == h.index
    ensures v.flags[h.index] == h.flag && v.owners[h.index] == InFree
  {
    assert v.owners[v.free[|v.free| - 1]] == InFree;
  }

  lemma PopSucceeds(c: Config, v: View, v': View, i: nat, r: Request, h: Link, n: Link)
    requires Inv(c, v) && i < |c.producers| && HoldsNothing(v.owners, i)
    requires PopView(v, v', h, i) && c.free == h && Top(v.free) == h.index
    requires v.flags[h.index] == h.flag && v.owners[h.index] == InFree
    requires n == c.nodes[h.index].next
    ensures Inv(c.(free := n, producers := c.producers[i := Fill(r, Link(h.flag + 1, h.index))],
                   events := c.events + [Allocated(h.index)]), v')
  {
    PopLists(c.nodes, v, v', h, i);
    PopFrames(c, v, v', h, i);
    PopProducers(c.nodes, c.producers, v, v', h, i, Fill(r, Link(h.flag + 1, h.index)));
    PopHistory(c.events, v, h, Discarding(c.consumer));
  }

  ghost predicate PopView(v: View, v': View, h: Link, i: nat) {
    && h.index < |v.owners| && h.index < |v.flags| && v.free != []
    && v' == v.(free := Below(v.free), owners := v.owners[h.index := HeldBy(i)],
                flags := v.flags[h.index := h.flag + 1])
  }

  lemma PopFrames(c: Config, v: View, v': View, h: Link, i: nat)
    requires Inv(c, v) && PopView(v, v', h, i)
    requires v.owners[h.index] == InFree
    ensures Linked(c.nodes, v'.flags, c.pending, v'.pending)
    ensures ConsumerInv(c.nodes, c.consumer, v')
  {
    NotOn(v.owners, v.places, InPending, v.pending, h.index);
    NotOn(v.owners, v.places, InDetached, v.detached, h.index);
    FrameLinked(c.nodes, v.flags, c.nodes, v'.flags, c.pending, v.pending);
    FrameConsumer(c.nodes, v, c.nodes, v', c.consumer);
  }

  lemma PopProducers(nodes: seq<RequestNode>, producers: seq<Producer>, v: View, v': View, h: Link, i: nat,
                     p: Producer)
    requires |nodes| == |v.owners| == |v.flags|
    requires ProducersInv(nodes, producers, v) && PopView(v, v', h, i) && i < |producers|
    requires v.owners[h.index] == InFree && v.flags[h.index] == h.flag
    requires HoldsNothing(v.owners, i)
    requires p.Fill? && p.node == Link(h.flag + 1, h.index)
    ensures ProducersInv(nodes, producers[i := p], v')
  {
    ProducersStep(nodes, v, nodes, v', producers, i, p);
  }

  /** The top of a list goes to another owner. */
  lemma Popped(owners: seq<Owner>, places: seq<nat>, o: Owner, list: seq<nat>, o': Owner)
    requires Owns(owners, places, o, list) && list != [] && o' != o
    ensures Owns(owners[Top(list) := o'], places, o, Below(list))
  {
    NotBelowTop(owners, places, o, list);
  }

  lemma Unaffected(owners: seq<Owner>, places: seq<nat>, o: Owner, list: seq<nat>, n: nat, o': Owner, place: nat)
    requires Owns(owners, places, o, list)
    requires n < |owners| && owners[n] != o && o' != o
    ensures Owns(owners[n := o'], places, o, list)
    ensures Owns(owners[n := o'], places[n := place], o, list)
  {
    NotOn(owners, places, o, list, n);
  }

  lemma PopLists(nodes: seq<RequestNode>, v: View, v': View, head: Link, i: nat)
    requires Partition(|nodes|, v)
    requires Linked(nodes, v.flags, head, v.free) && v.free != []
    requires v' == v.(free := Below(v.free), owners := v.owners[head.index := HeldBy(i)],
                      flags := v.flags[head.index := head.flag + 1])
    ensures Partition(|nodes|, v')
    ensures Linked(nodes, v'.flags, nodes[head.index].next, v'.free)
  {
    Popped(v.owners, v.places, InFree, v.free, HeldBy(i));
    Unaffected(v.owners, v.places, InPending, v.pending, head.index, HeldBy(i), 0);
    Unaffected(v.owners, v.places, InDetached, v.detached, head.index, HeldBy(i), 0);
    NotBelowTop(v.owners, v.places, InFree, v.free);
  }

  lemma PopHistory(events: seq<Event>, v: View, h: Link, discarding: bool)
    requires FlagsInv(events, v.flags) && DueInv(discarding, events, v.plan)
    requires h.index < |v.flags| && v.flags[h.index] == h.flag
    ensures FlagsInv(events + [Allocated(h.index)], v.flags[h.index := h.flag + 1])
    ensures DueInv(discarding, events + [Allocated(h.index)], v.plan)
    ensures Replay(events + [Allocated(h.index)]).queue == Replay(events).queue
  {
    Append(events, Allocated(h.index));
  }

  /** A node of another owner goes on top of a list. */
  lemma Pushed(owners: seq<Owner>, places: seq<nat>, o: Owner, list: seq<nat>, n: nat)
    requires Owns(owners, places, o, list)
    requires n < |owners| && owners[n] != o
    ensures Owns(owners[n := o], places[n := |list|], o, list + [n])
  {
    NotOn(owners, places, o, list, n);
    var owners', places', list' := owners[n := o], places[n := |list|], list + [n];
    forall k | 0 <= k < |list'| ensures owners'[list'[k]] == o && places'[list'[k]] == k {
      if k < |list| {
        assert list'[k] == list[k] && owners[list[k]] == o;
      }
    }
  }

  lemma PushedLinked(nodes: seq<RequestNode>, flags: seq<nat>, list: seq<nat>, l: Link)
    requires l.index < |nodes| == |flags| && flags[l.index] == l.flag
    requires Linked(nodes, flags, nodes[l.index].next, list)
    ensures Linked(nodes, flags, l, list + [l.index])
  {
    var list' := list + [l.index];
    forall k | 0 <= k < |list'| ensures Points(flags, nodes[list'[k]].next, list', k) {
      if k < |list| {
        assert list'[k] == list[k];
        assert Points(flags, nodes[list[k]].next, list, k);
      }
    }
  }

  ghost predicate CommitView(v: View, v': View, n: nat) {
    && n < |v.owners| && n < |v.places|
    && v' == v.(pending := v.pending + [n], owners := v.owners[n := InPending], places := v.places[n := |v.pending|])
  }

  lemma CommitPartition(size: nat, v: View, v': View, n: nat)
    requires Partition(size, v) && CommitView(v, v', n) && v.owners[n].HeldBy?
    ensures Partition(size, v')
  {
    Pushed(v.owners, v.places, InPending, v.pending, n);
    Unaffected(v.owners, v.places, InFree, v.free, n, InPending, |v.pending|);
    Unaffected(v.owners, v.places, InDetached, v.detached, n, InPending, |v.pending|);
  }

  lemma CommitProducers(nodes: seq<RequestNode>, producers: seq<Producer>, v: View, v': View, i: nat, n: nat)
    requires |nodes| == |v.owners| == |v.flags|
    requires ProducersInv(nodes, producers, v) && CommitView(v, v', n)
    requires i < |producers| && v.owners[n] == HeldBy(i)
    requires forall m :: 0 <= m < |v.owners| && v.owners[m] == HeldBy(i) ==> m == n
    ensures ProducersInv(nodes, producers[i := Idle], v')
  {
    ProducersStep(nodes, v, nodes, v', producers, i, Idle);
  }

  lemma CommitHistory(nodes: seq<RequestNode>, v: View, discarding: bool, events: seq<Event>, n: nat)
    requires QueueInv(nodes, Replay(events).queue, v.pending)
    requires DueInv(discarding, events, v.plan)
    requires FlagsInv(events, v.flags)
    requires n < |nodes|
    ensures QueueInv(nodes, Replay(events + [Committed(nodes[n].request)]).queue, v.pending + [n])
    ensures DueInv(discarding, events + [Committed(nodes[n].request)], v.plan)
    ensures FlagsInv(events + [Committed(nodes[n].request)], v.flags)
  {
    Append(events, Committed(nodes[n].request));
    CommitQueue(nodes, Replay(events).queue, v.pending, n);
    hide QueueInv, Tasks, Replay, ExecutedIds, Allocations;
  }

  lemma CommitQueue(nodes: seq<RequestNode>, queue: seq<Request>, pending: seq<nat>, n: nat)
    requires QueueInv(nodes, queue, pending) && n < |nodes|
    ensures QueueInv(nodes, queue + [nodes[n].request], pending + [n])
  {
    var list', queue' := pending + [n], queue + [nodes[n].request];
    forall k | 0 <= k < |list'| ensures nodes[list'[k]].request == queue'[k] {
      if k < |pending| {
        assert list'[k] == pending[k];
      }
    }
  }

  lemma StepCommit(c: Config, v: View, i: nat)
    requires Inv(c, v) && i < |c.producers| && c.producers[i].CasPending?
    ensures Inv(Step(c, Produce(i)), ViewStep(c, v, Produce(i)))
  {
    hide QueueInv, DueInv, FlagsInv;
    var CasPending(r, w, h) := c.producers[i];
    assert ProducerInv(c.nodes, c.producers[i], v, i);
    if c.pending == h {
      var v' := ViewStep(c, v, Produce(i));
      assert CommitView(v, v', w.index);
      CommitPartition(|c.nodes|, v, v', w.index);
      PushedLinked(c.nodes, v.flags, v.pending, w);
      CommitProducers(c.nodes, c.producers, v, v', i, w.index);
      CommitHistory(c.nodes, v, Discarding(c.consumer), c.events, w.index);
    } else {
      LocalStep(c.nodes, v, c.producers, i, LoadPending(r, w));
    }
  }

  // Steps of the consumer.

  lemma AllUndisturbed(nodes: seq<RequestNode>, v: View, nodes': seq<RequestNode>, v': View, producers: seq<Producer>)
    requires ProducersInv(nodes, producers, v)
    requires forall j: nat :: j < |producers| ==> Undisturbed(nodes, v, nodes', v', j)
    requires forall n :: 0 <= n < |v'.owners| && v'.owners[n].HeldBy? ==> v'.owners[n].thread < |producers|
    ensures ProducersInv(nodes', producers, v')
  {
    forall j | 0 <= j < |producers| ensures ProducerInv(nodes', producers[j], v', j) {
      OtherProducer(nodes, v, nodes', v', producers[j], j);
    }
  }

  lemma PlanOnly(nodes: seq<RequestNode>, producers: seq<Producer>, v: View, plan: seq<Request>)
    requires |nodes| == |v.owners| == |v.flags|
    requires ProducersInv(nodes, producers, v)
    ensures ProducersInv(nodes, producers, v.(plan := plan))
  {
    AllUndisturbed(nodes, v, nodes, v.(plan := plan), producers);
  }

  lemma DetachPartition(size: nat, v: View, queue: seq<Request>)
    requires Partition(size, v) && v.detached == []
    ensures Partition(size, DetachAll(v, queue))
  {
    var v' := DetachAll(v, queue);
    assert forall n :: 0 <= n < size ==>
      v'.owners[n] == if v.owners[n] == InPending then InDetached else v.owners[n];
    forall k | 0 <= k < |v'.detached| ensures v'.owners[v'.detached[k]] == InDetached {
      assert v.owners[v.pending[k]] == InPending;
    }
    forall n | 0 <= n < size && v'.owners[n] == InDetached
      ensures v'.places[n] < |v'.detached| && v'.detached[v'.places[n]] == n
    {
      if v.owners[n] == InDetached {
        assert false;
      }
    }
  }

  lemma DetachProducers(nodes: seq<RequestNode>, v: View, producers: seq<Producer>, queue: seq<Request>)
    requires |nodes| == |v.owners| == |v.flags|
    requires ProducersInv(nodes, producers, v)
    ensures ProducersInv(nodes, producers, DetachAll(v, queue))
  {
    var v' := DetachAll(v, queue);
    assert forall n :: 0 <= n < |v.owners| ==>
      v'.owners[n] == if v.owners[n] == InPending then InDetached else v.owners[n];
    AllUndisturbed(nodes, v, nodes, v', producers);
  }

  lemma DetachHistory(v: View, events: seq<Event>, process: bool)
    requires DueInv(false, events, []) && FlagsInv(events, v.flags)
    ensures Replay(events + [Detached(process)]).queue == []
    ensures DueInv(!process, events + [Detached(process)], Replay(events).queue)
    ensures FlagsInv(events + [Detached(process)], v.flags)
  {
    Append(events, Detached(process));
  }

  lemma DetachLists(nodes: seq<RequestNode>, v: View, queue: seq<Request>, flag: nat)
    ensures Linked(nodes, v.flags, Link(flag, INVALID_REQUEST_ID), DetachAll(v, queue).pending)
    ensures QueueInv(nodes, [], DetachAll(v, queue).pending)
  {
  }

  lemma DetachConsumer(nodes: seq<RequestNode>, v: View, queue: seq<Request>, process: bool, head: Link)
    requires Linked(nodes, v.flags, head, v.pending) && QueueInv(nodes, queue, v.pending)
    ensures ConsumerInv(nodes, Walk(process, [], head), DetachAll(v, queue))
  {
    hide Linked, Uncollected, DetachAll;
  }

  /** The whole pending list becomes the batch in hand: everything committed and not yet taken. */
  lemma DetachSucceeds(c: Config, v: View, process: bool, flag: nat)
    requires Inv(c, v) && v.detached == [] && v.plan == [] && !Discarding(c.consumer)
    ensures Inv(c.(pending := Link(flag, INVALID_REQUEST_ID), consumer := Walk(process, [], c.pending),
                   events := c.events + [Detached(process)]), DetachAll(v, Replay(c.events).queue))
  {
    assert |c.nodes| == |v.owners| == |v.flags|;
    hide Partition, Linked, ProducersInv, ConsumerInv, QueueInv, DueInv, FlagsInv, Replay, DetachAll;
    var queue := Replay(c.events).queue;
    DetachPartition(|c.nodes|, v, queue);
    DetachLists(c.nodes, v, queue, flag);
    DetachConsumer(c.nodes, v, queue, process, c.pending);
    DetachProducers(c.nodes, v, c.producers, queue);
    DetachHistory(v, c.events, process);
  }

  lemma StepDetach(c: Config, v: View)
    requires Inv(c, v)
    requires c.consumer.LoadDetach? || c.consumer.CasDetach? || c.consumer.LoadFlag? || c.consumer.Exchange?
    ensures Inv(Step(c, Consume), ViewStep(c, v, Consume))
  {
    hide Partition, Linked, ProducersInv, QueueInv, DueInv, FlagsInv;
    match c.consumer
    case CasDetach(h) => DetachSucceeds(c, v, true, h.flag);
    case Exchange(f) => DetachSucceeds(c, v, false, f);
    case _ =>
  }

  lemma LinkedTail(nodes: seq<RequestNode>, flags: seq<nat>, head: Link, list: seq<nat>)
    requires Linked(nodes, flags, head, list) && list != []
    ensures head.index < |nodes| && Linked(nodes, flags, nodes[head.index].next, Below(list))
  {
    var rest := Below(list);
    assert Points(flags, nodes[Top(list)].next, list, |list| - 1);
    forall k | 0 <= k < |rest| ensures Points(flags, nodes[rest[k]].next, rest, k) {
      assert rest[k] == list[k];
      assert Points(flags, nodes[list[k]].next, list, k);
    }
  }

  lemma StepWalk(c: Config, v: View)
    requires Inv(c, v) && c.consumer.Walk?
    ensures Inv(Step(c, Consume), ViewStep(c, v, Consume))
  {
    hide ProducersInv, QueueInv, FlagsInv;
    var Walk(p, b, l) := c.consumer;
    if l.index == INVALID_REQUEST_ID {
      assert v.detached == [];
      assert b[..|b|] == b;
      PlanOnly(c.nodes, c.producers, v, []);
    } else {
      assert v.detached != [];
      hide Points, DueInv, Uncollected;
      LinkedTail(c.nodes, v.flags, l, v.detached);
    }
  }

  /** The consumer writes the node on top of the detached list. */
  lemma WriteInHand(c: Config, v: View, n: nat, x: RequestNode)
    requires Inv(c, v) && v.detached != [] && n == Top(v.detached)
    ensures n < |c.nodes| && v.owners[n] == InDetached
    ensures Linked(c.nodes[n := x], v.flags, c.free, v.free)
    ensures Linked(c.nodes[n := x], v.flags, c.pending, v.pending)
    ensures QueueInv(c.nodes[n := x], Replay(c.events).queue, v.pending)
    ensures ProducersInv(c.nodes[n := x], c.producers, v)
    ensures SameOn(c.nodes, c.nodes[n := x], v.flags, v.flags, Below(v.detached))
  {
    assert v.owners[v.detached[|v.detached| - 1]] == InDetached;
    WriteOwned(c, v, n, x);
    NotBelowTop(v.owners, v.places, InDetached, v.detached);
    var nodes' := c.nodes[n := x];
    forall j: nat | j < |c.producers| ensures Undisturbed(c.nodes, v, nodes', v, j) {
      WriteUndisturbing(c.nodes, v, n, x, j);
    }
    AllUndisturbed(c.nodes, v, nodes', v, c.producers);
  }

  lemma StepTake(c: Config, v: View)
    requires Inv(c, v) && c.consumer.Take?
    ensures Inv(Step(c, Consume), ViewStep(c, v, Consume))
  {
    hide ProducersInv, QueueInv, DueInv, FlagsInv;
    var Take(p, b, l, n) := c.consumer;
    var c', rest := Step(c, Consume), Below(v.detached);
    var r := c.nodes[l.index].request;
    WriteInHand(c, v, l.index, c'.nodes[l.index]);
    FrameLinked(c.nodes, v.flags, c'.nodes, v.flags, n, rest);
    assert Uncollected(c'.nodes, v.plan, rest) by {
      forall k | 0 <= k < |rest| ensures c'.nodes[rest[k]].request == v.plan[k] {
        assert rest[k] == v.detached[k] && c.nodes[v.detached[k]].request == v.plan[k];
      }
    }
    assert r == v.plan[|v.detached| - 1] by {
      assert c.nodes[v.detached[|v.detached| - 1]].request == v.plan[|v.detached| - 1];
    }
    assert Collected(v.plan, b + [r], |v.detached| - 1);
  }

  lemma StepLinkFree(c: Config, v: View)
    requires Inv(c, v) && (c.consumer.LoadFreeHead? || c.consumer.LinkFree?)
    ensures Inv(Step(c, Consume), ViewStep(c, v, Consume))
  {
    hide ProducersInv, QueueInv, DueInv, FlagsInv;
    if c.consumer.LinkFree? {
      var LinkFree(p, b, l, n, h) := c.consumer;
      var c', rest := Step(c, Consume), Below(v.detached);
      WriteInHand(c, v, l.index, c'.nodes[l.index]);
      FrameLinked(c.nodes, v.flags, c'.nodes, v.flags, n, rest);
      FrameUncollected(c.nodes, c'.nodes, v.plan, rest);
    }
  }

  ghost predicate ReturnView(v: View, v': View, n: nat) {
    && v.detached != [] && n == Top(v.detached)
    && n < |v.owners| && n < |v.places|
    && v' == v.(free := v.free + [n], detached := Below(v.detached), owners := v.owners[n := InFree],
                places := v.places[n := |v.free|])
  }

  lemma ReturnPartition(size: nat, v: View, v': View, n: nat)
    requires Partition(size, v) && ReturnView(v, v', n)
    ensures Partition(size, v')
  {
    assert v.owners[v.detached[|v.detached| - 1]] == InDetached;
    Pushed(v.owners, v.places, InFree, v.free, n);
    Unaffected(v.owners, v.places, InPending, v.pending, n, InFree, |v.free|);
    Popped(v.owners, v.places, InDetached, v.detached, InFree);
    NotBelowTop(v.owners, v.places, InDetached, v.detached);
  }

  lemma ReturnProducers(nodes: seq<RequestNode>, producers: seq<Producer>, v: View, v': View, n: nat)
    requires |nodes| == |v.owners| == |v.flags|
    requires ProducersInv(nodes, producers, v) && ReturnView(v, v', n) && v.owners[n] == InDetached
    ensures ProducersInv(nodes, producers, v')
  {
    hide Top, Below;
    AllUndisturbed(nodes, v, nodes, v', producers);
  }

  /** A detached node goes back to the free list with the flag it was allocated under. */
  lemma StepReturn(c: Config, v: View)
    requires Inv(c, v) && c.consumer.CasFreeHead?
    ensures Inv(Step(c, Consume), ViewStep(c, v, Consume))
  {
    hide ProducersInv, QueueInv, DueInv, FlagsInv;
    var CasFreeHead(p, b, l, n, h) := c.consumer;
    if c.free == h {
      var v' := ViewStep(c, v, Consume);
      assert ReturnView(v, v', l.index);
      ReturnPartition(|c.nodes|, v, v', l.index);
      PushedLinked(c.nodes, v.flags, v.free, l);
      assert v.owners[v.detached[|v.detached| - 1]] == InDetached;
      ReturnProducers(c.nodes, c.producers, v, v', l.index);
    }
  }

  lemma ExecuteHistory(events: seq<Event>, plan: seq<Request>, flags: seq<nat>)
    requires DueInv(false, events, plan) && plan != [] && FlagsInv(events, flags)
    ensures var events' := if plan[0].Task? then events + [Executed(plan[0].id)] else events;
            && DueInv(false, events', plan[1..]) && FlagsInv(events', flags)
            && Replay(events').queue == Replay(events).queue
  {
    if plan[0].Task? {
      Append(events, Executed(plan[0].id));
    }
  }

  lemma ExecuteBatch(plan: seq<Request>, batch: seq<Request>, k: nat)
    requires 0 < k <= |batch| && Collected(plan, batch[..k], 0)
    ensures plan != [] && batch[k - 1] == plan[0]
    ensures Collected(plan[1..], batch[..k - 1], 0)
  {
    var taken := batch[..k];
    assert taken[k - 1] == plan[0];
    forall j | 0 <= j < k - 1 ensures batch[j] == plan[1..][k - 2 - j] {
      assert taken[j] == plan[k - 1 - j];
    }
  }

  lemma StepExecute(c: Config, v: View)
    requires Inv(c, v) && c.consumer.Execute?
    ensures Inv(Step(c, Consume), ViewStep(c, v, Consume))
  {
    hide ProducersInv, QueueInv, DueInv, FlagsInv, Linked;
    var Execute(b, k) := c.consumer;
    if 0 < k {
      ExecuteBatch(v.plan, b, k);
      ExecuteHistory(c.events, v.plan, v.flags);
      PlanOnly(c.nodes, c.producers, v, v.plan[1..]);
    }
  }

  /** A thread outside any call has no step to take. */
  lemma StepNothing(c: Config, v: View, a: Action)
    requires Inv(c, v)
    requires match a
             case Produce(i) => i < |c.producers| ==> c.producers[i].Idle?
             case Consume => c.consumer.Resting?
             case _ => false
    ensures Step(c, a) == c && ViewStep(c, v, a) == v
  {
    hide Inv;
  }

  lemma StepInv(c: Config, v: View, a: Action)
    requires Inv(c, v)
    ensures Inv(Step(c, a), ViewStep(c, v, a))
  {
    hide *;
    if a.Produce? {
      StepProducer(c, v, a.thread);
    } else if a.Consume? {
      StepConsumer(c, v);
    } else {
      StepBegin(c, v, a);
    }
  }

  lemma StepProducer(c: Config, v: View, i: nat)
    requires Inv(c, v)
    ensures Inv(Step(c, Produce(i)), ViewStep(c, v, Produce(i)))
  {
    hide *;
    if i >= |c.producers| || c.producers[i].Idle? {
      StepNothing(c, v, Produce(i));
    } else if c.producers[i].LoadFree? {
      StepLoadFree(c, v, i);
    } else if c.producers[i].ReadNext? || c.producers[i].LoadPending? {
      StepRead(c, v, i);
    } else if c.producers[i].CasFree? {
      StepPop(c, v, i);
    } else if c.producers[i].Fill? || c.producers[i].LinkPending? {
      StepWriteHeld(c, v, i);
    } else {
      StepCommit(c, v, i);
    }
  }

  lemma StepConsumer(c: Config, v: View)
    requires Inv(c, v)
    ensures Inv(Step(c, Consume), ViewStep(c, v, Consume))
  {
    hide *;
    if c.consumer.Resting? {
      StepNothing(c, v, Consume);
    } else if c.consumer.Walk? {
      StepWalk(c, v);
    } else if c.consumer.Take? {
      StepTake(c, v);
    } else if c.consumer.LoadFreeHead? || c.consumer.LinkFree? {
      StepLinkFree(c, v);
    } else if c.consumer.CasFreeHead? {
      StepReturn(c, v);
    } else if c.consumer.Execute? {
      StepExecute(c, v);
    } else {
      StepDetach(c, v);
    }
  }

  ghost function InitView(capacity: nat): View {
    View(seq(capacity, (k: nat) requires k < capacity => capacity - 1 - k), [], [],
         seq(capacity, _ => InFree), seq(capacity, (k: nat) requires k < capacity => capacity - 1 - k),
         seq(capacity, _ => 0), [])
  }

  lemma InitInv(capacity: nat, producers: nat)
    requires 0 < capacity <= MAX_REQUEST_COUNT
    ensures Inv(Init(capacity, producers), InitView(capacity))
  {
    var c, v := Init(capacity, producers), InitView(capacity);
    assert FlagsInv(c.events, v.flags);
    assert Linked(c.nodes, v.flags, c.free, v.free);
  }

  /** Every configuration that any schedule can reach satisfies the invariant. */
  lemma RunInv(c: Config, v: View, actions: seq<Action>) returns (v': View)
    requires Inv(c, v)
    ensures Inv(Run(c, actions), v')
    decreases |actions|
  {
    if actions == [] {
      v' := v;
    } else {
      StepInv(c, v, actions[0]);
      v' := RunInv(Step(c, actions[0]), ViewStep(c, v, actions[0]), actions[1..]);
    }
  }
}
