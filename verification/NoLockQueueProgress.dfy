/**
  Progress of the lock-free queue, and the 64-bit words behind its links.
*/
module NoLockQueueProgress {
  import opened NoLockQueue
  import opened NoLockQueueTheorems

  // ---------------------------------------------------------------- a failed exchange means somebody else's succeeded

  /** The step completes an exchange on the free head: a pop, or the return of a node. */
  predicate ExchangesFree(c: Config, a: Action) {
    || (a.Produce? && a.thread < |c.producers| && c.producers[a.thread].CasFree? && c.producers[a.thread].head == c.free)
    || (a == Consume && c.consumer.CasFreeHead? && c.consumer.head == c.free)
  }

  /** The step completes an exchange on the pending head: a commit, a detach, or the exchange of a reset. */
  predicate ExchangesPending(c: Config, a: Action) {
    || (a.Produce? && a.thread < |c.producers| && c.producers[a.thread].CasPending?
        && c.producers[a.thread].head == c.pending)
    || (a == Consume && c.consumer.CasDetach? && c.consumer.head == c.pending)
    || (a == Consume && c.consumer.Exchange?)
  }

  /** Only such steps move the heads. */
  lemma MovesByExchange(c: Config, a: Action)
    ensures Step(c, a).free != c.free ==> ExchangesFree(c, a)
    ensures Step(c, a).pending != c.pending ==> ExchangesPending(c, a)
  {
  }

  /** Where a head moved during a run. */
  lemma {:induction false} MovedSomewhere(head: Config -> Link, c: Config, actions: seq<Action>) returns (k: nat)
    requires head(Run(c, actions)) != head(c)
    ensures k < |actions|
    ensures head(Run(c, actions[..k])) == head(c)
    ensures head(Step(Run(c, actions[..k]), actions[k])) != head(Run(c, actions[..k]))
    decreases |actions|
  {
    var c' := Step(c, actions[0]);
    if head(c') != head(c) {
      k := 0;
    } else {
      var j := MovedSomewhere(head, c', actions[1..]);
      k := j + 1;
      assert actions[..k][1..] == actions[1..][..j];
    }
  }

  /** Where a wait began: if a thread waits at the end of a run and can only come to wait by a step `me` from where it
      loads, then it took such a step and has waited ever since. */
  lemma {:induction false} WaitBegan(c: Config, actions: seq<Action>, waits: Config -> bool, loads: Config -> bool,
                                     me: Action) returns (k: nat)
    requires !waits(c) && waits(Run(c, actions))
    requires forall d, a :: waits(Step(d, a)) && !waits(d) ==> a == me && loads(d)
    ensures k < |actions| && actions[k] == me && loads(Run(c, actions[..k]))
    ensures forall j :: k < j <= |actions| ==> waits(Run(c, actions[..j]))
    decreases |actions|
  {
    hide Step;
    var n := |actions| - 1;
    var before, last := actions[..n], actions[n];
    assert actions == before + [last];
    RunSplit(c, before, [last]);
    assert [last][1..] == [];
    assert Run(c, actions) == Step(Run(c, before), last);
    assert actions[..|actions|] == actions;
    if waits(Run(c, before)) {
      k := WaitBegan(c, before, waits, loads, me);
      forall j | k < j <= |actions| ensures waits(Run(c, actions[..j])) {
        if j <= n {
          assert actions[..j] == before[..j];
        }
      }
      assert actions[..k] == before[..k];
    } else {
      k := n;
    }
  }

  /** Where a head moved after a point of a run. */
  lemma MovedSince(head: Config -> Link, c: Config, actions: seq<Action>, k: nat) returns (j: nat)
    requires k <= |actions| && head(Run(c, actions)) != head(Run(c, actions[..k]))
    ensures k <= j < |actions|
    ensures head(Step(Run(c, actions[..j]), actions[j])) != head(Run(c, actions[..j]))
  {
    hide Step;
    assert actions == actions[..k] + actions[k..];
    RunSplit(c, actions[..k], actions[k..]);
    var m := MovedSomewhere(head, Run(c, actions[..k]), actions[k..]);
    j := k + m;
    assert actions[..j] == actions[..k] + actions[k..][..m];
    RunSplit(c, actions[..k], actions[k..][..m]);
  }

  /** Between the load of `h` as step `k` of a run and its end, somebody other than `me` completed an exchange on the free
      head. */
  ghost predicate FreeOvertaken(c: Config, actions: seq<Action>, me: Action, h: Link, k: nat, j: nat) {
    && k < j < |actions|
    && actions[k] == me && Run(c, actions[..k]).free == h
    && actions[j] != me && ExchangesFree(Run(c, actions[..j]), actions[j])
  }

  ghost predicate PendingOvertaken(c: Config, actions: seq<Action>, me: Action, h: Link, k: nat, j: nat) {
    && k < j < |actions|
    && actions[k] == me && Run(c, actions[..k]).pending == h
    && actions[j] != me && ExchangesPending(Run(c, actions[..j]), actions[j])
  }

  /** `d` loads, then waits while it holds; its own steps in between move nothing. */
  lemma FreeOvertook(c: Config, actions: seq<Action>, waits: Config -> bool, loads: Config -> bool, me: Action, h: Link)
    returns (k: nat, j: nat)
    requires !waits(c) && waits(Run(c, actions)) && Run(c, actions).free != h
    requires forall d, a :: waits(Step(d, a)) && !waits(d) ==> a == me && loads(d)
    requires forall d :: loads(d) ==> d.free == h && Step(d, me).free == h
    requires forall d :: waits(d) && waits(Step(d, me)) ==> Step(d, me).free == d.free
    ensures k < |actions| && loads(Run(c, actions[..k])) && FreeOvertaken(c, actions, me, h, k, j)
  {
    k := WaitBegan(c, actions, waits, loads, me);
    j := MovedSince((d: Config) => d.free, c, actions, k);
    var d := Run(c, actions[..j]);
    MovesByExchange(d, actions[j]);
    assert Step(d, actions[j]) == Run(c, actions[..j + 1]) by {
      RunSplit(c, actions[..j], [actions[j]]);
      assert actions[..j + 1] == actions[..j] + [actions[j]] && [actions[j]][1..] == [];
    }
    hide Step, ExchangesFree;
    assert waits(Run(c, actions[..j + 1]));
  }

  lemma PendingOvertook(c: Config, actions: seq<Action>, waits: Config -> bool, loads: Config -> bool, me: Action, h: Link)
    returns (k: nat, j: nat)
    requires !waits(c) && waits(Run(c, actions)) && Run(c, actions).pending != h
    requires forall d, a :: waits(Step(d, a)) && !waits(d) ==> a == me && loads(d)
    requires forall d :: loads(d) ==> d.pending == h && Step(d, me).pending == h
    requires forall d :: waits(d) && waits(Step(d, me)) ==> Step(d, me).pending == d.pending
    ensures k < |actions| && loads(Run(c, actions[..k])) && PendingOvertaken(c, actions, me, h, k, j)
  {
    k := WaitBegan(c, actions, waits, loads, me);
    j := MovedSince((d: Config) => d.pending, c, actions, k);
    var d := Run(c, actions[..j]);
    MovesByExchange(d, actions[j]);
    assert Step(d, actions[j]) == Run(c, actions[..j + 1]) by {
      RunSplit(c, actions[..j], [actions[j]]);
      assert actions[..j + 1] == actions[..j] + [actions[j]] && [actions[j]][1..] == [];
    }
    hide Step, ExchangesPending;
    assert waits(Run(c, actions[..j + 1]));
  }

  /**
    Lock freedom of the pop, on every reachable configuration: if the exchange of thread `i` is about to fail, then since
    `i` loaded the head it compares with, another thread completed an exchange on the free head.
  */
  lemma FailedPopMeansInterference(capacity: nat, producers: nat, actions: seq<Action>, i: nat)
    requires 0 < capacity <= MAX_REQUEST_COUNT
    requires var c := After(capacity, producers, actions);
             i < |c.producers| && c.producers[i].CasFree? && c.free != c.producers[i].head
    ensures var h := After(capacity, producers, actions).producers[i].head;
            exists k: nat, j: nat ::
              FreeOvertaken(Init(capacity, producers), actions, Produce(i), h, k, j)
              && var d := After(capacity, producers, actions[..k]); i < |d.producers| && d.producers[i].LoadFree?
  {
    var h := After(capacity, producers, actions).producers[i].head;
    var waits := (c: Config) =>
      i < |c.producers| && (c.producers[i].ReadNext? || c.producers[i].CasFree?) && c.producers[i].head == h;
    var loads := (c: Config) => i < |c.producers| && c.producers[i].LoadFree? && c.free == h;
    var k, j := FreeOvertook(Init(capacity, producers), actions, waits, loads, Produce(i), h);
  }

  predicate LoadsPending(c: Config, i: nat, h: Link) {
    i < |c.producers| && c.producers[i].LoadPending? && c.pending == h
  }

  predicate WaitsToCommit(c: Config, i: nat, h: Link) {
    i < |c.producers| && (c.producers[i].LinkPending? || c.producers[i].CasPending?) && c.producers[i].head == h
  }

  /** A producer holds a snapshot of the pending head only from its load on, and nothing it does until its exchange
      succeeds moves that head. */
  lemma CommitSnapshot(c: Config, a: Action, i: nat, h: Link)
    ensures WaitsToCommit(Step(c, a), i, h) && !WaitsToCommit(c, i, h) ==> a == Produce(i) && LoadsPending(c, i, h)
    ensures LoadsPending(c, i, h) || (WaitsToCommit(c, i, h) && WaitsToCommit(Step(c, Produce(i)), i, h)) ==>
              Step(c, Produce(i)).pending == c.pending
  {
    if a.Consume? {
      assert Step(c, a).producers == c.producers;
    }
  }

  /** The same for the push on the pending list. */
  lemma FailedCommitMeansInterference(capacity: nat, producers: nat, actions: seq<Action>, i: nat)
    requires 0 < capacity <= MAX_REQUEST_COUNT
    requires var c := After(capacity, producers, actions);
             i < |c.producers| && c.producers[i].CasPending? && c.pending != c.producers[i].head
    ensures var h := After(capacity, producers, actions).producers[i].head;
            exists k: nat, j: nat ::
              PendingOvertaken(Init(capacity, producers), actions, Produce(i), h, k, j)
              && var d := After(capacity, producers, actions[..k]); i < |d.producers| && d.producers[i].LoadPending?
  {
    hide Step;
    var h := After(capacity, producers, actions).producers[i].head;
    var waits, loads := (c: Config) => WaitsToCommit(c, i, h), (c: Config) => LoadsPending(c, i, h);
    forall d, a ensures waits(Step(d, a)) && !waits(d) ==> a == Produce(i) && loads(d) {
      CommitSnapshot(d, a, i, h);
    }
    forall d ensures loads(d) || (waits(d) && waits(Step(d, Produce(i)))) ==> Step(d, Produce(i)).pending == d.pending {
      CommitSnapshot(d, Produce(i), i, h);
    }
    var k, j := PendingOvertook(Init(capacity, producers), actions, waits, loads, Produce(i), h);
  }

  /** The same for the detach: since the load a producer committed. */
  lemma FailedDetachMeansInterference(capacity: nat, producers: nat, actions: seq<Action>)
    requires 0 < capacity <= MAX_REQUEST_COUNT
    requires var c := After(capacity, producers, actions); c.consumer.CasDetach? && c.pending != c.consumer.head
    ensures var h := After(capacity, producers, actions).consumer.head;
            exists k: nat, j: nat ::
              PendingOvertaken(Init(capacity, producers), actions, Consume, h, k, j)
              && After(capacity, producers, actions[..k]).consumer.LoadDetach? && actions[j].Produce?
  {
    var h := After(capacity, producers, actions).consumer.head;
    var waits := (c: Config) => c.consumer.CasDetach? && c.consumer.head == h;
    var loads := (c: Config) => c.consumer.LoadDetach? && c.pending == h;
    var k, j := PendingOvertook(Init(capacity, producers), actions, waits, loads, Consume, h);
  }

  /** The same for the push that returns a node to the free list: since the load a producer popped. */
  lemma FailedReturnMeansInterference(capacity: nat, producers: nat, actions: seq<Action>)
    requires 0 < capacity <= MAX_REQUEST_COUNT
    requires var c := After(capacity, producers, actions); c.consumer.CasFreeHead? && c.free != c.consumer.head
    ensures var h := After(capacity, producers, actions).consumer.head;
            exists k: nat, j: nat ::
              FreeOvertaken(Init(capacity, producers), actions, Consume, h, k, j)
              && After(capacity, producers, actions[..k]).consumer.LoadFreeHead? && actions[j].Produce?
  {
    var h := After(capacity, producers, actions).consumer.head;
    var waits := (c: Config) => (c.consumer.LinkFree? || c.consumer.CasFreeHead?) && c.consumer.head == h;
    var loads := (c: Config) => c.consumer.LoadFreeHead? && c.free == h;
    var k, j := FreeOvertook(Init(capacity, producers), actions, waits, loads, Consume, h);
  }

  // ---------------------------------------------------------------- ProcessRequests is bounded

  /** How far the consumer is from the end of ProcessRequests; an outdated snapshot costs one more round. */
  function Potential(c: Config, detached: nat): int {
    match c.consumer
    case Walk(_, b, _) => 6 * detached + |b| + 2
    case Take(_, b, _, _) => 6 * detached + |b| + 1
    case LoadFreeHead(_, b, _, _) => 6 * detached + |b| - 1
    case LinkFree(_, b, _, _, h) => 6 * detached + |b| - 2 + if h == c.free then 0 else 3
    case CasFreeHead(_, b, _, _, h) => 6 * detached + |b| - 3 + if h == c.free then 0 else 3
    case Execute(_, k) => k + 1
    case _ => 0
  }

  predicate Processing(s: Consumer) {
    s.Walk? || s.Take? || s.LoadFreeHead? || s.LinkFree? || s.CasFreeHead? || s.Execute?
  }

  lemma PotentialDrops(c: Config, v: View)
    requires Inv(c, v) && Processing(c.consumer)
    ensures 0 < Potential(c, |v.detached|)
    ensures Potential(Step(c, Consume), |ViewStep(c, v, Consume).detached|) < Potential(c, |v.detached|)
  {
    hide ProducersInv, QueueInv, DueInv, FlagsInv;
  }

  lemma PotentialOthers(c: Config, v: View, a: Action)
    requires Inv(c, v) && a != Consume && Processing(c.consumer)
    ensures Potential(Step(c, a), |ViewStep(c, v, a).detached|)
            <= Potential(c, |v.detached|) + if Step(c, a).free != c.free then 3 else 0
    ensures Step(c, a).consumer == c.consumer
  {
    hide Inv;
  }

  /** How often a thread other than the consumer moved the free head. */
  function Interference(c: Config, actions: seq<Action>): nat
    decreases |actions|
  {
    if actions == [] then 0
    else
      (if actions[0] != Consume && Step(c, actions[0]).free != c.free then 1 else 0)
      + Interference(Step(c, actions[0]), actions[1..])
  }

  function OwnSteps(actions: seq<Action>): nat {
    if actions == [] then 0
    else (if actions[0] == Consume then 1 else 0) + OwnSteps(actions[1..])
  }

  ghost predicate BusyThroughout(c: Config, actions: seq<Action>)
    decreases |actions|
  {
    Processing(c.consumer) && (actions == [] || BusyThroughout(Step(c, actions[0]), actions[1..]))
  }

  lemma {:induction false} PotentialPays(c: Config, v: View, actions: seq<Action>)
    requires Inv(c, v) && BusyThroughout(c, actions)
    ensures OwnSteps(actions) <= Potential(c, |v.detached|) + 3 * Interference(c, actions)
    decreases |actions|
  {
    if actions == [] {
      PotentialDrops(c, v);
    } else {
      var a := actions[0];
      StepInv(c, v, a);
      PotentialDrops(c, v);
      if a != Consume {
        PotentialOthers(c, v, a);
      }
      hide Inv, Step, ViewStep, Potential;
      PotentialPays(Step(c, a), ViewStep(c, v, a), actions[1..]);
    }
  }

  /**
    ProcessRequests terminates although its nodes are being pushed again while it walks: from the detach of a batch of
    `n` requests, on every schedule, the consumer takes at most `6 * n + 2` steps plus three for every time another
    thread moved the free head under it.
  */
  lemma ProcessingIsBounded(capacity: nat, producers: nat, before: seq<Action>, actions: seq<Action>)
    requires 0 < capacity <= MAX_REQUEST_COUNT
    requires var c := After(capacity, producers, before);
             c.consumer.Walk? && c.consumer.batch == [] && BusyThroughout(c, actions)
    ensures var c := After(capacity, producers, before);
            exists list ::
              && Chain(c.nodes, c.consumer.current, list)
              && OwnSteps(actions) <= 6 * |list| + 2 + 3 * Interference(c, actions)
  {
    var c := After(capacity, producers, before);
    var v := Reach(capacity, producers, before);
    LinkedIsChain(c.nodes, v.flags, c.consumer.current, v.detached);
    PotentialPays(c, v, actions);
  }

  // ---------------------------------------------------------------- the packed words

  const TWO_32: nat := 0x1_0000_0000
  const TWO_64: nat := 0x1_0000_0000_0000_0000

  function Pack(l: Link): nat {
    l.flag * TWO_32 + l.index
  }

  predicate Fits(l: Link) {
    l.flag < TWO_32 && l.index < TWO_32
  }

  /** IncRequsetIndex on a 64-bit word. */
  function IncRequestIndex(word: nat): nat {
    (word + TWO_32) % TWO_64
  }

  /** GetRequsetIndex: the low half. */
  function GetRequestIndex(word: nat): nat {
    word % TWO_32
  }

  /** GetRequsetFlag: the high half. */
  function GetRequestFlag(word: nat): nat {
    word / TWO_32
  }

  /** The detached head: `(flag << 32) + INVALID` on a 64-bit word. */
  function EmptyWord(word: nat): nat {
    (GetRequestFlag(word) * TWO_32 + INVALID_REQUEST_ID) % TWO_64
  }

  /** While flags fit in 32 bits the words carry the links faithfully: the three helpers compute what the model says,
      comparing words is comparing links, and only the increment of the last flag wraps. */
  lemma PackedWords(l: Link, m: Link)
    requires Fits(l) && Fits(m)
    ensures Pack(l) < TWO_64
    ensures GetRequestIndex(Pack(l)) == l.index && GetRequestFlag(Pack(l)) == l.flag
    ensures Pack(l) == Pack(m) <==> l == m
    ensures IncRequestIndex(Pack(l)) == Pack(Link(l.flag + 1, l.index)) <==> l.flag + 1 < TWO_32
    ensures EmptyWord(Pack(l)) == Pack(Link(l.flag, INVALID_REQUEST_ID))
  {
  }

  predicate Bounded(l: Link, bound: nat) {
    l.flag <= bound && l.index <= INVALID_REQUEST_ID
  }

  ghost predicate ProducerBounded(p: Producer, bound: nat) {
    match p
    case Idle => true
    case LoadFree(_) => true
    case ReadNext(_, h) => Bounded(h, bound)
    case CasFree(_, h, n) => Bounded(h, bound) && Bounded(n, bound)
    case Fill(_, w) => Bounded(w, bound)
    case LoadPending(_, w) => Bounded(w, bound)
    case LinkPending(_, w, h) => Bounded(w, bound) && Bounded(h, bound)
    case CasPending(_, w, h) => Bounded(w, bound) && Bounded(h, bound)
  }

  ghost predicate ConsumerBounded(s: Consumer, bound: nat) {
    match s
    case CasDetach(h) => Bounded(h, bound)
    case Exchange(f) => f <= bound
    case Walk(_, _, l) => Bounded(l, bound)
    case Take(_, _, l, n) => Bounded(l, bound) && Bounded(n, bound)
    case LoadFreeHead(_, _, l, n) => Bounded(l, bound) && Bounded(n, bound)
    case LinkFree(_, _, l, n, h) => Bounded(l, bound) && Bounded(n, bound) && Bounded(h, bound)
    case CasFreeHead(_, _, l, n, h) => Bounded(l, bound) && Bounded(n, bound) && Bounded(h, bound)
    case _ => true
  }

  /** Every link anywhere in the configuration has a flag of at most `bound`. */
  ghost predicate FlagsAtMost(c: Config, bound: nat) {
    && Bounded(c.free, bound) && Bounded(c.pending, bound)
    && (forall k :: 0 <= k < |c.nodes| ==> Bounded(c.nodes[k].next, bound))
    && (forall i :: 0 <= i < |c.producers| ==> ProducerBounded(c.producers[i], bound))
    && ConsumerBounded(c.consumer, bound)
  }

  /** The step is a successful pop. */
  predicate Allocates(c: Config, a: Action) {
    && a.Produce? && a.thread < |c.producers|
    && c.producers[a.thread].CasFree? && c.producers[a.thread].head == c.free
  }

  /** The number of successful pops of a run. */
  function Pops(c: Config, actions: seq<Action>): nat
    decreases |actions|
  {
    if actions == [] then 0
    else (if Allocates(c, actions[0]) then 1 else 0) + Pops(Step(c, actions[0]), actions[1..])
  }

  lemma Weaken(c: Config, bound: nat, bound': nat)
    requires FlagsAtMost(c, bound) && bound <= bound'
    ensures FlagsAtMost(c, bound')
  {
    forall i | 0 <= i < |c.producers| ensures ProducerBounded(c.producers[i], bound') {
      assert ProducerBounded(c.producers[i], bound);
    }
  }

  lemma ProducerStepFlags(c: Config, i: nat, bound: nat)
    requires FlagsAtMost(c, bound) && i < |c.producers|
    requires Allocates(c, Produce(i)) ==> c.free.flag < bound
    ensures FlagsAtMost(ProducerStep(c, i), bound)
  {
    assert ProducerBounded(c.producers[i], bound);
  }

  lemma ConsumerStepFlags(c: Config, bound: nat)
    requires FlagsAtMost(c, bound)
    ensures FlagsAtMost(ConsumerStep(c), bound)
  {
    hide ProducerBounded;
  }

  lemma StepFlags(c: Config, a: Action, bound: nat)
    requires FlagsAtMost(c, bound)
    ensures FlagsAtMost(Step(c, a), bound + if Allocates(c, a) then 1 else 0)
  {
    if a.Produce? && a.thread < |c.producers| {
      Weaken(c, bound, bound + if Allocates(c, a) then 1 else 0);
      hide FlagsAtMost, ProducerStep;
      ProducerStepFlags(c, a.thread, bound + if Allocates(c, a) then 1 else 0);
    } else if a.Consume? {
      hide FlagsAtMost, ConsumerStep;
      ConsumerStepFlags(c, bound);
    }
  }

  lemma {:induction false} RunFlags(c: Config, actions: seq<Action>, bound: nat)
    requires FlagsAtMost(c, bound)
    ensures FlagsAtMost(Run(c, actions), bound + Pops(c, actions))
    decreases |actions|
  {
    if actions != [] {
      StepFlags(c, actions[0], bound);
      hide FlagsAtMost, Step, Allocates;
      RunFlags(Step(c, actions[0]), actions[1..], bound + if Allocates(c, actions[0]) then 1 else 0);
    }
  }

  /** A run with fewer than 2^32 pops never meets a flag that does not fit, so it is a run of packed words. */
  lemma NoWrapBelow2To32Pops(capacity: nat, producers: nat, actions: seq<Action>)
    requires 0 < capacity <= MAX_REQUEST_COUNT
    requires Pops(Init(capacity, producers), actions) < TWO_32
    ensures FlagsAtMost(After(capacity, producers, actions), TWO_32 - 1)
    ensures forall l :: Bounded(l, TWO_32 - 1) ==> Fits(l)
  {
    var c := Init(capacity, producers);
    RunFlags(c, actions, 0);
    Weaken(Run(c, actions), Pops(c, actions), TWO_32 - 1);
  }
}
