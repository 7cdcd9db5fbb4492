/**
  One thread pushing frames into a multi-frame PCM buffer while another gets them.  A step is one atomic access to
  `curFrames_`, `readPos_` or `writePos_`, or the copy of one sample; the steps of the two threads interleave freely.
*/
module PcmConcurrent {
  import opened PcmWindow
  import opened RingArithmetic

  datatype Layout = Layout(frames: nat, samples: nat, room: nat)

  /** Where the pusher is inside PushFrameData; `Counting` is about to raise `curFrames_`. */
  datatype Pusher =
    | PushIdle
    | HasRoom(data: seq<real>)
    | Filling(data: seq<real>, at: nat, done: nat)
    | Filled(data: seq<real>)
    | WriteLoaded(data: seq<real>, pos: nat)
    | Counting(data: seq<real>)

  /** Where the getter is inside GetFrameData; `buf` is what it copied so far. */
  datatype Getter =
    | GetIdle
    | HasFrame(size: nat)
    | Copying(at: nat, buf: seq<real>)
    | Copied(buf: seq<real>)
    | ReadLoaded(buf: seq<real>, pos: nat)
    | Discounting(buf: seq<real>)

  /** `window` and `got` record what the completed calls amount to: the frames stored and the frames handed out. */
  datatype State = State(
    slots: seq<Frame>, writePos: nat, readPos: nat, curFrames: int,
    pusher: Pusher, getter: Getter,
    window: Window, got: seq<Frame>)

  /** The first step of a call loads `curFrames_`; the others continue it. */
  datatype Action = StartPush(data: seq<real>) | ContinuePush | StartGet(size: nat) | ContinueGet

  function Init(l: Layout): State {
    State(seq(l.frames, _ => Silence(l.samples)), 0, 0, 0, PushIdle, GetIdle, Fresh(l.frames, l.samples), [])
  }

  /** Sample `k` of the slot being written, by a copy that fits or by the clearing that refuses it. */
  function Sample(data: seq<real>, room: nat, k: nat, under: real): real {
    if |data| > room then 0.0 else if k < |data| then data[k] else under
  }

  function StepPusher(l: Layout, s: State): State
    requires Inv(l, s)
  {
    match s.pusher
    case PushIdle => s
    case HasRoom(data) => s.(pusher := Filling(data, s.writePos, 0))
    case Filling(data, at, done) =>
      if done < l.samples then
        var slot := s.slots[at][done := Sample(data, l.room, done, s.slots[at][done])];
        s.(slots := s.slots[at := slot], pusher := Filling(data, at, done + 1))
      else if |data| > l.room then s.(pusher := PushIdle, window := Append(s.window, l.frames, l.room, data))
      else s.(pusher := Filled(data))
    case Filled(data) => s.(pusher := WriteLoaded(data, s.writePos))
    case WriteLoaded(data, pos) => s.(writePos := (pos + 1) % l.frames, pusher := Counting(data))
    case Counting(data) =>
      s.(curFrames := s.curFrames + 1, pusher := PushIdle, window := Append(s.window, l.frames, l.room, data))
  }

  function StepGetter(l: Layout, s: State): State
    requires Inv(l, s)
  {
    match s.getter
    case GetIdle => s
    case HasFrame(size) =>
      if size < l.samples then s.(getter := GetIdle) else s.(getter := Copying(s.readPos, []))
    case Copying(at, buf) =>
      if |buf| < l.samples then s.(getter := Copying(at, buf + [s.slots[at][|buf|]])) else s.(getter := Copied(buf))
    case Copied(buf) => s.(getter := ReadLoaded(buf, s.readPos))
    case ReadLoaded(buf, pos) => s.(readPos := (pos + 1) % l.frames, getter := Discounting(buf))
    case Discounting(buf) =>
      s.(curFrames := s.curFrames - 1, getter := GetIdle, window := Get(s.window), got := s.got + [buf])
  }

  function Step(l: Layout, s: State, a: Action): State
    requires Inv(l, s)
  {
    match a
    case StartPush(data) =>
      if s.pusher == PushIdle && s.curFrames < l.frames then s.(pusher := HasRoom(data)) else s
    case ContinuePush => StepPusher(l, s)
    case StartGet(size) =>
      if s.getter == GetIdle && s.curFrames > 0 then s.(getter := HasFrame(size)) else s
    case ContinueGet => StepGetter(l, s)
  }

  // ---------------------------------------------------------------- the invariant

  /** What the slot being written will hold. */
  function Target(l: Layout, w: Window, data: seq<real>): Frame
    requires 0 < l.frames <= |w.history|
  {
    if |data| > l.room then Silence(|Oldest(w, l.frames)|) else Overlay(data, Oldest(w, l.frames))
  }

  /** The slot to be written next, while the pusher works on it. */
  ghost predicate PusherInv(l: Layout, w: Window, slot: Frame, pusher: Pusher)
    requires PcmWindow.Inv(w, l.frames, l.samples)
  {
    && (pusher != PushIdle ==> Waiting(w) < l.frames)
    && match pusher
       case PushIdle => slot == Oldest(w, l.frames)
       case HasRoom(_) => slot == Oldest(w, l.frames)
       case Filling(data, at, done) =>
         && at == |w.history| % l.frames
         && done <= l.samples == |slot|
         && (forall k :: 0 <= k < l.samples ==>
               slot[k] == if k < done then Target(l, w, data)[k] else Oldest(w, l.frames)[k])
       case Filled(data) => |data| <= l.room && slot == Target(l, w, data)
       case WriteLoaded(data, pos) => |data| <= l.room && slot == Target(l, w, data) && pos == |w.history| % l.frames
       case Counting(data) => |data| <= l.room && slot == Target(l, w, data)
  }

  ghost predicate GetterInv(l: Layout, w: Window, getter: Getter)
    requires PcmWindow.Inv(w, l.frames, l.samples)
  {
    && (getter != GetIdle ==> Waiting(w) > 0)
    && match getter
       case GetIdle => true
       case HasFrame(_) => true
       case Copying(at, buf) => at == w.read % l.frames && |buf| <= l.samples && buf == w.history[w.read][..|buf|]
       case Copied(buf) => buf == w.history[w.read]
       case ReadLoaded(buf, pos) => buf == w.history[w.read] && pos == w.read % l.frames
       case Discounting(buf) => buf == w.history[w.read]
  }

  /** Every slot but the one written next holds the latest frame written to it. */
  ghost predicate OthersHeld(l: Layout, w: Window, slots: seq<Frame>)
    requires PcmWindow.Inv(w, l.frames, l.samples)
  {
    && |slots| == l.frames
    && (forall i :: 0 <= i < l.frames ==> |slots[i]| == l.samples)
    && (forall j :: |w.history| - l.frames < j < |w.history| ==> slots[j % l.frames] == w.history[j])
  }

  ghost predicate Inv(l: Layout, s: State) {
    && PcmWindow.Inv(s.window, l.frames, l.samples)
    && s.curFrames == Waiting(s.window)
    && s.writePos == (|s.window.history| + if s.pusher.Counting? then 1 else 0) % l.frames
    && s.readPos == (s.window.read + if s.getter.Discounting? then 1 else 0) % l.frames
    && OthersHeld(l, s.window, s.slots)
    && PusherInv(l, s.window, s.slots[|s.window.history| % l.frames], s.pusher)
    && GetterInv(l, s.window, s.getter)
  }

  lemma InitInv(l: Layout)
    requires 0 < l.frames
    ensures Inv(l, Init(l))
  {
    SlotOf(1, 0, l.frames);
    SlotOf(0, 0, l.frames);
  }

  /** The frame to be read next is never in the slot being written. */
  lemma ReadSlotIsWhole(l: Layout, s: State)
    requires Inv(l, s) && Waiting(s.window) > 0
    ensures s.slots[s.window.read % l.frames] == s.window.history[s.window.read]
    ensures s.pusher != PushIdle ==> s.window.read % l.frames != |s.window.history| % l.frames
  {
    var w, h := s.window.read, |s.window.history|;
    if w == h - l.frames {
      SlotAgain(h, l.frames);
    } else {
      DistinctSlots(w, h, l.frames);
    }
  }

  lemma AppendKeeps(l: Layout, s: State, data: seq<real>)
    requires Inv(l, s) && s.pusher != PushIdle
    requires s.slots[|s.window.history| % l.frames] == Target(l, s.window, data)
    ensures var w := Append(s.window, l.frames, l.room, data);
            && PcmWindow.Inv(w, l.frames, l.samples)
            && OthersHeld(l, w, s.slots)
            && s.slots[|w.history| % l.frames] == Oldest(w, l.frames)
            && GetterInv(l, w, s.getter)
            && w.read == s.window.read
  {
    hide Overlay, Silence;
    var h, n := |s.window.history|, l.frames;
    if |data| <= l.room {
      SlotAgain(h + 1, n);
      if n > 1 {
        assert s.slots[(h + 1 - n) % n] == s.window.history[h + 1 - n];
      }
    }
  }

  lemma FillKeeps(l: Layout, s: State)
    requires Inv(l, s) && s.pusher.Filling? && s.pusher.done < l.samples
    ensures Inv(l, StepPusher(l, s))
  {
    var h, n := |s.window.history|, l.frames;
    forall j | h - n < j < h ensures j % n != h % n {
      DistinctSlots(j, h, n);
    }
  }

  lemma PusherKeeps(l: Layout, s: State)
    requires Inv(l, s)
    ensures Inv(l, StepPusher(l, s))
  {
    match s.pusher
    case Filling(data, at, done) =>
      if done < l.samples {
        FillKeeps(l, s);
      } else {
        assert s.slots[at] == Target(l, s.window, data);
        if |data| > l.room {
          AppendKeeps(l, s, data);
        }
      }
    case WriteLoaded(data, pos) => NextSlot(|s.window.history|, l.frames);
    case Counting(data) => AppendKeeps(l, s, data);
    case _ =>
  }

  lemma CopyKeeps(l: Layout, s: State)
    requires Inv(l, s) && s.getter.Copying?
    ensures Inv(l, StepGetter(l, s))
  {
    ReadSlotIsWhole(l, s);
  }

  lemma GetterKeeps(l: Layout, s: State)
    requires Inv(l, s)
    ensures Inv(l, StepGetter(l, s))
  {
    match s.getter
    case Copying(_, _) => CopyKeeps(l, s);
    case ReadLoaded(buf, pos) => NextSlot(s.window.read, l.frames);
    case _ =>
  }

  /** Every step of either thread keeps the invariant. */
  lemma StepKeeps(l: Layout, s: State, a: Action)
    requires Inv(l, s)
    ensures Inv(l, Step(l, s, a))
  {
    match a
    case ContinuePush => PusherKeeps(l, s);
    case ContinueGet => GetterKeeps(l, s);
    case _ =>
  }

  // ---------------------------------------------------------------- whole runs

  function Run(l: Layout, s: State, actions: seq<Action>): (s': State)
    requires Inv(l, s)
    ensures Inv(l, s')
    decreases |actions|
  {
    if actions == [] then s
    else
      StepKeeps(l, s, actions[0]);
      Run(l, Step(l, s, actions[0]), actions[1..])
  }

  /** In every interleaving: the getter never copies from the slot the pusher fills, and between none and all of the
      slots are occupied. */
  lemma SlotsNeverShared(l: Layout, actions: seq<Action>)
    requires 0 < l.frames
    ensures Inv(l, Init(l))
    ensures var s := Run(l, Init(l), actions);
            && 0 <= s.curFrames <= l.frames
            && (s.pusher.Filling? && s.getter.Copying? ==> s.pusher.at != s.getter.at)
  {
    InitInv(l);
    var s := Run(l, Init(l), actions);
    if s.pusher.Filling? && s.getter.Copying? {
      ReadSlotIsWhole(l, s);
    }
  }

  /** The buffer operation that takes effect at a step: a push when `curFrames_` is raised, when an over-long copy was
      refused or when the buffer was found full; a get when `curFrames_` is lowered or was found zero. */
  function Effect(l: Layout, s: State, a: Action): seq<Op> {
    match a
    case StartPush(data) => if s.pusher == PushIdle && s.curFrames >= l.frames then [PushOp(data)] else []
    case ContinuePush =>
      if s.pusher.Counting? then [PushOp(s.pusher.data)]
      else if s.pusher.Filling? && s.pusher.done >= l.samples && |s.pusher.data| > l.room then [PushOp(s.pusher.data)]
      else []
    case StartGet(_) => if s.getter == GetIdle && s.curFrames <= 0 then [GetOp] else []
    case ContinueGet => if s.getter.Discounting? then [GetOp] else []
  }

  function Effects(l: Layout, s: State, actions: seq<Action>): (ops: seq<Op>)
    requires Inv(l, s)
    ensures forall op :: op in ops ==> op == GetOp || op.PushOp?
    decreases |actions|
  {
    if actions == [] then []
    else
      StepKeeps(l, s, actions[0]);
      Effect(l, s, actions[0]) + Effects(l, Step(l, s, actions[0]), actions[1..])
  }

  lemma StepIsOperation(l: Layout, s: State, a: Action)
    requires Inv(l, s)
    ensures var w', ops := Step(l, s, a).window, Effect(l, s, a);
            || (ops == [] && w' == s.window && Step(l, s, a).got == s.got)
            || (exists op :: ops == [op] && w' == Do(s.window, l.frames, l.samples, l.room, op)
                             && Step(l, s, a).got == s.got + Handed(s.window, op))
  {
    var ops := Effect(l, s, a);
    if ops != [] {
      assert ops == [ops[0]];
    }
  }

  lemma PrependOp(l: Layout, w: Window, op: Op, rest: seq<Op>)
    requires PcmWindow.Inv(w, l.frames, l.samples)
    ensures var w' := Do(w, l.frames, l.samples, l.room, op);
            && DoAll(w, l.frames, l.samples, l.room, [op] + rest) == DoAll(w', l.frames, l.samples, l.room, rest)
            && Output(w, l.frames, l.samples, l.room, [op] + rest)
               == Handed(w, op) + Output(w', l.frames, l.samples, l.room, rest)
  {
    assert ([op] + rest)[1..] == rest;
  }

  lemma Assoc<T>(a: seq<T>, b: seq<T>, c: seq<T>)
    ensures a + (b + c) == a + b + c
  {
  }

  /** Linearisability: every interleaving amounts to the sequential run of the operations in the order they took effect,
      both in what the buffer holds and in the frames the getter received. */
  lemma {:induction false} InterleavingIsSequential(l: Layout, s: State, actions: seq<Action>)
    requires Inv(l, s)
    ensures var end, ops := Run(l, s, actions), Effects(l, s, actions);
            && end.window == DoAll(s.window, l.frames, l.samples, l.room, ops)
            && end.got == s.got + Output(s.window, l.frames, l.samples, l.room, ops)
    decreases |actions|
  {
    if actions == [] {
      assert s.got + [] == s.got;
    } else {
      var a, s' := actions[0], Step(l, s, actions[0]);
      StepKeeps(l, s, a);
      InterleavingIsSequential(l, s', actions[1..]);
      StepIsOperation(l, s, a);
      var rest := Effects(l, s', actions[1..]);
      hide Step, Do, Effect, Handed, Inv, PcmWindow.Inv, DoAll, Output;
      if Effect(l, s, a) == [] {
        assert [] + rest == rest;
      } else {
        var op := Effect(l, s, a)[0];
        PrependOp(l, s.window, op, rest);
        Assoc(s.got, Handed(s.window, op), Output(s'.window, l.frames, l.samples, l.room, rest));
      }
    }
  }

  lemma FreshHasNothing(l: Layout)
    ensures Init(l).window.history[Init(l).window.read..] == [] == Init(l).got
  {
  }

  /** From a reset buffer the getter receives the pushed frames in push order, none lost or doubled: what it got so far
      followed by what still waits is what was pushed. */
  lemma FramesArriveInPushOrder(l: Layout, actions: seq<Action>)
    requires 0 < l.frames
    ensures Inv(l, Init(l))
    ensures var end, ops := Run(l, Init(l), actions), Effects(l, Init(l), actions);
            Pushed(Init(l).window, l.frames, l.samples, l.room, ops) == end.got + end.window.history[end.window.read..]
  {
    InitInv(l);
    var w, ops := Init(l).window, Effects(l, Init(l), actions);
    InterleavingIsSequential(l, Init(l), actions);
    PushGetIsFifo(w, l.frames, l.samples, l.room, ops);
    hide *;
    FreshHasNothing(l);
    var out := Output(w, l.frames, l.samples, l.room, ops);
    assert [] + out == out;
    assert [] + Pushed(w, l.frames, l.samples, l.room, ops) == Pushed(w, l.frames, l.samples, l.room, ops);
  }

  // ---------------------------------------------------------------- every call ends, and takes effect once

  /** The push, or the get, that a step begins: a call of a thread that is not inside one. */
  function PushBegun(s: State, a: Action): seq<Op> {
    if a.StartPush? && s.pusher == PushIdle then [PushOp(a.data)] else []
  }

  function GetBegun(s: State, a: Action): nat {
    if a.StartGet? && s.getter == GetIdle then 1 else 0
  }

  /** The step refuses a get because its destination is too short for a frame. */
  function GetRefused(l: Layout, s: State, a: Action): nat {
    if a == ContinueGet && s.getter.HasFrame? && s.getter.size < l.samples then 1 else 0
  }

  function PushUnderWay(pusher: Pusher): seq<Op> {
    if pusher == PushIdle then [] else [PushOp(pusher.data)]
  }

  function GetUnderWay(getter: Getter): nat {
    if getter == GetIdle then 0 else 1
  }

  function PushesOf(ops: seq<Op>): seq<Op> {
    if ops == [] then [] else (if ops[0].PushOp? then [ops[0]] else []) + PushesOf(ops[1..])
  }

  function GetsOf(ops: seq<Op>): nat {
    if ops == [] then 0 else (if ops[0] == GetOp then 1 else 0) + GetsOf(ops[1..])
  }

  function PushesBegun(l: Layout, s: State, actions: seq<Action>): seq<Op>
    requires Inv(l, s)
    decreases |actions|
  {
    if actions == [] then []
    else
      StepKeeps(l, s, actions[0]);
      PushBegun(s, actions[0]) + PushesBegun(l, Step(l, s, actions[0]), actions[1..])
  }

  function GetsBegun(l: Layout, s: State, actions: seq<Action>): nat
    requires Inv(l, s)
    decreases |actions|
  {
    if actions == [] then 0
    else
      StepKeeps(l, s, actions[0]);
      GetBegun(s, actions[0]) + GetsBegun(l, Step(l, s, actions[0]), actions[1..])
  }

  function GetsRefused(l: Layout, s: State, actions: seq<Action>): nat
    requires Inv(l, s)
    decreases |actions|
  {
    if actions == [] then 0
    else
      StepKeeps(l, s, actions[0]);
      GetRefused(l, s, actions[0]) + GetsRefused(l, Step(l, s, actions[0]), actions[1..])
  }

  /** A step begins a call, or carries one on, or completes one with its effect. */
  lemma StepAccounts(l: Layout, s: State, a: Action)
    requires Inv(l, s)
    ensures var s', ops := Step(l, s, a), Effect(l, s, a);
            && |ops| <= 1
            && PushUnderWay(s.pusher) + PushBegun(s, a) == PushesOf(ops) + PushUnderWay(s'.pusher)
            && GetUnderWay(s.getter) + GetBegun(s, a) == GetsOf(ops) + GetRefused(l, s, a) + GetUnderWay(s'.getter)
  {
  }

  lemma OneMore(op: seq<Op>, rest: seq<Op>)
    requires |op| <= 1
    ensures PushesOf(op + rest) == PushesOf(op) + PushesOf(rest)
    ensures GetsOf(op + rest) == GetsOf(op) + GetsOf(rest)
  {
    if op == [] {
      assert op + rest == rest;
    } else {
      assert (op + rest)[1..] == rest;
    }
  }

  /** In every interleaving the pushes begun are, in order and each once, those that took effect and then the one under
      way.  With what an effect is, that is: each was refused because the buffer was full at its first access, or because
      its data did not fit, or its frame was stored. */
  lemma {:induction false} PushesAccounted(l: Layout, s: State, actions: seq<Action>)
    requires Inv(l, s)
    ensures PushUnderWay(s.pusher) + PushesBegun(l, s, actions)
            == PushesOf(Effects(l, s, actions)) + PushUnderWay(Run(l, s, actions).pusher)
    decreases |actions|
  {
    var left := PushUnderWay(s.pusher);
    if actions == [] {
      assert left + [] == [] + left;
    } else {
      var a, s' := actions[0], Step(l, s, actions[0]);
      StepKeeps(l, s, a);
      PushesAccounted(l, s', actions[1..]);
      StepAccounts(l, s, a);
      OneMore(Effect(l, s, a), Effects(l, s', actions[1..]));
      var now, later := PushBegun(s, a), PushesBegun(l, s', actions[1..]);
      var done, rest := PushesOf(Effect(l, s, a)), PushesOf(Effects(l, s', actions[1..]));
      hide Step, Effect, Effects, Inv, PushBegun, PushUnderWay, PushesOf;
      Assoc(left, now, later);
      Assoc(done, PushUnderWay(s'.pusher), later);
      Assoc(done, rest, PushUnderWay(Run(l, s, actions).pusher));
    }
  }

  /** The same for gets, which are refused because the buffer was empty at their first access, which is an effect, or
      because the destination is too short. */
  lemma {:induction false} GetsAccounted(l: Layout, s: State, actions: seq<Action>)
    requires Inv(l, s)
    ensures GetUnderWay(s.getter) + GetsBegun(l, s, actions)
            == GetsOf(Effects(l, s, actions)) + GetsRefused(l, s, actions) + GetUnderWay(Run(l, s, actions).getter)
    decreases |actions|
  {
    if actions != [] {
      var a, s' := actions[0], Step(l, s, actions[0]);
      StepKeeps(l, s, a);
      GetsAccounted(l, s', actions[1..]);
      StepAccounts(l, s, a);
      OneMore(Effect(l, s, a), Effects(l, s', actions[1..]));
      hide Step, Effect, Inv, GetBegun, GetRefused, GetUnderWay, GetsOf;
    }
  }

  /** How many steps of its own a call still takes. */
  function PushLeft(l: Layout, pusher: Pusher): int {
    match pusher
    case PushIdle => 0
    case HasRoom(_) => l.samples + 5
    case Filling(_, _, done) => l.samples - done + 4
    case Filled(_) => 3
    case WriteLoaded(_, _) => 2
    case Counting(_) => 1
  }

  function GetLeft(l: Layout, getter: Getter): int {
    match getter
    case GetIdle => 0
    case HasFrame(_) => l.samples + 5
    case Copying(_, buf) => l.samples - |buf| + 4
    case Copied(_) => 3
    case ReadLoaded(_, _) => 2
    case Discounting(_) => 1
  }

  function Count(actions: seq<Action>, a: Action): nat {
    if actions == [] then 0 else (if actions[0] == a then 1 else 0) + Count(actions[1..], a)
  }

  lemma LeftDrops(l: Layout, s: State, a: Action)
    requires Inv(l, s)
    ensures s.pusher != PushIdle ==>
              0 < PushLeft(l, s.pusher)
              && PushLeft(l, Step(l, s, a).pusher) <= PushLeft(l, s.pusher) - if a == ContinuePush then 1 else 0
    ensures s.getter != GetIdle ==>
              0 < GetLeft(l, s.getter)
              && GetLeft(l, Step(l, s, a).getter) <= GetLeft(l, s.getter) - if a == ContinueGet then 1 else 0
  {
  }

  /** Wait freedom: a push under way is over after at most its steps left, `samples + 5` in all, whatever the getter does
      in between. */
  lemma {:induction false} PushEnds(l: Layout, s: State, actions: seq<Action>) returns (k: nat)
    requires Inv(l, s) && PushLeft(l, s.pusher) <= Count(actions, ContinuePush)
    ensures k <= |actions| && Run(l, s, actions[..k]).pusher == PushIdle
    decreases |actions|
  {
    if s.pusher == PushIdle {
      k := 0;
    } else {
      LeftDrops(l, s, actions[0]);
      StepKeeps(l, s, actions[0]);
      hide Step, Inv, PushLeft;
      var j := PushEnds(l, Step(l, s, actions[0]), actions[1..]);
      k := j + 1;
      assert actions[..k][1..] == actions[1..][..j];
    }
  }

  lemma {:induction false} GetEnds(l: Layout, s: State, actions: seq<Action>) returns (k: nat)
    requires Inv(l, s) && GetLeft(l, s.getter) <= Count(actions, ContinueGet)
    ensures k <= |actions| && Run(l, s, actions[..k]).getter == GetIdle
    decreases |actions|
  {
    if s.getter == GetIdle {
      k := 0;
    } else {
      LeftDrops(l, s, actions[0]);
      StepKeeps(l, s, actions[0]);
      hide Step, Inv, GetLeft;
      var j := GetEnds(l, Step(l, s, actions[0]), actions[1..]);
      k := j + 1;
      assert actions[..k][1..] == actions[1..][..j];
    }
  }
}
