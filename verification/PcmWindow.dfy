/**
  What a multi-frame PCM buffer stands for: a window over an unbounded history of frames.  The history starts with as
  many silent frames as the buffer has slots; `read` is the next frame to hand out.
*/
module PcmWindow {
  import opened RingArithmetic

  type Frame = seq<real>

  datatype Window = Window(history: seq<Frame>, read: nat)

  function Silence(samples: nat): Frame {
    seq(samples, _ => 0.0)
  }

  function Fresh(frames: nat, samples: nat): Window {
    Window(seq(frames, _ => Silence(samples)), frames)
  }

  /** Frames waiting to be read. */
  function Waiting(w: Window): int {
    |w.history| - w.read
  }

  ghost predicate Inv(w: Window, frames: nat, samples: nat) {
    && 0 < frames <= |w.history|
    && 0 <= Waiting(w) <= frames
    && (forall j :: 0 <= j < |w.history| ==> |w.history[j]| == samples)
  }

  /** The oldest frame still stored. */
  function Oldest(w: Window, frames: nat): Frame
    requires 0 < frames <= |w.history|
  {
    w.history[|w.history| - frames]
  }

  /** Data copied over the start of an old frame. */
  function Overlay(data: seq<real>, under: Frame): Frame {
    if |data| >= |under| then data[..|under|] else data + under[|data|..]
  }

  /** What a refused copy leaves: the slot it was aimed at, which holds the oldest frame, is silent. */
  function Silenced(w: Window, frames: nat): Window
    requires 0 < frames <= |w.history|
  {
    w.(history := w.history[|w.history| - frames := Silence(|Oldest(w, frames)|)])
  }

  /** Write `data` as the newest frame, if it fits in a slot of `room` samples. */
  function Append(w: Window, frames: nat, room: nat, data: seq<real>): Window
    requires 0 < frames <= |w.history|
  {
    if |data| > room then Silenced(w, frames)
    else w.(history := w.history + [Overlay(data, Oldest(w, frames))])
  }

  function Push(w: Window, frames: nat, room: nat, data: seq<real>): Window
    requires 0 < frames <= |w.history|
  {
    if Waiting(w) >= frames then w else Append(w, frames, room, data)
  }

  /** StoreFrameData: both ends slide. */
  function Store(w: Window, frames: nat, room: nat, data: seq<real>): Window
    requires 0 < frames <= |w.history|
  {
    if |data| > room then Silenced(w, frames) else Append(w, frames, room, data).(read := w.read + 1)
  }

  function Get(w: Window): Window {
    if Waiting(w) <= 0 then w else w.(read := w.read + 1)
  }

  /** RewindBuffer goes back as far as asked, but not past the oldest frame stored. */
  function Rewound(w: Window, frames: nat, count: nat): nat
    requires 0 <= Waiting(w) <= frames
  {
    if Waiting(w) + count > frames then frames - Waiting(w) else count
  }

  function Rewind(w: Window, frames: nat, count: nat): Window
    requires frames <= |w.history| && 0 <= Waiting(w) <= frames
  {
    w.(read := w.read - Rewound(w, frames, count))
  }

  // ---------------------------------------------------------------- any sequence of operations

  datatype Op = PushOp(data: seq<real>) | GetOp | StoreOp(data: seq<real>) | RewindOp(count: nat)

  function Do(w: Window, frames: nat, samples: nat, room: nat, op: Op): (w': Window)
    requires Inv(w, frames, samples)
    ensures Inv(w', frames, samples)
  {
    match op
    case PushOp(data) => Push(w, frames, room, data)
    case GetOp => Get(w)
    case StoreOp(data) => Store(w, frames, room, data)
    case RewindOp(count) => Rewind(w, frames, count)
  }

  function DoAll(w: Window, frames: nat, samples: nat, room: nat, ops: seq<Op>): (w': Window)
    requires Inv(w, frames, samples)
    ensures Inv(w', frames, samples)
    decreases |ops|
  {
    if ops == [] then w else DoAll(Do(w, frames, samples, room, ops[0]), frames, samples, room, ops[1..])
  }

  /** The frame an operation hands out, if any. */
  function Handed(w: Window, op: Op): seq<Frame> {
    if op == GetOp && 0 <= w.read < |w.history| then [w.history[w.read]] else []
  }

  /** The frame an operation pushes, if any. */
  function Added(w: Window, frames: nat, room: nat, op: Op): seq<Frame>
    requires 0 < frames <= |w.history|
  {
    if op.PushOp? && Waiting(w) < frames && |op.data| <= room then [Overlay(op.data, Oldest(w, frames))] else []
  }

  /** The frames handed out by the reads of a run, in order. */
  function Output(w: Window, frames: nat, samples: nat, room: nat, ops: seq<Op>): seq<Frame>
    requires Inv(w, frames, samples)
    decreases |ops|
  {
    if ops == [] then []
    else
      Handed(w, ops[0])
      + Output(Do(w, frames, samples, room, ops[0]), frames, samples, room, ops[1..])
  }

  function Reads(count: nat): seq<Op> {
    seq(count, _ => GetOp)
  }

  /** Reading `count` frames hands out the next `count` frames of the history. */
  lemma {:induction false} ReadsInOrder(w: Window, frames: nat, samples: nat, room: nat, count: nat)
    requires Inv(w, frames, samples) && count <= Waiting(w)
    ensures Output(w, frames, samples, room, Reads(count)) == w.history[w.read..w.read + count]
    ensures DoAll(w, frames, samples, room, Reads(count)) == w.(read := w.read + count)
    decreases count
  {
    if count != 0 {
      assert Reads(count)[1..] == Reads(count - 1);
      ReadsInOrder(Get(w), frames, samples, room, count - 1);
    }
  }

  /** Rewinding replays: after reading `count` frames, a rewind by `count` goes back all the way and the same frames come
      out again, as long as nothing was written over them. */
  lemma RewindReplays(w: Window, frames: nat, samples: nat, room: nat, count: nat)
    requires Inv(w, frames, samples) && count <= Waiting(w)
    ensures var first := DoAll(w, frames, samples, room, Reads(count));
            var back := Rewind(first, frames, count);
            && back == w
            && Output(back, frames, samples, room, Reads(count)) == Output(w, frames, samples, room, Reads(count))
  {
    ReadsInOrder(w, frames, samples, room, count);
  }

  /** A rewind goes back as far as asked, or until every slot waits to be read: by no more than was asked, and short of it
      only if the window is then full. */
  lemma RewindGoesBack(w: Window, frames: nat, samples: nat, count: nat)
    requires Inv(w, frames, samples)
    ensures var back, w' := Rewound(w, frames, count), Rewind(w, frames, count);
            && back <= count && back <= w.read
            && w' == w.(read := w.read - back)
            && Waiting(w') == Waiting(w) + back <= frames
            && (back < count ==> Waiting(w') == frames)
            && Inv(w', frames, samples)
  {
  }

  /** After any run, going back by any count and reading replays the frames before the read end, whether they were pushed
      or stored, oldest first: as many as were asked for, or as many as there are free slots. */
  lemma RewindReplaysHistory(start: Window, frames: nat, samples: nat, room: nat, ops: seq<Op>, count: nat)
    requires Inv(start, frames, samples)
    ensures var w := DoAll(start, frames, samples, room, ops);
            var back, free := Rewound(w, frames, count), frames - Waiting(w);
            && back == (if count <= free then count else free) <= w.read
            && Output(Rewind(w, frames, count), frames, samples, room, Reads(back)) == w.history[w.read - back..w.read]
  {
    var w := DoAll(start, frames, samples, room, ops);
    hide DoAll, Output, Rewound, Rewind, Inv;
    RewindGoesBack(w, frames, samples, count);
    ReadsInOrder(Rewind(w, frames, count), frames, samples, room, Rewound(w, frames, count));
  }

  /** A short push or store is not padded: the frame made begins with the data and ends with what its slot held, the end of
      the oldest frame. */
  lemma ShortDataKeepsOldTail(w: Window, frames: nat, samples: nat, room: nat, data: seq<real>)
    requires Inv(w, frames, samples) && |data| <= room
    ensures var pushed, stored := Push(w, frames, room, data), Store(w, frames, room, data);
            var frame := stored.history[|w.history|];
            && |stored.history| == |w.history| + 1 && stored.history[..|w.history|] == w.history
            && Waiting(stored) == Waiting(w)
            && (Waiting(w) < frames ==> pushed.history == stored.history && Waiting(pushed) == Waiting(w) + 1)
            && |frame| == samples
            && (forall k :: 0 <= k < samples ==> frame[k] == if k < |data| then data[k] else Oldest(w, frames)[k])
  {
  }

  /** Storing makes history that a rewind brings back: after stores that the free slots have room for, a rewind by their
      number returns to the same read end, and reading on hands out what was waiting and then the frames stored, in
      order. */
  lemma {:induction false} StoredFramesReplay(w: Window, frames: nat, samples: nat, room: nat, stored: seq<Frame>)
    requires Inv(w, frames, samples) && samples <= room
    requires forall k :: 0 <= k < |stored| ==> |stored[k]| == samples
    requires Waiting(w) + |stored| <= frames
    ensures var after := DoAll(w, frames, samples, room, seq(|stored|, (k: nat) requires k < |stored| => StoreOp(stored[k])));
            var back := Rewind(after, frames, |stored|);
            && Waiting(after) == Waiting(w)
            && after.history == w.history + stored
            && Output(back, frames, samples, room, Reads(Waiting(w) + |stored|)) == w.history[w.read..] + stored
  {
    StoresAppend(w, frames, samples, room, stored);
    hide DoAll, Output;
    var after := w.(history := w.history + stored, read := w.read + |stored|);
    var back := Rewind(after, frames, |stored|);
    assert back == w.(history := w.history + stored);
    hide Rewind, Rewound;
    ReadsInOrder(back, frames, samples, room, Waiting(w) + |stored|);
    TailOfAppend(w.history, stored, w.read);
  }

  lemma TailOfAppend<T>(a: seq<T>, b: seq<T>, from: nat)
    requires from <= |a|
    ensures (a + b)[from..|a| + |b|] == a[from..] + b
  {
  }

  /** A refused copy is not always without effect: a push or store of too much data leaves the window as it was exactly
      when the buffer was full (a push is refused before the copy) or the oldest frame was silent already. */
  lemma RefusedCopy(w: Window, frames: nat, samples: nat, room: nat, data: seq<real>)
    requires Inv(w, frames, samples) && |data| > room
    ensures Push(w, frames, room, data) == w <==> Waiting(w) >= frames || Oldest(w, frames) == Silence(samples)
    ensures Store(w, frames, room, data) == w <==> Oldest(w, frames) == Silence(samples)
  {
    var at := |w.history| - frames;
    assert Silenced(w, frames).history[at] == Silence(samples);
    if Oldest(w, frames) == Silence(samples) {
      assert w.history[at := Silence(samples)] == w.history;
    }
  }

  /** A run in which a refused push costs a stored frame: one slot of one sample, a frame stored, a push of more than the
      slot holds; the rewind that would replay the frame reads silence. */
  lemma RefusedPushSilencesStoredFrame(frame: Frame, data: seq<real>, room: nat)
    requires |frame| == 1 <= room < |data|
    ensures var ops := [StoreOp(frame), PushOp(data), RewindOp(1), GetOp];
            && Output(Fresh(1, 1), 1, 1, room, ops) == [Silence(1)]
            && Output(Fresh(1, 1), 1, 1, room, [StoreOp(frame), RewindOp(1), GetOp]) == [frame]
  {
    var w0 := Fresh(1, 1);
    var w1 := Window([Silence(1), frame], 2);
    var w2 := Window([Silence(1), Silence(1)], 2);
    assert Store(w0, 1, room, frame) == w1 by {
      assert Overlay(frame, Oldest(w0, 1)) == frame;
    }
    assert Push(w1, 1, room, data) == w2 by {
      assert w1.history[1 := Silence(1)] == w2.history;
    }
    RewoundOne(w1, room);
    RewoundOne(w2, room);
    var tail := [RewindOp(1), GetOp];
    assert [PushOp(data), RewindOp(1), GetOp][1..] == tail;
    assert [StoreOp(frame), PushOp(data), RewindOp(1), GetOp][1..] == [PushOp(data), RewindOp(1), GetOp];
    assert [StoreOp(frame), RewindOp(1), GetOp][1..] == tail;
    assert [] + Output(w2, 1, 1, room, tail) == Output(w2, 1, 1, room, tail);
    assert [] + Output(w1, 1, 1, room, tail) == Output(w1, 1, 1, room, tail);
  }

  lemma RewoundOne(w: Window, room: nat)
    requires Inv(w, 1, 1) && |w.history| == 2 && w.read == 2
    ensures Output(w, 1, 1, room, [RewindOp(1), GetOp]) == [w.history[1]]
  {
    var back := Rewind(w, 1, 1);
    assert [RewindOp(1), GetOp][1..] == [GetOp] && [GetOp][1..] == [];
    assert Output(back, 1, 1, room, [GetOp]) == [w.history[1]] + [];
  }

  lemma {:induction false} StoresAppend(w: Window, frames: nat, samples: nat, room: nat, stored: seq<Frame>)
    requires Inv(w, frames, samples) && samples <= room
    requires forall k :: 0 <= k < |stored| ==> |stored[k]| == samples
    ensures DoAll(w, frames, samples, room, seq(|stored|, (k: nat) requires k < |stored| => StoreOp(stored[k])))
            == w.(history := w.history + stored, read := w.read + |stored|)
    decreases |stored|
  {
    var ops := seq(|stored|, (k: nat) requires k < |stored| => StoreOp(stored[k]));
    if stored == [] {
      assert w.history + stored == w.history;
    } else {
      var rest := stored[1..];
      assert ops[1..] == seq(|rest|, (k: nat) requires k < |rest| => StoreOp(rest[k]));
      var w' := Store(w, frames, room, stored[0]);
      assert Overlay(stored[0], Oldest(w, frames)) == stored[0];
      StoresAppend(w', frames, samples, room, rest);
      assert w.history + [stored[0]] + rest == w.history + stored;
    }
  }

  function Pushed(w: Window, frames: nat, samples: nat, room: nat, ops: seq<Op>): seq<Frame>
    requires Inv(w, frames, samples)
    decreases |ops|
  {
    if ops == [] then []
    else
      Added(w, frames, room, ops[0])
      + Pushed(Do(w, frames, samples, room, ops[0]), frames, samples, room, ops[1..])
  }

  /** FIFO over whole runs of pushes and reads, refused ones included: what comes out is what was waiting followed by what
      was pushed, in order, and what is left is still waiting. */
  lemma {:induction false} PushGetIsFifo(w: Window, frames: nat, samples: nat, room: nat, ops: seq<Op>)
    requires Inv(w, frames, samples)
    requires forall k :: 0 <= k < |ops| ==> ops[k] == GetOp || ops[k].PushOp?
    ensures var end := DoAll(w, frames, samples, room, ops);
            w.history[w.read..] + Pushed(w, frames, samples, room, ops)
            == Output(w, frames, samples, room, ops) + end.history[end.read..]
    decreases |ops|
  {
    if ops != [] {
      var w' := Do(w, frames, samples, room, ops[0]);
      PushGetIsFifo(w', frames, samples, room, ops[1..]);
      FifoStep(w, w', frames, samples, room, ops[0]);
      var later, out := Pushed(w', frames, samples, room, ops[1..]), Output(w', frames, samples, room, ops[1..]);
      var end := DoAll(w', frames, samples, room, ops[1..]);
      var front := Handed(w, ops[0]);
      var added := Added(w, frames, room, ops[0]);
      assert Pushed(w, frames, samples, room, ops) == added + later;
      assert Output(w, frames, samples, room, ops) == front + out;
      hide *;
      Regroup(w.history[w.read..], added, front, w'.history[w'.read..], later, out, end.history[end.read..]);
    }
  }

  lemma Regroup<T>(a: seq<T>, added: seq<T>, front: seq<T>, b: seq<T>, later: seq<T>, out: seq<T>, left: seq<T>)
    requires a + added == front + b && b + later == out + left
    ensures a + (added + later) == front + out + left
  {
    assert a + (added + later) == (a + added) + later;
    assert (front + b) + later == front + (b + later);
    assert front + (out + left) == front + out + left;
  }

  lemma FifoStep(w: Window, w': Window, frames: nat, samples: nat, room: nat, op: Op)
    requires Inv(w, frames, samples) && w' == Do(w, frames, samples, room, op)
    requires op == GetOp || op.PushOp?
    ensures w.history[w.read..] + Added(w, frames, room, op) == Handed(w, op) + w'.history[w'.read..]
  {
  }

  // ---------------------------------------------------------------- the window in a ring of slots

  /** The slots hold the latest frames of the history, each at its number modulo the number of slots. */
  ghost predicate Holds(slots: seq<Frame>, history: seq<Frame>) {
    && 0 < |slots| <= |history|
    && (forall j :: |history| - |slots| <= j < |history| ==> slots[j % |slots|] == history[j])
  }

  lemma FreshHeld(slots: seq<Frame>, samples: nat)
    requires 0 < |slots| && (forall i :: 0 <= i < |slots| ==> slots[i] == Silence(samples))
    ensures Holds(slots, Fresh(|slots|, samples).history)
  {
  }

  /** The slot that is written next holds the oldest frame. */
  lemma NextSlotIsOldest(slots: seq<Frame>, w: Window)
    requires Holds(slots, w.history)
    ensures slots[|w.history| % |slots|] == Oldest(w, |slots|)
  {
    SlotAgain(|w.history|, |slots|);
    assert slots[(|w.history| - |slots|) % |slots|] == w.history[|w.history| - |slots|];
  }

  /** Writing that slot appends a frame ... */
  lemma AppendHeld(slots: seq<Frame>, history: seq<Frame>, frame: Frame)
    requires Holds(slots, history)
    ensures Holds(slots[|history| % |slots| := frame], history + [frame])
  {
    var n, h := |slots|, |history|;
    var slots', history' := slots[h % n := frame], history + [frame];
    forall j | h + 1 - n <= j < h + 1 ensures slots'[j % n] == history'[j] {
      if j < h {
        DistinctSlots(j, h, n);
        assert slots[j % n] == history[j];
      }
    }
  }

  /** ... or changes the oldest one. */
  lemma OldestChangedHeld(slots: seq<Frame>, history: seq<Frame>, frame: Frame)
    requires Holds(slots, history)
    ensures Holds(slots[|history| % |slots| := frame], history[|history| - |slots| := frame])
  {
    var n, h := |slots|, |history|;
    var slots', history' := slots[h % n := frame], history[h - n := frame];
    forall j | h - n <= j < h ensures slots'[j % n] == history'[j] {
      SlotAgain(h, n);
      if h - n < j {
        DistinctSlots(j, h, n);
        assert slots[j % n] == history[j];
      }
    }
  }

  /** One write to that slot does what `Append` says, refused copies included. */
  lemma AppendWrites(slots: seq<Frame>, w: Window, samples: nat, room: nat, data: seq<real>)
    requires Holds(slots, w.history) && (forall j :: 0 <= j < |w.history| ==> |w.history[j]| == samples)
    ensures var n, at := |slots|, |w.history| % |slots|;
            var w' := Append(w, n, room, data);
            && Holds(slots[at := if |data| <= room then Overlay(data, slots[at]) else Silence(samples)], w'.history)
            && w'.read == w.read && |w'.history| == |w.history| + (if |data| <= room then 1 else 0)
            && (forall j :: 0 <= j < |w'.history| ==> |w'.history[j]| == samples)
  {
    NextSlotIsOldest(slots, w);
    AppendHeld(slots, w.history, Overlay(data, Oldest(w, |slots|)));
    OldestChangedHeld(slots, w.history, Silence(samples));
  }
}
