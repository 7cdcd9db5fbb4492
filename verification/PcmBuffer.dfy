/** The multi-frame PCM buffer: a flat float buffer cut into padded slices, used as a ring. */
module PcmBuffer {
  import opened PcmWindow
  import opened RingArithmetic

  const MEMORY_ALIGN_BYTE_NUM: nat := 64
  const FLOAT_BYTES: nat := 4

  /** Bytes of a slice: the data and between one and 64 bytes of padding. */
  function FrameBytes(frameLen: nat, channels: nat): nat {
    var dataBytes := frameLen * FLOAT_BYTES * channels;
    dataBytes + (MEMORY_ALIGN_BYTE_NUM - dataBytes % MEMORY_ALIGN_BYTE_NUM)
  }

  /** Every slice is a whole number of alignment units and of floats, and is strictly longer than its data. */
  lemma SliceLayout(frameLen: nat, channels: nat)
    ensures var bytes := FrameBytes(frameLen, channels);
            && bytes % MEMORY_ALIGN_BYTE_NUM == 0
            && bytes / FLOAT_BYTES * FLOAT_BYTES == bytes
            && frameLen * channels < bytes / FLOAT_BYTES <= frameLen * channels + 16
  {
    var samples := frameLen * channels;
    assert frameLen * FLOAT_BYTES * channels == 4 * samples;
  }

  /** Samples a bounded copy writes: all of them, or zeroes over the whole room when it refuses. */
  function Written(samples: nat, room: nat): nat {
    if samples <= room then samples else room
  }

  /** The room GetFrameData counts in a buffer of `floats` floats: the size is in bytes already and is multiplied by the
      bytes of a float again. */
  function RoomCounted(floats: nat): nat {
    FLOAT_BYTES * (floats * FLOAT_BYTES) / FLOAT_BYTES
  }

  /** For all sizes: the check lets four times the destination pass, and the call writes inside the destination exactly
      when a frame fits it (or there is no destination at all), whether the check passes or not. */
  lemma GetFrameStaysInside(samples: nat, floats: nat)
    ensures samples <= RoomCounted(floats) <==> samples <= 4 * floats
    ensures Written(samples, RoomCounted(floats)) <= floats <==> samples <= floats || floats == 0
  {
    assert FLOAT_BYTES * (floats * FLOAT_BYTES) == (4 * floats) * FLOAT_BYTES;
  }

  /** Both ways to fail, with the smallest buffer: a frame of 17 samples passes the check and is longer than the 16 floats
      of the destination; one of 65 is refused, and the refusal clears 64. */
  lemma GetFrameLeavesBuffer()
    ensures var floats := FrameBytes(1, 1) / FLOAT_BYTES;
            && floats == 16
            && 17 <= RoomCounted(floats) && Written(17, RoomCounted(floats)) == 17
            && 65 > RoomCounted(floats) && Written(65, RoomCounted(floats)) == 64
  {
  }

  lemma SliceFits(i: nat, frames: nat, size: nat)
    requires i < frames
    ensures i * size + size <= frames * size
  {
    assert (frames - i - 1) * size >= 0;
    assert frames * size == i * size + size + (frames - i - 1) * size;
  }

  /** Slices of different frames do not overlap. */
  lemma SlicesDisjoint(i: nat, j: nat, size: nat)
    requires i < j
    ensures i * size + size <= j * size
  {
    SliceFits(i, j, size);
  }

  class HpaePcmBuffer {
    const channels: nat
    const frameLen: nat
    const frames: nat
    const isMultiFrames: bool
    const frameFloatSize: nat
    const frameSample: nat
    const pcmDataBuffer: array<real>
    var pcmProcessVec: seq<nat>        // where each slice begins
    var readPos: nat
    var writePos: nat
    var curFrames: nat
    ghost var window: Window

    ghost predicate Laid()
      reads this`pcmProcessVec
    {
      && 0 < frames
      && frameSample < frameFloatSize
      && pcmDataBuffer.Length == frames * frameFloatSize
      && |pcmProcessVec| == frames
      && (forall i :: 0 <= i < frames ==>
            pcmProcessVec[i] == i * frameFloatSize && pcmProcessVec[i] + frameFloatSize <= pcmDataBuffer.Length)
    }

    /** The samples of slot `i`, without the padding. */
    ghost function Slot(i: nat): Frame
      requires Laid() && i < frames
      reads this`pcmProcessVec, pcmDataBuffer
    {
      pcmDataBuffer[pcmProcessVec[i]..pcmProcessVec[i] + frameSample]
    }

    ghost function Slots(): (slots: seq<Frame>)
      requires Laid()
      reads this`pcmProcessVec, pcmDataBuffer
      ensures |slots| == frames && (forall i :: 0 <= i < frames ==> slots[i] == Slot(i))
    {
      var data, begins, size := pcmDataBuffer[..], pcmProcessVec, frameSample;
      seq(frames, i requires 0 <= i < |begins| && begins[i] + size <= |data| => data[begins[i]..begins[i] + size])
    }

    /** The ring stands for `window`: the positions are congruent to its ends and the slots hold its latest frames. */
    ghost predicate Ring()
      requires Laid()
      reads this, pcmDataBuffer
    {
      && Inv(window, frames, frameSample)
      && curFrames == Waiting(window)
      && readPos == window.read % frames
      && writePos == |window.history| % frames
      && Holds(Slots(), window.history)
    }

    /** Only a multi-frame buffer is used as a ring. */
    ghost predicate Valid()
      reads this, pcmDataBuffer
    {
      Laid() && (isMultiFrames ==> Ring())
    }

    /** InitPcmProcess. */
    constructor (channels: nat, frameLen: nat, frames: nat, isMultiFrames: bool)
      ensures this.frames == frames && this.isMultiFrames == isMultiFrames && fresh(pcmDataBuffer)
      ensures frameSample == frameLen * channels && frameFloatSize == FrameBytes(frameLen, channels) / FLOAT_BYTES
      ensures pcmDataBuffer.Length == frames * frameFloatSize && |pcmProcessVec| == frames
      ensures readPos == 0 && writePos == 0 && curFrames == 0
      ensures frames > 0 ==> Valid() && Ring() && window == Fresh(frames, frameSample)
    {
      SliceLayout(frameLen, channels);
      this.channels, this.frameLen, this.frames, this.isMultiFrames := channels, frameLen, frames, isMultiFrames;
      var floats := FrameBytes(frameLen, channels) / FLOAT_BYTES;
      frameFloatSize := floats;
      frameSample := frameLen * channels;
      pcmDataBuffer := new real[frames * floats](_ => 0.0);
      readPos, writePos, curFrames := 0, 0, 0;
      pcmProcessVec := [];
      window := Fresh(frames, frameLen * channels);
      new;
      var begin := 0;
      for i := 0 to frames
        invariant begin == i * frameFloatSize
        invariant |pcmProcessVec| == i
        invariant forall k :: 0 <= k < i ==>
                    pcmProcessVec[k] == k * frameFloatSize && pcmProcessVec[k] + frameFloatSize <= pcmDataBuffer.Length
        invariant forall k :: 0 <= k < pcmDataBuffer.Length ==> pcmDataBuffer[k] == 0.0
        invariant readPos == 0 && writePos == 0 && curFrames == 0 && window == Fresh(frames, frameSample)
      {
        SliceFits(i, frames, frameFloatSize);
        pcmProcessVec := pcmProcessVec + [begin];
        begin := begin + frameFloatSize;
      }
      if frames > 0 {
        FreshIsRing();
      }
    }

    lemma FreshIsRing()
      requires Laid() && window == Fresh(frames, frameSample)
      requires readPos == 0 && writePos == 0 && curFrames == 0
      requires forall i :: 0 <= i < frames ==> Slot(i) == Silence(frameSample)
      ensures Ring()
    {
      SlotOf(1, 0, frames);
      FreshHeld(Slots(), frameSample);
    }

    /** memset over every slice; the padding keeps what it holds. */
    method Reset()
      requires Valid()
      modifies this, pcmDataBuffer
      ensures Valid() && Ring() && window == Fresh(frames, frameSample)
    {
      var i := 0;
      while i < frames
        invariant i <= frames && Laid()
        invariant forall k :: 0 <= k < i ==> Slot(k) == Silence(frameSample)
        modifies pcmDataBuffer
      {
        ClearSlot(i);
        i := i + 1;
      }
      readPos, writePos, curFrames := 0, 0, 0;
      window := Fresh(frames, frameSample);
      FreshIsRing();
    }

    method ClearSlot(i: nat)
      requires Laid() && i < frames
      modifies pcmDataBuffer
      ensures Slot(i) == Silence(frameSample)
      ensures forall k :: 0 <= k < frames && k != i ==> Slot(k) == old(Slot(k))
    {
      Fill(pcmDataBuffer, pcmProcessVec[i], frameSample);
      forall k | 0 <= k < frames && k != i ensures Slot(k) == old(Slot(k)) {
        Apart(k, i);
      }
    }

    lemma Within(i: nat)
      requires Laid() && i < frames
      ensures |pcmProcessVec| == frames && frameSample < frameFloatSize
      ensures pcmProcessVec[i] + frameFloatSize <= pcmDataBuffer.Length
    {
    }

    lemma Apart(i: nat, k: nat)
      requires Laid() && i < frames && k < frames && i != k
      ensures |pcmProcessVec| == frames
      ensures pcmProcessVec[i] + frameFloatSize <= pcmProcessVec[k] || pcmProcessVec[k] + frameFloatSize <= pcmProcessVec[i]
    {
      if i < k {
        SlicesDisjoint(i, k, frameFloatSize);
      } else {
        SlicesDisjoint(k, i, frameFloatSize);
      }
    }

    /** memset_s: zero `count` elements from `at`. */
    static method Fill(dest: array<real>, at: nat, count: nat)
      requires at + count <= dest.Length
      modifies dest
      ensures forall j :: 0 <= j < dest.Length ==> dest[j] == if at <= j < at + count then 0.0 else old(dest[j])
    {
      var k := 0;
      while k < count
        invariant k <= count
        invariant forall j :: 0 <= j < dest.Length ==>
                    dest[j] == if at <= j < at + k then 0.0 else old(dest[j])
      {
        dest[at + k] := 0.0;
        k := k + 1;
      }
    }

    /** memcpy_s: copy all of `src` to `dest[at..]` if it fits in `room`, else zero the whole room and fail. */
    static method Copy(dest: array<real>, at: nat, room: nat, src: seq<real>) returns (ok: bool)
      requires at + room <= dest.Length
      modifies dest
      ensures ok <==> |src| <= room
      ensures forall j :: 0 <= j < dest.Length ==>
                dest[j] == if ok && at <= j < at + |src| then src[j - at]
                           else if !ok && at <= j < at + room then 0.0
                           else old(dest[j])
    {
      if |src| > room {
        Fill(dest, at, room);
        return false;
      }
      var k := 0;
      while k < |src|
        invariant k <= |src|
        invariant forall j :: 0 <= j < dest.Length ==>
                    dest[j] == if at <= j < at + k then src[j - at] else old(dest[j])
      {
        dest[at + k] := src[k];
        k := k + 1;
      }
      return true;
    }

    /** What Copy leaves of `before`. */
    static ghost predicate Copied(before: seq<real>, after: seq<real>, at: nat, room: nat, src: seq<real>) {
      && |after| == |before|
      && forall j :: 0 <= j < |before| ==>
           after[j] == if |src| <= room && at <= j < at + |src| then src[j - at]
                       else if |src| > room && at <= j < at + room then 0.0
                       else before[j]
    }

    static lemma CopiedInside(before: seq<real>, after: seq<real>, at: nat, room: nat, src: seq<real>, samples: nat)
      requires Copied(before, after, at, room, src) && samples < room && at + room <= |before|
      ensures after[at..at + samples] ==
              if |src| <= room then Overlay(src, before[at..at + samples]) else Silence(samples)
    {
    }

    static lemma CopiedOutside(before: seq<real>, after: seq<real>, at: nat, room: nat, src: seq<real>, from: nat, to: nat)
      requires Copied(before, after, at, room, src) && from <= to <= |before| && (to <= at || at + room <= from)
      ensures after[from..to] == before[from..to]
    {
    }

    /** Copy `data` over slot `i`. */
    method WriteSlot(i: nat, data: seq<real>) returns (ok: bool)
      requires Laid() && i < frames
      modifies pcmDataBuffer
      ensures ok <==> |data| <= frameFloatSize
      ensures Slots() == old(Slots())[i := if ok then Overlay(data, old(Slot(i))) else Silence(frameSample)]
    {
      hide HpaePcmBuffer.Laid, HpaePcmBuffer.Slots, Overlay, Silence;
      Within(i);
      ghost var before := pcmDataBuffer[..];
      ok := Copy(pcmDataBuffer, pcmProcessVec[i], frameFloatSize, data);
      ghost var after := pcmDataBuffer[..];
      assert Copied(before, after, pcmProcessVec[i], frameFloatSize, data);
      hide Copied;
      CopiedInside(before, after, pcmProcessVec[i], frameFloatSize, data, frameSample);
      forall k | 0 <= k < frames && k != i ensures Slot(k) == old(Slot(k)) {
        Within(k);
        Apart(k, i);
        CopiedOutside(before, after, pcmProcessVec[i], frameFloatSize, data, pcmProcessVec[k], pcmProcessVec[k] + frameSample);
      }
    }

    /** Writing the slot at the write position appends a frame, or silences the oldest one. */
    method WriteFrame(data: seq<real>) returns (ok: bool)
      requires Laid() && Ring()
      modifies this`window, pcmDataBuffer
      ensures Laid()
      ensures ok <==> |data| <= frameFloatSize
      ensures window == Append(old(window), frames, frameFloatSize, data)
      ensures window.read == old(window.read) && |window.history| == old(|window.history|) + if ok then 1 else 0
      ensures forall j :: 0 <= j < |window.history| ==> |window.history[j]| == frameSample
      ensures Holds(Slots(), window.history)
    {
      hide Append, Holds, Overlay, Oldest, HpaePcmBuffer.Slots;
      AppendWrites(Slots(), window, frameSample, frameFloatSize, data);
      ok := WriteSlot(writePos, data);
      window := Append(window, frames, frameFloatSize, data);
    }

    /** PushFrameData of a vector. */
    method PushFrameData(frameData: seq<real>) returns (ok: bool)
      requires Valid()
      modifies this, pcmDataBuffer
      ensures Valid()
      ensures ok <==> isMultiFrames && old(curFrames) < frames && |frameData| <= frameFloatSize
      ensures isMultiFrames ==> window == Push(old(window), frames, frameFloatSize, frameData)
      ensures !isMultiFrames ==> pcmDataBuffer[..] == old(pcmDataBuffer[..])
    {
      hide Append, Holds, HpaePcmBuffer.Slots;
      if !isMultiFrames {
        return false;
      }
      if curFrames >= frames {
        return false;
      }
      NextSlot(|window.history|, frames);
      ok := WriteFrame(frameData);
      if !ok {
        return;
      }
      writePos := (writePos + 1) % frames;
      curFrames := curFrames + 1;
    }

    /** PushFrameData of a single-frame buffer: the whole flat buffer, padding included. */
    method PushFrameBuffer(frameData: HpaePcmBuffer) returns (ok: bool)
      requires Valid()
      modifies this, pcmDataBuffer
      ensures Valid()
      ensures ok <==> && isMultiFrames && !frameData.isMultiFrames
                      && old(curFrames) < frames && frameData.pcmDataBuffer.Length <= frameFloatSize
      ensures isMultiFrames && !frameData.isMultiFrames ==>
                window == Push(old(window), frames, frameFloatSize, old(frameData.pcmDataBuffer[..]))
      ensures !isMultiFrames || frameData.isMultiFrames ==>
                window == old(window) && pcmDataBuffer[..] == old(pcmDataBuffer[..])
    {
      hide Append, Holds, HpaePcmBuffer.Slots;
      if !isMultiFrames || frameData.isMultiFrames {
        return false;
      }
      if curFrames >= frames {
        return false;
      }
      NextSlot(|window.history|, frames);
      ok := WriteFrame(frameData.pcmDataBuffer[..]);
      if !ok {
        return;
      }
      writePos := (writePos + 1) % frames;
      curFrames := curFrames + 1;
    }

    /** StoreFrameData: no room is needed, the oldest frame gives way. */
    method StoreFrameData(frameData: HpaePcmBuffer) returns (ok: bool)
      requires Valid()
      modifies this, pcmDataBuffer
      ensures Valid()
      ensures ok <==> isMultiFrames && !frameData.isMultiFrames && frameData.pcmDataBuffer.Length <= frameFloatSize
      ensures isMultiFrames && !frameData.isMultiFrames ==>
                window == Store(old(window), frames, frameFloatSize, old(frameData.pcmDataBuffer[..]))
      ensures !isMultiFrames || frameData.isMultiFrames ==>
                window == old(window) && pcmDataBuffer[..] == old(pcmDataBuffer[..])
    {
      if !isMultiFrames || frameData.isMultiFrames {
        return false;
      }
      NextSlot(|window.history|, frames);
      NextSlot(window.read, frames);
      ok := WriteFrame(frameData.pcmDataBuffer[..]);
      if !ok {
        return;
      }
      window := window.(read := window.read + 1);
      writePos := (writePos + 1) % frames;
      readPos := (readPos + 1) % frames;
    }

    /** The slot at the read position holds the next frame to hand out. */
    lemma NextAtReadPos()
      requires Laid() && Ring() && curFrames > 0
      ensures Slot(readPos) == window.history[window.read]
    {
      assert Slots()[window.read % frames] == window.history[window.read];
    }

    /** GetFrameData into a vector: one that is too short is zeroed and the frame stays. */
    method GetFrameData(frameData: array<real>) returns (ok: bool)
      requires Valid() && frameData != pcmDataBuffer
      modifies this`window, this`readPos, this`curFrames, frameData
      ensures Valid()
      ensures ok <==> isMultiFrames && old(curFrames) > 0 && frameSample <= frameData.Length
      ensures window == if ok then Get(old(window)) else old(window)
      ensures ok ==> frameData[..] == old(window.history[window.read]) + old(frameData[..])[frameSample..]
      ensures !ok ==> forall k :: 0 <= k < frameData.Length ==>
                        frameData[k] == if isMultiFrames && old(curFrames) > 0 then 0.0 else old(frameData[k])
    {
      if !isMultiFrames {
        return false;
      }
      if curFrames <= 0 {
        return false;
      }
      NextAtReadPos();
      NextSlot(window.read, frames);
      var begin := pcmProcessVec[readPos];
      ok := Copy(frameData, 0, frameData.Length, pcmDataBuffer[begin..begin + frameSample]);
      if !ok {
        return;
      }
      window := Get(window);
      readPos := (readPos + 1) % frames;
      curFrames := curFrames - 1;
    }

    /** A bounded copy to the start of an array for which `room` is claimed: it writes what lies inside the array and counts
        what strays past its end, where the effect of the real copy is not defined. */
    static method CopyInto(dest: array<real>, room: nat, src: seq<real>) returns (ok: bool, stray: nat)
      modifies dest
      ensures ok <==> |src| <= room
      ensures stray == if Written(|src|, room) > dest.Length then Written(|src|, room) - dest.Length else 0
      ensures forall j :: 0 <= j < dest.Length ==>
                dest[j] == if j >= Written(|src|, room) then old(dest[j]) else if ok then src[j] else 0.0
    {
      ok := |src| <= room;
      var written := if ok then |src| else room;
      var inside := if written < dest.Length then written else dest.Length;
      stray := written - inside;
      if ok {
        var _ := Copy(dest, 0, inside, src[..inside]);
      } else {
        Fill(dest, 0, inside);
      }
    }

    /** GetFrameData into a single-frame buffer, for a destination of any size; `stray` is what the copy writes past its
        end. */
    method GetFrameBuffer(frameData: HpaePcmBuffer) returns (ok: bool, stray: nat)
      requires Valid() && frameData.pcmDataBuffer != pcmDataBuffer
      modifies this`window, this`readPos, this`curFrames, frameData.pcmDataBuffer
      ensures Valid()
      ensures var floats := frameData.pcmDataBuffer.Length;
              var copies := isMultiFrames && !frameData.isMultiFrames && old(curFrames) > 0;
              var written := if copies then Written(frameSample, RoomCounted(floats)) else 0;
              && (ok <==> copies && frameSample <= 4 * floats)
              && stray == (if written > floats then written - floats else 0)
              && (stray == 0 <==> !copies || frameSample <= floats || floats == 0)
              && window == (if ok then Get(old(window)) else old(window))
              && (forall k :: 0 <= k < floats ==>
                    frameData.pcmDataBuffer[k] == if k >= written then old(frameData.pcmDataBuffer[k])
                                                  else if ok then old(window.history[window.read])[k] else 0.0)
    {
      if !isMultiFrames || frameData.isMultiFrames {
        return false, 0;
      }
      if curFrames <= 0 {
        return false, 0;
      }
      NextAtReadPos();
      NextSlot(window.read, frames);
      var begin, floats := pcmProcessVec[readPos], frameData.pcmDataBuffer.Length;
      GetFrameStaysInside(frameSample, floats);
      ok, stray := CopyInto(frameData.pcmDataBuffer, RoomCounted(floats), pcmDataBuffer[begin..begin + frameSample]);
      if !ok {
        return;
      }
      window := Get(window);
      readPos := (readPos + 1) % frames;
      curFrames := curFrames - 1;
    }

    /** RewindBuffer. */
    method RewindBuffer(count: nat) returns (back: nat)
      requires Valid()
      modifies this`window, this`readPos, this`curFrames
      ensures Valid()
      ensures isMultiFrames ==> back == Rewound(old(window), frames, count) && window == Rewind(old(window), frames, count)
      ensures !isMultiFrames ==> back == 0 && window == old(window)
    {
      if !isMultiFrames {
        return 0;
      }
      back := if curFrames + count > frames then frames - curFrames else count;
      SlotBack(window.read, back, frames);
      window := Rewind(window, frames, count);
      readPos := (readPos - back + frames) % frames;
      curFrames := curFrames + back;
    }
  }
}
