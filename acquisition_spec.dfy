/**
 * The per-frame state machine of the acquisition loop
 * (Hamamatsu_AcquireImageThread::AcquireImage), stated on values: the
 * counters ImageCount, Buffer_Index and SaveImage_Index, the 16-slot display
 * ring, the capture buffer of a recording session and the session globals.
 * The class in module AcquisitionThread is proved to follow `Step` frame by
 * frame; everything the loop promises over many frames is proved here about
 * `Steps`.
 */
module AcquisitionSpec {
  import opened Util
  import opened DevicePackage

  /** HAMAMATSU_BUFFER_SIZE: the number of display ring slots. */
  const HAMAMATSU_BUFFER_SIZE: nat := 16

  /** ImageCount is an `unsigned long`, 32 bits wide under the Windows ABI the program targets. */
  const ULONG_MODULUS: nat := 0x1_0000_0000

  /** One ring slot: a null pointer or a buffer holding a frame snapshot. */
  datatype Slot = Null | Data(pixels: Pixels)

  /**
   * What one call of AcquireImage gets from the device and the clock: the
   * outcome of dcam_wait and dcam_lockdata, the row stride reported by the
   * lock, the locked frame and the wall-clock time in milliseconds.
   */
  datatype FrameInput = FrameInput(waitOk: bool, lockOk: bool, rowBytes: int, pixels: Pixels, now: int)

  /** A frame is used only when the wait and the lock succeed and the stride is not negative. */
  predicate Accepted(f: FrameInput) {
    f.waitOk && f.lockOk && f.rowBytes >= 0
  }

  datatype AcqState = AcqState(
    imageCount: nat,                  // ImageCount
    bufferIndex: nat,                 // Buffer_Index
    saveIndex: nat,                   // SaveImage_Index
    imageWidth: int,                  // image_width, read once when the loop starts
    imageHeight: int,                 // image_height
    ring: seq<Slot>,                  // circularBuffers
    capture: Option<seq<ImageBuffer>>,// HamamatsuImageBuffers
    startSave: bool,                  // HamamatsuStartSaveImage
    saveNum: int,                     // HamamatsuSaveImageNum
    interval: int,                    // HAMAMATSU_DISPLAY_INTERVAL
    info: WindowInfo,                 // hamamatsuWindowInfo
    displayed: seq<nat>,              // image_num of every display signal sent, in order
    finished: nat)                    // number of FinishSaveImageSignal emissions
  {
    /** A frame is copied into the capture buffer only while this holds. */
    predicate Saving() {
      capture.Some? && startSave
    }
  }

  predicate RingAllocated(ring: seq<Slot>) {
    forall k :: 0 <= k < |ring| ==> ring[k].Data?
  }

  /**
   * The caller-enforced recording protocol: while a session is active its
   * write index is below the target count, the buffer holds at least that
   * many slots, and the slots still to be written own pixel storage.
   */
  predicate SessionOk(s: AcqState) {
    s.Saving() ==>
      && s.saveIndex < s.saveNum <= |s.capture.value|
      && forall k :: s.saveIndex <= k < s.saveNum ==> s.capture.value[k].imageData.Some?
  }

  predicate Inv(s: AcqState) {
    && |s.ring| == HAMAMATSU_BUFFER_SIZE
    && s.bufferIndex < HAMAMATSU_BUFFER_SIZE
    && RingAllocated(s.ring)
    && s.imageCount < ULONG_MODULUS
    && s.interval > 0
    && SessionOk(s)
  }

  /** The slot a saved frame turns into: stamped and holding the frame's pixels. */
  function Stamped(b: ImageBuffer, f: FrameInput): ImageBuffer {
    b.(timestamp := f.now, imageData := Some(f.pixels))
  }

  /** Lines 126-135: copy the frame into the next capture slot, end the session on the last one. */
  function SaveFrame(s: AcqState, f: FrameInput): AcqState
    requires s.Saving() && s.saveIndex < |s.capture.value|
  {
    var buf := s.capture.value;
    var filled := buf[s.saveIndex := Stamped(buf[s.saveIndex], f)];
    if s.saveIndex + 1 == s.saveNum then
      s.(capture := Some(filled), saveIndex := 0, startSave := false, finished := s.finished + 1)
    else
      s.(capture := Some(filled), saveIndex := s.saveIndex + 1)
  }

  /** Lines 137-149: write the frame into the ring slot under the cursor, publish it, advance the cursor. */
  function Publish(s: AcqState, f: FrameInput): AcqState
    requires s.bufferIndex < |s.ring|
  {
    s.(info := s.info.(imageWidth := s.imageWidth, imageHeight := s.imageHeight, imageStride := f.rowBytes,
                       imageNum := s.imageCount, imageData := RingSlot(s.bufferIndex)),
       ring := s.ring[s.bufferIndex := Data(f.pixels)],
       bufferIndex := (s.bufferIndex + 1) % HAMAMATSU_BUFFER_SIZE,
       displayed := s.displayed + [s.imageCount])
  }

  /** One call of AcquireImage. */
  function Step(s: AcqState, f: FrameInput): (r: AcqState)
    requires Inv(s)
    ensures Inv(r)
    ensures r.interval == s.interval && r.saveNum == s.saveNum
    ensures r.imageWidth == s.imageWidth && r.imageHeight == s.imageHeight
    // a failed wait, a failed lock or a negative stride is an iteration that changes nothing
    ensures !Accepted(f) ==> r == s
    // every accepted frame is counted once
    ensures Accepted(f) ==> r.imageCount == (s.imageCount + 1) % ULONG_MODULUS
    // a frame is shown exactly when the count is a multiple of the interval read at that frame
    ensures Accepted(f) && s.imageCount % s.interval == 0 ==>
      && r.displayed == s.displayed + [s.imageCount]
      && r.ring == s.ring[s.bufferIndex := Data(f.pixels)]
      && r.info.imageData == RingSlot(s.bufferIndex)
      && r.info.imageNum == s.imageCount
      && r.bufferIndex == (s.bufferIndex + 1) % HAMAMATSU_BUFFER_SIZE
    ensures !(Accepted(f) && s.imageCount % s.interval == 0) ==>
      r.displayed == s.displayed && r.ring == s.ring && r.info == s.info && r.bufferIndex == s.bufferIndex
    // frames outside a session never touch the capture buffer or the session state
    ensures !s.Saving() ==>
      r.capture == s.capture && r.startSave == s.startSave && r.saveIndex == s.saveIndex && r.finished == s.finished
    // inside a session the frame lands, stamped, in slot saveIndex and nowhere else
    ensures Accepted(f) && s.Saving() ==>
      && r.capture.Some? && |r.capture.value| == |s.capture.value|
      && r.capture.value[s.saveIndex] == Stamped(s.capture.value[s.saveIndex], f)
      && (forall k :: 0 <= k < |s.capture.value| && k != s.saveIndex ==> r.capture.value[k] == s.capture.value[k])
      && (r.startSave <==> s.saveIndex + 1 < s.saveNum)
      && r.saveIndex == (if s.saveIndex + 1 == s.saveNum then 0 else s.saveIndex + 1)
      && r.finished == s.finished + (if s.saveIndex + 1 == s.saveNum then 1 else 0)
  {
    if !Accepted(f) then s
    else
      var saved := if s.Saving() then SaveFrame(s, f) else s;
      var shown := if saved.imageCount % saved.interval == 0 then Publish(saved, f) else saved;
      shown.(imageCount := (shown.imageCount + 1) % ULONG_MODULUS)
  }

  /** The loop body run once per frame, in order. */
  function Steps(s: AcqState, fs: seq<FrameInput>): (r: AcqState)
    requires Inv(s)
    ensures Inv(r)
    ensures r.interval == s.interval && r.saveNum == s.saveNum
    decreases |fs|
  {
    if fs == [] then s else Steps(Step(s, fs[0]), fs[1..])
  }

  /** Number of accepted frames in a run. */
  function CountAccepted(fs: seq<FrameInput>): nat {
    if fs == [] then 0 else (if Accepted(fs[0]) then 1 else 0) + CountAccepted(fs[1..])
  }

  /** The numbers in [c, c + m) that are multiples of d, ascending. */
  function Multiples(c: nat, m: nat, d: nat): seq<nat>
    requires d > 0
    decreases m
  {
    if m == 0 then [] else (if c % d == 0 then [c] else []) + Multiples(c + 1, m - 1, d)
  }

  lemma {:induction false} StepsAppend(s: AcqState, a: seq<FrameInput>, b: seq<FrameInput>)
    requires Inv(s)
    ensures Steps(s, a + b) == Steps(Steps(s, a), b)
    decreases |a|
  {
    if a == [] {
      assert a + b == b;
    } else {
      assert (a + b)[0] == a[0];
      assert (a + b)[1..] == a[1..] + b;
      StepsAppend(Step(s, a[0]), a[1..], b);
    }
  }

  /** Running one more frame after a run. */
  lemma StepsSnoc(s: AcqState, fs: seq<FrameInput>, f: FrameInput)
    requires Inv(s)
    ensures Steps(s, fs + [f]) == Step(Steps(s, fs), f)
  {
    StepsAppend(s, fs, [f]);
    assert [f][1..] == [];
  }

  /** Advancing the ring cursor by h and then by t is advancing it by h + t. */
  lemma RingAdvance(b: nat, h: nat, t: nat, b1: nat, b2: nat)
    requires b1 == (b + h) % HAMAMATSU_BUFFER_SIZE && b2 == (b1 + t) % HAMAMATSU_BUFFER_SIZE
    ensures b2 == (b + h + t) % HAMAMATSU_BUFFER_SIZE
  {
  }

  /**
   * Over a run with no wrap-around of ImageCount, the count rises by the
   * number of accepted frames, the display signals carry exactly the frame
   * numbers that are multiples of the interval, in order, and the ring
   * cursor has advanced once per display, modulo the ring size.
   */
  lemma {:induction false} StepsDisplay(s: AcqState, fs: seq<FrameInput>)
    requires Inv(s)
    requires s.imageCount + CountAccepted(fs) < ULONG_MODULUS
    ensures Steps(s, fs).imageCount == s.imageCount + CountAccepted(fs)
    ensures Steps(s, fs).displayed == s.displayed + Multiples(s.imageCount, CountAccepted(fs), s.interval)
    ensures Steps(s, fs).bufferIndex
            == (s.bufferIndex + |Multiples(s.imageCount, CountAccepted(fs), s.interval)|) % HAMAMATSU_BUFFER_SIZE
    decreases |fs|, 1
  {
    if fs == [] {
      assert s.bufferIndex % HAMAMATSU_BUFFER_SIZE == s.bufferIndex;
    } else if Accepted(fs[0]) {
      StepsDisplayAccepted(s, fs);
    } else {
      var s1 := Step(s, fs[0]);
      var rest := fs[1..];
      assert Steps(s, fs) == Steps(s1, rest);
      assert CountAccepted(fs) == CountAccepted(rest);
      StepsDisplay(s1, rest);
    }
  }

  /** The case of `StepsDisplay` whose first frame is accepted. */
  lemma {:induction false} StepsDisplayAccepted(s: AcqState, fs: seq<FrameInput>)
    requires Inv(s) && fs != [] && Accepted(fs[0])
    requires s.imageCount + CountAccepted(fs) < ULONG_MODULUS
    ensures Steps(s, fs).imageCount == s.imageCount + CountAccepted(fs)
    ensures Steps(s, fs).displayed == s.displayed + Multiples(s.imageCount, CountAccepted(fs), s.interval)
    ensures Steps(s, fs).bufferIndex
            == (s.bufferIndex + |Multiples(s.imageCount, CountAccepted(fs), s.interval)|) % HAMAMATSU_BUFFER_SIZE
    decreases |fs|, 0
  {
    var s1 := Step(s, fs[0]);
    var rest := fs[1..];
    var m := CountAccepted(rest);
    assert CountAccepted(fs) == 1 + m;
    StepDisplayOne(s, fs[0]);
    StepsDisplay(s1, rest);
    var r := Steps(s1, rest);
    assert Steps(s, fs) == r;
    DisplayCons(s.imageCount, s.interval, m, s.displayed, s1.displayed, r.displayed,
                s.bufferIndex, s1.bufferIndex, r.bufferIndex);
  }

  /** Prepending one accepted frame to a run, on the display log and the ring cursor alone. */
  lemma DisplayCons(c: nat, d: nat, m: nat, log0: seq<nat>, log1: seq<nat>, logR: seq<nat>, b0: nat, b1: nat, bR: nat)
    requires d > 0
    requires log1 == log0 + (if c % d == 0 then [c] else [])
    requires b1 == (b0 + (if c % d == 0 then 1 else 0)) % HAMAMATSU_BUFFER_SIZE
    requires logR == log1 + Multiples(c + 1, m, d)
    requires bR == (b1 + |Multiples(c + 1, m, d)|) % HAMAMATSU_BUFFER_SIZE
    ensures logR == log0 + Multiples(c, m + 1, d)
    ensures bR == (b0 + |Multiples(c, m + 1, d)|) % HAMAMATSU_BUFFER_SIZE
  {
    var head: seq<nat> := if c % d == 0 then [c] else [];
    var tail := Multiples(c + 1, m, d);
    assert Multiples(c, m + 1, d) == head + tail;
    assert log0 + head + tail == log0 + (head + tail);
    RingAdvance(b0, |head|, |tail|, b1, bR);
  }

  /** One accepted frame below the wrap-around point, in the terms of `StepsDisplay`. */
  lemma StepDisplayOne(s: AcqState, f: FrameInput)
    requires Inv(s) && Accepted(f) && s.imageCount + 1 < ULONG_MODULUS
    ensures Step(s, f).imageCount == s.imageCount + 1
    ensures Step(s, f).displayed == s.displayed + (if s.imageCount % s.interval == 0 then [s.imageCount] else [])
    ensures Step(s, f).bufferIndex
            == (s.bufferIndex + (if s.imageCount % s.interval == 0 then 1 else 0)) % HAMAMATSU_BUFFER_SIZE
  {
    if s.imageCount % s.interval != 0 {
      assert s.displayed + [] == s.displayed;
    }
  }

  /** (c + d - 1) / d: the number of multiples of d below c. */
  function CeilDiv(c: nat, d: nat): nat
    requires d > 0
  {
    (c + d - 1) / d
  }

  lemma {:induction false} MulStrict(a: nat, b: nat, d: nat)
    requires a < b
    ensures a * d + d <= b * d
    decreases b - a
  {
    if a + 1 < b {
      MulStrict(a, b - 1, d);
    }
    assert b * d == (b - 1) * d + d;
  }

  lemma DivUnique(x: nat, d: nat, q: nat, r: nat)
    requires d > 0 && r < d && x == q * d + r
    ensures x / d == q
  {
    var q' := x / d;
    assert x == q' * d + x % d;
    if q' > q {
      MulStrict(q, q', d);
    } else if q' < q {
      MulStrict(q', q, d);
    }
  }

  /** Counting the multiples of d below c + 1 adds one exactly when c is a multiple. */
  lemma CeilDivStep(c: nat, d: nat)
    requires d > 0
    ensures CeilDiv(c + 1, d) == CeilDiv(c, d) + (if c % d == 0 then 1 else 0)
  {
    var q := c / d;
    var r := c % d;
    assert c == q * d + r;
    DivUnique(c + d, d, q + 1, r);
    assert CeilDiv(c + 1, d) == q + 1;
    if r == 0 {
      DivUnique(c + d - 1, d, q, d - 1);
    } else {
      DivUnique(c + d - 1, d, q + 1, r - 1);
    }
  }

  /** The number of multiples of d in [c, c + m). */
  lemma {:induction false} MultiplesCount(c: nat, m: nat, d: nat)
    requires d > 0
    ensures |Multiples(c, m, d)| == CeilDiv(c + m, d) - CeilDiv(c, d)
    decreases m
  {
    if m > 0 {
      MultiplesCount(c + 1, m - 1, d);
      CeilDivStep(c, d);
    }
  }

  lemma {:induction false} MultiplesBelow(c: nat, m: nat, d: nat, k: nat)
    requires d > 0 && k < |Multiples(c, m, d)|
    ensures c <= Multiples(c, m, d)[k] < c + m && Multiples(c, m, d)[k] % d == 0
    decreases m
  {
    var head: seq<nat> := if c % d == 0 then [c] else [];
    assert Multiples(c, m, d) == head + Multiples(c + 1, m - 1, d);
    if k >= |head| {
      MultiplesBelow(c + 1, m - 1, d, k - |head|);
    }
  }

  /**
   * From a fresh count, M accepted frames with a fixed interval d > 0 give
   * exactly ceil(M / d) display signals (frame 0 is shown), for frames
   * 0, d, 2d, ...; the ring cursor ends at ceil(M / d) mod 16 past its start.
   */
  lemma DisplayCountFromStart(s: AcqState, fs: seq<FrameInput>)
    requires Inv(s) && s.imageCount == 0
    requires forall i :: 0 <= i < |fs| ==> Accepted(fs[i])
    requires |fs| < ULONG_MODULUS
    ensures |Steps(s, fs).displayed| == |s.displayed| + (|fs| + s.interval - 1) / s.interval
    ensures Steps(s, fs).bufferIndex == (s.bufferIndex + (|fs| + s.interval - 1) / s.interval) % HAMAMATSU_BUFFER_SIZE
    ensures forall k :: |s.displayed| <= k < |Steps(s, fs).displayed| ==>
              Steps(s, fs).displayed[k] < |fs| && Steps(s, fs).displayed[k] % s.interval == 0
  {
    AllAcceptedCount(fs);
    StepsDisplay(s, fs);
    var d := s.interval;
    MultiplesCount(0, |fs|, d);
    DivUnique(d - 1, d, 0, d - 1);
    var r := Steps(s, fs);
    forall k | |s.displayed| <= k < |r.displayed|
      ensures r.displayed[k] < |fs| && r.displayed[k] % d == 0
    {
      MultiplesBelow(0, |fs|, d, k - |s.displayed|);
    }
  }

  lemma {:induction false} AllAcceptedCount(fs: seq<FrameInput>)
    requires forall i :: 0 <= i < |fs| ==> Accepted(fs[i])
    ensures CountAccepted(fs) == |fs|
    decreases |fs|
  {
    if fs != [] {
      AllAcceptedCount(fs[1..]);
    }
  }

  /**
   * Nine frames with interval 2 from a fresh count are shown as frames
   * 0, 2, 4, 6 and 8, and leave the cursor five slots further on.
   */
  lemma NineFramesIntervalTwo(s: AcqState, fs: seq<FrameInput>)
    requires Inv(s) && s.imageCount == 0 && s.bufferIndex == 0 && s.interval == 2
    requires |fs| == 9 && forall i :: 0 <= i < |fs| ==> Accepted(fs[i])
    ensures Steps(s, fs).displayed == s.displayed + [0, 2, 4, 6, 8]
    ensures Steps(s, fs).bufferIndex == 5
  {
    AcceptedRunDisplay(s, fs);
    MultiplesNineByTwo();
  }

  /** `StepsDisplay` for a run in which every frame is accepted. */
  lemma AcceptedRunDisplay(s: AcqState, fs: seq<FrameInput>)
    requires Inv(s) && s.imageCount + |fs| < ULONG_MODULUS
    requires forall i :: 0 <= i < |fs| ==> Accepted(fs[i])
    ensures Steps(s, fs).displayed == s.displayed + Multiples(s.imageCount, |fs|, s.interval)
    ensures Steps(s, fs).bufferIndex
            == (s.bufferIndex + |Multiples(s.imageCount, |fs|, s.interval)|) % HAMAMATSU_BUFFER_SIZE
  {
    AllAcceptedCount(fs);
    StepsDisplay(s, fs);
  }

  /** The counts 0 to 8 that are multiples of 2. */
  lemma MultiplesNineByTwo()
    ensures Multiples(0, 9, 2) == [0, 2, 4, 6, 8]
  {
    assert Multiples(8, 1, 2) == [8];
    assert Multiples(6, 3, 2) == [6, 8] by { assert Multiples(7, 2, 2) == [8]; }
    assert Multiples(4, 5, 2) == [4, 6, 8] by { assert Multiples(5, 4, 2) == [6, 8]; }
    assert Multiples(2, 7, 2) == [2, 4, 6, 8] by { assert Multiples(3, 6, 2) == [4, 6, 8]; }
    assert Multiples(1, 8, 2) == [2, 4, 6, 8];
  }

  /** Frames that arrive while no session is active leave the capture buffer and session state alone. */
  lemma {:induction false} IdleFramesKeepCapture(s: AcqState, fs: seq<FrameInput>)
    requires Inv(s) && !s.Saving()
    ensures Steps(s, fs).capture == s.capture && Steps(s, fs).startSave == s.startSave
    ensures Steps(s, fs).saveIndex == s.saveIndex && Steps(s, fs).finished == s.finished
    decreases |fs|
  {
    if fs != [] {
      IdleFramesKeepCapture(Step(s, fs[0]), fs[1..]);
    }
  }

  /**
   * Fewer accepted frames than the session still needs: each lands, stamped,
   * in the next slot, the session stays active and nothing else changes.
   */
  lemma {:induction false} SessionPartialFill(s: AcqState, fs: seq<FrameInput>)
    requires Inv(s) && s.Saving()
    requires forall i :: 0 <= i < |fs| ==> Accepted(fs[i])
    requires s.saveIndex + |fs| < s.saveNum
    ensures Steps(s, fs).Saving() && Steps(s, fs).saveIndex == s.saveIndex + |fs|
    ensures Steps(s, fs).finished == s.finished
    ensures |Steps(s, fs).capture.value| == |s.capture.value|
    ensures forall j :: 0 <= j < |fs| ==>
              Steps(s, fs).capture.value[s.saveIndex + j] == Stamped(s.capture.value[s.saveIndex + j], fs[j])
    ensures forall k :: 0 <= k < |s.capture.value| && !(s.saveIndex <= k < s.saveIndex + |fs|) ==>
              Steps(s, fs).capture.value[k] == s.capture.value[k]
    decreases |fs|
  {
    if fs != [] {
      var s1 := Step(s, fs[0]);
      SessionPartialFill(s1, fs[1..]);
      var r := Steps(s, fs);
      assert r == Steps(s1, fs[1..]);
      forall j | 0 <= j < |fs|
        ensures r.capture.value[s.saveIndex + j] == Stamped(s.capture.value[s.saveIndex + j], fs[j])
      {
        if j > 0 {
          assert fs[1..][j - 1] == fs[j];
        }
      }
    }
  }

  /**
   * A session started at index 0 for N frames, fed at least N accepted
   * frames: the first N frames fill slots 0..N-1 in order, each stamped
   * with its own time; no other slot changes; the finish signal fires
   * exactly once; the session is switched off with the index back at 0;
   * and the frames after the N-th overwrite nothing.
   */
  lemma SessionFill(s: AcqState, fs: seq<FrameInput>)
    requires Inv(s) && s.Saving() && s.saveIndex == 0
    requires forall i :: 0 <= i < |fs| ==> Accepted(fs[i])
    requires |fs| >= s.saveNum
    ensures var r := Steps(s, fs);
      && !r.startSave && r.saveIndex == 0 && r.finished == s.finished + 1
      && r.capture.Some? && |r.capture.value| == |s.capture.value|
      && (forall j :: 0 <= j < s.saveNum ==> r.capture.value[j] == Stamped(s.capture.value[j], fs[j]))
      && (forall k :: s.saveNum <= k < |s.capture.value| ==> r.capture.value[k] == s.capture.value[k])
  {
    var n := s.saveNum;
    var first := fs[..n - 1];
    var last := fs[n - 1];
    var after := fs[n..];
    assert fs == first + [last] + after;
    SessionPartialFill(s, first);
    var m := Steps(s, first);
    var e := Step(m, last);
    assert Steps(m, [last]) == e by {
      assert [last][1..] == [];
    }
    StepsAppend(s, first, [last]);
    StepsAppend(s, first + [last], after);
    assert !e.Saving();
    IdleFramesKeepCapture(e, after);
    var r := Steps(s, fs);
    assert r.capture == e.capture && r.startSave == e.startSave;
    forall j | 0 <= j < n
      ensures r.capture.value[j] == Stamped(s.capture.value[j], fs[j])
    {
      if j < n - 1 {
        assert first[j] == fs[j];
      }
    }
  }

  /**
   * The buffer Get_LatestImageBuffer builds from ring slot `slot`: the
   * thread's geometry and the slot's pixels when the slot is allocated,
   * otherwise null data and a 0 x 0 size. The data type is always USHORT.
   */
  function ImageAt(s: AcqState, slot: nat): (r: ImageBuffer)
    requires slot < |s.ring|
    ensures r.dataType == UshortType
    ensures s.ring[slot].Data? <==> r.imageData.Some?
    ensures s.ring[slot].Data? ==> r.imageData.value == s.ring[slot].pixels
                                   && r.imageWidth == s.imageWidth && r.imageHeight == s.imageHeight
    ensures s.ring[slot].Null? ==> r.imageWidth == 0 && r.imageHeight == 0
  {
    match s.ring[slot]
    case Null => ImageBuffer(0, 0, 0, None, UshortType)
    case Data(p) => ImageBuffer(0, s.imageWidth, s.imageHeight, Some(p), UshortType)
  }

  /** As written: the slot under the cursor, which is the next one the loop overwrites. */
  function LatestSlotAsWritten(s: AcqState): nat {
    s.bufferIndex
  }

  /** The slot the most recent display wrote: the one just behind the cursor. */
  function LatestSlot(s: AcqState): (slot: nat)
    requires Inv(s)
    ensures slot < HAMAMATSU_BUFFER_SIZE
    ensures (slot + 1) % HAMAMATSU_BUFFER_SIZE == s.bufferIndex
  {
    (s.bufferIndex + HAMAMATSU_BUFFER_SIZE - 1) % HAMAMATSU_BUFFER_SIZE
  }

  /** Right after a displayed frame, the latest image is that frame. */
  lemma LatestIsLastDisplayed(s: AcqState, f: FrameInput)
    requires Inv(s) && Accepted(f) && s.imageCount % s.interval == 0
    ensures var r := Step(s, f); ImageAt(r, LatestSlot(r)).imageData == Some(f.pixels)
  {
    var r := Step(s, f);
    var b := s.bufferIndex;
    assert r.bufferIndex == (b + 1) % HAMAMATSU_BUFFER_SIZE;
    CursorStepsBack(b);
    assert LatestSlot(r) == b;
    assert r.ring[b] == Data(f.pixels);
  }

  /** Stepping the cursor forward and then one slot back returns to where it was. */
  lemma CursorStepsBack(b: nat)
    requires b < HAMAMATSU_BUFFER_SIZE
    ensures ((b + 1) % HAMAMATSU_BUFFER_SIZE + HAMAMATSU_BUFFER_SIZE - 1) % HAMAMATSU_BUFFER_SIZE == b
  {
    if b + 1 < HAMAMATSU_BUFFER_SIZE {
      assert (b + 1) % HAMAMATSU_BUFFER_SIZE == b + 1;
    }
  }

  /** Frames that are not displayed leave the latest image as it was. */
  lemma LatestUnchangedByHiddenFrame(s: AcqState, f: FrameInput)
    requires Inv(s) && !(Accepted(f) && s.imageCount % s.interval == 0)
    ensures var r := Step(s, f); ImageAt(r, LatestSlot(r)) == ImageAt(s, LatestSlot(s))
  {
  }

  /**
   * As written, the buffer returned right after a display is the slot after
   * the one just written: with 16 slots it holds the frame shown 15
   * displays earlier, never the new one unless the pixels coincide.
   */
  lemma LatestAsWrittenIsOldest(s: AcqState, f: FrameInput)
    requires Inv(s) && Accepted(f) && s.imageCount % s.interval == 0
    ensures var r := Step(s, f);
      ImageAt(r, LatestSlotAsWritten(r)).imageData == Some(s.ring[(s.bufferIndex + 1) % HAMAMATSU_BUFFER_SIZE].pixels)
  {
  }

  /** A concrete state in which the as-written accessor misses the frame just displayed. */
  lemma LatestAsWrittenMissesNewFrame()
    ensures var s := AcqState(0, 0, 0, 2048, 2048, seq(HAMAMATSU_BUFFER_SIZE, _ => Data([0])), None, false, 0,
                              INITIAL_DISPLAY_INTERVAL, INITIAL_WINDOW_INFO, [], 0);
            var f := FrameInput(true, true, 4096, [1], 0);
            Inv(s) && ImageAt(Step(s, f), LatestSlotAsWritten(Step(s, f))).imageData != Some(f.pixels)
  {
    var s := AcqState(0, 0, 0, 2048, 2048, seq(HAMAMATSU_BUFFER_SIZE, _ => Data([0])), None, false, 0,
                      INITIAL_DISPLAY_INTERVAL, INITIAL_WINDOW_INFO, [], 0);
    var f := FrameInput(true, true, 4096, [1], 0);
    assert Inv(s);
    LatestAsWrittenIsOldest(s, f);
    assert s.ring[1] == Data([0]);
  }
}
