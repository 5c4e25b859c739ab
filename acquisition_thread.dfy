/**
 * Hamamatsu_AcquireImageThread: the acquisition thread object. Its counters
 * and flags are fields, `circularBuffers` is a 16-element array of slots, and
 * the session globals live in the shared `Globals` object. Each operation is
 * proved against the pure per-frame machine of module AcquisitionSpec through
 * `View()`.
 */
module AcquisitionThread {
  import opened Util
  import opened DevicePackage
  import opened AcquisitionSpec

  class AcquireImageThread {
    /** The process-wide session globals this thread reads and writes. */
    const globals: Globals
    /** circularBuffers; acqBuffers owns the same storage, slot for slot. */
    const ring: array<Slot>

    var isStopAcquireImage: bool
    var hasAllocatedFrames: bool
    var saveImageIndex: nat
    var bufferIndex: nat
    var imageWidth: int
    var imageHeight: int
    var imageCount: nat
    /** image_num of every SendDisplayImageSignal, in order. */
    var displaySignals: seq<nat>
    /** Number of FinishSaveImageSignal emissions. */
    var finishSignals: nat

    /** The thread's part of the acquisition state together with the globals it works on. */
    function View(): AcqState
      reads this, ring, globals, globals.imageBuffers
    {
      AcqState(imageCount, bufferIndex, saveImageIndex, imageWidth, imageHeight, ring[..],
               if globals.imageBuffers == null then None else Some(globals.imageBuffers[..]),
               globals.startSaveImage, globals.saveImageNum, globals.displayInterval,
               globals.windowInfo, displaySignals, finishSignals)
    }

    /** What the thread itself keeps: a full ring of allocated slots and in-range counters. */
    predicate Valid()
      reads this, ring
    {
      && ring.Length == HAMAMATSU_BUFFER_SIZE
      && bufferIndex < HAMAMATSU_BUFFER_SIZE
      && imageCount < ULONG_MODULUS
      && RingAllocated(ring[..])
    }

    /**
     * Constructor and CreateBuffers when the frame size query succeeds: flags
     * clear, all counters 0, and every ring slot owns fresh storage (`blank`
     * stands for the uninitialised contents of `new uchar[frameByte]`).
     */
    constructor (g: Globals, blank: Pixels)
      ensures Valid() && fresh(ring) && globals == g
      ensures !isStopAcquireImage && !hasAllocatedFrames
      ensures bufferIndex == 0 && saveImageIndex == 0 && imageCount == 0
      ensures forall k :: 0 <= k < ring.Length ==> ring[k] == Data(blank)
      ensures displaySignals == [] && finishSignals == 0
    {
      globals := g;
      isStopAcquireImage := false;
      hasAllocatedFrames := false;
      bufferIndex := 0;
      saveImageIndex := 0;
      imageCount := 0;
      imageWidth := 0;
      imageHeight := 0;
      displaySignals := [];
      finishSignals := 0;
      var buffers := new Slot[HAMAMATSU_BUFFER_SIZE](_ => Null);
      var i := 0;
      while i < HAMAMATSU_BUFFER_SIZE
        invariant 0 <= i <= HAMAMATSU_BUFFER_SIZE
        invariant forall k :: 0 <= k < i ==> buffers[k] == Data(blank)
      {
        buffers[i] := Data(blank);
        i := i + 1;
      }
      ring := buffers;
    }

    /**
     * Construction as a whole: when dcam_getdataframebytes fails,
     * CreateBuffers throws and no thread object comes into being.
     */
    static method Create(g: Globals, frameBytesOk: bool, blank: Pixels) returns (t: AcquireImageThread?, r: Outcome)
      ensures frameBytesOk <==> t != null
      ensures r.Pass? <==> t != null
      ensures t != null ==> fresh(t) && fresh(t.ring) && t.Valid() && t.globals == g
                            && t.bufferIndex == 0 && t.saveImageIndex == 0 && t.imageCount == 0
                            && !t.isStopAcquireImage && !t.hasAllocatedFrames
    {
      if !frameBytesOk {
        t := null;
        r := Fail(GetErrorString("Hamamatsu_AcquireImageThread", "CreateBuffers(): dcam_getdataframebytes()", "frame size unavailable"));
      } else {
        t := new AcquireImageThread(g, blank);
        r := Pass;
      }
    }

    /** StopThread: only raises the stop flag. */
    method StopThread()
      modifies this
      ensures isStopAcquireImage
      ensures View() == old(View()) && hasAllocatedFrames == old(hasAllocatedFrames)
    {
      isStopAcquireImage := true;
    }

    /** StartThread: clears the stop flag; the thread body is `Run`. */
    method StartThread()
      modifies this
      ensures !isStopAcquireImage
      ensures View() == old(View()) && hasAllocatedFrames == old(hasAllocatedFrames)
    {
      isStopAcquireImage := false;
    }

    /** ClearImageCount */
    method ClearImageCount()
      modifies this
      ensures View() == old(View()).(imageCount := 0)
      ensures isStopAcquireImage == old(isStopAcquireImage) && hasAllocatedFrames == old(hasAllocatedFrames)
    {
      imageCount := 0;
    }

    /** AcquireImage: one frame, exactly as the per-frame machine `Step` describes. */
    method AcquireImage(f: FrameInput)
      requires Valid() && Inv(View())
      modifies this, ring, globals, globals.imageBuffers
      ensures Valid() && View() == Step(old(View()), f)
      ensures globals.imageBuffers == old(globals.imageBuffers)
      ensures isStopAcquireImage == old(isStopAcquireImage) && hasAllocatedFrames == old(hasAllocatedFrames)
    {
      if !f.waitOk || !f.lockOk {
        return;
      }
      if f.rowBytes < 0 {
        return;
      }
      SaveIntoSession(f);
      PublishIfDue(f);
      imageCount := (imageCount + 1) % ULONG_MODULUS;
    }

    /** Lines 126-135 of AcquireImage, as `SaveFrame` describes them. */
    method SaveIntoSession(f: FrameInput)
      requires Valid() && Inv(View())
      modifies this, globals, globals.imageBuffers
      ensures Valid() && View() == if old(View()).Saving() then SaveFrame(old(View()), f) else old(View())
      ensures globals.imageBuffers == old(globals.imageBuffers) && globals.displayInterval == old(globals.displayInterval)
      ensures isStopAcquireImage == old(isStopAcquireImage) && hasAllocatedFrames == old(hasAllocatedFrames)
    {
      var capture := globals.imageBuffers;
      if capture != null && globals.startSaveImage {
        capture[saveImageIndex] := Stamped(capture[saveImageIndex], f);
        saveImageIndex := saveImageIndex + 1;
        if saveImageIndex == globals.saveImageNum {
          saveImageIndex := 0;
          globals.startSaveImage := false;
          finishSignals := finishSignals + 1;
        }
      }
    }

    /** Lines 137-149 of AcquireImage, as `Publish` describes them. */
    method PublishIfDue(f: FrameInput)
      requires Valid() && globals.displayInterval > 0
      modifies this, ring, globals
      ensures Valid()
      ensures View() == if old(View()).imageCount % old(View()).interval == 0 then Publish(old(View()), f) else old(View())
      ensures globals.imageBuffers == old(globals.imageBuffers)
      ensures isStopAcquireImage == old(isStopAcquireImage) && hasAllocatedFrames == old(hasAllocatedFrames)
    {
      if imageCount % globals.displayInterval == 0 {
        globals.windowInfo := globals.windowInfo.(imageWidth := imageWidth, imageHeight := imageHeight,
                                                  imageStride := f.rowBytes, imageNum := imageCount);
        ring[bufferIndex] := Data(f.pixels);
        globals.windowInfo := globals.windowInfo.(imageData := RingSlot(bufferIndex));
        bufferIndex := (bufferIndex + 1) % HAMAMATSU_BUFFER_SIZE;
        displaySignals := displaySignals + [imageCount];
      }
    }

    /**
     * The thread body. dcam_allocframe and dcam_capture are the outcomes
     * `allocOk` and `captureOk`, Get_ImageSize is `size`, and `frames` are
     * the loop iterations that run before a concurrent StopThread is seen;
     * that StopThread is taken to arrive right after them. Returns whether
     * the loop ran and the device was idled.
     */
    method Run(allocOk: bool, captureOk: bool, size: ImageSize, frames: seq<FrameInput>) returns (idled: bool)
      requires Valid() && Inv(View())
      modifies this, ring, globals, globals.imageBuffers
      ensures Valid() && Inv(View())
      ensures globals.imageBuffers == old(globals.imageBuffers)
      // allocation failure: return before anything else
      ensures !allocOk ==> !idled && View() == old(View()) && hasAllocatedFrames == old(hasAllocatedFrames)
                           && isStopAcquireImage == old(isStopAcquireImage)
      // capture failure: the frames are released again
      ensures allocOk && !captureOk ==> !idled && View() == old(View()) && !hasAllocatedFrames
                                        && isStopAcquireImage == old(isStopAcquireImage)
      // otherwise the loop runs the frames in order and leaves only through the stop flag
      ensures allocOk && captureOk ==>
        && idled && hasAllocatedFrames && isStopAcquireImage
        && View() == Steps(old(View()).(imageWidth := size.width, imageHeight := size.height),
                           if old(isStopAcquireImage) then [] else frames)
    {
      idled := false;
      if !allocOk {
        return;
      }
      hasAllocatedFrames := true;
      if !captureOk {
        hasAllocatedFrames := false;
        return;
      }
      imageWidth := size.width;
      imageHeight := size.height;
      PollFrames(frames);
      idled := true;
    }

    /**
     * The `while (true)` loop of run: check the stop flag, otherwise acquire
     * one frame. `frames` are the iterations before a concurrent StopThread
     * is seen; the loop leaves only through the flag.
     */
    method PollFrames(frames: seq<FrameInput>)
      requires Valid() && Inv(View())
      modifies this, ring, globals, globals.imageBuffers
      ensures Valid() && isStopAcquireImage
      ensures globals.imageBuffers == old(globals.imageBuffers) && hasAllocatedFrames == old(hasAllocatedFrames)
      ensures View() == Steps(old(View()), if old(isStopAcquireImage) then [] else frames)
    {
      ghost var start := View();
      ghost var run := if isStopAcquireImage then [] else frames;
      var i := 0;
      assert run[..0] == [];
      while true
        invariant Valid() && Inv(View())
        invariant globals.imageBuffers == old(globals.imageBuffers) && hasAllocatedFrames == old(hasAllocatedFrames)
        invariant 0 <= i <= |run|
        invariant !isStopAcquireImage ==> run == frames
        invariant isStopAcquireImage ==> i == |run|
        invariant View() == Steps(start, run[..i])
        decreases |frames| - i, if isStopAcquireImage then 0 else 1
      {
        if isStopAcquireImage {
          break;
        }
        if i == |frames| {
          // the StopThread call that ends the run
          isStopAcquireImage := true;
        } else {
          StepsSnoc(start, frames[..i], frames[i]);
          assert frames[..i + 1] == frames[..i] + [frames[i]];
          AcquireImage(frames[i]);
          i := i + 1;
        }
      }
      assert run[..i] == run;
    }

    /**
     * Get_LatestImageBuffer, reading the slot most recently written by a
     * display (one behind the cursor); see LatestSlotAsWritten for the slot
     * the original reads.
     */
    method GetLatestImageBuffer() returns (b: ImageBuffer)
      requires Valid() && Inv(View())
      ensures b == ImageAt(View(), LatestSlot(View()))
    {
      var slot := (bufferIndex + HAMAMATSU_BUFFER_SIZE - 1) % HAMAMATSU_BUFFER_SIZE;
      b := ImageBuffer(0, 0, 0, None, UshortType);
      match ring[slot]
      case Data(p) =>
        b := ImageBuffer(0, imageWidth, imageHeight, Some(p), UshortType);
      case Null =>
    }

    /** ClearBuffers: release every slot and unpublish the display image. */
    method ClearBuffers()
      requires ring.Length == HAMAMATSU_BUFFER_SIZE
      modifies ring, globals
      ensures forall k :: 0 <= k < ring.Length ==> ring[k] == Null
      ensures globals.windowInfo == old(globals.windowInfo).(imageData := NoImage)
      ensures unchanged(this)
      ensures globals.imageBuffers == old(globals.imageBuffers) && globals.startSaveImage == old(globals.startSaveImage)
      ensures globals.saveImageNum == old(globals.saveImageNum) && globals.displayInterval == old(globals.displayInterval)
    {
      var i := 0;
      while i < HAMAMATSU_BUFFER_SIZE
        invariant 0 <= i <= HAMAMATSU_BUFFER_SIZE
        invariant forall k :: 0 <= k < i ==> ring[k] == Null
        modifies ring
      {
        if ring[i] != Null {
          ring[i] := Null;
        }
        i := i + 1;
      }
      globals.windowInfo := globals.windowInfo.(imageData := NoImage);
    }

    /**
     * The destructor: frees the device frames when they were allocated (the
     * result says whether dcam_freeframe is called), then ClearBuffers.
     */
    method Destroy() returns (freedFrames: bool)
      requires ring.Length == HAMAMATSU_BUFFER_SIZE
      modifies ring, globals
      ensures freedFrames == hasAllocatedFrames
      ensures forall k :: 0 <= k < ring.Length ==> ring[k] == Null
      ensures globals.windowInfo == old(globals.windowInfo).(imageData := NoImage)
      ensures unchanged(this)
      ensures globals.imageBuffers == old(globals.imageBuffers) && globals.startSaveImage == old(globals.startSaveImage)
      ensures globals.saveImageNum == old(globals.saveImageNum) && globals.displayInterval == old(globals.displayInterval)
    {
      freedFrames := hasAllocatedFrames;
      ClearBuffers();
    }
  }
}
