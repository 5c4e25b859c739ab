/**
 * ImageSaveWidget: the recording dialog. It allocates the capture buffer,
 * splits a finished capture into IMAGE_SAVE_THREADS contiguous slices, one
 * writer worker per slice, counts the workers' saved-frame notifications and
 * stops the pool.
 */
module ImageSaveDialog {
  import opened Util
  import opened DevicePackage
  import opened ImageSaving

  const IMAGE_SAVE_THREADS: nat := 8
  const MAX_IMAGE_NUM: int := 10000

  const CAPACITY_MESSAGE: string := "Now maximum image save capacity is 10000"
  const INVALID_NUM_MESSAGE: string := "Invalid image num"
  const NO_FOLDER_MESSAGE: string := "Please select image folder"
  const FINISHED_MESSAGE: string := "Finish to save Hamamatsu images"

  // ---------------------------------------------------------------------
  // Slice arithmetic of SaveImages
  // ---------------------------------------------------------------------

  /** Frames given to worker i: quot + 1 for the first rem workers, quot for the rest. */
  function SliceCount(n: nat, i: nat): nat
    requires i < IMAGE_SAVE_THREADS
  {
    var quot := n / IMAGE_SAVE_THREADS;
    var rem := n - quot * IMAGE_SAVE_THREADS;
    if i < rem then quot + 1 else quot
  }

  /** The first frame of slice i: the running sum of the earlier slice sizes. */
  function SliceOffset(n: nat, i: nat): nat
    requires i <= IMAGE_SAVE_THREADS
  {
    if i == 0 then 0 else SliceOffset(n, i - 1) + SliceCount(n, i - 1)
  }

  function Min(a: nat, b: nat): nat {
    if a < b then a else b
  }

  /** Slice i starts after i full quotients plus one extra frame for each earlier long slice. */
  lemma {:induction false} SliceOffsetClosedForm(n: nat, i: nat)
    requires i <= IMAGE_SAVE_THREADS
    ensures SliceOffset(n, i) == i * (n / IMAGE_SAVE_THREADS) + Min(i, n % IMAGE_SAVE_THREADS)
  {
    if i > 0 {
      SliceOffsetClosedForm(n, i - 1);
      assert n - (n / IMAGE_SAVE_THREADS) * IMAGE_SAVE_THREADS == n % IMAGE_SAVE_THREADS;
    }
  }

  /** The eight slice sizes add up to the frame count: every frame gets a worker. */
  lemma SlicesCoverAll(n: nat)
    ensures SliceOffset(n, IMAGE_SAVE_THREADS) == n
  {
    SliceOffsetClosedForm(n, IMAGE_SAVE_THREADS);
  }

  /** Slice sizes differ by at most one. */
  lemma SlicesBalanced(n: nat, i: nat, j: nat)
    requires i < IMAGE_SAVE_THREADS && j < IMAGE_SAVE_THREADS
    ensures SliceCount(n, i) <= SliceCount(n, j) + 1
    ensures SliceCount(n, i) >= n / IMAGE_SAVE_THREADS
  {
  }

  /** Later slices start no earlier than earlier slices end. */
  lemma {:induction false} SliceOffsetMonotone(n: nat, i: nat, j: nat)
    requires i <= j <= IMAGE_SAVE_THREADS
    ensures SliceOffset(n, i) <= SliceOffset(n, j)
    decreases j - i
  {
    if i < j {
      SliceOffsetMonotone(n, i, j - 1);
    }
  }

  /** The slice holding frame k, found by scanning from slice i. */
  function SliceOfFrom(n: nat, k: nat, i: nat): (s: nat)
    requires i < IMAGE_SAVE_THREADS && SliceOffset(n, i) <= k < n
    ensures i <= s < IMAGE_SAVE_THREADS
    ensures SliceOffset(n, s) <= k < SliceOffset(n, s + 1)
    decreases IMAGE_SAVE_THREADS - i
  {
    SlicesCoverAll(n);
    if k < SliceOffset(n, i + 1) then i else SliceOfFrom(n, k, i + 1)
  }

  /** The one worker whose slice contains frame k. */
  function SliceOf(n: nat, k: nat): (s: nat)
    requires k < n
    ensures s < IMAGE_SAVE_THREADS && SliceOffset(n, s) <= k < SliceOffset(n, s) + SliceCount(n, s)
  {
    SliceOfFrom(n, k, 0)
  }

  /** No frame lies in two slices. */
  lemma SliceUnique(n: nat, k: nat, i: nat)
    requires k < n && i < IMAGE_SAVE_THREADS
    requires SliceOffset(n, i) <= k < SliceOffset(n, i) + SliceCount(n, i)
    ensures i == SliceOf(n, k)
  {
    var s := SliceOf(n, k);
    if i < s {
      SliceOffsetMonotone(n, i + 1, s);
    } else if s < i {
      SliceOffsetMonotone(n, s + 1, i);
    }
  }

  /** The indices a, a + 1, ..., a + c - 1. */
  function Range(a: nat, c: nat): (r: seq<nat>)
    ensures |r| == c && forall k :: 0 <= k < c ==> r[k] == a + k
  {
    seq(c, k requires 0 <= k < c => a + k)
  }

  /** The slices of workers 0 .. i - 1, concatenated in worker order. */
  function SlicesUpTo(n: nat, i: nat): seq<nat>
    requires i <= IMAGE_SAVE_THREADS
  {
    if i == 0 then [] else SlicesUpTo(n, i - 1) + Range(SliceOffset(n, i - 1), SliceCount(n, i - 1))
  }

  lemma {:induction false} SlicesUpToIsPrefix(n: nat, i: nat)
    requires i <= IMAGE_SAVE_THREADS
    ensures SlicesUpTo(n, i) == Range(0, SliceOffset(n, i))
  {
    if i > 0 {
      SlicesUpToIsPrefix(n, i - 1);
    }
  }

  /** Read in worker order, the eight slices are exactly the frames 0 .. n - 1, each once, in order. */
  lemma SlicesPartition(n: nat)
    ensures SlicesUpTo(n, IMAGE_SAVE_THREADS) == Range(0, n)
  {
    SlicesUpToIsPrefix(n, IMAGE_SAVE_THREADS);
    SlicesCoverAll(n);
  }

  /**
   * Workers 0 .. i - 1 of a pool over n frames, each walking its own slice of
   * the shared capture buffer; the workers run one after another.
   */
  function PoolWalk(w: WorkerState, n: nat, i: nat, folder: string, prefix: string, format: string): (r: WorkerState)
    requires i <= IMAGE_SAVE_THREADS
    ensures |r.store| == |w.store|
  {
    if i == 0 then w
    else Walk(PoolWalk(w, n, i - 1, folder, prefix, format), Range(SliceOffset(n, i - 1), SliceCount(n, i - 1)),
              folder, prefix, format)
  }

  /** Every index of slice i lies below n. */
  lemma SliceInBuffer(n: nat, i: nat, size: nat)
    requires i < IMAGE_SAVE_THREADS && n <= size
    ensures InBuffer(Range(SliceOffset(n, i), SliceCount(n, i)), size)
  {
    SliceOffsetMonotone(n, i + 1, IMAGE_SAVE_THREADS);
    SlicesCoverAll(n);
  }

  /** Worker i - 1 adds the notifications of its own slice to those of the workers before it. */
  lemma PoolWalkStep(w: WorkerState, n: nat, i: nat, folder: string, prefix: string, format: string)
    requires 0 < i <= IMAGE_SAVE_THREADS && n <= |w.store|
    ensures PoolWalk(w, n, i, folder, prefix, format).saved
            == PoolWalk(w, n, i - 1, folder, prefix, format).saved + Range(SliceOffset(n, i - 1), SliceCount(n, i - 1))
  {
    var prev := PoolWalk(w, n, i - 1, folder, prefix, format);
    SliceInBuffer(n, i - 1, |prev.store|);
    WalkNotifies(prev, Range(SliceOffset(n, i - 1), SliceCount(n, i - 1)), folder, prefix, format);
  }

  /** The first i workers notify exactly the frames of their slices, in worker order. */
  lemma {:induction false} PoolWalkNotifies(w: WorkerState, n: nat, i: nat, folder: string, prefix: string, format: string)
    requires i <= IMAGE_SAVE_THREADS && n <= |w.store|
    ensures PoolWalk(w, n, i, folder, prefix, format).saved == w.saved + SlicesUpTo(n, i)
  {
    if i > 0 {
      PoolWalkNotifies(w, n, i - 1, folder, prefix, format);
      PoolWalkStep(w, n, i, folder, prefix, format);
      var before := SlicesUpTo(n, i - 1);
      var slice := Range(SliceOffset(n, i - 1), SliceCount(n, i - 1));
      assert SlicesUpTo(n, i) == before + slice;
      assert (w.saved + before) + slice == w.saved + (before + slice);
    }
  }

  /**
   * The whole pool sends one itemSaved notification for each of the n
   * frames, each frame once: n calls of OnImageItemSaved, from a saved count
   * of 0, bring the count to ImageNum = n, where the dialog finishes.
   */
  lemma PoolNotifiesEveryFrame(w: WorkerState, n: nat, folder: string, prefix: string, format: string)
    requires n <= |w.store|
    ensures PoolWalk(w, n, IMAGE_SAVE_THREADS, folder, prefix, format).saved == w.saved + Range(0, n)
    ensures |PoolWalk(w, n, IMAGE_SAVE_THREADS, folder, prefix, format).saved| == |w.saved| + n
  {
    PoolWalkNotifies(w, n, IMAGE_SAVE_THREADS, folder, prefix, format);
    SlicesPartition(n);
  }

  // ---------------------------------------------------------------------
  // Frame count entry and allocation
  // ---------------------------------------------------------------------

  /** The error dialogs OnImageNumChanged raises for an entered frame count. */
  function ImageNumWarnings(n: int): (r: seq<string>)
    ensures |r| <= 1
    ensures r == [] <==> 0 < n <= MAX_IMAGE_NUM
    ensures n > MAX_IMAGE_NUM ==> r == [CAPACITY_MESSAGE]
    ensures n <= 0 ==> r == [INVALID_NUM_MESSAGE]
  {
    (if n > MAX_IMAGE_NUM then [CAPACITY_MESSAGE] else []) + (if n <= 0 then [INVALID_NUM_MESSAGE] else [])
  }

  /**
   * One slot as Allocate fills it: the requested geometry and type, and
   * width * height elements of pixel storage for a USHORT or UCHAR type.
   * The original leaves the timestamp and the storage contents
   * uninitialised; here they are 0.
   */
  function AllocatedSlot(size: ImageSize, t: DataType): (b: ImageBuffer)
    requires t.OtherType? || size.width * size.height >= 0
    ensures b.imageWidth == size.width && b.imageHeight == size.height && b.dataType == t
    ensures b.imageData.Some? <==> !t.OtherType?
    ensures b.imageData.Some? ==> |b.imageData.value| == size.width * size.height
  {
    var storage := if t.OtherType? then None else Some(seq(size.width * size.height, _ => 0));
    ImageBuffer(0, size.width, size.height, storage, t)
  }

  /** Whether `new` succeeds for n slots of the given geometry (a negative array length throws). */
  predicate AllocationSucceeds(n: int, size: ImageSize, t: DataType) {
    n >= 0 && (n == 0 || t.OtherType? || size.width * size.height >= 0)
  }

  class ImageSaveWidget {
    const globals: Globals
    const window: DisplayWindowFlag
    var imageFormat: string
    var imageFolder: string
    var prefix: string
    var imageNum: int
    var savedNum: int
    const threads: array<ImageSaveThread?>
    var progressOpen: bool
    /** Every message box shown, in order. */
    var messages: seq<string>
    /** Every StartSaveImageSignal emitted, in order. */
    var startSignals: seq<DisplayWindowFlag>

    predicate Valid()
      reads this
    {
      threads.Length == IMAGE_SAVE_THREADS
    }

    /** The workers currently in the pool. */
    function Workers(): set<ImageSaveThread>
      reads this, threads
    {
      set i | 0 <= i < threads.Length && threads[i] != null :: threads[i]
    }

    /** Every worker in the pool has returned from its run (m_isStopped holds). */
    predicate AllWorkersReturned()
      reads this, threads, Workers()
    {
      forall i :: 0 <= i < threads.Length && threads[i] != null ==> threads[i].isStopped
    }

    constructor (windowFlag: DisplayWindowFlag, g: Globals)
      ensures Valid() && fresh(threads) && globals == g && window == windowFlag
      ensures imageFormat == "tiff" && imageFolder == "E:\\" && imageNum == 1 && savedNum == 0
      ensures forall i :: 0 <= i < threads.Length ==> threads[i] == null
      ensures messages == [] && startSignals == [] && !progressOpen
    {
      globals := g;
      window := windowFlag;
      imageFormat := "tiff";
      imageFolder := "E:\\";
      prefix := "";
      imageNum := 1;
      savedNum := 0;
      threads := new ImageSaveThread?[IMAGE_SAVE_THREADS](_ => null);
      progressOpen := false;
      messages := [];
      startSignals := [];
    }

    /** OnImageNumChanged: store the parsed count, warning about (but keeping) an out-of-range one. */
    method OnImageNumChanged(entered: int)
      modifies this
      ensures imageNum == entered
      ensures messages == old(messages) + ImageNumWarnings(entered)
      ensures savedNum == old(savedNum) && startSignals == old(startSignals) && progressOpen == old(progressOpen)
      ensures imageFolder == old(imageFolder) && prefix == old(prefix) && imageFormat == old(imageFormat)
    {
      imageNum := entered;
      if imageNum > MAX_IMAGE_NUM {
        messages := messages + [CAPACITY_MESSAGE];
      }
      if imageNum <= 0 {
        messages := messages + [INVALID_NUM_MESSAGE];
      }
    }

    /**
     * Allocate: re-read the count, then allocate that many equally shaped
     * slots. A failing `new` (negative length) is an exception in the
     * original; here it is a null result.
     */
    method Allocate(size: ImageSize, t: DataType, entered: int) returns (b: array?<ImageBuffer>)
      modifies this
      ensures imageNum == entered && messages == old(messages) + ImageNumWarnings(entered)
      ensures savedNum == old(savedNum) && startSignals == old(startSignals) && progressOpen == old(progressOpen)
      ensures imageFolder == old(imageFolder) && prefix == old(prefix) && imageFormat == old(imageFormat)
      ensures b != null <==> AllocationSucceeds(entered, size, t)
      ensures b != null ==> fresh(b) && b.Length == entered
                            && forall k :: 0 <= k < b.Length ==> b[k] == AllocatedSlot(size, t)
    {
      OnImageNumChanged(entered);
      if !AllocationSucceeds(imageNum, size, t) {
        return null;
      }
      b := new ImageBuffer[imageNum](_ => ImageBuffer(0, 0, 0, None, t));
      var i := 0;
      while i < imageNum
        invariant 0 <= i <= imageNum && imageNum == b.Length
        invariant forall k :: 0 <= k < i ==> b[k] == AllocatedSlot(size, t)
        modifies b
      {
        b[i] := AllocatedSlot(size, t);
        i := i + 1;
      }
    }

    /**
     * finishWorks: ask every worker to stop, then delete the pool. The
     * original busy-waits until each worker reports stopped; the model takes
     * every worker to have returned already, so one pass deletes them all.
     */
    method FinishWorks()
      requires Valid() && AllWorkersReturned()
      modifies this, threads, Workers()
      ensures Valid() && forall i :: 0 <= i < threads.Length ==> threads[i] == null
      ensures forall w :: w in old(Workers()) ==> w.stopFlag && w.isStopped
      ensures !progressOpen
      ensures savedNum == old(savedNum) && imageNum == old(imageNum) && messages == old(messages)
      ensures startSignals == old(startSignals)
    {
      ghost var pool := Workers();
      var i := 0;
      while i < IMAGE_SAVE_THREADS
        invariant 0 <= i <= IMAGE_SAVE_THREADS
        invariant Workers() == pool && AllWorkersReturned()
        invariant forall k :: 0 <= k < i && threads[k] != null ==> threads[k].stopFlag
        invariant savedNum == old(savedNum) && imageNum == old(imageNum) && messages == old(messages)
        invariant startSignals == old(startSignals)
        modifies pool
      {
        if threads[i] != null {
          threads[i].Stop();
        }
        i := i + 1;
      }
      var allStopped := false;
      while !allStopped
        invariant forall w :: w in pool ==> w.stopFlag && w.isStopped
        invariant forall k :: 0 <= k < threads.Length && threads[k] != null ==> threads[k] in pool
        invariant allStopped ==> forall k :: 0 <= k < threads.Length ==> threads[k] == null
        invariant savedNum == old(savedNum) && imageNum == old(imageNum) && messages == old(messages)
        invariant startSignals == old(startSignals)
        modifies threads
        decreases if allStopped then 0 else 1
      {
        allStopped := true;
        var j := 0;
        while j < IMAGE_SAVE_THREADS
          invariant 0 <= j <= IMAGE_SAVE_THREADS && allStopped
          invariant forall k :: 0 <= k < j ==> threads[k] == null
          invariant forall k :: 0 <= k < threads.Length && threads[k] != null ==> threads[k] in pool
          modifies threads
        {
          if threads[j] != null {
            if threads[j].isStopped {
              threads[j] := null;
            } else {
              allStopped := false;
              break;
            }
          }
          j := j + 1;
        }
      }
      progressOpen := false;
    }

    /** OnCancelButton */
    method OnCancelButton()
      requires Valid() && AllWorkersReturned()
      modifies this, threads, Workers()
      ensures Valid() && forall i :: 0 <= i < threads.Length ==> threads[i] == null
      ensures forall w :: w in old(Workers()) ==> w.stopFlag
      ensures !progressOpen && savedNum == old(savedNum)
    {
      FinishWorks();
    }

    /**
     * OnOkButton: with no folder, only a warning. Otherwise, for the
     * Hamamatsu dialog, drop any previous capture buffer and arm the
     * session flag; then request the camera to start the capture.
     */
    method OnOkButton()
      modifies this, globals
      ensures imageFolder == [] ==> messages == old(messages) + [NO_FOLDER_MESSAGE]
                                    && startSignals == old(startSignals) && unchanged(globals)
      ensures imageFolder != [] ==> messages == old(messages) && startSignals == old(startSignals) + [window]
      ensures imageFolder != [] && window == HamamatsuWindow ==> globals.imageBuffers == null && globals.startSaveImage
      ensures window != HamamatsuWindow ==> unchanged(globals)
      ensures globals.saveImageNum == old(globals.saveImageNum) && globals.displayInterval == old(globals.displayInterval)
      ensures savedNum == old(savedNum) && imageNum == old(imageNum) && imageFolder == old(imageFolder)
    {
      if imageFolder == [] {
        messages := messages + [NO_FOLDER_MESSAGE];
        return;
      }
      if window == HamamatsuWindow {
        if globals.imageBuffers != null {
          globals.imageBuffers := null;
        }
        globals.startSaveImage := true;
      }
      startSignals := startSignals + [window];
    }

    /** Worker k of a pool over n frames of `store`, freshly set up and not yet run. */
    static predicate SliceWorker(w: ImageSaveThread?, store: array<ImageBuffer>, n: nat, k: nat,
                                 folder: string, prefixText: string)
      requires k < IMAGE_SAVE_THREADS
      reads w
    {
      && w != null && w.store == store
      && w.buffers == Range(SliceOffset(n, k), SliceCount(n, k))
      && w.imageFolder == folder && w.prefix == prefixText && w.imageFormat == "tiff"
      && !w.stopFlag && w.writes == [] && w.saved == []
    }

    /**
     * SaveImages: stop any previous pool, reset the saved count, then give
     * each of the eight workers its slice of the capture buffer (workers
     * whose m_isStopped is uninitialised hold `indeterminate` there). The
     * workers' run is ImageSaveThread.Run.
     */
    method SaveImages(prefixText: string, indeterminate: bool)
      requires Valid() && AllWorkersReturned()
      requires window == HamamatsuWindow && globals.imageBuffers != null ==>
                 0 <= imageNum <= globals.imageBuffers.Length
      modifies this, threads, Workers()
      ensures Valid() && savedNum == 0 && progressOpen && imageNum == old(imageNum)
      ensures forall w :: w in old(Workers()) ==> w.stopFlag
      ensures window != HamamatsuWindow || globals.imageBuffers == null ==>
                forall i :: 0 <= i < threads.Length ==> threads[i] == null
      ensures window == HamamatsuWindow && globals.imageBuffers != null ==>
                && prefix == prefixText && imageFormat == "tiff" && imageNum >= 0
                && forall i :: 0 <= i < IMAGE_SAVE_THREADS ==>
                     && fresh(threads[i])
                     && SliceWorker(threads[i], globals.imageBuffers, imageNum, i, imageFolder, prefixText)
    {
      FinishWorks();
      savedNum := 0;
      progressOpen := true;
      var buffers: array?<ImageBuffer> := null;
      if window == HamamatsuWindow {
        buffers := globals.imageBuffers;
      }
      if buffers == null {
        return;
      }
      prefix := prefixText;
      imageFormat := "tiff";
      SpawnWorkers(buffers, imageNum, indeterminate);
    }

    /** The slice loop of SaveImages: one fresh worker per slice, in worker order. */
    method SpawnWorkers(buffers: array<ImageBuffer>, n: nat, indeterminate: bool)
      requires Valid() && n <= buffers.Length && imageFormat == "tiff"
      modifies threads
      ensures forall i :: 0 <= i < IMAGE_SAVE_THREADS ==>
                fresh(threads[i]) && SliceWorker(threads[i], buffers, n, i, imageFolder, prefix)
    {
      var sliceCountQuot := n / IMAGE_SAVE_THREADS;
      var sliceCountRem := n - sliceCountQuot * IMAGE_SAVE_THREADS;
      var sliceOffset := 0;
      var i := 0;
      SlicesCoverAll(n);
      while i < IMAGE_SAVE_THREADS
        invariant 0 <= i <= IMAGE_SAVE_THREADS
        invariant sliceOffset == SliceOffset(n, i)
        invariant forall k :: 0 <= k < i ==>
                    fresh(threads[k]) && SliceWorker(threads[k], buffers, n, k, imageFolder, prefix)
      {
        var sliceCount := if i < sliceCountRem then sliceCountQuot + 1 else sliceCountQuot;
        assert sliceCount == SliceCount(n, i);
        SliceOffsetMonotone(n, i + 1, IMAGE_SAVE_THREADS);
        var worker := new ImageSaveThread.Slice(buffers, sliceOffset, sliceCount, imageFolder, prefix, imageFormat,
                                                indeterminate);
        assert worker.buffers == Range(sliceOffset, sliceCount);
        threads[i] := worker;
        sliceOffset := sliceOffset + sliceCount;
        i := i + 1;
      }
    }

    /**
     * OnImageItemSaved: count one saved frame; when the count reaches the
     * requested number, stop the pool and, for the Hamamatsu dialog, report
     * completion and forget the capture buffer.
     */
    method OnImageItemSaved()
      requires Valid()
      requires savedNum + 1 == imageNum ==> AllWorkersReturned()
      modifies this, threads, Workers(), globals
      ensures Valid() && savedNum == old(savedNum) + 1
      ensures savedNum != imageNum ==> unchanged(globals) && unchanged(threads) && messages == old(messages)
                                       && progressOpen == old(progressOpen)
                                       && forall w :: w in old(Workers()) ==> unchanged(w)
      ensures savedNum == imageNum && window != HamamatsuWindow ==> unchanged(globals) && messages == old(messages)
      ensures savedNum == imageNum ==>
                && (forall i :: 0 <= i < threads.Length ==> threads[i] == null)
                && (forall w :: w in old(Workers()) ==> w.stopFlag)
                && !progressOpen
      ensures savedNum == imageNum && window == HamamatsuWindow ==>
                globals.imageBuffers == null && messages == old(messages) + [FINISHED_MESSAGE]
      ensures globals.startSaveImage == old(globals.startSaveImage) && globals.saveImageNum == old(globals.saveImageNum)
    {
      savedNum := savedNum + 1;
      if savedNum == imageNum {
        FinishWorks();
        if window == HamamatsuWindow {
          messages := messages + [FINISHED_MESSAGE];
          globals.imageBuffers := null;
        }
      }
    }
  }
}
