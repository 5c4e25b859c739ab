/**
 * ImageSaveThread: a worker that writes its share of a capture buffer to
 * disk. The capture buffer is an array of ImageBuffer records; the worker
 * holds the indices of its frames in that array (the pointers of the
 * original). A disk write is a logged effect, and the onImageSaved
 * notification is a logged index.
 */
module ImageSaving {
  import opened Util
  import opened Decimal

  /** The OpenCV pixel layout a frame is written with. */
  datatype PixelFormat = Gray16 | Gray8   // CV_16UC1, CV_8UC1

  /** What a target file name is made of. */
  datatype FilePath = FilePath(folder: string, prefix: string, timestamp: int, format: string)

  /**
   * One imwrite call: target file (whose name is FileName(file)), layout,
   * rows, columns and the pixel data handed over.
   */
  datatype WriteEffect = WriteEffect(file: FilePath, format: PixelFormat, rows: int, cols: int, data: Option<Pixels>)

  /** imageFolder + "\\" + prefix + "_" + QString::number(timestamp) + "." + imageFormat */
  function FileName(p: FilePath): string {
    (p.folder + "\\" + p.prefix + "_") + Number(p.timestamp) + ("." + p.format)
  }

  /** Equal texts with the same head and tail have the same middle. */
  lemma CancelAffixes(h: string, x: string, y: string, t: string)
    requires h + x + t == h + y + t
    ensures x == y
  {
    var n := h + x + t;
    assert |x| == |y|;
    assert x == n[|h|..|h| + |x|];
    assert y == (h + y + t)[|h|..|h| + |y|];
  }

  /** Within one folder, prefix and format, distinct timestamps give distinct file names. */
  lemma FileNameInjective(folder: string, prefix: string, format: string, t1: int, t2: int)
    requires FileName(FilePath(folder, prefix, t1, format)) == FileName(FilePath(folder, prefix, t2, format))
    ensures t1 == t2
  {
    CancelAffixes(folder + "\\" + prefix + "_", Number(t1), Number(t2), "." + format);
    NumberInjective(t1, t2);
  }

  /** The write a frame causes: 16-bit for USHORT, 8-bit for UCHAR, none for any other type. */
  function WriteOf(b: ImageBuffer, name: FilePath): (w: seq<WriteEffect>)
    ensures b.dataType.OtherType? <==> w == []
    ensures |w| <= 1
    ensures w != [] ==> w[0].file == name && w[0].data == b.imageData
                        && w[0].rows == b.imageHeight && w[0].cols == b.imageWidth
                        && (w[0].format == Gray16 <==> b.dataType == UshortType)
  {
    match b.dataType
    case UshortType => [WriteEffect(name, Gray16, b.imageHeight, b.imageWidth, b.imageData)]
    case UcharType => [WriteEffect(name, Gray8, b.imageHeight, b.imageWidth, b.imageData)]
    case OtherType(_) => []
  }

  /** The write one frame of a walk causes, under its own file name. */
  function FrameWrite(b: ImageBuffer, folder: string, prefix: string, format: string): seq<WriteEffect> {
    WriteOf(b, FilePath(folder, prefix, b.timestamp, format))
  }

  /** Every write a walk over `frames` causes, in order. */
  function Writes(frames: seq<ImageBuffer>, folder: string, prefix: string, format: string): (r: seq<WriteEffect>)
    ensures |r| <= |frames|
    decreases |frames|
  {
    if frames == [] then []
    else
      var last := frames[|frames| - 1];
      Writes(frames[..|frames| - 1], folder, prefix, format) + FrameWrite(last, folder, prefix, format)
  }

  /** When every frame has a writable type, frame k produces write k, named by its own timestamp. */
  lemma WritesOfTypedFrames(frames: seq<ImageBuffer>, folder: string, prefix: string, format: string)
    requires forall k :: 0 <= k < |frames| ==> !frames[k].dataType.OtherType?
    ensures |Writes(frames, folder, prefix, format)| == |frames|
    ensures forall k :: 0 <= k < |frames| ==>
              Writes(frames, folder, prefix, format)[k] == FrameWrite(frames[k], folder, prefix, format)[0]
  {
    WritesLength(frames, folder, prefix, format);
    forall k | 0 <= k < |frames|
      ensures Writes(frames, folder, prefix, format)[k] == FrameWrite(frames[k], folder, prefix, format)[0]
    {
      WriteAt(frames, folder, prefix, format, k);
    }
  }

  lemma {:induction false} WritesLength(frames: seq<ImageBuffer>, folder: string, prefix: string, format: string)
    requires forall k :: 0 <= k < |frames| ==> !frames[k].dataType.OtherType?
    ensures |Writes(frames, folder, prefix, format)| == |frames|
    decreases |frames|
  {
    if frames != [] {
      var init := frames[..|frames| - 1];
      WritesLength(init, folder, prefix, format);
      assert |FrameWrite(frames[|frames| - 1], folder, prefix, format)| == 1;
    }
  }

  lemma {:induction false} WriteAt(frames: seq<ImageBuffer>, folder: string, prefix: string, format: string, k: nat)
    requires forall k :: 0 <= k < |frames| ==> !frames[k].dataType.OtherType?
    requires k < |frames|
    ensures k < |Writes(frames, folder, prefix, format)|
    ensures Writes(frames, folder, prefix, format)[k] == FrameWrite(frames[k], folder, prefix, format)[0]
    decreases |frames|
  {
    var init := frames[..|frames| - 1];
    var w := FrameWrite(frames[|frames| - 1], folder, prefix, format);
    var before := Writes(init, folder, prefix, format);
    WritesLength(init, folder, prefix, format);
    assert |w| == 1;
    assert Writes(frames, folder, prefix, format) == before + w;
    if k < |init| {
      WriteAt(init, folder, prefix, format, k);
      assert init[k] == frames[k];
    }
  }

  /** The captured frames the walk visits, in the order of its indices (indices outside the buffer contribute nothing). */
  function Gather(store: seq<ImageBuffer>, idx: seq<nat>): (r: seq<ImageBuffer>)
    ensures |r| <= |idx|
    decreases |idx|
  {
    if idx == [] then []
    else
      var j := idx[|idx| - 1];
      Gather(store, idx[..|idx| - 1]) + (if j < |store| then [store[j]] else [])
  }

  /** For indices inside the buffer, Gather picks frame idx[k] as its k-th element. */
  lemma {:induction false} GatherInRange(store: seq<ImageBuffer>, idx: seq<nat>)
    requires forall k :: 0 <= k < |idx| ==> idx[k] < |store|
    ensures |Gather(store, idx)| == |idx|
    ensures forall k :: 0 <= k < |idx| ==> Gather(store, idx)[k] == store[idx[k]]
    decreases |idx|
  {
    if idx != [] {
      var init := idx[..|idx| - 1];
      GatherInRange(store, init);
      forall k | 0 <= k < |idx|
        ensures Gather(store, idx)[k] == store[idx[k]]
      {
        if k < |init| {
          assert init[k] == idx[k];
        }
      }
    }
  }

  /** How many frames a walk of n frames processes, given the stop flag at start and the iteration a concurrent stop() is seen at. */
  function Processed(n: nat, stoppedBefore: bool, stopAt: Option<nat>): (p: nat)
    ensures p <= n
    ensures stoppedBefore ==> p == 0
    ensures !stoppedBefore && stopAt.None? ==> p == n
  {
    if stoppedBefore then 0
    else match stopAt
      case None => n
      case Some(k) => if k < n then k else n
  }

  predicate Distinct(idx: seq<nat>) {
    forall i, j :: 0 <= i < j < |idx| ==> idx[i] != idx[j]
  }

  class ImageSaveThread {
    /** The capture buffer the worker's pointers point into. */
    const store: array<ImageBuffer>
    var buffers: seq<nat>
    const imageFolder: string
    const prefix: string
    const imageFormat: string
    var stopFlag: bool
    var isStopped: bool
    /** Every imwrite call made, in order. */
    var writes: seq<WriteEffect>
    /** The frame of every onImageSaved emission, in order. */
    var saved: seq<nat>

    predicate Valid()
      reads this
    {
      InBuffer(buffers, store.Length) && Distinct(buffers)
    }

    /** The QVector constructor: the given frames, stop flag clear, reported as stopped. */
    constructor FromList(store: array<ImageBuffer>, buffers: seq<nat>, folder: string, prefix: string, format: string)
      requires InBuffer(buffers, store.Length) && Distinct(buffers)
      ensures Valid() && this.store == store && this.buffers == buffers
      ensures imageFolder == folder && this.prefix == prefix && imageFormat == format
      ensures !stopFlag && isStopped && writes == [] && saved == []
    {
      this.store := store;
      this.buffers := buffers;
      imageFolder := folder;
      this.prefix := prefix;
      imageFormat := format;
      stopFlag := false;
      isStopped := true;
      writes := [];
      saved := [];
    }

    /**
     * The slice constructor: `count` consecutive frames from `offset`, in
     * order. It never sets m_isStopped; `indeterminate` is whatever that
     * uninitialised flag happens to hold.
     */
    constructor Slice(store: array<ImageBuffer>, offset: nat, count: nat, folder: string, prefix: string,
                      format: string, indeterminate: bool)
      requires offset + count <= store.Length
      ensures Valid() && this.store == store
      ensures |buffers| == count && forall k :: 0 <= k < count ==> buffers[k] == offset + k
      ensures imageFolder == folder && this.prefix == prefix && imageFormat == format
      ensures !stopFlag && isStopped == indeterminate && writes == [] && saved == []
    {
      this.store := store;
      imageFolder := folder;
      this.prefix := prefix;
      imageFormat := format;
      stopFlag := false;
      isStopped := indeterminate;
      writes := [];
      saved := [];
      var slice: seq<nat> := [];
      var i := 0;
      while i < count
        invariant 0 <= i <= count
        invariant |slice| == i && forall k :: 0 <= k < i ==> slice[k] == offset + k
      {
        slice := slice + [offset + i];
        i := i + 1;
      }
      buffers := slice;
    }

    /** stop(): only raises the flag. */
    method Stop()
      modifies this
      ensures stopFlag
      ensures buffers == old(buffers) && isStopped == old(isStopped)
      ensures writes == old(writes) && saved == old(saved)
    {
      stopFlag := true;
    }

    /** isStoped() */
    method IsStopped() returns (r: bool)
      ensures r == isStopped
    {
      r := isStopped;
    }

    /** The capture buffer contents and the two effect logs. */
    function Effects(): WorkerState
      reads this, store
    {
      WorkerState(store[..], writes, saved)
    }

    /**
     * run(): walk the frames in order; before each, check the stop flag; write
     * the frame by its type, release its pixel storage, then notify. A
     * concurrent stop() is taken to become visible at iteration `stopAt`.
     */
    method Run(stopAt: Option<nat>)
      requires Valid()
      modifies this, store
      ensures Valid() && isStopped && buffers == old(buffers)
      ensures Effects() == Walk(old(Effects()), buffers[..Processed(|buffers|, old(stopFlag), stopAt)],
                                imageFolder, prefix, imageFormat)
      ensures Processed(|buffers|, old(stopFlag), stopAt) < |buffers| ==> stopFlag
    {
      ghost var start := Effects();
      ghost var n := Processed(|buffers|, stopFlag, stopAt);
      isStopped := false;
      var i := 0;
      assert buffers[..0] == [];
      while i < |buffers|
        invariant Valid() && buffers == old(buffers) && !isStopped
        invariant 0 <= i <= n
        invariant stopFlag ==> i == n
        invariant !old(stopFlag) && stopAt.Some? ==> i <= stopAt.value
        invariant old(stopFlag) ==> stopFlag
        invariant Effects() == Walk(start, buffers[..i], imageFolder, prefix, imageFormat)
      {
        if stopAt == Some(i) {
          // the concurrent stop() becomes visible here
          stopFlag := true;
        }
        if stopFlag {
          break;
        }
        WalkSnoc(start, buffers, i, imageFolder, prefix, imageFormat);
        SaveOne(i);
        i := i + 1;
      }
      isStopped := true;
    }

    /** The body of one iteration: write frame i by its type, release its storage, notify. */
    method SaveOne(i: nat)
      requires Valid() && i < |buffers|
      modifies this, store
      ensures Valid() && buffers == old(buffers) && stopFlag == old(stopFlag) && isStopped == old(isStopped)
      ensures Effects() == SaveFrame(old(Effects()), buffers[i], imageFolder, prefix, imageFormat)
    {
      var b := store[buffers[i]];
      var name := FilePath(imageFolder, prefix, b.timestamp, imageFormat);
      writes := writes + WriteOf(b, name);
      store[buffers[i]] := b.(imageData := None);
      saved := saved + [buffers[i]];
    }
  }

  /** What a worker's walk acts on: the capture buffer and the write and notification logs. */
  datatype WorkerState = WorkerState(store: seq<ImageBuffer>, writes: seq<WriteEffect>, saved: seq<nat>)

  /** One frame of the walk: write it by its type, release its storage, notify (an index outside the buffer is skipped). */
  function SaveFrame(w: WorkerState, j: nat, folder: string, prefix: string, format: string): (r: WorkerState)
    ensures |r.store| == |w.store|
    ensures |r.saved| == |w.saved| + (if j < |w.store| then 1 else 0)
  {
    if j < |w.store| then
      var b := w.store[j];
      WorkerState(w.store[j := b.(imageData := None)], w.writes + FrameWrite(b, folder, prefix, format),
                  w.saved + [j])
    else w
  }

  /** The frames at `idx`, in order. */
  function Walk(w: WorkerState, idx: seq<nat>, folder: string, prefix: string, format: string): (r: WorkerState)
    ensures |r.store| == |w.store|
    ensures |r.saved| <= |w.saved| + |idx|
    decreases |idx|
  {
    if idx == [] then w else SaveFrame(Walk(w, idx[..|idx| - 1], folder, prefix, format), idx[|idx| - 1], folder, prefix, format)
  }

  predicate InBuffer(idx: seq<nat>, n: nat) {
    forall k :: 0 <= k < |idx| ==> idx[k] < n
  }

  lemma PrefixFacts(idx: seq<nat>, n: nat, i: nat)
    requires Distinct(idx) && InBuffer(idx, n) && i <= |idx|
    ensures Distinct(idx[..i]) && InBuffer(idx[..i], n)
  {
  }

  /** The walk leaves exactly the visited frames released. */
  lemma {:induction false} WalkReleases(w: WorkerState, idx: seq<nat>, folder: string, prefix: string, format: string)
    requires Distinct(idx) && InBuffer(idx, |w.store|)
    ensures Walk(w, idx, folder, prefix, format).store == Released(w.store, idx)
    decreases |idx|
  {
    if idx != [] {
      var i := |idx| - 1;
      assert idx[..i + 1] == idx;
      PrefixFacts(idx, |w.store|, i);
      WalkReleases(w, idx[..i], folder, prefix, format);
      ReleasedStep(w.store, idx, i);
    }
  }

  /** The walk notifies every visited frame once, in order. */
  lemma {:induction false} WalkNotifies(w: WorkerState, idx: seq<nat>, folder: string, prefix: string, format: string)
    requires InBuffer(idx, |w.store|)
    ensures Walk(w, idx, folder, prefix, format).saved == w.saved + idx
    decreases |idx|
  {
    if idx != [] {
      var i := |idx| - 1;
      var init := idx[..i];
      assert InBuffer(init, |w.store|);
      WalkNotifies(w, init, folder, prefix, format);
      WalkSnoc(w, idx, i, folder, prefix, format);
      assert idx[..i + 1] == idx;
      var prev := Walk(w, init, folder, prefix, format);
      assert idx[i] < |prev.store|;
      assert prev.saved + [idx[i]] == w.saved + (init + [idx[i]]);
      assert init + [idx[i]] == idx;
    }
  }

  /** Extending a walk by index i is one more SaveFrame. */
  lemma WalkSnoc(w: WorkerState, idx: seq<nat>, i: nat, folder: string, prefix: string, format: string)
    requires i < |idx|
    ensures Walk(w, idx[..i + 1], folder, prefix, format)
            == SaveFrame(Walk(w, idx[..i], folder, prefix, format), idx[i], folder, prefix, format)
  {
    assert idx[..i + 1][..i] == idx[..i];
  }

  /** The walk writes every visited frame by its type, named by its timestamp, in order. */
  lemma {:induction false} WalkWrites(w: WorkerState, idx: seq<nat>, folder: string, prefix: string, format: string)
    requires Distinct(idx) && InBuffer(idx, |w.store|)
    ensures Walk(w, idx, folder, prefix, format).writes == w.writes + Writes(Gather(w.store, idx), folder, prefix, format)
    decreases |idx|
  {
    if idx != [] {
      var i := |idx| - 1;
      var init := idx[..i];
      assert idx[..i + 1] == idx;
      PrefixFacts(idx, |w.store|, i);
      WalkWrites(w, init, folder, prefix, format);
      WalkReleases(w, init, folder, prefix, format);
      ReleasedStep(w.store, idx, i);
      WalkStep(w.store, idx, i, folder, prefix, format);
    }
  }

  /** The capture buffer after the frames at `idx`, in that order, have had their pixel storage released. */
  function Released(s: seq<ImageBuffer>, idx: seq<nat>): (r: seq<ImageBuffer>)
    ensures |r| == |s|
    decreases |idx|
  {
    if idx == [] then s
    else
      var r := Released(s, idx[..|idx| - 1]);
      var j := idx[|idx| - 1];
      if j < |r| then r[j := r[j].(imageData := None)] else r
  }

  /**
   * After a walk, the processed frames hold no pixel storage and keep
   * everything else; no other frame of the buffer changes.
   */
  lemma {:induction false} ReleasedFrames(s: seq<ImageBuffer>, idx: seq<nat>)
    ensures forall k :: 0 <= k < |idx| && idx[k] < |s| ==> Released(s, idx)[idx[k]] == s[idx[k]].(imageData := None)
    ensures forall j :: 0 <= j < |s| && j !in idx ==> Released(s, idx)[j] == s[j]
    decreases |idx|
  {
    if idx != [] {
      var init := idx[..|idx| - 1];
      ReleasedFrames(s, init);
      forall k | 0 <= k < |idx| && idx[k] < |s|
        ensures Released(s, idx)[idx[k]] == s[idx[k]].(imageData := None)
      {
        if k < |init| {
          assert init[k] == idx[k];
        }
      }
      forall j | 0 <= j < |s| && j !in idx
        ensures Released(s, idx)[j] == s[j]
      {
        assert j !in init;
      }
    }
  }

  lemma ReleasedStep(s: seq<ImageBuffer>, idx: seq<nat>, i: nat)
    requires i < |idx| && Distinct(idx) && idx[i] < |s|
    ensures Released(s, idx[..i])[idx[i]] == s[idx[i]]
    ensures Released(s, idx[..i + 1]) == Released(s, idx[..i])[idx[i] := s[idx[i]].(imageData := None)]
  {
    assert idx[i] !in idx[..i];
    ReleasedFrames(s, idx[..i]);
    assert idx[..i + 1][..i] == idx[..i];
  }

  /** Extending the walk by frame i adds exactly that frame's write. */
  lemma WalkStep(store: seq<ImageBuffer>, idx: seq<nat>, i: nat, folder: string, prefix: string, format: string)
    requires i < |idx| && idx[i] < |store|
    ensures Writes(Gather(store, idx[..i + 1]), folder, prefix, format)
            == Writes(Gather(store, idx[..i]), folder, prefix, format)
               + FrameWrite(store[idx[i]], folder, prefix, format)
  {
    assert idx[..i + 1][..i] == idx[..i];
    var g := Gather(store, idx[..i + 1]);
    assert g == Gather(store, idx[..i]) + [store[idx[i]]];
    assert g[..|g| - 1] == Gather(store, idx[..i]);
  }
}
