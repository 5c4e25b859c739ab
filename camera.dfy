/**
 * Hamamatsu_Camera: the device handle, the connection status, the cached
 * sub-array geometry and the acquisition thread it owns. DCAM SDK calls are
 * success/failure inputs; the calls that reach the device are logged.
 */
module Camera {
  import opened Util
  import opened DevicePackage
  import opened AcquisitionSpec
  import opened AcquisitionThread

  const OBJECT_NAME: string := "Hamamatsu_Camera"
  const DCAM_TRIGPOL_NEGATIVE: int := 0
  const DCAM_TRIGPOL_POSITIVE: int := 1

  /** A trigger property written with dcam_setpropertyvalue. */
  datatype TriggerProperty =
    | TriggerSource(external: bool)
    | TriggerActive(level: bool)
    | GlobalExposure(globalReset: bool)

  /** The three property writes a trigger-mode name stands for; None for an unknown name. */
  function TriggerSettings(mode: string): (r: Option<seq<TriggerProperty>>)
    ensures r.Some? <==> mode == "Internal" || mode == "External Level" || mode == "Global Reset"
    ensures r.Some? ==> |r.value| == 3
    ensures mode == "Internal" ==> r == Some([TriggerSource(false), TriggerActive(false), GlobalExposure(false)])
    ensures r.Some? && mode != "Internal" ==>
              r.value[0] == TriggerSource(true) && r.value[1] == TriggerActive(true)
              && r.value[2] == GlobalExposure(mode == "Global Reset")
  {
    if mode == "Internal" then Some([TriggerSource(false), TriggerActive(false), GlobalExposure(false)])
    else if mode == "External Level" then Some([TriggerSource(true), TriggerActive(true), GlobalExposure(false)])
    else if mode == "Global Reset" then Some([TriggerSource(true), TriggerActive(true), GlobalExposure(true)])
    else None
  }

  /** How far a chain of device calls got: how many were issued and whether it reports failure. */
  datatype Chain = Chain(issued: nat, failed: bool)

  /** Index of the first true entry, or |oks| when there is none. */
  function FirstSuccess(oks: seq<bool>): (k: nat)
    ensures k <= |oks| && (k < |oks| ==> oks[k]) && forall j :: 0 <= j < k ==> !oks[j]
  {
    if oks == [] then 0 else if oks[0] then 0 else FirstSuccess(oks[1..]) + 1
  }

  /** Index of the first false entry, or |oks| when there is none. */
  function FirstFailure(oks: seq<bool>): (k: nat)
    ensures k <= |oks| && (k < |oks| ==> !oks[k]) && forall j :: 0 <= j < k ==> oks[j]
  {
    if oks == [] then 0 else if !oks[0] then 0 else FirstFailure(oks[1..]) + 1
  }

  /**
   * The condition of Set_TriggerMode as written: `!set(a) && !set(b) &&
   * !set(c)`. Evaluation stops at the first call that succeeds, and the
   * chain reports failure only when every call failed.
   */
  function AndNotChain(oks: seq<bool>): (r: Chain)
    ensures r.issued <= |oks|
  {
    if oks == [] then Chain(0, true)
    else if oks[0] then Chain(1, false)
    else var rest := AndNotChain(oks[1..]); Chain(rest.issued + 1, rest.failed)
  }

  /**
   * The evidently intended condition, `!set(a) || !set(b) || !set(c)`: every
   * property is written until one fails, and any failure is reported.
   */
  function OrNotChain(oks: seq<bool>): (r: Chain)
    ensures r.issued <= |oks|
  {
    if oks == [] then Chain(0, false)
    else if !oks[0] then Chain(1, true)
    else var rest := OrNotChain(oks[1..]); Chain(rest.issued + 1, rest.failed)
  }

  /** As written, a chain stops after its first successful write and fails only if all writes fail. */
  lemma {:induction false} AndNotChainMeaning(oks: seq<bool>)
    ensures AndNotChain(oks).failed <==> forall j :: 0 <= j < |oks| ==> !oks[j]
    ensures AndNotChain(oks).issued == if FirstSuccess(oks) < |oks| then FirstSuccess(oks) + 1 else |oks|
  {
    if oks != [] && !oks[0] {
      AndNotChainMeaning(oks[1..]);
      assert forall j :: 1 <= j < |oks| ==> oks[j] == oks[1..][j - 1];
    }
  }

  /** Corrected, a chain reports success exactly when every write was issued and succeeded. */
  lemma {:induction false} OrNotChainMeaning(oks: seq<bool>)
    ensures OrNotChain(oks).failed <==> exists j :: 0 <= j < |oks| && !oks[j]
    ensures OrNotChain(oks).issued == if FirstFailure(oks) < |oks| then FirstFailure(oks) + 1 else |oks|
  {
    if oks != [] && oks[0] {
      OrNotChainMeaning(oks[1..]);
      assert forall j :: 1 <= j < |oks| ==> oks[j] == oks[1..][j - 1];
      if exists j :: 0 <= j < |oks| && !oks[j] {
        var j :| 0 <= j < |oks| && !oks[j];
        assert !oks[1..][j - 1];
      }
    }
  }

  /**
   * As written, Set_TriggerMode reports success after writing only the
   * trigger source, although the trigger-active write would have failed;
   * the corrected chain writes both and reports the failure.
   */
  lemma AndNotChainAcceptsPartialSetting()
    ensures AndNotChain([true, false, true]) == Chain(1, false)
    ensures OrNotChain([true, false, true]) == Chain(2, true)
  {
  }

  /** The error text of a failed Connect. */
  const CONNECT_ERROR: string := GetErrorString(OBJECT_NAME, "Connect()", "Cannot connect Hamamatsu camera")

  class HamamatsuCamera {
    const globals: Globals
    /** hdcam != NULL */
    var hasHandle: bool
    var status: DeviceStatus
    var acquireImageThread: AcquireImageThread?
    var imageLeft: int
    var imageTop: int
    var imageWidth: int
    var imageHeight: int
    /** Every trigger property written to the device, in order. */
    var propertyWrites: seq<TriggerProperty>
    /** Every polarity written to the device, in order. */
    var polarityWrites: seq<int>

    /** The owned acquisition thread works on the same globals and keeps its ring. */
    predicate Valid()
      reads this, acquireImageThread, if acquireImageThread == null then {} else {acquireImageThread.ring}
    {
      acquireImageThread != null ==> acquireImageThread.Valid() && acquireImageThread.globals == globals
    }

    /** The thread object and its ring, which the streaming methods may change. */
    function ThreadFrame(): set<object>
      reads this
    {
      if acquireImageThread == null then {} else {acquireImageThread, acquireImageThread.ring}
    }

    /** IsConnected */
    predicate IsConnected()
      reads this
    {
      hasHandle && status == Connected
    }

    constructor (g: Globals)
      ensures Valid() && globals == g && !hasHandle && status == Disconnected && acquireImageThread == null
      ensures !IsConnected() && propertyWrites == [] && polarityWrites == []
    {
      globals := g;
      hasHandle := false;
      status := Disconnected;
      acquireImageThread := null;
      imageLeft, imageTop, imageWidth, imageHeight := 0, 0, 0, 0;
      propertyWrites := [];
      polarityWrites := [];
    }

    /** Connect: `openOk` is whether Init_Open returned a handle; a failure is the thrown error. */
    method Connect(openOk: bool) returns (r: Outcome)
      modifies this
      ensures hasHandle == openOk
      ensures openOk ==> r == Pass && status == Connected && IsConnected()
      ensures !openOk ==> r == Fail(CONNECT_ERROR) && status == Disconnected && !IsConnected()
      ensures acquireImageThread == old(acquireImageThread) && propertyWrites == old(propertyWrites)
    {
      hasHandle := openOk;
      if !hasHandle {
        status := Disconnected;
        return Fail(CONNECT_ERROR);
      }
      status := Connected;
      r := Pass;
    }

    /** ReleaseData: unpublish the display image. */
    method ReleaseData()
      modifies globals
      ensures globals.windowInfo == old(globals.windowInfo).(imageData := NoImage)
      ensures globals.imageBuffers == old(globals.imageBuffers) && globals.startSaveImage == old(globals.startSaveImage)
      ensures globals.saveImageNum == old(globals.saveImageNum) && globals.displayInterval == old(globals.displayInterval)
    {
      if globals.windowInfo.imageData != NoImage {
        globals.windowInfo := globals.windowInfo.(imageData := NoImage);
      }
    }

    /**
     * Disconnect: always ends without a handle, DISCONNECTED and with no
     * display image; `closed` says whether the device was closed. A second
     * call closes nothing.
     */
    method Disconnect() returns (closed: bool)
      modifies this, globals
      ensures closed == old(hasHandle)
      ensures !hasHandle && status == Disconnected && !IsConnected()
      ensures globals.windowInfo == old(globals.windowInfo).(imageData := NoImage)
      ensures globals.imageBuffers == old(globals.imageBuffers) && globals.startSaveImage == old(globals.startSaveImage)
      ensures globals.saveImageNum == old(globals.saveImageNum) && globals.displayInterval == old(globals.displayInterval)
      ensures acquireImageThread == old(acquireImageThread)
      ensures imageLeft == old(imageLeft) && imageTop == old(imageTop)
      ensures imageWidth == old(imageWidth) && imageHeight == old(imageHeight)
      ensures propertyWrites == old(propertyWrites) && polarityWrites == old(polarityWrites)
    {
      ReleaseData();
      closed := false;
      if hasHandle {
        closed := true;
        hasHandle := false;
      }
      status := Disconnected;
    }

    /**
     * Set_TriggerMode with the corrected condition (see OrNotChain): the
     * k-th property write succeeds iff okK. Without a handle or with an
     * unknown mode nothing is written.
     */
    method SetTriggerMode(mode: string, ok1: bool, ok2: bool, ok3: bool) returns (r: bool)
      modifies this
      ensures !old(hasHandle) || TriggerSettings(mode).None? ==> !r && propertyWrites == old(propertyWrites)
      ensures old(hasHandle) && TriggerSettings(mode).Some? ==>
                var c := OrNotChain([ok1, ok2, ok3]);
                && r == !c.failed
                && propertyWrites == old(propertyWrites) + TriggerSettings(mode).value[..c.issued]
      ensures hasHandle == old(hasHandle) && status == old(status) && polarityWrites == old(polarityWrites)
      ensures acquireImageThread == old(acquireImageThread)
    {
      if !hasHandle {
        return false;
      }
      var settings := TriggerSettings(mode);
      if settings.None? {
        return false;
      }
      var props := settings.value;
      ghost var oks := [ok1, ok2, ok3];
      assert oks[1..] == [ok2, ok3] && oks[1..][1..] == [ok3] && oks[1..][1..][1..] == [];
      assert OrNotChain(oks[1..][1..]) == if !ok3 then Chain(1, true) else Chain(1, false);
      assert OrNotChain(oks[1..]) == if !ok2 then Chain(1, true) else Chain(2, !ok3);
      assert OrNotChain(oks) == if !ok1 then Chain(1, true) else if !ok2 then Chain(2, true) else Chain(3, !ok3);
      propertyWrites := propertyWrites + [props[0]];
      if !ok1 {
        assert props[..1] == [props[0]];
        return false;
      }
      propertyWrites := propertyWrites + [props[1]];
      if !ok2 {
        assert props[..2] == [props[0], props[1]];
        return false;
      }
      propertyWrites := propertyWrites + [props[2]];
      assert props[..3] == props;
      r := ok3;
    }

    /**
     * Set_TriggerPolarity: only positive (1) and negative (0) reach the
     * device; `deviceOk` is the device's answer.
     */
    method SetTriggerPolarity(polarity: int, deviceOk: bool) returns (r: bool)
      modifies this
      ensures r <==> old(hasHandle) && (polarity == DCAM_TRIGPOL_POSITIVE || polarity == DCAM_TRIGPOL_NEGATIVE) && deviceOk
      ensures polarityWrites == if old(hasHandle) && (polarity == DCAM_TRIGPOL_POSITIVE || polarity == DCAM_TRIGPOL_NEGATIVE)
                                then old(polarityWrites) + [polarity] else old(polarityWrites)
      ensures hasHandle == old(hasHandle) && status == old(status) && propertyWrites == old(propertyWrites)
      ensures acquireImageThread == old(acquireImageThread)
    {
      if !hasHandle {
        return false;
      }
      if polarity == DCAM_TRIGPOL_POSITIVE || polarity == DCAM_TRIGPOL_NEGATIVE {
        polarityWrites := polarityWrites + [polarity];
        if !deviceOk {
          return false;
        }
        return true;
      } else {
        return false;
      }
    }

    /** Set_ImageSize: the cached geometry follows the device only on success. */
    method SetImageSize(left: int, top: int, width: int, height: int, deviceOk: bool) returns (r: bool)
      modifies this
      ensures r <==> old(hasHandle) && deviceOk
      ensures r ==> imageLeft == left && imageTop == top && imageWidth == width && imageHeight == height
      ensures !r ==> imageLeft == old(imageLeft) && imageTop == old(imageTop)
                     && imageWidth == old(imageWidth) && imageHeight == old(imageHeight)
      ensures hasHandle == old(hasHandle) && status == old(status) && acquireImageThread == old(acquireImageThread)
    {
      if !hasHandle {
        return false;
      }
      if !deviceOk {
        return false;
      }
      imageLeft := left;
      imageTop := top;
      imageWidth := width;
      imageHeight := height;
      r := true;
    }

    /**
     * Get_ImageSize: `reported` is dcam_getdatasize's answer, None when it
     * fails. The caller's size is written only on success (its stride is
     * never written and is 0 here).
     */
    method GetImageSize(reported: Option<(int, int)>) returns (r: bool, size: ImageSize)
      modifies this
      ensures r <==> old(hasHandle) && reported.Some?
      ensures r ==> size == ImageSize(reported.value.0, reported.value.1, 0)
                    && imageWidth == size.width && imageHeight == size.height
      ensures !r ==> size == ImageSize(0, 0, 0) && imageWidth == old(imageWidth) && imageHeight == old(imageHeight)
      ensures hasHandle == old(hasHandle) && status == old(status) && acquireImageThread == old(acquireImageThread)
      ensures imageLeft == old(imageLeft) && imageTop == old(imageTop)
    {
      size := ImageSize(0, 0, 0);
      if !hasHandle {
        return false, size;
      }
      if reported.None? {
        return false, size;
      }
      imageWidth := reported.value.0;
      imageHeight := reported.value.1;
      size := ImageSize(imageWidth, imageHeight, 0);
      r := true;
    }

    /**
     * StartStreaming: create and start an acquisition thread only when none
     * exists. Creating it fails when the frame size is unavailable (the
     * thread constructor throws); the error is the result.
     */
    method StartStreaming(frameBytesOk: bool, blank: Pixels) returns (r: Outcome)
      requires Valid()
      modifies this
      ensures Valid() && hasHandle == old(hasHandle) && status == old(status)
      ensures old(acquireImageThread) != null ==> acquireImageThread == old(acquireImageThread) && r.Pass?
      ensures old(acquireImageThread) == null ==>
                && (r.Pass? <==> frameBytesOk)
                && (r.Pass? <==> acquireImageThread != null)
                && (acquireImageThread != null ==>
                      fresh(acquireImageThread) && !acquireImageThread.isStopAcquireImage
                      && acquireImageThread.imageCount == 0 && acquireImageThread.bufferIndex == 0)
      ensures imageWidth == old(imageWidth) && imageHeight == old(imageHeight)
      ensures imageLeft == old(imageLeft) && imageTop == old(imageTop)
    {
      r := Pass;
      if acquireImageThread == null {
        var t;
        t, r := AcquireImageThread.Create(globals, frameBytesOk, blank);
        if t != null {
          t.StartThread();
          acquireImageThread := t;
        }
      }
    }

    /**
     * StopStreaming: with a thread, signal it to stop, wait for it, destroy
     * it and drop it; without one, nothing happens. `stopped` says whether a
     * thread was stopped, so a second call stops nothing.
     */
    method StopStreaming() returns (stopped: bool)
      requires Valid()
      modifies this, ThreadFrame(), globals
      ensures Valid() && acquireImageThread == null
      ensures stopped <==> old(acquireImageThread) != null
      ensures !stopped ==> unchanged(globals)
      ensures stopped ==> old(acquireImageThread).isStopAcquireImage
                          && forall k :: 0 <= k < old(acquireImageThread).ring.Length ==> old(acquireImageThread).ring[k] == Null
      ensures stopped ==> globals.windowInfo == old(globals.windowInfo).(imageData := NoImage)
      ensures globals.imageBuffers == old(globals.imageBuffers) && globals.startSaveImage == old(globals.startSaveImage)
      ensures globals.saveImageNum == old(globals.saveImageNum) && globals.displayInterval == old(globals.displayInterval)
      ensures hasHandle == old(hasHandle) && status == old(status)
    {
      stopped := false;
      var t := acquireImageThread;
      if t != null {
        t.StopThread();
        var _ := t.Destroy();
        acquireImageThread := null;
        stopped := true;
      }
    }

    /**
     * Live: nothing without a handle; otherwise unpublish the display image,
     * query the frame size (`reported`) and start streaming. A failure to
     * create the acquisition thread is the thrown error.
     */
    method Live(reported: Option<(int, int)>, frameBytesOk: bool, blank: Pixels) returns (r: Outcome)
      requires Valid()
      modifies this, globals
      ensures Valid() && hasHandle == old(hasHandle) && status == old(status)
      ensures !old(hasHandle) ==> r.Pass? && acquireImageThread == old(acquireImageThread) && unchanged(globals)
      ensures old(hasHandle) ==>
                && globals.windowInfo == old(globals.windowInfo).(imageData := NoImage)
                && (old(acquireImageThread) != null ==> acquireImageThread == old(acquireImageThread) && r.Pass?)
                && (old(acquireImageThread) == null ==>
                      (r.Pass? <==> frameBytesOk) && (r.Pass? <==> acquireImageThread != null))
      ensures globals.imageBuffers == old(globals.imageBuffers) && globals.startSaveImage == old(globals.startSaveImage)
      ensures globals.saveImageNum == old(globals.saveImageNum) && globals.displayInterval == old(globals.displayInterval)
      ensures (imageWidth, imageHeight)
              == if old(hasHandle) && reported.Some? then reported.value else (old(imageWidth), old(imageHeight))
      ensures imageLeft == old(imageLeft) && imageTop == old(imageTop)
    {
      if !hasHandle {
        return Pass;
      }
      ReleaseData();
      var _, _ := GetImageSize(reported);
      r := StartStreaming(frameBytesOk, blank);
    }

    /** StopLive: nothing without a handle, otherwise StopStreaming. */
    method StopLive() returns (stopped: bool)
      requires Valid()
      modifies this, ThreadFrame(), globals
      ensures Valid()
      ensures !old(hasHandle) ==> !stopped && acquireImageThread == old(acquireImageThread) && unchanged(globals)
      ensures old(hasHandle) ==> acquireImageThread == null && (stopped <==> old(acquireImageThread) != null)
      ensures globals.windowInfo == if stopped then old(globals.windowInfo).(imageData := NoImage) else old(globals.windowInfo)
      ensures globals.imageBuffers == old(globals.imageBuffers) && globals.startSaveImage == old(globals.startSaveImage)
      ensures globals.saveImageNum == old(globals.saveImageNum) && globals.displayInterval == old(globals.displayInterval)
      ensures hasHandle == old(hasHandle) && status == old(status)
    {
      stopped := false;
      if !hasHandle {
        return;
      }
      stopped := StopStreaming();
    }
  }
}
