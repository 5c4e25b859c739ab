/**
 * TrackingWindow, the main window: letterbox margins of the display area,
 * the toolbar state table, the connect toggle, live flags and the routing
 * of a displayed frame to the GCaMP or RFP window. The process-wide camera
 * pointer hamamatsuCamera is the control panel's `camera` field.
 */
module FluoImagingModel {
  import opened Util
  import opened DevicePackage
  import opened Camera
  import opened ControlPanelModel
  import AcquisitionSpec

  // ---------------------------------------------------------------------
  // Letterbox margins
  // ---------------------------------------------------------------------

  /** C integer division, truncating toward zero. */
  function CDiv(a: int, b: int): (q: int)
    requires b != 0
    ensures a >= 0 && b > 0 ==> q == a / b
  {
    var m := (if a < 0 then -a else a) / (if b < 0 then -b else b);
    if (a < 0) != (b < 0) then -m else m
  }

  /** The image rectangle inside the window: its size and its offsets. */
  datatype Letterbox = Letterbox(displayWidth: int, displayHeight: int, xOffset: int, yOffset: int)

  /**
   * GetImageWindowMargins: an image relatively wider than the window fills
   * the window's width and is centred vertically, otherwise it fills the
   * height and is centred horizontally. The divisor of the branch taken
   * must be non-zero.
   */
  function Margins(windowWidth: int, windowHeight: int, imageWidth: int, imageHeight: int): (r: Letterbox)
    requires imageWidth * windowHeight > windowWidth * imageHeight ==> imageWidth != 0
    requires imageWidth * windowHeight <= windowWidth * imageHeight ==> imageHeight != 0
  {
    if imageWidth * windowHeight > windowWidth * imageHeight then
      var h := CDiv(windowWidth * imageHeight, imageWidth);
      Letterbox(windowWidth, h, 0, CDiv(windowHeight - h, 2))
    else
      var w := CDiv(imageWidth * windowHeight, imageHeight);
      Letterbox(w, windowHeight, CDiv(windowWidth - w, 2), 0)
  }

  /** q = a / b for a >= 0 and b > 0 stays below c whenever a < b * c. */
  lemma QuotientBelow(a: int, b: int, c: int)
    requires a >= 0 && b > 0 && a < b * c
    ensures 0 <= a / b < c
  {
    var q := a / b;
    assert q * b <= a;
    ProductBelow(q, c, b);
  }

  /** Dividing both sides of q * b < c * b by a positive b. */
  lemma ProductBelow(q: int, c: int, b: int)
    requires b > 0 && q * b < c * b
    ensures q < c
  {
  }

  /**
   * For positive sizes the image rectangle lies inside the window, touches
   * two opposite edges, and is centred: the space left on the other axis is
   * split into two equal margins, up to the pixel that truncation drops.
   */
  lemma MarginsFit(windowWidth: int, windowHeight: int, imageWidth: int, imageHeight: int)
    requires windowWidth > 0 && windowHeight > 0 && imageWidth > 0 && imageHeight > 0
    ensures var r := Margins(windowWidth, windowHeight, imageWidth, imageHeight);
            && 0 <= r.xOffset && 0 <= r.yOffset
            && 0 <= r.displayWidth <= windowWidth && 0 <= r.displayHeight <= windowHeight
            && 2 * r.xOffset <= windowWidth && 2 * r.yOffset <= windowHeight
            && (r.xOffset == 0 || r.yOffset == 0)
            && (r.displayWidth == windowWidth || r.displayHeight == windowHeight)
            && 0 <= windowWidth - r.displayWidth - 2 * r.xOffset <= 1
            && 0 <= windowHeight - r.displayHeight - 2 * r.yOffset <= 1
  {
    if imageWidth * windowHeight > windowWidth * imageHeight {
      QuotientBelow(windowWidth * imageHeight, imageWidth, windowHeight);
    } else {
      QuotientBelow(imageWidth * windowHeight, imageHeight, windowWidth + 1);
    }
  }

  // ---------------------------------------------------------------------
  // Toolbar
  // ---------------------------------------------------------------------

  /** Which toolbar actions are enabled, and whether the connect icon offers to disconnect. */
  datatype Toolbar = Toolbar(offersDisconnect: bool, capture: bool, live: bool, stopLive: bool, reset: bool)

  /** The toolbar half of SetStatus. */
  function ToolbarFor(connected: bool, isLive: bool): (t: Toolbar)
  {
    if connected then Toolbar(true, true, !isLive, isLive, true)
    else Toolbar(false, false, false, false, false)
  }

  /**
   * Without a camera every action is off; with one, capture and reset are
   * on and exactly one of live and stop-live, stop-live while live.
   */
  lemma ToolbarRules(connected: bool, isLive: bool)
    ensures var t := ToolbarFor(connected, isLive);
            && (t.offersDisconnect <==> connected)
            && (!connected ==> !t.capture && !t.live && !t.stopLive && !t.reset)
            && (connected ==> t.capture && t.reset && t.live != t.stopLive && (t.stopLive <==> isLive))
  {
  }

  // ---------------------------------------------------------------------
  // The connect toggle
  // ---------------------------------------------------------------------

  /**
   * What OnConnectAction depends on: the toggle (the static hamamastu_work
   * flag) and whether the camera object exists.
   */
  datatype ConnectState = ConnectState(toggle: bool, hasCamera: bool)

  /**
   * OnConnectAction as written: flip the flag, then connect (the camera
   * object survives only a successful open) or disconnect the camera
   * object; None is a call through a null camera pointer.
   */
  function ClickAsWritten(s: ConnectState, openOk: bool): Option<ConnectState> {
    if !s.toggle then Some(ConnectState(true, openOk))
    else if !s.hasCamera then None
    else Some(ConnectState(false, true))
  }

  /**
   * The flag flips even when connecting fails, so the click after a failed
   * connect disconnects a camera object that ClearHamamatsuCamera deleted.
   */
  lemma ClickAfterFailedConnect()
    ensures ClickAsWritten(ConnectState(false, false), false) == Some(ConnectState(true, false))
    ensures ClickAsWritten(ConnectState(true, false), true).None?
    ensures ClickAsWritten(ConnectState(true, false), false).None?
  {
  }

  /** The corrected toggle: the flag records whether the camera is connected. */
  function Click(s: ConnectState, openOk: bool): (r: ConnectState)
  {
    if !s.toggle then ConnectState(openOk, openOk) else ConnectState(false, s.hasCamera)
  }

  /**
   * With the corrected toggle a disconnect is only issued to an existing
   * camera object, and the clicks alternate between connect and disconnect
   * exactly as long as every connect succeeds.
   */
  lemma ClickAlternates(s: ConnectState, openOk: bool)
    requires s.toggle ==> s.hasCamera
    ensures var r := Click(s, openOk);
            && (r.toggle ==> r.hasCamera)
            && (r.toggle != s.toggle <==> s.toggle || openOk)
            && (s.toggle ==> ClickAsWritten(s, openOk) == Some(r))
            && (!s.toggle && openOk ==> ClickAsWritten(s, openOk) == Some(r))
  {
  }

  // ---------------------------------------------------------------------
  // Channel routing
  // ---------------------------------------------------------------------

  /** Where DisplayImageSlot shows the published frame. */
  datatype DisplayTarget = GCaMPWindow | RFPWindow | NoWindow

  /** Whether the channel index of DisplayImageSlot is defined for this window state. */
  predicate Routable(info: WindowInfo, channels: seq<int>) {
    info.imagingChannelSeq != Single ==> |channels| > 0 && info.imageNum + info.channelOffset >= 0
  }

  /**
   * DisplayImageSlot: a single-channel sequence always goes to the GCaMP
   * window; otherwise the channel at (image number + offset) modulo the
   * sequence length decides. `channels` is what
   * ConvertImagingChannelSeqToArray produces for the sequence.
   */
  function Route(info: WindowInfo, channels: seq<int>): (t: DisplayTarget)
    requires Routable(info, channels)
  {
    if info.imagingChannelSeq == Single then GCaMPWindow
    else
      var c := channels[(info.imageNum + info.channelOffset) % |channels|];
      if c == GCAMP_CHANNEL then GCaMPWindow else if c == RFP_CHANNEL then RFPWindow else NoWindow
  }

  /**
   * Composite routing repeats with the period of the channel sequence, and
   * one press of "Adjust" (channel offset plus one) routes each frame as
   * the following frame was routed before.
   */
  lemma RouteShifts(info: WindowInfo, channels: seq<int>)
    requires info.imagingChannelSeq != Single && |channels| > 0 && info.channelOffset >= 0
    ensures Route(info.(imageNum := info.imageNum + |channels|), channels) == Route(info, channels)
    ensures Route(info.(channelOffset := info.channelOffset + 1), channels)
            == Route(info.(imageNum := info.imageNum + 1), channels)
    ensures Route(info, channels) == GCaMPWindow <==>
              channels[(info.imageNum + info.channelOffset) % |channels|] == GCAMP_CHANNEL
  {
    var n := |channels|;
    var k := info.imageNum + info.channelOffset;
    var later := info.(imageNum := info.imageNum + n);
    assert later.imageNum + later.channelOffset == k + n;
    ModPeriod(k, n);
    var adjusted := info.(channelOffset := info.channelOffset + 1);
    var next := info.(imageNum := info.imageNum + 1);
    assert adjusted.imageNum + adjusted.channelOffset == next.imageNum + next.channelOffset;
  }

  lemma ModPeriod(k: nat, n: nat)
    requires n > 0
    ensures (k + n) % n == k % n
  {
    assert k == (k / n) * n + k % n;
    assert k + n == (k / n + 1) * n + k % n;
    AcquisitionSpec.DivUnique(k + n, n, k / n + 1, k % n);
  }

  class TrackingWindow {
    const globals: Globals
    /** The control panel; its `camera` is the hamamatsuCamera pointer. */
    const panel: ControlPanel
    /** toolBarContents.connected */
    var connected: bool
    /** toolBarContents.isLive */
    var isLive: bool
    /** statusBarContents.ready */
    var ready: bool
    var statusImageWidth: int
    var statusImageHeight: int
    /** The static flag of OnConnectAction, with the corrected meaning of Click. */
    var connectToggle: bool
    var toolbar: Toolbar
    /** Every frame shown, with the window it went to. */
    var shown: seq<(DisplayTarget, DisplayData)>

    predicate Valid()
      reads this, panel, panel.camera
    {
      && panel.globals == globals
      && (panel.camera != null ==> panel.camera.globals == globals)
      && (connectToggle ==> panel.camera != null)
    }

    constructor (g: Globals, p: ControlPanel)
      requires p.globals == g && p.camera == null
      ensures Valid() && globals == g && panel == p
      ensures !connected && !isLive && !connectToggle && shown == []
    {
      globals := g;
      panel := p;
      connected := false;
      isLive := false;
      ready := false;
      statusImageWidth := 0;
      statusImageHeight := 0;
      connectToggle := false;
      toolbar := ToolbarFor(false, false);
      shown := [];
    }

    /** The toolbar half of SetStatus. */
    method SetStatus()
      modifies this
      ensures toolbar == ToolbarFor(old(connected), old(isLive))
      ensures connected == old(connected) && isLive == old(isLive) && connectToggle == old(connectToggle)
      ensures shown == old(shown) && ready == old(ready)
      ensures statusImageWidth == old(statusImageWidth) && statusImageHeight == old(statusImageHeight)
    {
      toolbar := ToolbarFor(connected, isLive);
    }

    /**
     * ConnectHamamatsuCamera(true): create the camera object if needed and
     * open it (`openOk`); an unopened camera is disconnected and deleted.
     * On success the frame size (`reported`) goes to the status bar and the
     * panel reads the exposure range (`range`, `time`).
     */
    method ConnectCamera(openOk: bool, reported: Option<(int, int)>, range: (real, real), time: real)
      requires Valid() && !connectToggle
      modifies this, panel, panel.camera, globals
      ensures Valid() && connectToggle == old(connectToggle)
      ensures openOk ==> panel.camera != null && panel.camera.IsConnected() && connected && ready
      ensures !openOk ==> panel.camera == null && connected == old(connected) && ready == old(ready)
                          && globals.windowInfo == old(globals.windowInfo).(imageData := NoImage)
      ensures openOk && old(panel.camera) != null ==> panel.camera == old(panel.camera)
      ensures openOk ==> (statusImageWidth, statusImageHeight) ==
                           (if reported.Some? then reported.value else (0, 0))
      ensures openOk ==> panel.minExposureTime == range.0 && panel.maxExposureTime == range.1
                         && panel.exposureTime == time
      ensures globals.imageBuffers == old(globals.imageBuffers) && globals.startSaveImage == old(globals.startSaveImage)
      ensures globals.saveImageNum == old(globals.saveImageNum) && globals.displayInterval == old(globals.displayInterval)
      ensures isLive == old(isLive) && shown == old(shown)
      ensures openOk ==> toolbar == ToolbarFor(true, isLive)
      ensures !openOk ==> toolbar == old(toolbar)
    {
      if panel.camera == null {
        var c := new HamamatsuCamera(globals);
        panel.camera := c;
      }
      var camera := panel.camera;
      var _ := camera.Connect(openOk);
      if !camera.IsConnected() {
        var _ := camera.Disconnect();
        // ClearHamamatsuCamera: Disconnect has already unpublished the image.
        panel.camera := null;
        return;
      }
      var _, size := camera.GetImageSize(reported);
      connected := true;
      statusImageWidth := size.width;
      statusImageHeight := size.height;
      ready := true;
      panel.UpdateExposureTimeRange(range, time);
      // OnTabChanged(HAMAMATSU_WINDOW) refreshes the toolbar through SetStatus.
      SetStatus();
    }

    /** ConnectHamamatsuCamera(false): close the camera and clear the toolbar and status flags. */
    method DisconnectCamera()
      requires Valid() && panel.camera != null
      modifies this, panel.camera, globals
      ensures Valid() && panel.camera == old(panel.camera) && !panel.camera.IsConnected()
      ensures !connected && !ready && connectToggle == old(connectToggle)
      ensures globals.windowInfo == old(globals.windowInfo).(imageData := NoImage)
      ensures globals.imageBuffers == old(globals.imageBuffers) && globals.startSaveImage == old(globals.startSaveImage)
      ensures globals.saveImageNum == old(globals.saveImageNum) && globals.displayInterval == old(globals.displayInterval)
      ensures isLive == old(isLive) && shown == old(shown)
      ensures toolbar == ToolbarFor(false, isLive)
    {
      var _ := panel.camera.Disconnect();
      connected := false;
      ready := false;
      // OnTabChanged(HAMAMATSU_WINDOW) refreshes the toolbar through SetStatus.
      SetStatus();
    }

    /**
     * OnConnectAction with the corrected toggle: connect when the camera is
     * not connected, otherwise disconnect; the toggle follows Click.
     */
    method OnConnectAction(openOk: bool, reported: Option<(int, int)>, range: (real, real), time: real)
      requires Valid()
      modifies this, panel, panel.camera, globals
      ensures Valid()
      ensures ConnectState(connectToggle, panel.camera != null)
              == Click(ConnectState(old(connectToggle), old(panel.camera) != null), openOk)
      ensures connectToggle ==> panel.camera.IsConnected() && connected
      ensures !connectToggle ==> panel.camera == null || !panel.camera.IsConnected()
      ensures isLive == old(isLive) && shown == old(shown)
      ensures old(connectToggle) || openOk ==> toolbar == ToolbarFor(connected, isLive)
      ensures !old(connectToggle) && !openOk ==> toolbar == old(toolbar)
    {
      if !connectToggle {
        ConnectCamera(openOk, reported, range, time);
        connectToggle := openOk;
      } else {
        DisconnectCamera();
        connectToggle := false;
      }
    }

    /**
     * OnLiveAction: start live imaging (`reported`, `frameBytesOk` and
     * `blank` are the device's answers); both live flags are raised unless
     * starting the acquisition thread failed.
     */
    method OnLiveAction(reported: Option<(int, int)>, frameBytesOk: bool, blank: Pixels) returns (r: Outcome)
      requires Valid() && panel.camera != null && panel.camera.Valid()
      modifies this, panel.camera, globals
      ensures Valid() && panel.camera.Valid()
      ensures r.Pass? ==> isLive && globals.windowInfo.isLive == 1 && !toolbar.live && toolbar.stopLive
      ensures r.Fail? ==> isLive == old(isLive) && globals.windowInfo.isLive == old(globals.windowInfo.isLive)
      ensures r.Fail? <==> old(panel.camera.hasHandle) && old(panel.camera.acquireImageThread) == null && !frameBytesOk
      ensures connected == old(connected) && connectToggle == old(connectToggle) && shown == old(shown)
      ensures r.Fail? ==> toolbar == old(toolbar) && globals.windowInfo == old(globals.windowInfo).(imageData := NoImage)
      ensures r.Pass? ==> toolbar == old(toolbar).(live := false, stopLive := true)
                          && globals.windowInfo
                             == (if old(panel.camera.hasHandle) then old(globals.windowInfo).(imageData := NoImage)
                                 else old(globals.windowInfo)).(isLive := 1)
    {
      r := panel.camera.Live(reported, frameBytesOk, blank);
      if r.Fail? {
        return;
      }
      isLive := true;
      globals.windowInfo := globals.windowInfo.(isLive := 1);
      toolbar := toolbar.(live := false, stopLive := true);
    }

    /** OnStopLiveAction: stop live imaging and lower both live flags. */
    method OnStopLiveAction()
      requires Valid() && panel.camera != null && panel.camera.Valid()
      modifies this, panel.camera, panel.camera.ThreadFrame(), globals
      ensures Valid() && panel.camera.Valid()
      ensures !isLive && toolbar == old(toolbar).(live := true, stopLive := false)
      ensures old(panel.camera.hasHandle) ==> panel.camera.acquireImageThread == null
      ensures globals.windowInfo ==
                if old(panel.camera.hasHandle) && old(panel.camera.acquireImageThread) != null
                then old(globals.windowInfo).(imageData := NoImage, isLive := 0)
                else old(globals.windowInfo).(isLive := 0)
      ensures globals.imageBuffers == old(globals.imageBuffers) && globals.startSaveImage == old(globals.startSaveImage)
      ensures globals.saveImageNum == old(globals.saveImageNum) && globals.displayInterval == old(globals.displayInterval)
      ensures connected == old(connected) && connectToggle == old(connectToggle) && shown == old(shown)
    {
      var _ := panel.camera.StopLive();
      isLive := false;
      globals.windowInfo := globals.windowInfo.(isLive := 0);
      toolbar := toolbar.(live := true, stopLive := false);
    }

    /** HasStopDisplaySlot: the stop-display thread finished; lower both live flags. */
    method HasStopDisplay()
      modifies this, globals
      ensures !isLive && globals.windowInfo == old(globals.windowInfo).(isLive := 0)
      ensures toolbar == old(toolbar).(live := true, stopLive := false)
      ensures connected == old(connected) && connectToggle == old(connectToggle) && shown == old(shown)
      ensures globals.imageBuffers == old(globals.imageBuffers) && globals.startSaveImage == old(globals.startSaveImage)
      ensures globals.saveImageNum == old(globals.saveImageNum) && globals.displayInterval == old(globals.displayInterval)
    {
      isLive := false;
      globals.windowInfo := globals.windowInfo.(isLive := 0);
      toolbar := toolbar.(live := true, stopLive := false);
    }

    /** DisplayImageSlot: show the published frame in the window Route picks, or nowhere. */
    method DisplayImageSlot(channels: seq<int>)
      requires Routable(globals.windowInfo, channels)
      modifies this
      ensures var t := Route(globals.windowInfo, channels);
              shown == if t == NoWindow then old(shown) else old(shown) + [(t, globals.windowInfo.imageData)]
      ensures connected == old(connected) && isLive == old(isLive) && connectToggle == old(connectToggle)
    {
      var info := globals.windowInfo;
      if info.imagingChannelSeq == Single || channels[(info.imageNum + info.channelOffset) % |channels|] == GCAMP_CHANNEL {
        shown := shown + [(GCaMPWindow, info.imageData)];
      } else if channels[(info.imageNum + info.channelOffset) % |channels|] == RFP_CHANNEL {
        shown := shown + [(RFPWindow, info.imageData)];
      }
    }
  }
}
