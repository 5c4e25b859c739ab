/**
 * ControlPanel: the slot handlers that turn operator input into camera
 * settings, session set-up, laser start-up and Z1 stage moves. Entered text
 * is given already converted to a number; device answers are parameters.
 */
module ControlPanelModel {
  import opened Util
  import opened DevicePackage
  import opened AcquisitionSpec
  import opened ImageSaveDialog
  import opened Camera
  import opened LaserReply
  import opened LaserDevice

  // ---------------------------------------------------------------------
  // Exposure time
  // ---------------------------------------------------------------------

  /** On_HamamatsuExposureTimeEdit: above the maximum gives the maximum, else below the minimum gives the minimum. */
  function ClampExposure(e: real, lo: real, hi: real): (r: real)
  {
    if e > hi then hi else if e < lo then lo else e
  }

  /**
   * With a well-formed range the stored time lies in [lo, hi], an in-range
   * entry is kept as entered, and clamping twice changes nothing.
   */
  lemma ClampExposureInRange(e: real, lo: real, hi: real)
    requires lo <= hi
    ensures lo <= ClampExposure(e, lo, hi) <= hi
    ensures lo <= e <= hi ==> ClampExposure(e, lo, hi) == e
    ensures ClampExposure(ClampExposure(e, lo, hi), lo, hi) == ClampExposure(e, lo, hi)
  {
  }

  // ---------------------------------------------------------------------
  // Field of view presets
  // ---------------------------------------------------------------------

  /** A sub-array: left, top, width, height. */
  datatype Fov = Fov(xOffset: int, yOffset: int, width: int, height: int)

  /** The sub-array a preset name selects; None for "Custom" or anything else. */
  function FovPreset(name: string): (r: Option<Fov>)
  {
    if name == "Full Image" then
      Some(Fov((FULLIMAGE_WIDTH - FULLIMAGE_WIDTH) / 2, (FULLIMAGE_HEIGHT - FULLIMAGE_HEIGHT) / 2,
               FULLIMAGE_WIDTH, FULLIMAGE_HEIGHT))
    else if name == "512x512" then
      Some(Fov((FULLIMAGE_WIDTH - 512) / 2, (FULLIMAGE_HEIGHT - 512) / 2, 512, 512))
    else None
  }

  /** Every preset is centred on the 2048 x 2048 sensor and lies inside it. */
  lemma FovPresetCentred(name: string)
    ensures FovPreset(name).Some? <==> name == "Full Image" || name == "512x512"
    ensures FovPreset(name).Some? ==>
              var f := FovPreset(name).value;
              && 0 <= f.xOffset && 2 * f.xOffset + f.width == FULLIMAGE_WIDTH
              && 0 <= f.yOffset && 2 * f.yOffset + f.height == FULLIMAGE_HEIGHT
    ensures name == "Full Image" ==> FovPreset(name) == Some(Fov(0, 0, 2048, 2048))
    ensures name == "512x512" ==> FovPreset(name) == Some(Fov(768, 768, 512, 512))
  {
  }

  // ---------------------------------------------------------------------
  // Capture mode
  // ---------------------------------------------------------------------

  /** The trigger mode and display interval a capture-mode name selects. */
  function CaptureMode(text: string): (r: Option<(string, int)>)
    ensures r.Some? ==> TriggerSettings(r.value.0).Some? && r.value.1 > 0
  {
    if text == "Internal" then Some(("Internal", 2))
    else if text == "External Trigger" then Some(("External Level", 1))
    else if text == "Global Reset" then Some(("Global Reset", 1))
    else None
  }

  /** Internal triggering shows every other frame, external triggering every frame. */
  lemma CaptureModeIntervals(text: string)
    ensures CaptureMode(text).Some? <==> text == "Internal" || text == "External Trigger" || text == "Global Reset"
    ensures CaptureMode(text).Some? ==>
              (CaptureMode(text).value.1 == 2 <==> text == "Internal")
              && (CaptureMode(text).value.1 == 1 <==> text != "Internal")
  {
  }

  // ---------------------------------------------------------------------
  // Z1 stage
  // ---------------------------------------------------------------------

  const Z1_MAXSTEP: real := 1000.0
  const Z1_PRECISION: real := 0.05
  const Z1_UPLIMIT: real := 158000.0
  const Z_POSITIVE: real := 1.0

  /** On_Z1StepChanged: a step in [0, Z1_MAXSTEP] micrometres becomes a step in encoder pulses. */
  function Z1StepPulses(step: real): (r: Option<real>)
  {
    if step < 0.0 || step > Z1_MAXSTEP then None else Some(step / Z1_PRECISION)
  }

  /** An accepted step converts back to the entered micrometres and never exceeds 20000 pulses. */
  lemma Z1StepPulsesInverse(step: real)
    ensures Z1StepPulses(step).Some? <==> 0.0 <= step <= Z1_MAXSTEP
    ensures Z1StepPulses(step).Some? ==>
              Z1StepPulses(step).value * Z1_PRECISION == step && 0.0 <= Z1StepPulses(step).value <= 20000.0
  {
  }

  const INVALID_STEP_MESSAGE: string := "Invalid step, max step = 1000um"
  const Z1_NO_CONNECTION_MESSAGE: string := "Move Up: z1 stage no connection"
  const Z1_UP_LIMIT_MESSAGE: string := "Move up: will reach up limit (158000 pulse), max valid distance "
  const Z1_MOVE_UP_MESSAGE: string := "Z1 move up: start"

  // ---------------------------------------------------------------------
  // Recording session set-up
  // ---------------------------------------------------------------------

  /**
   * The acquisition state after OnOkButton and StartSaveImage as written: a
   * capture buffer of n fresh slots, the session flag raised and the target
   * count n, whatever n is.
   */
  function ArmAsWritten(s: AcqState, n: nat, slot: ImageBuffer): AcqState {
    s.(capture := Some(seq(n, _ => slot)), startSave := true, saveNum := n)
  }

  /**
   * A frame count of 0 passes the count entry (it only warns) and arms a
   * session over an empty buffer: the first saved frame would be written
   * at slot 0 of a zero-length buffer, and the write index never meets the
   * target 0 again.
   */
  lemma ArmAsWrittenEmptySession(s: AcqState, slot: ImageBuffer)
    ensures ImageNumWarnings(0) == [INVALID_NUM_MESSAGE]
    ensures var a := ArmAsWritten(s, 0, slot);
            a.Saving() && a.saveIndex >= |a.capture.value| && !SessionOk(a) && !Inv(a)
  {
  }

  /** The corrected set-up: a count that is not positive cancels the session instead of arming it. */
  function Arm(s: AcqState, n: int, slot: ImageBuffer): AcqState {
    if n <= 0 then s.(capture := None, startSave := false) else ArmAsWritten(s, n, slot)
  }

  /**
   * From a state where no session was interrupted (write index 0), the
   * corrected set-up keeps the acquisition invariant, so every frame of the
   * session lands inside the buffer; a positive count arms a session.
   */
  lemma ArmKeepsInv(s: AcqState, n: int, slot: ImageBuffer)
    requires Inv(s) && s.saveIndex == 0 && slot.imageData.Some?
    ensures Inv(Arm(s, n, slot))
    ensures Arm(s, n, slot).Saving() <==> n > 0
  {
  }

  /**
   * A session armed for n frames is complete after n accepted frames: frame
   * j lands in slot j, the finish notification fires once and the session
   * flag drops.
   */
  lemma ArmedSessionFills(s: AcqState, n: int, slot: ImageBuffer, fs: seq<FrameInput>)
    requires Inv(s) && s.saveIndex == 0 && slot.imageData.Some? && n > 0
    requires |fs| >= n && forall i :: 0 <= i < |fs| ==> Accepted(fs[i])
    ensures var r := Steps(Arm(s, n, slot), fs);
            && !r.startSave && r.finished == s.finished + 1
            && r.capture.Some? && |r.capture.value| == n
            && forall j :: 0 <= j < n ==> r.capture.value[j] == Stamped(slot, fs[j])
  {
    ArmKeepsInv(s, n, slot);
    SessionFill(Arm(s, n, slot), fs);
  }

  /**
   * The size StartSaveImage passes to Allocate: the device's answer when the
   * query succeeds, otherwise the local that Get_ImageSize left unwritten
   * (zero here).
   */
  function ReportedSize(hasHandle: bool, reported: Option<(int, int)>): (size: ImageSize)
    ensures size.stride == 0
    ensures hasHandle && reported.Some? ==> (size.width, size.height) == reported.value
    ensures !(hasHandle && reported.Some?) ==> size.width == 0 && size.height == 0
  {
    if hasHandle && reported.Some? then ImageSize(reported.value.0, reported.value.1, 0) else ImageSize(0, 0, 0)
  }

  /** The message On_LaserStartAll logs when a laser would not start. */
  function StartFailureMessage(wavelength: string): string {
    "StartAll: Cannot start " + wavelength + "nm laser"
  }

  /** Whether each reply acknowledges its command. */
  function Acks(replies: seq<seq<char>>): (r: seq<bool>)
    ensures |r| == |replies| && forall k :: 0 <= k < |r| ==> r[k] == Analyse(replies[k]).success
  {
    seq(|replies|, k requires 0 <= k < |replies| => Analyse(replies[k]).success)
  }

  /** The command Laser::Start sends. */
  const START_COMMAND := "SOURce:AM:STATe ON\n\r"

  /** `n` copies of the command `c`, the commands of `n` attempts. */
  function Repeat(c: string, n: nat): (r: seq<string>)
    ensures |r| == n && forall k :: 0 <= k < n ==> r[k] == c
  {
    if n == 0 then [] else Repeat(c, n - 1) + [c]
  }

  /** The first acknowledged entry is the one after a run of refusals. */
  lemma FirstSuccessAt(oks: seq<bool>, i: nat)
    requires i < |oks| && oks[i] && forall j :: 0 <= j < i ==> !oks[j]
    ensures FirstSuccess(oks) == i
  {
  }

  /** With no acknowledged entry, there is no first one. */
  lemma FirstSuccessNone(oks: seq<bool>)
    requires forall j :: 0 <= j < |oks| ==> !oks[j]
    ensures FirstSuccess(oks) == |oks|
  {
  }

  class ControlPanel {
    const globals: Globals
    /** hamamatsuCamera */
    var camera: HamamatsuCamera?
    /** hamamatsuImageSaveWidget */
    var saveWidget: ImageSaveWidget?
    var laser488: Laser?
    var laser561: Laser?
    var laser488Status: LaserStatus
    var laser561Status: LaserStatus
    var exposureTime: real
    var minExposureTime: real
    var maxExposureTime: real
    /** Every exposure time sent to the camera, in order. */
    var exposureWrites: seq<real>
    var fov: Fov
    var customFovEnabled: bool
    var channelSeq: ImagingChannelsSeq
    var channelSeqBoxEnabled: bool
    var z1Step: real
    /** Every line shown in the state box or a message box, in order. */
    var messages: seq<string>
    /** Every relative Z1 move handed to the motion thread, in pulses. */
    var motionRequests: seq<real>
    /** Every StopDisplayImagesSignal emitted, in order. */
    var stopDisplaySignals: seq<DisplayWindowFlag>

    /**
     * The constructor with InitCamera and InitLasers: no devices yet, zero
     * exposure range, lasers not connected. `step` is the Z1 step, which the
     * original never initialises.
     */
    constructor (g: Globals, hamamatsu: HamamatsuCamera?, step: real)
      ensures globals == g && camera == hamamatsu && saveWidget == null && laser488 == null && laser561 == null
      ensures laser488Status == LaserNoConnection && laser561Status == LaserNoConnection
      ensures exposureTime == 0.0 && minExposureTime == 0.0 && maxExposureTime == 0.0 && exposureWrites == []
      ensures !customFovEnabled && z1Step == step
      ensures messages == [] && motionRequests == [] && stopDisplaySignals == []
    {
      globals := g;
      camera := hamamatsu;
      saveWidget := null;
      laser488 := null;
      laser561 := null;
      laser488Status := LaserNoConnection;
      laser561Status := LaserNoConnection;
      exposureTime := 0.0;
      minExposureTime := 0.0;
      maxExposureTime := 0.0;
      exposureWrites := [];
      fov := Fov(0, 0, FULLIMAGE_WIDTH, FULLIMAGE_HEIGHT);
      customFovEnabled := false;
      channelSeq := Single;
      channelSeqBoxEnabled := false;
      z1Step := step;
      messages := [];
      motionRequests := [];
      stopDisplaySignals := [];
    }

    /**
     * On_HamamatsuExposureTimeEdit: store the clamped entry and, with a
     * connected camera, send it.
     */
    method ExposureTimeEdit(entered: real)
      modifies this
      ensures exposureTime == ClampExposure(entered, old(minExposureTime), old(maxExposureTime))
      ensures exposureWrites == if old(camera) != null && old(camera.IsConnected())
                                then old(exposureWrites) + [exposureTime] else old(exposureWrites)
      ensures camera == old(camera) && minExposureTime == old(minExposureTime) && maxExposureTime == old(maxExposureTime)
      ensures messages == old(messages)
    {
      var e := entered;
      if e > maxExposureTime {
        e := maxExposureTime;
      } else if e < minExposureTime {
        e := minExposureTime;
      }
      exposureTime := e;
      if camera != null && camera.IsConnected() {
        exposureWrites := exposureWrites + [e];
      }
    }

    /**
     * Hamamatsu_UpdateExposureTimeRange (also CameraConnected(0)): with a
     * connected camera, take the exposure range and the current exposure
     * time from the device; `range` and `time` are what the device queries
     * leave in the caller's variables.
     */
    method UpdateExposureTimeRange(range: (real, real), time: real)
      modifies this
      ensures old(camera) != null && old(camera.IsConnected()) ==>
                minExposureTime == range.0 && maxExposureTime == range.1 && exposureTime == time
      ensures !(old(camera) != null && old(camera.IsConnected())) ==>
                minExposureTime == old(minExposureTime) && maxExposureTime == old(maxExposureTime)
                && exposureTime == old(exposureTime)
      ensures camera == old(camera) && saveWidget == old(saveWidget) && exposureWrites == old(exposureWrites)
      ensures messages == old(messages) && laser488 == old(laser488) && laser561 == old(laser561)
      ensures laser488Status == old(laser488Status) && laser561Status == old(laser561Status)
    {
      if camera != null && camera.IsConnected() {
        exposureTime := time;
        maxExposureTime := range.1;
        minExposureTime := range.0;
      }
    }

    /** On_HamamatsuImageSizeBox: a preset sets the sub-array; "Custom" only unlocks the custom fields. */
    method ImageSizeBox(name: string)
      modifies this
      ensures FovPreset(name).Some? ==> fov == FovPreset(name).value && !customFovEnabled
      ensures name == "Custom" ==> fov == old(fov) && customFovEnabled
      ensures FovPreset(name).None? && name != "Custom" ==> fov == old(fov) && customFovEnabled == old(customFovEnabled)
      ensures camera == old(camera) && messages == old(messages)
    {
      if name == "Full Image" {
        fov := Fov((FULLIMAGE_WIDTH - FULLIMAGE_WIDTH) / 2, (FULLIMAGE_HEIGHT - FULLIMAGE_HEIGHT) / 2,
                   FULLIMAGE_WIDTH, FULLIMAGE_HEIGHT);
        customFovEnabled := false;
      } else if name == "512x512" {
        fov := Fov((FULLIMAGE_WIDTH - 512) / 2, (FULLIMAGE_HEIGHT - 512) / 2, 512, 512);
        customFovEnabled := false;
      } else if name == "Custom" {
        customFovEnabled := true;
      }
    }

    /**
     * On_HamamatsuCaptureModeBox with a connected camera: set the trigger
     * mode (okK are the device's answers to the property writes; external
     * modes also select positive polarity, answered by polarityOk) and the
     * display interval; "Internal" also re-reads the exposure range, which
     * the device reports as `range` and `time`. Without a connected camera
     * nothing changes.
     */
    method CaptureModeBox(text: string, ok1: bool, ok2: bool, ok3: bool, polarityOk: bool, range: (real, real), time: real)
      modifies this, camera, globals
      ensures camera == old(camera)
      ensures old(camera) == null || !old(camera.IsConnected()) || CaptureMode(text).None? ==>
                globals.displayInterval == old(globals.displayInterval)
      ensures old(camera) != null && old(camera.IsConnected()) && CaptureMode(text).Some? ==>
                && globals.displayInterval == CaptureMode(text).value.1
                && camera.propertyWrites == old(camera.propertyWrites) +
                     TriggerSettings(CaptureMode(text).value.0).value[..OrNotChain([ok1, ok2, ok3]).issued]
                && camera.polarityWrites == if text == "Internal" then old(camera.polarityWrites)
                                            else old(camera.polarityWrites) + [DCAM_TRIGPOL_POSITIVE]
      ensures old(camera) != null && old(camera.IsConnected()) && text == "Internal" ==>
                minExposureTime == range.0 && maxExposureTime == range.1 && exposureTime == time
      ensures !(old(camera) != null && old(camera.IsConnected()) && text == "Internal") ==>
                minExposureTime == old(minExposureTime) && maxExposureTime == old(maxExposureTime)
                && exposureTime == old(exposureTime)
      ensures globals.imageBuffers == old(globals.imageBuffers) && globals.startSaveImage == old(globals.startSaveImage)
      ensures globals.saveImageNum == old(globals.saveImageNum) && globals.windowInfo == old(globals.windowInfo)
    {
      if camera != null && camera.IsConnected() && text == "Internal" {
        var _ := camera.SetTriggerMode("Internal", ok1, ok2, ok3);
        UpdateExposureTimeRange(range, time);
        globals.displayInterval := 2;
      } else if camera != null && camera.IsConnected() && text == "External Trigger" {
        var _ := camera.SetTriggerMode("External Level", ok1, ok2, ok3);
        var _ := camera.SetTriggerPolarity(DCAM_TRIGPOL_POSITIVE, polarityOk);
        globals.displayInterval := 1;
      } else if camera != null && camera.IsConnected() && text == "Global Reset" {
        var _ := camera.SetTriggerMode("Global Reset", ok1, ok2, ok3);
        var _ := camera.SetTriggerPolarity(DCAM_TRIGPOL_POSITIVE, polarityOk);
        globals.displayInterval := 1;
      }
    }

    /**
     * StartSaveImage, with the guard of ArmAsWrittenEmptySession corrected:
     * for the Hamamatsu window, with a save dialog, a connected camera and an
     * armed session, take the dialog's frame count and allocate that many
     * USHORT slots of the camera geometry (`reported` is the device's answer
     * to the size query). A count that is not positive cancels the session.
     * When `new` throws (a negative width * height), `thrown` is true and no
     * buffer is stored: the exception leaves the slot after the target count
     * was set.
     */
    method StartSaveImage(windowFlag: DisplayWindowFlag, reported: Option<(int, int)>) returns (thrown: bool)
      requires saveWidget != null ==> saveWidget.globals == globals
      modifies this, camera, saveWidget, globals
      ensures camera == old(camera) && saveWidget == old(saveWidget)
      ensures !(windowFlag == HamamatsuWindow && old(saveWidget) != null && old(camera) != null
                && old(camera.IsConnected()) && old(globals.startSaveImage)) ==>
                !thrown && globals.imageBuffers == old(globals.imageBuffers) && globals.startSaveImage == old(globals.startSaveImage)
                && globals.saveImageNum == old(globals.saveImageNum)
      ensures windowFlag == HamamatsuWindow && old(saveWidget) != null && old(camera) != null
              && old(camera.IsConnected()) && old(globals.startSaveImage) ==>
                var n := old(saveWidget.imageNum);
                && (n <= 0 ==> !thrown && !globals.startSaveImage && globals.imageBuffers == old(globals.imageBuffers)
                               && globals.saveImageNum == old(globals.saveImageNum))
                && (n > 0 ==> globals.startSaveImage && globals.saveImageNum == n
                              && (thrown <==> !AllocationSucceeds(n, ReportedSize(old(camera.hasHandle), reported), UshortType))
                              && (thrown ==> globals.imageBuffers == old(globals.imageBuffers))
                              && (!thrown ==>
                                    globals.imageBuffers != null &&
                                    fresh(globals.imageBuffers) && globals.imageBuffers.Length == n
                                    && forall k :: 0 <= k < n ==>
                                         globals.imageBuffers[k] == AllocatedSlot(ReportedSize(old(camera.hasHandle), reported), UshortType)))
      ensures globals.displayInterval == old(globals.displayInterval)
    {
      thrown := false;
      if windowFlag == HamamatsuWindow && saveWidget != null {
        if camera == null || !camera.IsConnected() {
          return;
        }
        if globals.startSaveImage {
          var _, size := camera.GetImageSize(reported);
          var n := saveWidget.imageNum;
          if n <= 0 {
            globals.startSaveImage := false;
            return;
          }
          globals.saveImageNum := n;
          var b := saveWidget.Allocate(size, UshortType, n);
          if b == null {
            return true;
          }
          globals.imageBuffers := b;
        }
      }
    }

    /** FinishSaveImage: hand the filled capture buffer to the dialog's writer pool. */
    method FinishSaveImage(windowFlag: DisplayWindowFlag, prefixText: string, indeterminate: bool)
      requires saveWidget != null ==>
                 && saveWidget.Valid() && saveWidget.AllWorkersReturned()
                 && (saveWidget.window == HamamatsuWindow && saveWidget.globals.imageBuffers != null ==>
                       0 <= saveWidget.imageNum <= saveWidget.globals.imageBuffers.Length)
      modifies this, if saveWidget == null then {} else {saveWidget, saveWidget.threads} + saveWidget.Workers()
      ensures saveWidget == old(saveWidget)
      ensures stopDisplaySignals == old(stopDisplaySignals) + [windowFlag]
      ensures windowFlag == HamamatsuWindow && saveWidget != null ==> saveWidget.savedNum == 0 && saveWidget.progressOpen
      ensures windowFlag != HamamatsuWindow && saveWidget != null ==> unchanged(saveWidget)
      ensures windowFlag == HamamatsuWindow && saveWidget != null ==>
                && saveWidget.Valid() && saveWidget.imageNum == old(saveWidget.imageNum)
                && (forall w :: w in old(saveWidget.Workers()) ==> w.stopFlag)
                && (saveWidget.window != HamamatsuWindow || saveWidget.globals.imageBuffers == null ==>
                      forall i :: 0 <= i < saveWidget.threads.Length ==> saveWidget.threads[i] == null)
                && (saveWidget.window == HamamatsuWindow && saveWidget.globals.imageBuffers != null ==>
                      && saveWidget.prefix == prefixText && saveWidget.imageFormat == "tiff"
                      && forall i :: 0 <= i < IMAGE_SAVE_THREADS ==>
                           && fresh(saveWidget.threads[i])
                           && ImageSaveWidget.SliceWorker(saveWidget.threads[i], saveWidget.globals.imageBuffers, saveWidget.imageNum,
                                          i, saveWidget.imageFolder, prefixText))
    {
      if windowFlag == HamamatsuWindow && saveWidget != null {
        saveWidget.SaveImages(prefixText, indeterminate);
      }
      stopDisplaySignals := stopDisplaySignals + [windowFlag];
    }

    /** On_HamamatsuImagingChannelChanged */
    method ImagingChannelChanged(singleChecked: bool, compositeChecked: bool)
      modifies this, globals
      ensures singleChecked ==> globals.windowInfo == old(globals.windowInfo).(imagingChannelSeq := Single, channelOffset := 0)
                                && !channelSeqBoxEnabled
      ensures !singleChecked ==> globals.windowInfo == old(globals.windowInfo)
                                 && channelSeqBoxEnabled == (compositeChecked || old(channelSeqBoxEnabled))
      ensures globals.displayInterval == old(globals.displayInterval) && globals.imageBuffers == old(globals.imageBuffers)
      ensures globals.startSaveImage == old(globals.startSaveImage)
    {
      if singleChecked {
        globals.windowInfo := globals.windowInfo.(imagingChannelSeq := Single);
        channelSeqBoxEnabled := false;
        globals.windowInfo := globals.windowInfo.(channelOffset := 0);
      } else if compositeChecked {
        channelSeqBoxEnabled := true;
      }
    }

    /** On_HamamatsuAdjustImagingChannel: shift the channel sequence by one frame. */
    method AdjustImagingChannel()
      modifies globals
      ensures globals.windowInfo == old(globals.windowInfo).(channelOffset := old(globals.windowInfo.channelOffset) + 1)
      ensures globals.displayInterval == old(globals.displayInterval) && globals.imageBuffers == old(globals.imageBuffers)
      ensures globals.startSaveImage == old(globals.startSaveImage)
    {
      globals.windowInfo := globals.windowInfo.(channelOffset := globals.windowInfo.channelOffset + 1);
    }

    /** On_HamamatsuImagingChannelSeqBox: a known composite sequence name selects that sequence. */
    method ImagingChannelSeqBox(name: string)
      modifies this, globals
      ensures ChannelSeqNamed(name).Some? ==>
                channelSeq == ChannelSeqNamed(name).value
                && globals.windowInfo == old(globals.windowInfo).(imagingChannelSeq := channelSeq)
      ensures ChannelSeqNamed(name).None? ==> channelSeq == old(channelSeq) && globals.windowInfo == old(globals.windowInfo)
      ensures globals.displayInterval == old(globals.displayInterval) && globals.imageBuffers == old(globals.imageBuffers)
    {
      if name == "G1_R1_G1_R1_G1_R1" {
        channelSeq := CompG1R1G1R1G1R1;
        globals.windowInfo := globals.windowInfo.(imagingChannelSeq := channelSeq);
      } else if name == "G1_R1_G1_R1_G1" {
        channelSeq := CompG1R1G1R1G1;
        globals.windowInfo := globals.windowInfo.(imagingChannelSeq := channelSeq);
      } else if name == "G1_R1_G1_R1" {
        channelSeq := CompG1R1G1R1;
        globals.windowInfo := globals.windowInfo.(imagingChannelSeq := channelSeq);
      }
    }

    /**
     * On_Z1StepChanged: an accepted step is stored in pulses; a rejected one
     * raises the error box and keeps the previous step.
     */
    method Z1StepChanged(step: real)
      modifies this
      ensures z1Step == if Z1StepPulses(step).Some? then Z1StepPulses(step).value else old(z1Step)
      ensures messages == if Z1StepPulses(step).Some? then old(messages) else old(messages) + [INVALID_STEP_MESSAGE]
      ensures motionRequests == old(motionRequests)
    {
      if step < 0.0 || step > Z1_MAXSTEP {
        messages := messages + [INVALID_STEP_MESSAGE];
        return;
      }
      z1Step := step / Z1_PRECISION;
    }

    /**
     * On_Z1MoveUpButton as compiled (STOP_LIMIT is 0, so the limit is checked): re-read the step (a rejected
     * entry leaves the previous step in force), then start a move of one
     * step unless it would pass the upper limit. `currentPosition` is the
     * stage's answer.
     */
    method Z1MoveUp(step: real, stageConnected: bool, currentPosition: real) returns (started: bool)
      modifies this
      ensures var s := if Z1StepPulses(step).Some? then Z1StepPulses(step).value else old(z1Step);
              && z1Step == s
              && (started <==> stageConnected && currentPosition + s <= Z1_UPLIMIT)
              && motionRequests == if started then old(motionRequests) + [s * Z_POSITIVE] else old(motionRequests)
      ensures started ==> currentPosition + motionRequests[|motionRequests| - 1] <= Z1_UPLIMIT
      ensures var s := if Z1StepPulses(step).Some? then Z1StepPulses(step).value else old(z1Step);
              var stepMessages := if Z1StepPulses(step).Some? then [] else [INVALID_STEP_MESSAGE];
              messages == old(messages) + stepMessages
                          + [if !stageConnected then Z1_NO_CONNECTION_MESSAGE
                             else if currentPosition + s > Z1_UPLIMIT then Z1_UP_LIMIT_MESSAGE
                             else Z1_MOVE_UP_MESSAGE]
    {
      Z1StepChanged(step);
      if !stageConnected {
        messages := messages + [Z1_NO_CONNECTION_MESSAGE];
        return false;
      }
      if currentPosition + z1Step > Z1_UPLIMIT {
        messages := messages + [Z1_UP_LIMIT_MESSAGE];
        return false;
      }
      messages := messages + [Z1_MOVE_UP_MESSAGE];
      motionRequests := motionRequests + [z1Step * Z_POSITIVE];
      started := true;
    }

    /**
     * The retry loop of On_LaserStartAll for one laser: up to three Start
     * commands, stopping at the first acknowledged one; `replies` holds the
     * laser's answer to each attempt that may be made.
     */
    static method StartWithRetry(laser: Laser, replies: seq<seq<char>>) returns (started: bool, attempts: nat)
      requires laser.Valid() && laser.IsConnected() && |replies| == 3
      requires forall k :: 0 <= k < 3 ==> |replies[k]| <= MAX_BUFFER_SIZE
      modifies laser, laser.laserValue
      ensures started <==> FirstSuccess(Acks(replies)) < 3
      ensures attempts == if started then FirstSuccess(Acks(replies)) + 1 else 3
      ensures laser.commands == old(laser.commands) + Repeat(START_COMMAND, attempts)
      ensures laser.Ready() && laser.laserMode == old(laser.laserMode)
    {
      ghost var acks := Acks(replies);
      started := false;
      attempts := 0;
      while attempts < 3 && !started
        invariant 0 <= attempts <= 3
        invariant laser.Valid() && laser.Ready() && laser.laserMode == old(laser.laserMode)
        invariant forall j :: 0 <= j < attempts - 1 ==> !acks[j]
        invariant started ==> attempts > 0 && acks[attempts - 1]
        invariant !started ==> forall j :: 0 <= j < attempts ==> !acks[j]
        invariant laser.commands == old(laser.commands) + Repeat(START_COMMAND, attempts)
      {
        started := laser.Start(replies[attempts]);
        attempts := attempts + 1;
      }
      if started {
        FirstSuccessAt(acks, attempts - 1);
      } else {
        FirstSuccessNone(acks);
      }
    }

    /**
     * On_LaserStartAll: each connected laser whose last known status is
     * Ready gets up to three start attempts; a laser that never
     * acknowledges is reported.
     */
    method LaserStartAll(replies488: seq<seq<char>>, replies561: seq<seq<char>>)
      requires laser488 != null ==> laser488.Valid()
      requires laser561 != null ==> laser561.Valid()
      requires laser488 != laser561 || laser488 == null
      requires |replies488| == 3 && forall k :: 0 <= k < 3 ==> |replies488[k]| <= MAX_BUFFER_SIZE
      requires |replies561| == 3 && forall k :: 0 <= k < 3 ==> |replies561[k]| <= MAX_BUFFER_SIZE
      modifies this, laser488, laser561,
               if laser488 == null then {} else {laser488.laserValue},
               if laser561 == null then {} else {laser561.laserValue}
      ensures laser488 == old(laser488) && laser561 == old(laser561)
      ensures var try488 := old(laser488) != null && old(laser488.IsConnected()) && laser488Status == LaserReady;
              var try561 := old(laser561) != null && old(laser561.IsConnected()) && laser561Status == LaserReady;
              messages == old(messages)
                + (if try488 && FirstSuccess(Acks(replies488)) >= 3 then [StartFailureMessage("488")] else [])
                + (if try561 && FirstSuccess(Acks(replies561)) >= 3 then [StartFailureMessage("561")] else [])
      ensures laser488Status == old(laser488Status) && laser561Status == old(laser561Status)
    {
      ghost var m0 := messages;
      if laser488 != null && laser488.IsConnected() && laser488Status == LaserReady {
        var started, _ := StartWithRetry(laser488, replies488);
        if !started {
          messages := messages + [StartFailureMessage("488")];
        }
      }
      ghost var m1 := messages;
      if laser561 != null && laser561.IsConnected() && laser561Status == LaserReady {
        var started, _ := StartWithRetry(laser561, replies561);
        if !started {
          messages := messages + [StartFailureMessage("561")];
        }
      }
    }
  }

  /** The composite channel sequence a sequence-box entry names. */
  function ChannelSeqNamed(name: string): (r: Option<ImagingChannelsSeq>)
    ensures r.Some? ==> r.value != Single
  {
    if name == "G1_R1_G1_R1_G1_R1" then Some(CompG1R1G1R1G1R1)
    else if name == "G1_R1_G1_R1_G1" then Some(CompG1R1G1R1G1)
    else if name == "G1_R1_G1_R1" then Some(CompG1R1G1R1)
    else None
  }
}
