# FluoImaging camera pipeline in Dafny

This project models the camera core of FluoImaging, a Qt microscope control
program for a Hamamatsu sCMOS camera, two serial lasers and a motorised Z
stage. The model covers:

- **The acquisition thread** (`Hamamatsu_AcquireImageThread`). It waits for
  each frame and copies it into the capture buffer while a recording session
  is active. Every `HAMAMATSU_DISPLAY_INTERVAL`-th frame goes into a 16-slot
  ring and is published to the display.
- **The recording dialog** (`ImageSaveWidget`). It allocates the capture
  buffer, splits it into 8 contiguous slices and hands each slice to a
  writer thread. It counts the frames saved and stops the writer pool.
- **The writer thread** (`ImageSaveThread`). It walks its slice in order,
  checks a cooperative stop flag before each frame, writes
  `folder\prefix_timestamp.format`, frees the pixels and emits one
  notification per frame.
- **The camera object** (`Hamamatsu_Camera`). This covers connection state,
  trigger mode and polarity validation, the sub-array geometry, and the
  start/stop life cycle of the acquisition thread.
- **The laser driver** (`CLaser`). This covers the `OK\r\n` reply scanner,
  the status-word decoder and the mode commands.
- **The decision rules of the main window and control panel.** These are
  letterbox margins, the toolbar table, the connect toggle, channel routing,
  exposure clamping, FOV presets, trigger mode → display interval, session
  set-up, laser start retries and Z1 step and limit checks.
- **`Util.h`.** This covers `GetErrorString`, `Get_MotionTime` and `Square`.

Each source file is one module:

| module | file | modelled as |
|---|---|---|
| `Util` | util.dfy | Util.h records and inline helpers |
| `DevicePackage` | device_package.dfy | the process-wide globals of DevicePackage.h / main.cpp, as a class |
| `AcquisitionSpec` | acquisition_spec.dfy | the per-frame machine `Step` over `AcqState`, plus its lemmas |
| `AcquisitionThread` | acquisition_thread.dfy | class `AcquireImageThread`; every method is proved against `Step` through `View()` |
| `Decimal` | decimal.dfy | `QString::number` on integers and its inverse |
| `ImageSaving` | writer.dfy | class `ImageSaveThread`; `Run` is proved against the pure walk `Walk` |
| `ImageSaveDialog` | dispatcher.dfy | slice arithmetic and class `ImageSaveWidget` |
| `Camera` | camera.dfy | class `HamamatsuCamera`, plus the trigger-mode condition chains |
| `LaserReply` | laser_reply.dfy | the pure reply scanner, `strtol`, and the status decoder |
| `LaserDevice` | laser.dfy | class `Laser`; `AnalyseData` is an in-place loop over the 256-byte value buffer |
| `ControlPanelModel` | control_panel.dfy | class `ControlPanel` and its decision functions |
| `FluoImagingModel` | fluo_imaging.dfy | class `TrackingWindow`, margins, toolbar, connect toggle and routing |

Device SDK calls (DCAM, OpenCV, serial I/O) are success/failure or data
parameters. Qt signals are appended to logs or counted. A write to disk is
a logged `WriteEffect`. `ImageCount` is the MSVC 32-bit `unsigned long` and
wraps modulo 2^32. C integer division truncates toward zero (`CDiv`).
`strtol` saturates at the 32-bit `long` range. Doubles are Dafny reals.

From a fresh count, M accepted frames give ⌈M/d⌉ display publications,
because count 0 is a multiple of d and frame 0 is shown
(`AcquisitionSpec.DisplayCountFromStart`).

## Model

| member | source | states |
|---|---|---|
| DevicePackage.Globals.constructor | main.cpp:8-14 | display interval 8, no capture buffer, no session, target count 0, the initial window info |
| AcquisitionSpec.Step | Hamamatsu_AcquireImageThread.cpp:106-157 | a failed wait or lock, or a negative stride, changes nothing; each accepted frame adds one to ImageCount mod 2^32; a frame is shown iff ImageCount % interval == 0, writing ring slot Buffer_Index, publishing it and advancing the cursor mod 16; only inside a session is the frame stamped into slot SaveImage_Index; the session ends, with index 0 and one finish signal, at the target count; the invariant is kept |
| AcquisitionSpec.Steps | Hamamatsu_AcquireImageThread.cpp:66-72 | the loop body over a sequence of frames keeps the invariant and leaves the interval and the target count alone |
| AcquisitionSpec.StepsAppend | Hamamatsu_AcquireImageThread.cpp:66-72 | running a + b is running a, then b |
| AcquisitionSpec.StepsSnoc | Hamamatsu_AcquireImageThread.cpp:66-72 | running one more frame after a run is one more Step |
| AcquisitionSpec.StepsDisplay | Hamamatsu_AcquireImageThread.cpp:137-150 | without wrap-around, a run raises the count by the number of accepted frames; the display log gains exactly the multiples of the interval among the counts visited, in order; the cursor advances once per display, mod 16 |
| AcquisitionSpec.MultiplesCount | Hamamatsu_AcquireImageThread.cpp:137 | the number of multiples of d in [c, c+m) is ⌈(c+m)/d⌉ − ⌈c/d⌉ |
| AcquisitionSpec.MultiplesBelow | Hamamatsu_AcquireImageThread.cpp:137 | every logged display number lies in the run's range and is a multiple of the interval |
| AcquisitionSpec.DisplayCountFromStart | Hamamatsu_AcquireImageThread.cpp:137-150 | from a fresh count, M accepted frames with interval d give exactly ⌈M/d⌉ displays and Buffer_Index = (start + ⌈M/d⌉) mod 16; every displayed number is below M and a multiple of d |
| AcquisitionSpec.NineFramesIntervalTwo | Hamamatsu_AcquireImageThread.cpp:137-148 | nine accepted frames at interval 2 show frames 0, 2, 4, 6, 8 and leave the cursor at 5 |
| AcquisitionSpec.IdleFramesKeepCapture | Hamamatsu_AcquireImageThread.cpp:126 | outside a session any run of frames leaves the capture buffer, the session flag, the write index and the finish count unchanged |
| AcquisitionSpec.SessionPartialFill | Hamamatsu_AcquireImageThread.cpp:126-129 | while the session is short of its target, frame j lands stamped in slot index+j, the session stays active and no other slot changes |
| AcquisitionSpec.SessionFill | Hamamatsu_AcquireImageThread.cpp:126-134 | a session for N frames fed ≥ N accepted frames fills slots 0..N−1 in order, fires the finish signal exactly once, clears the flag, resets the index to 0, and later frames overwrite nothing |
| AcquisitionSpec.ImageAt | Hamamatsu_AcquireImageThread.cpp:159-173 | the returned buffer is USHORT; it carries the thread's geometry and the slot's pixels iff the slot is allocated, otherwise null data and 0 × 0 |
| AcquisitionSpec.LatestSlot | Hamamatsu_AcquireImageThread.cpp:145-147 | the slot one behind the cursor, whose successor mod 16 is the cursor |
| AcquisitionSpec.LatestIsLastDisplayed | Hamamatsu_AcquireImageThread.cpp:145-147 | right after a displayed frame, the corrected latest buffer holds that frame's pixels |
| AcquisitionSpec.LatestUnchangedByHiddenFrame | Hamamatsu_AcquireImageThread.cpp:137 | a frame that is not displayed leaves the latest buffer as it was |
| AcquisitionSpec.LatestAsWrittenIsOldest | Hamamatsu_AcquireImageThread.cpp:159-173 | as written, the buffer returned after a display is the slot after the one just written, the oldest frame in the ring |
| AcquisitionSpec.LatestAsWrittenMissesNewFrame | Hamamatsu_AcquireImageThread.cpp:167-170 | a concrete state in which the as-written accessor does not return the frame just displayed |
| AcquisitionThread.AcquireImageThread.constructor | Hamamatsu_AcquireImageThread.cpp:8-16 | flags clear, all counters 0, and all 16 ring slots own fresh storage (CreateBuffers, lines 83-91) |
| AcquisitionThread.AcquireImageThread.Create | Hamamatsu_AcquireImageThread.cpp:75-92 | a thread object exists iff dcam_getdataframebytes succeeds; otherwise the error is returned |
| AcquisitionThread.AcquireImageThread.StopThread | Hamamatsu_AcquireImageThread.cpp:27-30 | sets the stop flag and changes nothing else |
| AcquisitionThread.AcquireImageThread.StartThread | Hamamatsu_AcquireImageThread.cpp:32-36 | clears the stop flag and changes nothing else |
| AcquisitionThread.AcquireImageThread.ClearImageCount | Hamamatsu_AcquireImageThread.h:26-28 | sets ImageCount to 0 and changes nothing else |
| AcquisitionThread.AcquireImageThread.AcquireImage | Hamamatsu_AcquireImageThread.cpp:106-157 | the thread's fields, ring and the globals after one call equal `Step` of the state before |
| AcquisitionThread.AcquireImageThread.SaveIntoSession | Hamamatsu_AcquireImageThread.cpp:126-135 | inside a session the new state is `SaveFrame` of the old, otherwise unchanged |
| AcquisitionThread.AcquireImageThread.PublishIfDue | Hamamatsu_AcquireImageThread.cpp:137-149 | when the count is a multiple of the interval the new state is `Publish` of the old, otherwise unchanged |
| AcquisitionThread.AcquireImageThread.Run | Hamamatsu_AcquireImageThread.cpp:38-73 | allocation failure returns at once; capture failure frees the frames and clears hasAllocatedFrames; otherwise the image size is read, the frames run in order as `Steps`, and the loop leaves only with the stop flag set, idling the device |
| AcquisitionThread.AcquireImageThread.PollFrames | Hamamatsu_AcquireImageThread.cpp:66-72 | the while(true) loop: the state afterwards is `Steps` over the frames (none if the flag was already set), and the flag is set |
| AcquisitionThread.AcquireImageThread.GetLatestImageBuffer | Hamamatsu_AcquireImageThread.cpp:159-173 | corrected: returns `ImageAt` of the slot one behind the cursor |
| AcquisitionThread.AcquireImageThread.ClearBuffers | Hamamatsu_AcquireImageThread.cpp:94-104 | every slot is released and the published display image is cleared |
| AcquisitionThread.AcquireImageThread.Destroy | Hamamatsu_AcquireImageThread.cpp:18-25 | frees the device frames iff they were allocated, then releases every ring slot and unpublishes the display image; the capture buffer, session flag, target count and display interval are kept |
| Decimal.DigitChar | imagesavethread.cpp:46 | a decimal digit character for each value below 10 |
| Decimal.Digits | imagesavethread.cpp:46 | a non-empty digit string with no leading zero except for 0 |
| Decimal.Number | imagesavethread.cpp:46 | `QString::number`: a leading '-' iff negative, digits otherwise |
| Decimal.DigitsRoundTrip | imagesavethread.cpp:46 | reading the digits back gives the number |
| Decimal.NumberRoundTrip | imagesavethread.cpp:46 | parsing `Number(n)` gives n back |
| Decimal.NumberInjective | imagesavethread.cpp:46 | distinct timestamps give distinct texts |
| ImageSaving.FileNameInjective | imagesavethread.cpp:46 | within one folder, prefix and format, different timestamps give different file names |
| ImageSaving.WriteOf | imagesavethread.cpp:48-57 | USHORT frames are written as 16-bit and UCHAR frames as 8-bit, with the frame's rows, columns and pixels under the given name; any other type writes nothing |
| ImageSaving.Writes | imagesavethread.cpp:37-57 | a sequence of frames produces at most one write per frame |
| ImageSaving.WritesOfTypedFrames | imagesavethread.cpp:48-57 | when every frame is USHORT or UCHAR, write k is exactly frame k's write |
| ImageSaving.Gather | imagesavethread.cpp:16-19 | the frames a worker's index list designates, at most one per index |
| ImageSaving.GatherInRange | imagesavethread.cpp:16-19 | with indices in range, entry k is store[idx[k]] |
| ImageSaving.Processed | imagesavethread.cpp:37-43 | a stop before the run processes nothing; with no stop every frame is processed; never more than the slice |
| ImageSaving.ImageSaveThread.FromList | imagesavethread.cpp:5-10 | the given frames, stop flag clear, reported as stopped |
| ImageSaving.ImageSaveThread.Slice | imagesavethread.cpp:12-20 | exactly `count` entries offset+0 … offset+count−1 in order, stop flag clear, m_isStopped left indeterminate |
| ImageSaving.ImageSaveThread.Stop | imagesavethread.cpp:26-29 | sets only the stop flag |
| ImageSaving.ImageSaveThread.IsStopped | imagesavethread.cpp:31-33 | returns m_isStopped |
| ImageSaving.ImageSaveThread.Run | imagesavethread.cpp:35-65 | the worker's store, writes and notifications equal `Walk` over the first `Processed` frames of its slice; afterwards it reports stopped; an early exit implies the stop flag |
| ImageSaving.ImageSaveThread.SaveOne | imagesavethread.cpp:44-62 | one frame: the new state is `SaveFrame` of the old |
| ImageSaving.SaveFrame | imagesavethread.cpp:44-62 | one frame keeps the store size and adds exactly one notification for an index in range |
| ImageSaving.Walk | imagesavethread.cpp:37-63 | a walk keeps the store size and emits at most one notification per frame |
| ImageSaving.WalkReleases | imagesavethread.cpp:59-60 | after a walk over distinct indices, exactly the visited frames have null pixels |
| ImageSaving.WalkNotifies | imagesavethread.cpp:62 | the notifications are the visited indices, one each, in order |
| ImageSaving.WalkWrites | imagesavethread.cpp:46-57 | the writes are those of the visited frames, in order, read before release |
| ImageSaving.Released | imagesavethread.cpp:59-60 | releasing keeps the buffer length |
| ImageSaving.ReleasedFrames | imagesavethread.cpp:59-60 | released frames lose only their pixels; frames not listed are untouched |
| ImageSaveDialog.SliceOffsetClosedForm | ImageSaveWidget.cpp:277-286 | slice i starts at i·⌊N/8⌋ + min(i, N mod 8) |
| ImageSaveDialog.SlicesCoverAll | ImageSaveWidget.cpp:277-286 | the 8 slice sizes sum to N |
| ImageSaveDialog.SlicesBalanced | ImageSaveWidget.cpp:282-283 | every slice has ⌊N/8⌋ or ⌊N/8⌋+1 frames, and no two differ by more than one |
| ImageSaveDialog.SliceOffsetMonotone | ImageSaveWidget.cpp:280-286 | slice starts never decrease |
| ImageSaveDialog.SliceOf | ImageSaveWidget.cpp:280-286 | every frame index below N lies in some slice |
| ImageSaveDialog.SliceUnique | ImageSaveWidget.cpp:280-286 | and in only that one, so the slices are disjoint |
| ImageSaveDialog.Range | ImageSaveWidget.cpp:284 | the indices a slice covers, consecutive from its start |
| ImageSaveDialog.SlicesPartition | ImageSaveWidget.cpp:277-287 | the slices laid end to end are exactly 0 … N−1 |
| ImageSaveDialog.PoolWalkNotifies | imagesavethread.cpp:62 | workers 0 … i−1, each walking its slice, notify exactly the frames of those slices, in worker order |
| ImageSaveDialog.PoolNotifiesEveryFrame | ImageSaveWidget.cpp:184-204 | the whole pool notifies each of the N frames exactly once, so N itemSaved notifications bring savedNum from 0 to ImageNum, where the dialog finishes |
| ImageSaveDialog.ImageNumWarnings | ImageSaveWidget.cpp:93-102 | no warning iff 0 < n ≤ 10000; the capacity warning above 10000, the invalid-number warning at or below 0 |
| ImageSaveDialog.AllocatedSlot | ImageSaveWidget.cpp:210-219 | each slot carries the requested width, height and type, with width·height elements of pixel storage for USHORT/UCHAR and none for other types |
| ImageSaveDialog.ImageSaveWidget.constructor | ImageSaveWidget.cpp:14-23 | format "tiff", folder "E:\\", count 1, nothing saved, all 8 thread entries null, progress dialog closed |
| ImageSaveDialog.ImageSaveWidget.OnImageNumChanged | ImageSaveWidget.cpp:93-102 | stores the entered count whatever it is, and reports the warnings |
| ImageSaveDialog.ImageSaveWidget.Allocate | ImageSaveWidget.cpp:206-222 | re-reads the count, then returns a fresh array of that many `AllocatedSlot`s; null when new[] would throw (a negative count, or a negative width·height for a typed slot) |
| ImageSaveDialog.ImageSaveWidget.FinishWorks | ImageSaveWidget.cpp:159-182 | every worker is asked to stop, every thread entry ends null, and the progress dialog closes |
| ImageSaveDialog.ImageSaveWidget.OnCancelButton | ImageSaveWidget.cpp:153-157 | finishWorks: every entry null, every old worker flagged to stop |
| ImageSaveDialog.ImageSaveWidget.OnOkButton | ImageSaveWidget.cpp:121-151 | with an empty folder only a warning; otherwise, for the camera window, the old capture buffer is dropped, the session flag is raised and a start request is emitted |
| ImageSaveDialog.ImageSaveWidget.SaveImages | ImageSaveWidget.cpp:253-289 | stops the previous pool and resets savedNum to 0; no workers without a buffer; otherwise worker i is a fresh slice worker over slice i with format "tiff" |
| ImageSaveDialog.ImageSaveWidget.SpawnWorkers | ImageSaveWidget.cpp:277-288 | the creation loop: worker i covers SliceOffset(N, i) with SliceCount(N, i) frames |
| ImageSaveDialog.ImageSaveWidget.OnImageItemSaved | ImageSaveWidget.cpp:184-204 | adds one to savedNum; below ImageNum nothing else changes (globals, threads, messages, the progress dialog and every worker are kept); at savedNum == ImageNum the pool is finished and the progress dialog closed, and for the camera dialog the message is shown and the capture buffer pointer is cleared, while for another dialog the globals and messages are kept |
| Camera.TriggerSettings | Hamamatsu_Camera.cpp:200-233 | three property writes for "Internal", "External Level" and "Global Reset", with their source, activity and exposure values; none for any other name |
| Camera.FirstSuccess | ControlPanel.cpp:1152-1158 | the first acknowledged attempt, or the length when there is none |
| Camera.AndNotChainMeaning | Hamamatsu_Camera.cpp:202-204 | as written the chain fails only if every write fails, and it stops after the first write that succeeds |
| Camera.OrNotChainMeaning | Hamamatsu_Camera.cpp:202-204 | corrected, the chain fails iff some write fails and stops at the first failure |
| Camera.AndNotChainAcceptsPartialSetting | Hamamatsu_Camera.cpp:212-217 | as written, success is reported after only the trigger source was set, although the next write would have failed |
| Camera.HamamatsuCamera.constructor | Hamamatsu_Camera.cpp:10-16 | no handle, disconnected, no thread |
| Camera.HamamatsuCamera.Connect | Hamamatsu_Camera.cpp:28-40 | a failed open leaves the camera disconnected and raises the error; otherwise it is connected (IsConnected, lines 78-81) |
| Camera.HamamatsuCamera.ReleaseData | Hamamatsu_Camera.cpp:83-88 | unpublishes the display image only |
| Camera.HamamatsuCamera.Disconnect | Hamamatsu_Camera.cpp:67-76 | always ends with no handle, disconnected and the display data cleared; closes the device iff there was a handle, so a second call is harmless; the thread, the sub-array, the property and polarity logs, the capture buffer, session flag, target count and display interval are kept |
| Camera.HamamatsuCamera.SetTriggerMode | Hamamatsu_Camera.cpp:195-240 | false without a handle or for an unknown mode, writing nothing; otherwise the corrected chain writes the mode's properties until one fails and succeeds iff all three succeed |
| Camera.HamamatsuCamera.SetTriggerPolarity | Hamamatsu_Camera.cpp:260-275 | only positive or negative reach the device, and only with a handle; success iff the device accepts |
| Camera.HamamatsuCamera.SetImageSize | Hamamatsu_Camera.cpp:497-511 | the cached left/top/width/height change iff there is a handle and the device call succeeds |
| Camera.HamamatsuCamera.GetImageSize | Hamamatsu_Camera.cpp:513-528 | success iff there is a handle and the device reports a size, which is then cached and returned |
| Camera.HamamatsuCamera.StartStreaming | Hamamatsu_Camera.cpp:816-823 | creates and starts a thread only when none exists; repeated starts keep the same thread; the frame geometry is kept |
| Camera.HamamatsuCamera.StopStreaming | Hamamatsu_Camera.cpp:825-833 | no-op without a thread; otherwise the thread is stopped, its ring released and the thread reference set to null, and the display image unpublished, so a second stop is a no-op; the capture buffer, session flag, target count and display interval are kept either way |
| Camera.HamamatsuCamera.Live | Hamamatsu_Camera.cpp:786-808 | nothing without a handle; otherwise the display image is unpublished, the frame width and height become the reported size when the query succeeds (kept when it fails), and streaming is started, failing exactly when a thread is needed and cannot be made; the offsets, capture buffer, session flag, target count and interval are kept |
| Camera.HamamatsuCamera.StopLive | Hamamatsu_Camera.cpp:810-814 | nothing without a handle; otherwise StopStreaming, so the display image is unpublished iff a thread was stopped; the capture buffer, session flag, target count and interval are kept |
| LaserReply.ScanLimit | Laser.cpp:381 | the positions examined are 0 ≤ i < num − 3 (none when num < 3) |
| LaserReply.FirstOk | Laser.cpp:381-386 | the first examined position holding "OK\r\n", or none |
| LaserReply.NonSpace | Laser.cpp:387-389 | the non-space bytes of a prefix, in order |
| LaserReply.AnalyseSuccess | Laser.cpp:376-392 | success iff "OK\r\n" starts at some i < num − 3; false whenever num < 4 |
| LaserReply.AnalyseValue | Laser.cpp:382-389 | on success the value is the non-space bytes before the first match |
| LaserReply.AnalyseValueFits | Laser.cpp:379-389 | the value is never longer than num − 3, so for num ≤ 256 it fits the 256-byte buffer |
| LaserReply.Padded | Laser.cpp:380 | the buffer after memset: the value followed by NUL bytes |
| LaserReply.CString | Laser.cpp:155 | the bytes up to the first NUL, as strlen reads them |
| LaserReply.CStringOfPadded | Laser.cpp:155 | strlen of the padded value is the value's length |
| LaserReply.CStringStopsAtNul | Laser.cpp:155 | strlen stops at or before any NUL |
| LaserReply.HexDigitValue | Laser.cpp:159 | each hex digit has a value below 16 |
| LaserReply.SkipSpace | Laser.cpp:159 | strtol skips leading white space |
| LaserReply.HexRun | Laser.cpp:159 | the longest run of hex digits |
| LaserReply.Strtol16 | Laser.cpp:159 | strtol(…, 16) stays within the 32-bit long range |
| LaserReply.Saturate | Laser.cpp:159 | an out-of-range magnitude saturates to LONG_MAX or LONG_MIN |
| LaserReply.StrtolOfHexDigits | Laser.cpp:159 | on plain hex digits strtol gives their value, saturated at LONG_MAX |
| LaserReply.DecodeStatusCases | Laser.cpp:159-179 | decoding fails iff none of bits 0x1, 0x2, 0x4, 0x8, 0x100 is set; 0x1 always means Fault; Standby needs 0x8 without 0x4 and without 0x1000 |
| LaserReply.CurrentStateOutcomes | Laser.cpp:145-188 | a closed port gives "No Connection"; no OK reply gives Fault, "No Returned Status"; a value shorter than 8 gives Fault, "Invalid Status Code" |
| LaserReply.CurrentStateDecodes | Laser.cpp:153-187 | otherwise the word parsed from offset 4 is decoded by priority, and a word matching no bit falls through to "No Connection" |
| LaserDevice.CStringLength | Laser.cpp:155 | strlen is the position of the first NUL |
| LaserDevice.Laser.constructor | Laser.cpp:8-14 | no port, serial state closed, mode CWP |
| LaserDevice.Laser.Connect | Laser.cpp:16-24 | a failed Init_Com raises the error and leaves the state; otherwise the port is open |
| LaserDevice.Laser.Disconnect | Laser.cpp:26-34 | always ends closed with no port; closes the port iff there was one |
| LaserDevice.Laser.AnalyseData | Laser.cpp:376-392 | returns `Analyse(data).success`, and the value buffer afterwards is `Analyse(data).value` padded with NULs to 256 bytes |
| LaserDevice.Laser.Exchange | Laser.cpp:72-77 | one command: logged, then the reply analysed |
| LaserDevice.Laser.Start | Laser.cpp:69-80 | sends the start command only when connected; true iff connected and acknowledged |
| LaserDevice.Laser.Stop | Laser.cpp:82-93 | sends the stop command only when connected; true iff connected and acknowledged |
| LaserDevice.Laser.SetMode | Laser.cpp:95-116 | rejects modes other than CWP/DIGITAL without sending; the mode changes only on an acknowledged reply |
| LaserDevice.Laser.GetMode | Laser.cpp:118-143 | an acknowledged value starting "CWP" gives CWP, one starting "DIGITA" (6 characters compared) gives DIGITAL, anything else fails; laserMode follows the result; the query is sent, and logged, only when the laser is ready |
| LaserDevice.Laser.ValueLength | Laser.cpp:155 | strlen(LaserValue) |
| LaserDevice.Laser.GetCurrentState | Laser.cpp:145-188 | the status and text are `CurrentState` of the connection and the reply; the query is sent only when connected |
| ControlPanelModel.ClampExposureInRange | ControlPanel.cpp:655-674 | the stored exposure lies in [min, max], an in-range entry is kept, and clamping twice changes nothing |
| ControlPanelModel.FovPresetCentred | ControlPanel.cpp:734-762 | exactly "Full Image" and "512x512" are presets: 2048×2048 at (0,0) and 512×512 at (768,768), both centred on the sensor |
| ControlPanelModel.CaptureMode | ControlPanel.cpp:809-842 | each accepted entry names a known trigger mode and a positive interval |
| ControlPanelModel.CaptureModeIntervals | ControlPanel.cpp:813-838 | exactly "Internal", "External Trigger" and "Global Reset" are accepted; the interval is 2 iff "Internal", and 1 otherwise |
| ControlPanelModel.Z1StepPulsesInverse | ControlPanel.cpp:1082-1091 | a step is accepted iff 0 ≤ step ≤ 1000, and the pulses times 0.05 give the step back |
| ControlPanelModel.ArmAsWrittenEmptySession | ControlPanel.cpp:582-595 | as written, a count of 0 only warns and then arms a session whose write index lies outside its empty buffer, breaking the acquisition invariant |
| ControlPanelModel.ArmKeepsInv | ControlPanel.cpp:589-593 | corrected set-up keeps the acquisition invariant; a session is armed iff the count is positive |
| ControlPanelModel.ArmedSessionFills | ControlPanel.cpp:589-593 | a corrected session of n frames fed ≥ n accepted frames fills all n fresh slots in order and signals completion once |
| ControlPanelModel.ReportedSize | Hamamatsu_Camera.cpp:513-528 | the caller's size: the reported one with a handle and a device answer, 0 × 0 otherwise |
| ControlPanelModel.Acks | ControlPanel.cpp:1153 | whether each start reply acknowledges |
| ControlPanelModel.Repeat | ControlPanel.cpp:1152-1158 | n copies of the start command |
| ControlPanelModel.ChannelSeqNamed | ControlPanel.cpp:795-807 | the composite sequences the box offers; never Single |
| ControlPanelModel.ControlPanel.constructor | ControlPanel.cpp:24-41 | no devices, no save dialog, lasers not connected, zero exposure range (InitCamera, InitLasers) |
| ControlPanelModel.ControlPanel.ExposureTimeEdit | ControlPanel.cpp:655-674 | stores the clamped entry; sends it iff the camera is connected |
| ControlPanelModel.ControlPanel.UpdateExposureTimeRange | ControlPanel.cpp:636-652 | with a connected camera the range and current value are those the camera reports; otherwise nothing changes |
| ControlPanelModel.ControlPanel.ImageSizeBox | ControlPanel.cpp:734-766 | a preset sets the FOV and disables custom entry; "Custom" enables it and keeps the FOV |
| ControlPanelModel.ControlPanel.CaptureModeBox | ControlPanel.cpp:809-852 | with a connected camera a known mode sets the display interval (2 internal, 1 external) and writes its trigger properties, with positive polarity for external modes; otherwise the interval is unchanged |
| ControlPanelModel.ControlPanel.StartSaveImage | ControlPanel.cpp:582-595 | acts only for the camera window with a dialog, a connected camera and the session flag; a positive count sets the target and allocates that many USHORT slots of the camera geometry; when that allocation throws, the target stays set, no buffer is stored and the error is the result; corrected, a count ≤ 0 cancels the session |
| ControlPanelModel.ControlPanel.FinishSaveImage | ControlPanel.cpp:597-604 | always emits the stop-display signal; for another window the dialog is untouched; for the camera window the dialog's previous workers are stopped, the count reset and the progress dialog opened, and then either every slot is empty (no capture buffer, or a dialog of another window) or slot i holds a fresh worker over slice i of the buffer with the given prefix and tiff format |
| ControlPanelModel.ControlPanel.ImagingChannelChanged | ControlPanel.cpp:781-789 | single-channel imaging sets the sequence to SINGLE and the channel offset to 0 |
| ControlPanelModel.ControlPanel.AdjustImagingChannel | ControlPanel.cpp:791-793 | adds one to the channel offset and changes nothing else |
| ControlPanelModel.ControlPanel.ImagingChannelSeqBox | ControlPanel.cpp:795-807 | a named composite sequence is stored and published |
| ControlPanelModel.ControlPanel.Z1StepChanged | ControlPanel.cpp:1082-1091 | an invalid step is rejected with a message and z1_step unchanged; otherwise z1_step = step / 0.05 |
| ControlPanelModel.ControlPanel.Z1MoveUp | ControlPanel.cpp:964-1000 | a move starts iff the stage is connected and current + step ≤ 158000; the move requested never passes the up limit; after any invalid-step message, exactly one message is logged: no connection, up limit or move up, according to the branch taken |
| ControlPanelModel.ControlPanel.StartWithRetry | ControlPanel.cpp:1151-1162 | at most three start commands, stopping at the first acknowledged one; started iff one of the three replies acknowledges |
| ControlPanelModel.ControlPanel.LaserStartAll | ControlPanel.cpp:1148-1176 | each connected, ready laser gets its retries; a message is logged exactly for each laser that never acknowledged |
| FluoImagingModel.CDiv | FluoImaging.cpp:612 | C division, truncating toward zero; Euclidean for non-negative operands |
| FluoImagingModel.MarginsFit | FluoImaging.cpp:605-622 | for positive sizes both offsets are ≥ 0 and fit twice in the window, one offset is 0, one side fills the window, and the image is centred to within one pixel |
| FluoImagingModel.ToolbarRules | FluoImaging.cpp:313-335 | disconnected: capture, live, stop-live and reset disabled; connected: capture and reset enabled and exactly one of live/stop-live, chosen by isLive |
| FluoImagingModel.ClickAfterFailedConnect | FluoImaging.cpp:453-462 | as written, after a failed connect the toggle still flips, and the next click disconnects a null camera |
| FluoImagingModel.ClickAlternates | FluoImaging.cpp:453-462 | corrected, the toggle flips on every disconnect and on every successful connect, and agrees with the original on every disconnect and every successful connect |
| FluoImagingModel.RouteShifts | FluoImaging.cpp:509-525 | a composite sequence routes to GCaMP iff entry (image_num + offset) mod len is GCaMP; the route is periodic in len; "Adjust" routes like the next frame |
| FluoImagingModel.TrackingWindow.constructor | FluoImaging.cpp:213-214 | not connected, not live |
| FluoImagingModel.TrackingWindow.SetStatus | FluoImaging.cpp:313-335 | the toolbar becomes `ToolbarFor(connected, isLive)`; no other state changes |
| FluoImagingModel.TrackingWindow.ConnectCamera | FluoImaging.cpp:397-447 | a failed open clears the camera and leaves the toolbar as it was; a successful one connects, marks ready, records the reported size, reads the exposure range and refreshes the toolbar to the connected one (`ToolbarFor(true, isLive)`, the SetStatus of line 446); the capture buffer, session flag, target count and display interval are kept |
| FluoImagingModel.TrackingWindow.DisconnectCamera | FluoImaging.cpp:433-446 | the camera is disconnected and the window is no longer connected or ready; the toolbar is refreshed to the all-off one (`ToolbarFor(false, isLive)`); the display image is unpublished, and the capture buffer, session flag, target count and display interval are kept |
| FluoImagingModel.TrackingWindow.OnConnectAction | FluoImaging.cpp:453-462 | corrected: the toggle and camera evolve as `Click`; the toggle is on only with a connected camera; after a disconnect or a successful connect the toolbar matches the new connection state, after a failed connect it is unchanged |
| FluoImagingModel.TrackingWindow.OnLiveAction | FluoImaging.cpp:475-490 | on success both live flags are set, stop-live replaces live on the toolbar and, with a camera handle, the display image is unpublished; the error is thrown exactly when a thread is needed and cannot be made, and then the live flags and toolbar are kept while the display image is already unpublished (Live does that before it throws) |
| FluoImagingModel.TrackingWindow.OnStopLiveAction | FluoImaging.cpp:492-507 | both live flags are cleared, live replaces stop-live, and streaming is stopped; the display image is unpublished iff a thread was running; the capture buffer, session flag, target count and interval are kept |
| FluoImagingModel.TrackingWindow.HasStopDisplay | FluoImaging.cpp:535-541 | both live flags are cleared and live replaces stop-live; the capture buffer, session flag, target count and interval are kept |
| FluoImagingModel.TrackingWindow.DisplayImageSlot | FluoImaging.cpp:509-525 | the published image is shown in the window `Route` picks, or nowhere |
| Util.GetErrorString | Util.h:87-89 | the text is object, "::", source, ": ", description, newline, in that order, so its length is the sum plus 5 |
| Util.ErrorStringDeterminesDescription | Util.h:87-89 | for a fixed object and source, the text determines the description |
| Util.MotionTime | Util.h:84-86 | time × speed = 1000·\|distance\|, non-negative for positive speed |
| Util.MotionTimeSymmetric | Util.h:84-86 | the same time for distance and −distance |
| Util.Square | Util.h:90-92 | never negative |

## Left out

- Threads run one after another. The acquisition loop, the writers and the GUI slots are sequential calls. A concurrent `StopThread` or `stop()` is taken to arrive after the frames given to `Run`/`PollFrames` or before the frame given to the writer. Interleavings of the capture buffer between the acquisition loop and the writers are not modelled; the caller keeps that protocol.
- ImageSaveDialog.ImageSaveWidget.FinishWorks: requires that every live worker has already returned from `run`. The busy-wait that polls `isStoped()` until they do is not modelled, because it needs the concurrent writers.
- DCAM SDK, OpenCV `imwrite`, serial port and Galil stage calls are not modelled. Each is a parameter giving success, failure or reply bytes, and a write is a logged `WriteEffect`.
- Disk file names are logged as their parts (`FilePath`). `FileName` gives the text, and `FileNameInjective` shows that distinct timestamps give distinct names.
- `CopyData` and `ConvertImagingChannelSeqToArray` have no body in the source. A copy is "slot := frame snapshot", and the channel array is a parameter of `Route`.
- Uninitialised C values are parameters: the slice constructor's `m_isStopped` (`indeterminate`), the initial `z1_step` (`step`), and the exposure range a failed camera query leaves.
- AcquisitionThread.AcquireImageThread.constructor: sets `image_width` and `image_height` to 0, where the original constructor leaves them uninitialised until `run` reads the image size.
- ImageSaveDialog.ImageSaveWidget.Allocate: a `new[]` that throws is modelled as a null result. `ControlPanelModel.ControlPanel.StartSaveImage` turns it back into the thrown error (`thrown`) and stores no buffer; what happens to the exception after it leaves the Qt slot is not modelled.
- FluoImagingModel.Route: `image_num` is a 32-bit `unsigned long`, so `image_num + offset` wraps modulo 2^32 in the original; the model adds unbounded integers, which differs only after 2^32 frames.
- A capture slot's timestamp starts at 0.
- Camera.HamamatsuCamera.GetImageSize: on failure the caller's size is taken as 0 × 0, because the original leaves it uninitialised.
- FluoImagingModel.MarginsFit: integer products are unbounded, so 32-bit overflow of `image_width*window_height` for very large sizes is not modelled.
- Doubles are modelled as reals: exposure times, Z1 steps and positions, and motion times. Rounding is not modelled.
- ControlPanelModel.ControlPanel.Z1MoveUp: the up-limit message with the formatted remaining distance is logged as its fixed prefix only.
- `SaveImage_Index` is not reset when a session is interrupted. `ControlPanelModel.ArmKeepsInv` therefore assumes a start from index 0, as after a completed session.
- The count text is taken as committed before OK is pressed. `Allocate` re-reads it as the entered value.
- FluoImagingModel.TrackingWindow.OnStopLiveAction: requires a camera object. The original dereferences the camera without a check, and the toolbar enables Stop Live only while live, so a null camera there is not modelled.
- ImageSaving.ImageSaveThread.FromList: requires the listed frames to be distinct and inside the capture buffer. A list naming one frame twice would make the original write a frame it has already released and delete it twice, which the model does not describe.
- ImageSaveDialog.PoolWalk: the eight workers run one after another. Only the notification count is claimed for the concurrent pool, and it does not depend on the order.
- FluoImagingModel.TrackingWindow.OnLiveAction: requires a camera object. The toolbar enables Live only when connected, so the null dereference the original would hit otherwise is not modelled.
- `OnTabChanged` is modelled only through its SetStatus call, the toolbar refresh that ends ConnectCamera and DisconnectCamera; its current-window flag is left out because nothing in the model reads it.
- `EnableHamamatsuGroup`, `CameraConnected`, icons, tooltips, message-box layout, status-bar text and timers are widget work. They are left out.
- `Get_TriggerMode` and `Get_PixelEncoding` are not modelled. Their `==`/wrong-variable tests make them meaningless as written.
- Device temperature, readout rate, `Capture` and feature queries are vendor calls. They are left out.
- Focus metrics, OpenGL display and the Z stage drivers are floating-point, GPU or device work. They are not part of this model.

## Findings

| source | as written | input that shows it | evidently intended | confidence | as-written member | corrected member |
|---|---|---|---|---|---|---|
| ImageSaveWidget.cpp:93-102, ControlPanel.cpp:589-593 | a frame count of 0 only shows a warning; StartSaveImage still raises the session and allocates a 0-slot buffer, so the next frame writes slot 0 of an empty array and the index never meets the target again (a negative count instead makes `new ImageBuffer[ImageNum]` in Allocate throw, so no buffer is stored) | ImageNum 0, then OK with the camera live | a count that is not positive does not arm a session | high, not executed | ControlPanelModel.ArmAsWrittenEmptySession | ControlPanelModel.ArmKeepsInv |
| Hamamatsu_AcquireImageThread.cpp:167-170 | Get_LatestImageBuffer reads `circularBuffers[Buffer_Index]`, the slot after the last one written, which holds the oldest ring frame | any state right after a displayed frame, with different pixels in the next slot | return the slot last written, one behind the cursor | high, not executed | AcquisitionSpec.LatestAsWrittenMissesNewFrame | AcquisitionSpec.LatestIsLastDisplayed |
| Hamamatsu_Camera.cpp:202-204 | `!set(a) && !set(b) && !set(c)` stops at the first successful write and reports failure only if all three fail | mode "External Level" with the source write succeeding and the activity write failing | `\|\|`: write every property and report any failure | high, not executed | Camera.AndNotChainAcceptsPartialSetting | Camera.OrNotChainMeaning |
| FluoImaging.cpp:453-462 | the static toggle flips even when the connect fails, so the next click takes the disconnect branch on a null camera | click with the camera unplugged, then click again | flip the toggle only when the connect succeeds | medium, not executed | FluoImagingModel.ClickAfterFailedConnect | FluoImagingModel.ClickAlternates |
