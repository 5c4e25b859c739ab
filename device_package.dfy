/**
 * The process-wide session globals shared by the acquisition loop, the
 * recording dialog and the control panel (declared in DevicePackage.h and
 * initialised in main.cpp), gathered into one object.
 */
module DevicePackage {
  import opened Util

  /**
   * What hamamatsuWindowInfo.image_data points at: nothing, one slot of the
   * acquisition ring, or the single-shot capture buffer of the camera.
   */
  datatype DisplayData = NoImage | RingSlot(slot: nat) | SnapshotBuffer

  /** The fields of WindowInfo that the pipeline reads or writes. */
  datatype WindowInfo = WindowInfo(
    isLive: int,
    imageWidth: int,
    imageHeight: int,
    imageStride: int,
    imageNum: nat,
    imageData: DisplayData,
    dataType: DataType,
    channelOffset: int,
    imagingChannelSeq: ImagingChannelsSeq)

  const FULLIMAGE_WIDTH: int := 2048
  const FULLIMAGE_HEIGHT: int := 2048

  /** Initial value of hamamatsuWindowInfo. */
  const INITIAL_WINDOW_INFO: WindowInfo :=
    WindowInfo(0, FULLIMAGE_WIDTH, FULLIMAGE_HEIGHT, FULLIMAGE_WIDTH, 0, NoImage, UshortType, 0, Single)

  /** Initial value of HAMAMATSU_DISPLAY_INTERVAL. */
  const INITIAL_DISPLAY_INTERVAL: int := 8

  class Globals {
    /** HAMAMATSU_DISPLAY_INTERVAL */
    var displayInterval: int
    /** HamamatsuImageBuffers (null when no capture buffer is allocated) */
    var imageBuffers: array?<ImageBuffer>
    /** HamamatsuSaveImageNum */
    var saveImageNum: int
    /** HamamatsuStartSaveImage */
    var startSaveImage: bool
    /** hamamatsuWindowInfo */
    var windowInfo: WindowInfo

    constructor ()
      ensures displayInterval == INITIAL_DISPLAY_INTERVAL
      ensures imageBuffers == null && saveImageNum == 0 && !startSaveImage
      ensures windowInfo == INITIAL_WINDOW_INFO
    {
      displayInterval := INITIAL_DISPLAY_INTERVAL;
      imageBuffers := null;
      saveImageNum := 0;
      startSaveImage := false;
      windowInfo := INITIAL_WINDOW_INFO;
    }
  }
}
