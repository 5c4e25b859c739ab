/**
 * Plain records, enumerations and inline helpers shared by the camera pipeline
 * (Util.h). The pixel storage behind a frame pointer is modelled as the value
 * it holds, a sequence of pixel values; a null pointer is `None`.
 */
module Util {

  datatype Option<+T> = None | Some(value: T)

  /** Outcome of an operation whose failure the source raises as a QException. */
  datatype Outcome = Pass | Fail(error: string)

  /** A frame snapshot as CopyData leaves it in a destination buffer. */
  type Pixels = seq<int>

  /**
   * DATATYPE. The C++ enum has two named values; `OtherType` stands for any
   * other value a variable of that enum type may hold, which the writers
   * handle by writing nothing.
   */
  datatype DataType = UcharType | UshortType | OtherType(code: int)

  /** ImageBuffer: one frame slot of a capture buffer. */
  datatype ImageBuffer = ImageBuffer(
    timestamp: int,
    imageWidth: int,
    imageHeight: int,
    imageData: Option<Pixels>,
    dataType: DataType)

  /** ImageSize as reported by the camera. */
  datatype ImageSize = ImageSize(width: int, height: int, stride: int)

  /** DeviceStatus */
  datatype DeviceStatus = Opened | Connected | Disconnected

  /** SerialStatus */
  datatype SerialStatus = SerialOpened | SerialClosed

  /** DisplayWindowFlag */
  datatype DisplayWindowFlag = HamamatsuWindow | AndorWindow | IoWindow

  /** ImagingChannelsSeq */
  datatype ImagingChannelsSeq = Single | CompG1R1G1R1G1R1 | CompG1R1G1R1G1 | CompG1R1G1R1

  const GCAMP_CHANNEL: int := 0x01
  const RFP_CHANNEL: int := 0x02

  /**
   * GetErrorString: the message is the object name, "::", the source, ": ",
   * the description and a newline, in that order and nothing else.
   */
  function GetErrorString(obj: string, source: string, description: string): (r: string)
    ensures |r| == |obj| + |source| + |description| + 5
    ensures r[..|obj|] == obj
    ensures r[|obj|..|obj| + 2] == "::"
    ensures r[|obj| + 2..|obj| + 2 + |source|] == source
    ensures r[|obj| + 2 + |source|..|obj| + 4 + |source|] == ": "
    ensures r[|obj| + 4 + |source|..|r| - 1] == description
    ensures r[|r| - 1] == '\n'
  {
    obj + "::" + source + ": " + description + "\n"
  }

  /** Two messages built from the same object and source are equal only for equal descriptions. */
  lemma ErrorStringDeterminesDescription(obj: string, source: string, d1: string, d2: string)
    requires GetErrorString(obj, source, d1) == GetErrorString(obj, source, d2)
    ensures d1 == d2
  {
    var r := GetErrorString(obj, source, d1);
    assert d1 == r[|obj| + 4 + |source|..|r| - 1];
  }

  function Abs(x: real): real { if x < 0.0 then -x else x }

  /**
   * Get_MotionTime: milliseconds needed to travel `distance` at `speed`
   * (1000 * |distance| / speed).
   */
  function MotionTime(speed: real, distance: real): (ms: real)
    requires speed != 0.0
    ensures ms * speed == 1000.0 * Abs(distance)
    ensures speed > 0.0 ==> ms >= 0.0
  {
    1000.0 * Abs(distance) / speed
  }

  /** Moving up or down by the same amount takes the same time. */
  lemma MotionTimeSymmetric(speed: real, distance: real)
    requires speed != 0.0
    ensures MotionTime(speed, distance) == MotionTime(speed, -distance)
  {
  }

  /** Square: never negative. */
  function Square(v: real): (r: real)
    ensures r >= 0.0
  {
    v * v
  }
}
