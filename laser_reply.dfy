/**
 * The text side of the laser's serial protocol: recognising an acknowledged
 * reply and extracting its value (AnalyseData), C string views of the
 * 256-byte value buffer, C `strtol` in base 16 with a 32-bit `long`, and the
 * decoding of the status word into a LaserStatus (GetCurrentState).
 */
module LaserReply {
  import opened Util

  /** The acknowledgement that ends a reply. */
  const OK_REPLY: string := "OK\r\n"
  /** Size of the serial read buffer: a reply never holds more bytes. */
  const MAX_BUFFER_SIZE: nat := 256
  /** Size of the LaserValue buffer. */
  const VALUE_SIZE: nat := 256

  // ---------------------------------------------------------------------
  // AnalyseData
  // ---------------------------------------------------------------------

  /** The acknowledgement starts at position i. */
  predicate OkAt(data: seq<char>, i: int) {
    0 <= i && i + 4 <= |data| && data[i..i + 4] == OK_REPLY
  }

  /** The positions AnalyseData examines: 0 <= i < num - 3. */
  function ScanLimit(data: seq<char>): (n: nat)
    ensures n <= |data| && (|data| >= 3 ==> n == |data| - 3) && (|data| < 3 ==> n == 0)
  {
    if |data| < 3 then 0 else |data| - 3
  }

  /** The first acknowledgement at or after `from` among the examined positions. */
  function FirstOk(data: seq<char>, from: nat): (r: Option<nat>)
    ensures r.Some? ==> from <= r.value < ScanLimit(data) && OkAt(data, r.value)
                        && forall j :: from <= j < r.value ==> !OkAt(data, j)
    ensures r.None? ==> forall j :: from <= j < ScanLimit(data) ==> !OkAt(data, j)
    decreases |data| - from
  {
    if from >= ScanLimit(data) then None
    else if OkAt(data, from) then Some(from)
    else FirstOk(data, from + 1)
  }

  /** The characters of s other than ' ', in order. */
  function NonSpace(s: seq<char>): (r: seq<char>)
    ensures |r| <= |s| && forall k :: 0 <= k < |r| ==> r[k] != ' '
  {
    if s == [] then []
    else NonSpace(s[..|s| - 1]) + (if s[|s| - 1] == ' ' then [] else [s[|s| - 1]])
  }

  /** What AnalyseData reports: whether the reply was acknowledged, and the value it leaves. */
  datatype Reply = Reply(success: bool, value: seq<char>)

  /**
   * AnalyseData on the received bytes `data` (num == |data|): success iff an
   * acknowledgement starts before num - 3; the value is the non-space bytes
   * in front of the first acknowledgement, or of the whole examined range.
   */
  function Analyse(data: seq<char>): (r: Reply)
  {
    var first := FirstOk(data, 0);
    var end := if first.Some? then first.value else ScanLimit(data);
    Reply(first.Some?, NonSpace(data[..end]))
  }

  /** An acknowledged reply is one with "OK\r\n" at an examined position; none fits in fewer than 4 bytes. */
  lemma AnalyseSuccess(data: seq<char>)
    ensures Analyse(data).success <==> exists i :: 0 <= i < |data| - 3 && OkAt(data, i)
    ensures |data| < 4 ==> !Analyse(data).success
  {
    var first := FirstOk(data, 0);
    if first.Some? {
      assert OkAt(data, first.value);
    }
  }

  /** The value of an acknowledged reply is the non-space text in front of its first "OK\r\n". */
  lemma AnalyseValue(data: seq<char>, i: nat)
    requires OkAt(data, i) && forall j :: 0 <= j < i ==> !OkAt(data, j)
    ensures Analyse(data) == Reply(true, NonSpace(data[..i]))
  {
    var first := FirstOk(data, 0);
    assert i < ScanLimit(data);
    assert first.Some?;
  }

  /** The value never reaches the end of the 256-byte LaserValue buffer: its terminator always fits. */
  lemma AnalyseValueFits(data: seq<char>)
    requires |data| <= MAX_BUFFER_SIZE
    ensures |Analyse(data).value| <= ScanLimit(data) < VALUE_SIZE
  {
  }

  /** The value with the rest of a `size`-byte buffer zeroed, as it lies in memory. */
  function Padded(v: seq<char>, size: nat): (r: seq<char>)
    requires |v| <= size
    ensures |r| == size && r[..|v|] == v && forall k :: |v| <= k < size ==> r[k] == '\0'
  {
    v + seq(size - |v|, _ => '\0')
  }

  /** A buffer that holds `v` followed by NUL bytes is `v` padded to its size. */
  lemma PaddedOfPrefix(buf: seq<char>, v: seq<char>)
    requires |v| <= |buf|
    requires forall k :: 0 <= k < |v| ==> buf[k] == v[k]
    requires forall k :: |v| <= k < |buf| ==> buf[k] == '\0'
    ensures buf == Padded(v, |buf|)
  {
  }

  // ---------------------------------------------------------------------
  // C strings
  // ---------------------------------------------------------------------

  /** The C string at the start of a buffer: everything before the first NUL. */
  function CString(buf: seq<char>): (r: seq<char>)
    ensures |r| <= |buf| && r == buf[..|r|] && forall k :: 0 <= k < |r| ==> r[k] != '\0'
    ensures |r| < |buf| ==> buf[|r|] == '\0'
  {
    if buf == [] || buf[0] == '\0' then [] else [buf[0]] + CString(buf[1..])
  }

  /** A C string ends no later than the first NUL of its buffer. */
  lemma CStringStopsAtNul(buf: seq<char>, n: nat)
    requires n < |buf| && buf[n] == '\0'
    ensures |CString(buf)| <= n
  {
    var r := CString(buf);
    if |r| > n {
      assert r[n] == buf[n];
    }
  }

  /** A NUL-free value followed by NULs reads back as itself. */
  lemma {:induction false} CStringOfPadded(v: seq<char>, size: nat)
    requires |v| < size && forall k :: 0 <= k < |v| ==> v[k] != '\0'
    ensures CString(Padded(v, size)) == v
  {
    var buf := Padded(v, size);
    if v != [] {
      assert buf[1..] == Padded(v[1..], size - 1);
      CStringOfPadded(v[1..], size - 1);
      assert buf[0] == v[0];
      assert v == [v[0]] + v[1..];
    }
  }

  /**
   * strncmp(buf, lit, n) == 0 for a NUL-free literal of length n and a
   * buffer of at least n bytes: the first n bytes are the literal.
   */
  predicate StartsWith(buf: seq<char>, lit: string) {
    |lit| <= |buf| && buf[..|lit|] == lit
  }

  // ---------------------------------------------------------------------
  // strtol(s, NULL, 16) with a 32-bit long
  // ---------------------------------------------------------------------

  const LONG_MAX: int := 0x7FFF_FFFF
  const LONG_MIN: int := -0x8000_0000

  /** isspace in the C locale. */
  predicate IsSpace(c: char) {
    c == ' ' || '\t' <= c <= '\r'
  }

  predicate IsHexDigit(c: char) {
    '0' <= c <= '9' || 'a' <= c <= 'f' || 'A' <= c <= 'F'
  }

  function HexDigitValue(c: char): (d: nat)
    requires IsHexDigit(c)
    ensures d < 16
  {
    if '0' <= c <= '9' then c as int - '0' as int
    else if 'a' <= c <= 'f' then c as int - 'a' as int + 10
    else c as int - 'A' as int + 10
  }

  function SkipSpace(s: seq<char>): (r: seq<char>)
    ensures |r| <= |s| && r == s[|s| - |r|..] && (r != [] ==> !IsSpace(r[0]))
  {
    if s != [] && IsSpace(s[0]) then SkipSpace(s[1..]) else s
  }

  /** Number of leading hexadecimal digits. */
  function HexRun(s: seq<char>): (n: nat)
    ensures n <= |s| && forall k :: 0 <= k < n ==> IsHexDigit(s[k])
    ensures n < |s| ==> !IsHexDigit(s[n])
  {
    if s != [] && IsHexDigit(s[0]) then HexRun(s[1..]) + 1 else 0
  }

  /** The value of a hexadecimal digit string, most significant first. */
  function HexValue(s: seq<char>): nat
    requires forall k :: 0 <= k < |s| ==> IsHexDigit(s[k])
  {
    if s == [] then 0 else HexValue(s[..|s| - 1]) * 16 + HexDigitValue(s[|s| - 1])
  }

  /**
   * strtol(s, NULL, 16): leading white space, an optional sign, an optional
   * "0x"/"0X" (only when a hex digit follows it), then the longest run of hex
   * digits; no digits gives 0, and an out-of-range value saturates at
   * LONG_MAX or LONG_MIN.
   */
  function Strtol16(s: seq<char>): (r: int)
    ensures LONG_MIN <= r <= LONG_MAX
  {
    var t := SkipSpace(s);
    Saturate(t != [] && t[0] == '-', LeadingHexValue(AfterHexPrefix(AfterSign(t))))
  }

  function AfterSign(t: seq<char>): seq<char> {
    if t != [] && (t[0] == '-' || t[0] == '+') then t[1..] else t
  }

  function AfterHexPrefix(u: seq<char>): seq<char> {
    if |u| >= 3 && u[0] == '0' && (u[1] == 'x' || u[1] == 'X') && IsHexDigit(u[2]) then u[2..] else u
  }

  /** The value of the leading run of hex digits (0 when there is none). */
  function LeadingHexValue(w: seq<char>): nat {
    var n := HexRun(w);
    assert forall k :: 0 <= k < n ==> w[..n][k] == w[k];
    HexValue(w[..n])
  }

  /** Out-of-range conversions return LONG_MAX or LONG_MIN. */
  function Saturate(negative: bool, m: nat): (r: int)
    ensures LONG_MIN <= r <= LONG_MAX
  {
    var v: int := m;
    if negative then (if v > -LONG_MIN then LONG_MIN else -v)
    else (if v > LONG_MAX then LONG_MAX else v)
  }

  /** A plain string of hex digits reads as its value, saturated at LONG_MAX. */
  lemma StrtolOfHexDigits(s: seq<char>)
    requires s != [] && forall k :: 0 <= k < |s| ==> IsHexDigit(s[k])
    ensures Strtol16(s) == if HexValue(s) > LONG_MAX then LONG_MAX else HexValue(s)
  {
    assert SkipSpace(s) == s by { assert !IsSpace(s[0]); }
    assert AfterSign(s) == s;
    assert AfterHexPrefix(s) == s by {
      if |s| >= 3 {
        assert IsHexDigit(s[1]);
      }
    }
    LeadingOfDigits(s);
  }

  lemma LeadingOfDigits(s: seq<char>)
    requires forall k :: 0 <= k < |s| ==> IsHexDigit(s[k])
    ensures LeadingHexValue(s) == HexValue(s)
  {
    HexRunOfDigits(s);
    assert s[..HexRun(s)] == s;
  }

  lemma {:induction false} HexRunOfDigits(s: seq<char>)
    requires forall k :: 0 <= k < |s| ==> IsHexDigit(s[k])
    ensures HexRun(s) == |s|
  {
    if s != [] {
      HexRunOfDigits(s[1..]);
    }
  }

  // ---------------------------------------------------------------------
  // Status decoding
  // ---------------------------------------------------------------------

  /** LaserStatus */
  datatype LaserStatus = LaserNoConnection | LaserFault | LaserEmission | LaserReady | LaserStandby | LaserWarmUp

  /** statusCode & b != 0 for a single-bit mask b, on the 32-bit two's complement pattern. */
  predicate Bit(code: int, b: nat)
    requires b > 0
  {
    ((code % 0x1_0000_0000) / b) % 2 == 1
  }

  /** The bit chain of GetCurrentState; None when none of the checked bits is set. */
  function DecodeStatus(code: int): (r: Option<(LaserStatus, string)>)
  {
    if Bit(code, 0x1) then Some((LaserFault, "Fault"))
    else if Bit(code, 0x2) then Some((LaserEmission, "Emission"))
    else if Bit(code, 0x4) || (Bit(code, 0x1000) && Bit(code, 0x8)) then Some((LaserReady, "Ready"))
    else if Bit(code, 0x8) then Some((LaserStandby, "Key Switch Standby"))
    else if Bit(code, 0x100) then Some((LaserWarmUp, "Warm Up"))
    else None
  }

  /**
   * A status word decodes to nothing exactly when none of the five status
   * bits is set; Standby needs the key-switch bit without bit 12, and a
   * set fault bit outranks every other bit.
   */
  lemma DecodeStatusCases(code: int)
    ensures DecodeStatus(code).None? <==>
              !Bit(code, 0x1) && !Bit(code, 0x2) && !Bit(code, 0x4) && !Bit(code, 0x8) && !Bit(code, 0x100)
    ensures DecodeStatus(code).Some? && DecodeStatus(code).value.0 == LaserStandby ==>
              Bit(code, 0x8) && !Bit(code, 0x1000) && !Bit(code, 0x4)
    ensures Bit(code, 0x1) ==> DecodeStatus(code).value.0 == LaserFault
    ensures DecodeStatus(code).Some? ==> DecodeStatus(code).value.0 != LaserNoConnection
  {
  }

  /**
   * GetCurrentState on a reply: the LaserValue buffer after AnalyseData is
   * `buf`; a closed port and a status word with none of the checked bits both give
   * LASER_NO_CONNECTION, an unacknowledged reply gives "No Returned Status".
   */
  function CurrentState(connected: bool, reply: seq<char>): (r: (LaserStatus, string))
    requires |reply| <= MAX_BUFFER_SIZE
  {
    if !connected then (LaserNoConnection, "No Connection")
    else
      var a := Analyse(reply);
      if !a.success then (LaserFault, "No Returned Status")
      else
        AnalyseValueFits(reply);
        var buf := Padded(a.value, VALUE_SIZE);
        if |CString(buf)| < 8 then (LaserFault, "Invalid Status Code")
        else
          var decoded := DecodeStatus(Strtol16(CString(buf[4..])));
          if decoded.Some? then decoded.value else (LaserNoConnection, "No Connection")
  }

  /**
   * The reply outcomes of GetCurrentState: without an open port the result
   * is always "No Connection"; an unacknowledged reply is a fault; and a
   * value of fewer than 8 characters is reported as invalid.
   */
  lemma CurrentStateOutcomes(connected: bool, reply: seq<char>)
    requires |reply| <= MAX_BUFFER_SIZE
    ensures !connected ==> CurrentState(connected, reply) == (LaserNoConnection, "No Connection")
    ensures connected && !Analyse(reply).success ==> CurrentState(connected, reply) == (LaserFault, "No Returned Status")
    ensures connected && Analyse(reply).success && |Analyse(reply).value| < 8 ==>
              CurrentState(connected, reply) == (LaserFault, "Invalid Status Code")
  {
    if connected && Analyse(reply).success {
      AnalyseValueFits(reply);
      var buf := Padded(Analyse(reply).value, VALUE_SIZE);
      CStringStopsAtNul(buf, |Analyse(reply).value|);
    }
  }

  /** A status reply whose value has no NUL is decoded from its text past the first four characters. */
  lemma CurrentStateDecodes(reply: seq<char>)
    requires |reply| <= MAX_BUFFER_SIZE && Analyse(reply).success
    requires |Analyse(reply).value| >= 8 && forall k :: 0 <= k < |Analyse(reply).value| ==> Analyse(reply).value[k] != '\0'
    ensures var v := Analyse(reply).value;
            var d := DecodeStatus(Strtol16(v[4..]));
            CurrentState(true, reply) == if d.Some? then d.value else (LaserNoConnection, "No Connection")
  {
    var v := Analyse(reply).value;
    AnalyseValueFits(reply);
    var buf := Padded(v, VALUE_SIZE);
    CStringOfPadded(v, VALUE_SIZE);
    assert buf[4..] == Padded(v[4..], VALUE_SIZE - 4);
    CStringOfPadded(v[4..], VALUE_SIZE - 4);
  }
}
