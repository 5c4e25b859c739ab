/**
 * CLaser: one laser on a serial port. Every command is a line written to the
 * port followed by one reply; the reply bytes are a parameter, and the lines
 * written are logged. `laserValue` is the 256-byte LaserValue buffer that
 * AnalyseData fills in place.
 */
module LaserDevice {
  import opened Util
  import opened LaserReply

  const OBJECT_NAME: string := "CLaser"
  /** LaserMode */
  const CWP: int := 0
  const DIGITAL: int := 1

  const CONNECT_ERROR: string := GetErrorString(OBJECT_NAME, "InitCom()", "Fail to conect laser")

  /** The pieces of a buffer before the first NUL and from it on. */
  lemma CStringLength(buf: seq<char>, n: nat)
    requires n <= |buf| && (n < |buf| ==> buf[n] == '\0')
    requires forall k :: 0 <= k < n ==> buf[k] != '\0'
    ensures |CString(buf)| == n
  {
  }

  class Laser {
    /** serialPort != NULL */
    var hasPort: bool
    var serialState: SerialStatus
    var laserMode: int
    const laserValue: array<char>
    /** Every command line written to the port, in order. */
    var commands: seq<string>

    predicate Valid()
      reads this
    {
      && laserValue.Length == VALUE_SIZE
      && (serialState == SerialOpened ==> hasPort)
    }

    /** IsConnected */
    predicate IsConnected()
      reads this
    {
      serialState == SerialOpened
    }

    /** The port is there and open: the guard of every command. */
    predicate Ready()
      reads this
    {
      hasPort && IsConnected()
    }

    constructor ()
      ensures Valid() && !hasPort && serialState == SerialClosed && laserMode == CWP && commands == []
    {
      hasPort := false;
      serialState := SerialClosed;
      laserMode := CWP;
      laserValue := new char[VALUE_SIZE](_ => '\0');
      commands := [];
    }

    /**
     * Connect: a port object is created either way; `initOk` is Init_Com's
     * outcome. On failure the error is thrown and the state is not changed.
     */
    method Connect(initOk: bool) returns (r: Outcome)
      modifies this
      ensures hasPort && laserMode == old(laserMode) && commands == old(commands)
      ensures initOk ==> r == Pass && serialState == SerialOpened
      ensures !initOk ==> r == Fail(CONNECT_ERROR) && serialState == old(serialState)
    {
      hasPort := true;
      if !initOk {
        return Fail(CONNECT_ERROR);
      }
      serialState := SerialOpened;
      r := Pass;
    }

    /** Disconnect: close and drop the port if there is one; the port is closed afterwards either way. */
    method Disconnect() returns (closed: bool)
      modifies this
      ensures closed == old(hasPort)
      ensures !hasPort && serialState == SerialClosed && !Ready()
      ensures laserMode == old(laserMode) && commands == old(commands)
    {
      closed := false;
      if hasPort {
        closed := true;
        hasPort := false;
      }
      serialState := SerialClosed;
    }

    /**
     * AnalyseData over the received bytes (num == |data|): clear the value
     * buffer, scan for "OK\r\n", copying every non-space byte in front of it.
     */
    method AnalyseData(data: seq<char>) returns (success: bool)
      requires Valid() && |data| <= MAX_BUFFER_SIZE
      modifies laserValue
      ensures success == Analyse(data).success
      ensures |Analyse(data).value| < VALUE_SIZE && laserValue[..] == Padded(Analyse(data).value, VALUE_SIZE)
    {
      success := false;
      var index := 0;
      forall k | 0 <= k < laserValue.Length {
        laserValue[k] := '\0';
      }
      var i := 0;
      while i < |data| - 3
        invariant 0 <= i <= ScanLimit(data) && !success
        invariant forall j :: 0 <= j < i ==> !OkAt(data, j)
        invariant index == |NonSpace(data[..i])| <= i
        invariant forall k :: 0 <= k < index ==> laserValue[k] == NonSpace(data[..i])[k]
        invariant forall k :: index <= k < laserValue.Length ==> laserValue[k] == '\0'
      {
        assert data[..i + 1][..i] == data[..i];
        if data[i..i + 4] == OK_REPLY {
          success := true;
          laserValue[index] := '\0';
          break;
        } else if data[i] != ' ' {
          laserValue[index] := data[i];
          index := index + 1;
        }
        i := i + 1;
      }
      ghost var v := NonSpace(data[..i]);
      if success {
        AnalyseValue(data, i);
      } else {
        assert FirstOk(data, 0).None?;
      }
      assert Analyse(data).value == v;
      PaddedOfPrefix(laserValue[..], v);
    }

    /** One command: write the line, then analyse the reply. */
    method Exchange(command: string, reply: seq<char>) returns (success: bool)
      requires Valid() && |reply| <= MAX_BUFFER_SIZE
      modifies this, laserValue
      ensures success == Analyse(reply).success
      ensures laserValue[..] == Padded(Analyse(reply).value, VALUE_SIZE)
      ensures commands == old(commands) + [command]
      ensures hasPort == old(hasPort) && serialState == old(serialState) && laserMode == old(laserMode)
    {
      commands := commands + [command];
      success := AnalyseData(reply);
    }

    /** Start: emission on, acknowledged by the reply. */
    method Start(reply: seq<char>) returns (r: bool)
      requires Valid() && |reply| <= MAX_BUFFER_SIZE
      modifies this, laserValue
      ensures r <==> old(Ready()) && Analyse(reply).success
      ensures commands == if old(Ready()) then old(commands) + ["SOURce:AM:STATe ON\n\r"] else old(commands)
      ensures hasPort == old(hasPort) && serialState == old(serialState) && laserMode == old(laserMode)
    {
      r := false;
      if hasPort && IsConnected() {
        r := Exchange("SOURce:AM:STATe ON\n\r", reply);
      }
    }

    /** Stop: emission off, acknowledged by the reply. */
    method Stop(reply: seq<char>) returns (r: bool)
      requires Valid() && |reply| <= MAX_BUFFER_SIZE
      modifies this, laserValue
      ensures r <==> old(Ready()) && Analyse(reply).success
      ensures commands == if old(Ready()) then old(commands) + ["SOURce:AM:STATe OFF\n\r"] else old(commands)
      ensures hasPort == old(hasPort) && serialState == old(serialState) && laserMode == old(laserMode)
    {
      r := false;
      if hasPort && IsConnected() {
        r := Exchange("SOURce:AM:STATe OFF\n\r", reply);
      }
    }

    /**
     * SetMode: only CWP and DIGITAL are accepted, and the mode changes only
     * when the laser acknowledges the command.
     */
    method SetMode(mode: int, reply: seq<char>) returns (r: bool)
      requires Valid() && |reply| <= MAX_BUFFER_SIZE
      modifies this, laserValue
      ensures r <==> (mode == CWP || mode == DIGITAL) && old(Ready()) && Analyse(reply).success
      ensures laserMode == if r then mode else old(laserMode)
      ensures (mode == CWP || mode == DIGITAL) && old(Ready()) ==>
                commands == old(commands) + [if mode == CWP then "SOURce:AM:INTernal CWP\n\r"
                                             else "SOURce:AM:EXTernal DIGital\n\r"]
      ensures !((mode == CWP || mode == DIGITAL) && old(Ready())) ==> commands == old(commands)
      ensures hasPort == old(hasPort) && serialState == old(serialState)
    {
      if mode != CWP && mode != DIGITAL {
        return false;
      }
      if hasPort && IsConnected() {
        var success;
        if mode == CWP {
          success := Exchange("SOURce:AM:INTernal CWP\n\r", reply);
        } else {
          success := Exchange("SOURce:AM:EXTernal DIGital\n\r", reply);
        }
        if success {
          laserMode := mode;
        }
        return success;
      }
      return false;
    }

    /**
     * GetMode: an acknowledged value starting "CWP" is CWP, one starting
     * "DIGITA" (six characters compared) is DIGITAL; the mode read is also
     * stored. None is a false return.
     */
    method GetMode(reply: seq<char>) returns (m: Option<int>)
      requires Valid() && |reply| <= MAX_BUFFER_SIZE
      modifies this, laserValue
      ensures var buf := Padded(Analyse(reply).value, VALUE_SIZE);
              m == if old(Ready()) && Analyse(reply).success then
                     (if StartsWith(buf, "CWP") then Some(CWP)
                      else if StartsWith(buf, "DIGITA") then Some(DIGITAL)
                      else None)
                   else None
      ensures laserMode == if m.Some? then m.value else old(laserMode)
      ensures commands == if old(Ready()) then old(commands) + ["SOURce:AM:SOURce?\n\r"] else old(commands)
      ensures hasPort == old(hasPort) && serialState == old(serialState)
    {
      m := None;
      if hasPort && IsConnected() {
        var ok := Exchange("SOURce:AM:SOURce?\n\r", reply);
        if ok {
          if laserValue[..3] == "CWP" {
            m := Some(CWP);
            laserMode := CWP;
          } else if laserValue[..6] == "DIGITA" {
            m := Some(DIGITAL);
            laserMode := DIGITAL;
          }
        }
      }
    }

    /** strlen(LaserValue) */
    method ValueLength() returns (n: nat)
      requires Valid()
      ensures n == |CString(laserValue[..])|
    {
      n := 0;
      while n < laserValue.Length && laserValue[n] != '\0'
        invariant n <= laserValue.Length
        invariant forall k :: 0 <= k < n ==> laserValue[k] != '\0'
      {
        n := n + 1;
      }
      CStringLength(laserValue[..], n);
    }

    /** GetCurrentState: query the status word and decode it, as CurrentState describes. */
    method GetCurrentState(reply: seq<char>) returns (status: LaserStatus, text: string)
      requires Valid() && |reply| <= MAX_BUFFER_SIZE
      modifies this, laserValue
      ensures (status, text) == CurrentState(old(Ready()), reply)
      ensures commands == if old(Ready()) then old(commands) + ["SYSTem:STATus?\n\r"] else old(commands)
      ensures hasPort == old(hasPort) && serialState == old(serialState) && laserMode == old(laserMode)
    {
      if hasPort && IsConnected() {
        var ok := Exchange("SYSTem:STATus?\n\r", reply);
        if ok {
          var len := ValueLength();
          if len < 8 {
            return LaserFault, "Invalid Status Code";
          }
          var statusCode := Strtol16(CString(laserValue[4..]));
          var decoded := DecodeStatus(statusCode);
          if decoded.Some? {
            return decoded.value.0, decoded.value.1;
          }
        } else {
          return LaserFault, "No Returned Status";
        }
      }
      return LaserNoConnection, "No Connection";
    }
  }
}
