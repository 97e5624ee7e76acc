/**
 * The Windows backend of the port API (sercomm/win/comms.c): Win32 error
 * classification, the DCB and timeout mapping with its restore path, the
 * `\\.\` path prefix, purge selection and the overlapped read, wait and
 * write calls. Win32 calls are oracles whose answers are inputs.
 */
module WinComms {
  import opened SerTypes

  // ---------------------------------------------------------------------------
  // Win32 error classification (werr)
  // ---------------------------------------------------------------------------

  const ERROR_FILE_NOT_FOUND: int := 2
  const ERROR_ACCESS_DENIED: int := 5
  const ERROR_BAD_COMMAND: int := 22
  const ERROR_GEN_FAILURE: int := 31
  const ERROR_INVALID_PARAMETER: int := 87
  const WAIT_TIMEOUT: int := 258
  const ERROR_OPERATION_ABORTED: int := 995
  const ERROR_IO_PENDING: int := 997
  const WAIT_OBJECT_0: int := 0
  /** `INFINITE` and `MAXDWORD`. */
  const INFINITE: uint32 := 0xFFFF_FFFF
  const MAXDWORD: uint32 := 0xFFFF_FFFF
  /** `INVALID_HANDLE_VALUE`, `(HANDLE)-1`. */
  const INVALID_HANDLE_VALUE: int := -1

  /**
   * `werr`: map a Win32 code to a library code and record its description.
   * `sysText` is what FormatMessage gives for the code; the default branch
   * records it after "windows: ". A NULL argument means the caller passes
   * GetLastError(), which the model does by passing that value.
   */
  function Werr(code: uint32, sysText: string): (st: Status)
    ensures IsErrorCode(st.code) && st.msg.Some?
    ensures st.code == SER_ENODEV <==> code == ERROR_FILE_NOT_FOUND
    ensures st.code == SER_EBUSY <==> code == ERROR_ACCESS_DENIED
    ensures st.code == SER_EINVAL <==> code == ERROR_INVALID_PARAMETER
    ensures st.code == SER_EDISCONN <==> code in {ERROR_BAD_COMMAND, ERROR_GEN_FAILURE, ERROR_OPERATION_ABORTED}
    ensures st.code == SER_ETIMEDOUT <==> code == WAIT_TIMEOUT
    ensures st.code == SER_EFAIL <==> code !in {ERROR_FILE_NOT_FOUND, ERROR_ACCESS_DENIED, ERROR_INVALID_PARAMETER,
                                                ERROR_BAD_COMMAND, ERROR_GEN_FAILURE, ERROR_OPERATION_ABORTED, WAIT_TIMEOUT}
    ensures st.code == SER_EFAIL ==> st.msg == Some(SysMessage(sysText))
  {
    if code == ERROR_FILE_NOT_FOUND then Fail(SER_ENODEV, "No such device")
    else if code == ERROR_ACCESS_DENIED then Fail(SER_EBUSY, "Device is in use")
    else if code == ERROR_INVALID_PARAMETER then Fail(SER_EINVAL, "Invalid parameter")
    else if code == ERROR_BAD_COMMAND || code == ERROR_GEN_FAILURE || code == ERROR_OPERATION_ABORTED then
      Fail(SER_EDISCONN, "Device was disconnected")
    else if code == WAIT_TIMEOUT then Fail(SER_ETIMEDOUT, "Operation timed out")
    else Fail(SER_EFAIL, SysMessage(sysText))
  }

  /** `werr_setc`: the system's description of a code, behind a "windows: " tag. */
  function SysMessage(sysText: string): (m: string)
    ensures |m| == 9 + |sysText| && m[9..] == sysText
  {
    "windows: " + sysText
  }

  // ---------------------------------------------------------------------------
  // Port configuration
  // ---------------------------------------------------------------------------

  /** `DCB`, reduced to the fields the library writes (all others stay zero). */
  datatype Dcb = Dcb(baudRate: uint32, byteSize: int, parity: int, stopBits: int)

  const ZeroDcb: Dcb := Dcb(0, 0, 0, 0)

  /** Win32 parity and stop-bit constants. */
  const NOPARITY: int := 0
  const ODDPARITY: int := 1
  const EVENPARITY: int := 2
  const MARKPARITY: int := 3
  const SPACEPARITY: int := 4
  const ONESTOPBIT: int := 0
  const ONE5STOPBITS: int := 1
  const TWOSTOPBITS: int := 2

  /** `COMMTIMEOUTS`. */
  datatype CommTimeouts = CommTimeouts(
    readInterval: uint32, readMultiplier: uint32, readConstant: uint32,
    writeMultiplier: uint32, writeConstant: uint32)

  /** The device timeouts the library installs: reads return at once, waits do the timing. */
  const NonBlockingTimeouts: CommTimeouts := CommTimeouts(MAXDWORD, 0, 0, 0, 0)

  datatype PurgeFlag = PURGE_RXCLEAR | PURGE_TXCLEAR

  /** Requests issued to the device, in order. */
  datatype WinCall =
    | SetCommState(dcb: Dcb)
    | SetCommTimeouts(t: CommTimeouts)
    | PurgeComm(flags: set<PurgeFlag>)
    | CreateFile(path: string)
    | SetCommMask
    | CloseHandle

  /**
   * What the configuration calls answer: the saved state and timeouts (None
   * when the Get call fails), whether each Set call succeeds, and
   * GetLastError() after a failure.
   */
  datatype ConfigureWinOs = ConfigureWinOs(
    getState: Option<Dcb>,
    getTimeouts: Option<CommTimeouts>,
    setState: bool,
    setTimeouts: bool,
    lastError: uint32,
    sysText: string)

  datatype Checked<T> = Pass(value: T) | Reject(st: Status)

  /** The byte-size switch. */
  function ByteSizeStep(bytesz: int): (r: Checked<int>)
    ensures r.Pass? <==> SER_BYTESZ_8 <= bytesz <= SER_BYTESZ_5
    ensures r.Pass? ==> r.value == DataBits(bytesz)
    ensures r.Reject? ==> r.st == Fail(SER_EINVAL, "Invalid byte size")
  {
    if bytesz == SER_BYTESZ_8 then Pass(8)
    else if bytesz == SER_BYTESZ_7 then Pass(7)
    else if bytesz == SER_BYTESZ_6 then Pass(6)
    else if bytesz == SER_BYTESZ_5 then Pass(5)
    else Reject(Fail(SER_EINVAL, "Invalid byte size"))
  }

  /** The parity switch: all five parities have a DCB constant. */
  function ParityStep(parity: int): (r: Checked<int>)
    ensures r.Pass? <==> SER_PAR_NONE <= parity <= SER_PAR_SPACE
    ensures r.Reject? ==> r.st == Fail(SER_EINVAL, "Invalid parity type")
  {
    if parity == SER_PAR_NONE then Pass(NOPARITY)
    else if parity == SER_PAR_ODD then Pass(ODDPARITY)
    else if parity == SER_PAR_EVEN then Pass(EVENPARITY)
    else if parity == SER_PAR_MARK then Pass(MARKPARITY)
    else if parity == SER_PAR_SPACE then Pass(SPACEPARITY)
    else Reject(Fail(SER_EINVAL, "Invalid parity type"))
  }

  /** The stop-bits switch: one and a half stop bits are supported. */
  function StopStep(stopbits: int): (r: Checked<int>)
    ensures r.Pass? <==> SER_STOPB_ONE <= stopbits <= SER_STOPB_TWO
    ensures r.Reject? ==> r.st == Fail(SER_EINVAL, "Invalid number of stop bits")
  {
    if stopbits == SER_STOPB_ONE then Pass(ONESTOPBIT)
    else if stopbits == SER_STOPB_ONE5 then Pass(ONE5STOPBITS)
    else if stopbits == SER_STOPB_TWO then Pass(TWOSTOPBITS)
    else Reject(Fail(SER_EINVAL, "Invalid number of stop bits"))
  }

  /** The DWORD a millisecond option becomes: 0 (no timeout) is INFINITE. */
  function TimeoutDword(ms: int32): (d: uint32)
    ensures d == INFINITE <==> ms == SER_NO_TIMEOUT || ms == -1
    ensures ms > 0 ==> d == ms
    ensures ms < 0 ==> d == ms + UINT32_LIMIT
  {
    if ms == SER_NO_TIMEOUT then INFINITE else ToUint32(ms)
  }

  /** Everything `port_configure` leaves behind. */
  datatype WinConfigResult = WinConfigResult(
    st: Status,
    savedDcb: Option<Dcb>,
    savedTimeouts: Option<CommTimeouts>,
    timeouts: Option<(uint32, uint32)>,
    calls: seq<WinCall>)

  /** `port_configure`, step by step. */
  function WinConfigureFlow(opts: Options, os: ConfigureWinOs): (r: WinConfigResult)
    ensures r.st.code == 0 <==> r.timeouts.Some?
    ensures r.st.code != 0 ==> r.st.code < 0
    ensures r.savedDcb.Some? ==> r.savedDcb == os.getState
    ensures r.savedTimeouts.Some? ==> r.savedDcb.Some? && r.savedTimeouts == os.getTimeouts
    ensures r.timeouts.Some? ==> r.timeouts.value.0 == TimeoutDword(opts.rdTimeout)
    ensures |r.calls| == 3 && r.calls[1].SetCommTimeouts? && !os.setTimeouts ==>
      os.getState.Some? && r.calls[2] == SetCommState(os.getState.value)
    ensures r.calls != [] ==> r.calls[0].SetCommState? && r.calls[0].dcb.baudRate == opts.baudrate
  {
    if os.getState.None? then WinConfigResult(Werr(os.lastError, os.sysText), None, None, None, [])
    else if os.getTimeouts.None? then WinConfigResult(Werr(os.lastError, os.sysText), os.getState, None, None, [])
    else
      var saved, savedT := os.getState, os.getTimeouts;
      var bs := ByteSizeStep(opts.bytesz);
      if bs.Reject? then WinConfigResult(bs.st, saved, savedT, None, [])
      else
        var par := ParityStep(opts.parity);
        if par.Reject? then WinConfigResult(par.st, saved, savedT, None, [])
        else
          var stop := StopStep(opts.stopbits);
          if stop.Reject? then WinConfigResult(stop.st, saved, savedT, None, [])
          else
            var dcb := Dcb(opts.baudrate, bs.value, par.value, stop.value);
            if !os.setState then WinConfigResult(Werr(os.lastError, os.sysText), saved, savedT, None, [SetCommState(dcb)])
            else if !os.setTimeouts then
              WinConfigResult(Werr(os.lastError, os.sysText), saved, savedT, None,
                              [SetCommState(dcb), SetCommTimeouts(NonBlockingTimeouts), SetCommState(os.getState.value)])
            else
              WinConfigResult(OK, saved, savedT,
                              Some((TimeoutDword(opts.rdTimeout),
                                    if opts.wrTimeout == SER_NO_TIMEOUT then INFINITE else ToUint32(opts.rdTimeout))),
                              [SetCommState(dcb), SetCommTimeouts(NonBlockingTimeouts), PurgeComm({PURGE_RXCLEAR})])
  }

  /** The options the Windows backend accepts. */
  predicate WinAccepts(opts: Options)
  {
    && SER_BYTESZ_8 <= opts.bytesz <= SER_BYTESZ_5
    && SER_PAR_NONE <= opts.parity <= SER_PAR_SPACE
    && SER_STOPB_ONE <= opts.stopbits <= SER_STOPB_TWO
  }

  predicate WinOsCooperates(os: ConfigureWinOs)
  {
    os.getState.Some? && os.getTimeouts.Some? && os.setState && os.setTimeouts
  }

  /**
   * With cooperating calls, configuration succeeds exactly on the accepted
   * options; the checks run byte size, parity, stop bits, and every
   * rejection is SER_EINVAL with the first failing field's message.
   */
  lemma WinConfigureSucceedsIff(opts: Options, os: ConfigureWinOs)
    requires WinOsCooperates(os)
    ensures WinConfigureFlow(opts, os).st.code == 0 <==> WinAccepts(opts)
    ensures !WinAccepts(opts) ==> WinConfigureFlow(opts, os).st.code == SER_EINVAL
    ensures !(SER_BYTESZ_8 <= opts.bytesz <= SER_BYTESZ_5) ==>
      WinConfigureFlow(opts, os).st == Fail(SER_EINVAL, "Invalid byte size")
    ensures SER_BYTESZ_8 <= opts.bytesz <= SER_BYTESZ_5 && !(SER_PAR_NONE <= opts.parity <= SER_PAR_SPACE) ==>
      WinConfigureFlow(opts, os).st == Fail(SER_EINVAL, "Invalid parity type")
    ensures !WinAccepts(opts) ==> WinConfigureFlow(opts, os).calls == []
  {
  }

  /** The options a DCB stands for: the inverse of the three switches. */
  function DcbFrame(dcb: Dcb): (int, int, int)
  {
    (8 - dcb.byteSize, dcb.parity, dcb.stopBits)
  }

  /**
   * For accepted options the applied DCB carries the baud rate unchanged and
   * decodes back to the requested frame; the stored timeouts are INFINITE
   * for 0 and otherwise the read timeout, in both slots; the input queue is
   * purged last.
   */
  lemma WinConfiguredSettings(opts: Options, os: ConfigureWinOs)
    requires WinOsCooperates(os) && WinAccepts(opts)
    ensures var r := WinConfigureFlow(opts, os);
      && |r.calls| == 3 && r.calls[0].SetCommState?
      && r.calls[0].dcb.baudRate == opts.baudrate
      && 5 <= r.calls[0].dcb.byteSize <= 8
      && DcbFrame(r.calls[0].dcb) == (opts.bytesz, opts.parity, opts.stopbits)
      && r.calls[1] == SetCommTimeouts(NonBlockingTimeouts)
      && r.calls[2] == PurgeComm({PURGE_RXCLEAR})
      && r.timeouts.Some?
      && r.timeouts.value.0 == TimeoutDword(opts.rdTimeout)
      && (opts.wrTimeout == SER_NO_TIMEOUT ==> r.timeouts.value.1 == INFINITE)
      && (opts.wrTimeout != SER_NO_TIMEOUT ==> r.timeouts.value.1 == ToUint32(opts.rdTimeout))
  {
  }

  /**
   * When SetCommTimeouts fails, the saved DCB is put back and the failure
   * is returned; the handle's timeouts are not touched.
   */
  lemma WinConfigureRestores(opts: Options, os: ConfigureWinOs)
    requires os.getState.Some? && os.getTimeouts.Some? && os.setState && !os.setTimeouts
    requires WinAccepts(opts)
    ensures var r := WinConfigureFlow(opts, os);
      && r.st == Werr(os.lastError, os.sysText) && r.st.code < 0
      && |r.calls| == 3 && r.calls[2] == SetCommState(os.getState.value)
      && r.timeouts.None?
  {
  }

  // ---------------------------------------------------------------------------
  // The port handle (struct ser)
  // ---------------------------------------------------------------------------

  /** `PORT_PREFIX`: the C literal "\\\\.\\", i.e. backslash, backslash, dot, backslash. */
  const PORT_PREFIX: string := "\\\\.\\"

  /** The name `ser_open` passes to CreateFile. */
  function DevicePath(port: string): (p: string)
    ensures |p| == 4 + |port|
    ensures p[..4] == [92 as char, 92 as char, '.', 92 as char] && p[4..] == port
  {
    PORT_PREFIX + port
  }

  /**
   * What `ser_open` meets: malloc, CreateFile (None: INVALID_HANDLE_VALUE),
   * the configuration calls and SetCommMask, each failure with its own
   * GetLastError() code and FormatMessage text.
   */
  datatype OpenWinOs = OpenWinOs(
    mallocOk: bool, mallocText: string,
    handle: Option<int>, createError: uint32, createText: string,
    conf: ConfigureWinOs,
    setMask: bool, maskError: uint32, maskText: string)

  /** `struct ser` of the Windows backend. */
  class WinPort {
    var hnd: int
    var dcbOld: Dcb
    var timeoutsOld: CommTimeouts
    /** The wait limits in milliseconds, INFINITE for none. */
    var rdTimeout: uint32
    var wrTimeout: uint32

    constructor ()
      ensures hnd == -1 && dcbOld == ZeroDcb && rdTimeout == 0 && wrTimeout == 0
    {
      hnd := -1;
      dcbOld := ZeroDcb;
      timeoutsOld := CommTimeouts(0, 0, 0, 0, 0);
      rdTimeout := 0;
      wrTimeout := 0;
    }

    /**
     * `port_configure`: save the state and timeouts, fill a zeroed DCB switch
     * by switch, apply it, install the non-blocking device timeouts (putting
     * the saved DCB back if that fails), store the wait limits and purge
     * the input queue.
     */
    method Configure(opts: Options, os: ConfigureWinOs) returns (st: Status, calls: seq<WinCall>)
      modifies this
      ensures var r := WinConfigureFlow(opts, os); st == r.st && calls == r.calls
      ensures dcbOld == (match WinConfigureFlow(opts, os).savedDcb case Some(d) => d case None => old(dcbOld))
      ensures timeoutsOld == (match WinConfigureFlow(opts, os).savedTimeouts
                              case Some(t) => t case None => old(timeoutsOld))
      ensures (rdTimeout, wrTimeout) == (match WinConfigureFlow(opts, os).timeouts
                                         case Some(p) => p case None => (old(rdTimeout), old(wrTimeout)))
      ensures hnd == old(hnd)
    {
      calls := [];
      if os.getState.None? {
        st := Werr(os.lastError, os.sysText);
        return;
      }
      dcbOld := os.getState.value;
      if os.getTimeouts.None? {
        st := Werr(os.lastError, os.sysText);
        return;
      }
      timeoutsOld := os.getTimeouts.value;

      var dcb := ZeroDcb;
      dcb := dcb.(baudRate := opts.baudrate);

      var bs := ByteSizeStep(opts.bytesz);
      if bs.Reject? {
        st := bs.st;
        return;
      }
      dcb := dcb.(byteSize := bs.value);
      var par := ParityStep(opts.parity);
      if par.Reject? {
        st := par.st;
        return;
      }
      dcb := dcb.(parity := par.value);
      var stop := StopStep(opts.stopbits);
      if stop.Reject? {
        st := stop.st;
        return;
      }
      dcb := dcb.(stopBits := stop.value);

      calls := calls + [SetCommState(dcb)];
      if !os.setState {
        st := Werr(os.lastError, os.sysText);
        return;
      }

      calls := calls + [SetCommTimeouts(NonBlockingTimeouts)];
      if !os.setTimeouts {
        st := Werr(os.lastError, os.sysText);
        calls := calls + [SetCommState(dcbOld)];
        return;
      }

      if opts.rdTimeout == SER_NO_TIMEOUT {
        rdTimeout := INFINITE;
      } else {
        rdTimeout := ToUint32(opts.rdTimeout);
      }
      if opts.wrTimeout == SER_NO_TIMEOUT {
        wrTimeout := INFINITE;
      } else {
        wrTimeout := ToUint32(opts.rdTimeout);
      }

      calls := calls + [PurgeComm({PURGE_RXCLEAR})];
      st := OK;
    }

    /**
     * `ser_open`: build the prefixed path, open it, configure, and subscribe
     * to reception events; a failure after the open closes the handle.
     * A failed malloc records its text and returns without setting `r`.
     */
    method Open(opts: Options, os: OpenWinOs) returns (st: Status, calls: seq<WinCall>)
      modifies this
      ensures !os.mallocOk ==> st == Status(0, Some(os.mallocText)) && calls == []
      ensures !os.mallocOk ==> hnd == old(hnd)
      ensures os.mallocOk && os.handle.None? ==>
        st == Werr(os.createError, os.createText) && calls == [CreateFile(DevicePath(opts.port))]
        && hnd == INVALID_HANDLE_VALUE
      ensures os.mallocOk && os.handle.Some? ==>
        var conf := WinConfigureFlow(opts, os.conf);
        && hnd == os.handle.value
        && (conf.st.code < 0 ==> st == conf.st && calls == [CreateFile(DevicePath(opts.port))] + conf.calls + [CloseHandle])
        && (conf.st.code >= 0 && !os.setMask ==>
              st == Werr(os.maskError, os.maskText)
              && calls == [CreateFile(DevicePath(opts.port))] + conf.calls + [SetCommMask, CloseHandle])
        && (conf.st.code >= 0 && os.setMask ==>
              st == conf.st && calls == [CreateFile(DevicePath(opts.port))] + conf.calls + [SetCommMask])
      ensures st.code == 0 <==> !os.mallocOk
                                || (os.handle.Some? && os.setMask && WinConfigureFlow(opts, os.conf).st.code == 0)
      ensures st == WinOpenOutcome(opts, os)
      ensures !(os.mallocOk && os.handle.Some?) ==>
        dcbOld == old(dcbOld) && timeoutsOld == old(timeoutsOld)
        && rdTimeout == old(rdTimeout) && wrTimeout == old(wrTimeout)
      ensures os.mallocOk && os.handle.Some? ==>
        dcbOld == (match WinConfigureFlow(opts, os.conf).savedDcb case Some(d) => d case None => old(dcbOld))
      ensures os.mallocOk && os.handle.Some? ==>
        timeoutsOld == (match WinConfigureFlow(opts, os.conf).savedTimeouts
                        case Some(t) => t case None => old(timeoutsOld))
      ensures os.mallocOk && os.handle.Some? ==>
        (rdTimeout, wrTimeout) == (match WinConfigureFlow(opts, os.conf).timeouts
                                   case Some(p) => p case None => (old(rdTimeout), old(wrTimeout)))
    {
      var r := 0;
      calls := [];
      if !os.mallocOk {
        st := Status(r, Some(os.mallocText));
        return;
      }
      var port := PORT_PREFIX;
      port := port + opts.port;
      calls := calls + [CreateFile(port)];
      hnd := if os.handle.Some? then os.handle.value else INVALID_HANDLE_VALUE;
      if os.handle.None? {
        st := Werr(os.createError, os.createText);
        return;
      }
      var confCalls;
      st, confCalls := Configure(opts, os.conf);
      calls := calls + confCalls;
      if st.code < 0 {
        calls := calls + [CloseHandle];
        return;
      }
      calls := calls + [SetCommMask];
      if !os.setMask {
        st := Werr(os.maskError, os.maskText);
        calls := calls + [CloseHandle];
      }
    }
  }

  // ---------------------------------------------------------------------------
  // Purge
  // ---------------------------------------------------------------------------

  /** The PurgeComm flags of `ser_flush`. */
  function PurgeFlags(queue: int): (f: Option<set<PurgeFlag>>)
    ensures f.Some? <==> queue in {SER_QUEUE_IN, SER_QUEUE_OUT, SER_QUEUE_ALL}
    ensures f.Some? ==> (PURGE_RXCLEAR in f.value <==> queue != SER_QUEUE_OUT)
    ensures f.Some? ==> (PURGE_TXCLEAR in f.value <==> queue != SER_QUEUE_IN)
    ensures f.Some? ==> f.value != {}
  {
    if queue == SER_QUEUE_IN then Some({PURGE_RXCLEAR})
    else if queue == SER_QUEUE_OUT then Some({PURGE_TXCLEAR})
    else if queue == SER_QUEUE_ALL then Some({PURGE_RXCLEAR, PURGE_TXCLEAR})
    else None
  }

  /** `ser_flush`: the status and the purge issued (None: none). */
  function Flush(queue: int, purgeOk: bool, lastError: uint32, sysText: string): (r: (Status, Option<set<PurgeFlag>>))
    ensures r.1 == PurgeFlags(queue)
    ensures r.1.None? ==> r.0 == Fail(SER_EINVAL, "Invalid queue specified")
    ensures r.1.Some? ==> (r.0 == OK <==> purgeOk)
    ensures r.1.Some? && !purgeOk ==> r.0 == Werr(lastError, sysText)
  {
    match PurgeFlags(queue)
    case None => (Fail(SER_EINVAL, "Invalid queue specified"), None)
    case Some(f) => (if purgeOk then OK else Werr(lastError, sysText), Some(f))
  }

  // ---------------------------------------------------------------------------
  // Overlapped operations
  // ---------------------------------------------------------------------------

  /**
   * How an overlapped call started: it completed at once, or it failed with
   * GetLastError() (ERROR_IO_PENDING meaning it is still running), in which
   * case `waited` is what WaitForSingleObject returned.
   */
  datatype IoStart = Completed | Failed(lastError: uint32, waited: uint32)

  /** Whether the call finished within the wait: the code of the first failing step, if any. */
  function Completion(start: IoStart, sysText: string): (st: Status)
    ensures st.code == 0 <==> start.Completed? || (start.lastError == ERROR_IO_PENDING && start.waited == WAIT_OBJECT_0)
    ensures st.code != 0 ==> st.code < 0
    ensures start.Failed? && start.lastError == ERROR_IO_PENDING && start.waited == WAIT_TIMEOUT ==>
      st == Fail(SER_ETIMEDOUT, "Operation timed out")
  {
    match start
    case Completed => OK
    case Failed(e, waited) =>
      if e == ERROR_IO_PENDING then
        if waited == WAIT_OBJECT_0 then OK else Werr(waited, sysText)
      else Werr(e, sysText)
  }

  /** The timeout a pending call waits with (None: no wait). */
  function WaitedWith(start: IoStart, timeout: uint32): (t: Option<uint32>)
    ensures t.Some? <==> start.Failed? && start.lastError == ERROR_IO_PENDING
  {
    if start.Failed? && start.lastError == ERROR_IO_PENDING then Some(timeout) else None
  }

  /** What `ser_read_wait` meets. */
  datatype ReadWaitOs = ReadWaitOs(
    eventOk: bool, lastError: uint32, start: IoStart,
    mask: Option<bool>, maskError: uint32, sysText: string)

  /**
   * `ser_read_wait`: wait for a reception event with the stored read
   * timeout, then check that the event mask reports received characters.
   */
  function ReadWait(rdTimeout: uint32, os: ReadWaitOs): (r: (Status, Option<uint32>))
    ensures r.0.code == 0 <==> os.eventOk && Completion(os.start, os.sysText).code == 0 && os.mask == Some(true)
    ensures r.0.code <= 0
    ensures os.eventOk && Completion(os.start, os.sysText).code == 0 && os.mask == Some(false) ==>
      r.0 == Fail(SER_EFAIL, "Unexpected error (RX event not set)")
    ensures r.1 == (if os.eventOk then WaitedWith(os.start, rdTimeout) else None)
  {
    if !os.eventOk then (Werr(os.lastError, os.sysText), None)
    else
      var c := Completion(os.start, os.sysText);
      var waited := WaitedWith(os.start, rdTimeout);
      if c.code != 0 then (c, waited)
      else match os.mask
        case None => (Werr(os.maskError, os.sysText), waited)
        case Some(rx) =>
          if rx then (OK, waited) else (Fail(SER_EFAIL, "Unexpected error (RX event not set)"), waited)
  }

  /** What an overlapped read or write meets: the event, the start, and GetOverlappedResult's count. */
  datatype TransferOs = TransferOs(
    eventOk: bool, lastError: uint32, start: IoStart,
    result: Option<uint32>, resultError: uint32, sysText: string)

  /** The outcome of a read or write: status, the count stored for the caller, the count requested. */
  datatype Transfer = Transfer(st: Status, count: Option<nat>, requested: uint32)

  /**
   * `ser_read`: one overlapped ReadFile of `(DWORD)sz` bytes waited for with
   * the read timeout. A completed read of 0 bytes is "empty" but the 0 is
   * still stored. A failed CreateEvent is reported as SER_EFAIL.
   */
  function Read(sz: nat, rdTimeout: uint32, os: TransferOs): (r: Transfer)
    ensures r.requested == ToUint32(sz)
    ensures r.count.Some? <==> os.eventOk && Completion(os.start, os.sysText).code == 0 && os.result.Some?
    ensures r.count.Some? ==> r.count.value == os.result.value
    ensures r.count == Some(0) <==> r.st == Fail(SER_EEMPTY, "No bytes available")
    ensures r.st.code == 0 <==> r.count.Some? && r.count.value > 0
    ensures !os.eventOk ==> r.st == Fail(SER_EFAIL, SysMessage(os.sysText))
  {
    var req := ToUint32(sz);
    if !os.eventOk then Transfer(Fail(SER_EFAIL, SysMessage(os.sysText)), None, req)
    else
      var c := Completion(os.start, os.sysText);
      if c.code != 0 then Transfer(c, None, req)
      else match os.result
        case None => Transfer(Werr(os.resultError, os.sysText), None, req)
        case Some(n) =>
          if n == 0 then Transfer(Fail(SER_EEMPTY, "No bytes available"), Some(0), req)
          else Transfer(OK, Some(n), req)
  }

  /**
   * `ser_write`: one overlapped WriteFile of `(DWORD)sz` bytes waited for
   * with the write timeout, no retry; the count is stored only once
   * GetOverlappedResult has succeeded.
   */
  function Write(sz: nat, wrTimeout: uint32, os: TransferOs): (r: Transfer)
    ensures r.requested == ToUint32(sz)
    ensures r.count.Some? <==> r.st.code == 0
    ensures r.st.code == 0 <==> os.eventOk && Completion(os.start, os.sysText).code == 0 && os.result.Some?
    ensures r.count.Some? ==> r.count.value == os.result.value
    ensures r.st.code != 0 ==> r.st.code < 0
  {
    var req := ToUint32(sz);
    if !os.eventOk then Transfer(Werr(os.lastError, os.sysText), None, req)
    else
      var c := Completion(os.start, os.sysText);
      if c.code != 0 then Transfer(c, None, req)
      else match os.result
        case None => Transfer(Werr(os.resultError, os.sysText), None, req)
        case Some(n) => Transfer(OK, Some(n), req)
  }

  /**
   * Unlike the POSIX loop, a short write is a success: whatever count the
   * single WriteFile completes with is reported with code 0.
   */
  lemma WinShortWriteSucceeds(sz: nat, wrTimeout: uint32, n: uint32, sysText: string)
    requires n < sz
    ensures var r := Write(sz, wrTimeout, TransferOs(true, 0, Completed, Some(n), 0, sysText));
      r.st == OK && r.count == Some(n) && r.count.value < sz
  {
  }

  // ---------------------------------------------------------------------------
  // Discrepancies
  // ---------------------------------------------------------------------------

  /**
   * `ser_open` returns 0 when the path buffer cannot be allocated: the
   * caller sees success, no handle was opened and the error slot holds the
   * allocation failure.
   */
  lemma OpenMallocFailureReturnsZero(port: WinPort, opts: Options, os: OpenWinOs)
    requires !os.mallocOk
    ensures WinOpenOutcome(opts, os).code == 0 && WinOpenOutcome(opts, os).msg == Some(os.mallocText)
    ensures WinOpenFixedOutcome(opts, os).code == SER_EFAIL
  {
  }

  /** The status `ser_open` returns, as written. */
  function WinOpenOutcome(opts: Options, os: OpenWinOs): (st: Status)
    ensures !os.mallocOk ==> st.code == 0
    ensures os.mallocOk && os.handle.None? ==> st.code < 0
    ensures os.mallocOk && os.handle.Some? && os.setMask ==> st == WinConfigureFlow(opts, os.conf).st
  {
    if !os.mallocOk then Status(0, Some(os.mallocText))
    else if os.handle.None? then Werr(os.createError, os.createText)
    else
      var conf := WinConfigureFlow(opts, os.conf);
      if conf.st.code < 0 then conf.st
      else if !os.setMask then Werr(os.maskError, os.maskText)
      else conf.st
  }

  /** The status `ser_open` evidently means to return: an allocation failure is SER_EFAIL. */
  function WinOpenFixedOutcome(opts: Options, os: OpenWinOs): (st: Status)
  {
    if !os.mallocOk then Fail(SER_EFAIL, os.mallocText)
    else WinOpenOutcome(opts, os)
  }

  /** With the fix, `ser_open` reports success only with an open, configured, subscribed handle. */
  lemma WinOpenFixedSound(opts: Options, os: OpenWinOs)
    ensures WinOpenFixedOutcome(opts, os).code == 0 ==>
      os.mallocOk && os.handle.Some? && os.setMask && WinConfigureFlow(opts, os.conf).st.code == 0
    ensures WinOpenFixedOutcome(opts, os).code <= 0
  {
    var conf := WinConfigureFlow(opts, os.conf);
    assert conf.st.code <= 0;
  }

  /**
   * The write slot takes the read option: a port opened with no read
   * timeout and a 100 ms write timeout waits for writes without limit.
   */
  lemma WinWriteTimeoutFromReadSlot(os: ConfigureWinOs)
    requires WinOsCooperates(os)
    ensures WinConfigureFlow(DefaultOptions.(wrTimeout := 100), os).timeouts == Some((INFINITE, 0))
    ensures WinConfigureFlow(DefaultOptions.(rdTimeout := 50), os).timeouts == Some((50, INFINITE))
  {
  }

  /** The stored write limit evidently intended: INFINITE for 0, else the write option. */
  function WinWriteTimeoutFixed(opts: Options): (d: uint32)
    ensures d == TimeoutDword(opts.wrTimeout)
  {
    if opts.wrTimeout == SER_NO_TIMEOUT then INFINITE else ToUint32(opts.wrTimeout)
  }

  /** With the fix a pending write waits exactly as long as its option says (for positive options). */
  lemma WinWriteTimeoutFixedWaits(opts: Options, sz: nat, os: TransferOs)
    requires opts.wrTimeout > 0
    requires os.eventOk && os.start.Failed? && os.start.lastError == ERROR_IO_PENDING
    ensures WaitedWith(os.start, WinWriteTimeoutFixed(opts)) == Some(opts.wrTimeout as uint32)
  {
  }
}
