/**
 * The POSIX backend of the port API (sercomm/posix/comms.c): errno
 * classification, translation of the options into termios settings, the
 * select-based readiness wait with its timeout bookkeeping, and the
 * read/flush/write operations. Every system call is an oracle: its result
 * is an input of the model.
 */
module PosixComms {
  import opened SerTypes
  import opened Clock

  // ---------------------------------------------------------------------------
  // errno classification (error_set)
  // ---------------------------------------------------------------------------

  /** errno values, as Linux numbers them. */
  const ENOENT: int := 2
  const EIO: int := 5
  const ENXIO: int := 6
  const EAGAIN: int := 11
  const EBUSY: int := 16

  const MSG_DISCONNECTED: string := "Device was disconnected"
  const MSG_TIMED_OUT: string := "Operation timed out"

  /**
   * `error_set(code)`: map an errno value to a library code and record its
   * description. `osText` is what `strerror(errno)` gives for the default
   * branch.
   */
  function ErrorSet(code: int, osText: string): (st: Status)
    ensures st.code == 0 <==> code == 0
    ensures st.msg.None? <==> code == 0
    ensures code != 0 ==> IsErrorCode(st.code)
    ensures st.code == SER_ENODEV <==> code == ENOENT
    ensures st.code == SER_EBUSY <==> code == EBUSY
    ensures st.code == SER_EDISCONN <==> code == EIO || code == ENXIO
    ensures st.code == SER_EEMPTY <==> code == EAGAIN
    ensures st.code == SER_EFAIL <==> code !in {0, ENOENT, EBUSY, EIO, ENXIO, EAGAIN}
  {
    if code == 0 then OK
    else if code == ENOENT then Fail(SER_ENODEV, "No such device")
    else if code == EBUSY then Fail(SER_EBUSY, "Device is busy")
    else if code == EIO || code == ENXIO then Fail(SER_EDISCONN, MSG_DISCONNECTED)
    else if code == EAGAIN then Fail(SER_EEMPTY, "No bytes available")
    else Fail(SER_EFAIL, osText)
  }

  // ---------------------------------------------------------------------------
  // termios settings
  // ---------------------------------------------------------------------------

  /** The `c_cflag` bits the library sets, as symbols. */
  datatype CFlag = CREAD | CLOCAL | CS5 | CS6 | CS7 | CS8 | PARENB | PARODD | CMSPAR | CSTOPB

  const CharSizes: set<CFlag> := {CS5, CS6, CS7, CS8}

  /** `cs` is the one CSIZE value present in `cflag`. */
  predicate OnlyCharSize(cflag: set<CFlag>, cs: CFlag)
  {
    cs in cflag && forall c :: c in CharSizes && c in cflag ==> c == cs
  }

  /** A `speed_t` constant: `B(r)` is the macro Br; `B(0)` is also the zeroed field. */
  datatype Speed = B(rate: nat)

  /** The part of `struct termios` the library fills in. */
  datatype Termios = Termios(cflag: set<CFlag>, ispeed: Speed, ospeed: Speed, vmin: int, vtime: int)

  /** `memset(&tios, 0, sizeof(tios))`. */
  const ZeroTermios: Termios := Termios({}, B(0), B(0), 0, 0)

  /** The rates the `switch (opts->baudrate)` lists, each under `#ifdef Brate`. */
  const ListedRates: set<nat> := {
    0, 50, 75, 110, 134, 150, 200, 300, 600, 1200, 1800, 2400, 4800, 7200, 9600,
    14400, 19200, 28800, 57600, 76800, 38400, 115200, 128000, 153600, 230400,
    256000, 460800, 576000, 921600, 1000000, 1152000, 1500000, 2000000, 2500000,
    3000000, 3500000, 4000000 }

  /** How a non-listed rate is programmed on the target. */
  datatype CustomPath = IossSpeed | LinuxDivisor | NoCustom

  /**
   * The build target: which Brate macros its headers define, whether it
   * has CMSPAR, and which custom-rate mechanism it compiles in.
   */
  datatype Platform = Platform(defined: set<nat>, hasCmspar: bool, custom: CustomPath)

  /** The Bxxx constant the switch picks, when the rate is listed and defined. */
  function StandardSpeed(baud: nat, plat: Platform): (s: Option<Speed>)
    ensures s.Some? <==> baud in ListedRates && baud in plat.defined
    ensures s.Some? ==> s.value == B(baud)
  {
    if baud in ListedRates && baud in plat.defined then Some(B(baud)) else None
  }

  /** Linux `struct serial_struct`, reduced to the fields the library touches. */
  datatype SerialInfo = SerialInfo(baudBase: int, flags: set<nat>, customDivisor: int)

  /** Bit numbers of ASYNC_SPD_HI, ASYNC_SPD_VHI and ASYNC_SPD_SHI. */
  const SPD_HI: nat := 4
  const SPD_VHI: nat := 5
  const SPD_SHI: nat := 12
  /** `ASYNC_SPD_MASK` (HI|VHI|SHI) and `ASYNC_SPD_CUST` (HI|VHI) as sets of bits. */
  const SPD_MASK: set<nat> := {SPD_HI, SPD_VHI, SPD_SHI}
  const SPD_CUST: set<nat> := {SPD_HI, SPD_VHI}

  /** The result of a system call that fills in a value: the value, or errno. */
  datatype OsResult<T> = Done(value: T) | Errno(code: int)

  /** What the configuration system calls answer. Each errno field is 0 on success. */
  datatype ConfigureOs = ConfigureOs(
    getattr: OsResult<Termios>,
    iossSpeed: int,
    getSerial: OsResult<SerialInfo>,
    setSerial: int,
    setattr: int,
    osText: string)

  /** Configuration requests issued to the device, in order. */
  datatype OsCall =
    | IossSpeedCall(rate: uint32)
    | GetSerialCall
    | SetSerialCall(info: SerialInfo)
    | SetAttrFlush(tios: Termios)

  /** A check either passes with a value or rejects with the call's outcome. */
  datatype Checked<T> = Pass(value: T) | Reject(st: Status)

  /** The custom divisor TIOCSSERIAL receives: `baud_base / (int)baudrate`. */
  function CustomDivisor(baudBase: int, baud: uint32): int
    requires ToInt32(baud) != 0
  {
    CDiv(baudBase, ToInt32(baud))
  }

  /**
   * The baud step: the Bxxx for both speeds, or the custom-rate path with its
   * requests. A rate of 0 is listed as B0, which POSIX requires every target
   * to define, so the Linux divisor never divides by zero.
   */
  function BaudStep(baud: uint32, plat: Platform, os: ConfigureOs): (r: (Checked<Speed>, seq<OsCall>))
    requires 0 in plat.defined
    ensures r.0.Pass? <==> StandardSpeed(baud, plat).Some?
                           || (plat.custom == IossSpeed && os.iossSpeed == 0)
                           || (plat.custom == LinuxDivisor && os.getSerial.Done? && os.setSerial == 0)
    ensures StandardSpeed(baud, plat).Some? ==> r.0 == Pass(StandardSpeed(baud, plat).value) && r.1 == []
    ensures StandardSpeed(baud, plat).None? && r.0.Pass? ==> r.0.value == B(0)
    ensures StandardSpeed(baud, plat).None? && plat.custom == NoCustom ==>
      r == (Reject(Fail(SER_ENOTSUP, "Custom baudrates unsupported")), [])
    ensures forall i :: 0 <= i < |r.1| ==> !r.1[i].SetAttrFlush?
  {
    match StandardSpeed(baud, plat)
    case Some(sp) => (Pass(sp), [])
    case None =>
      match plat.custom
      case IossSpeed =>
        var call := [IossSpeedCall(baud)];
        if os.iossSpeed != 0 then (Reject(ErrorSet(os.iossSpeed, os.osText)), call)
        else (Pass(B(0)), call)
      case LinuxDivisor =>
        (match os.getSerial
         case Errno(e) => (Reject(ErrorSet(e, os.osText)), [GetSerialCall])
         case Done(info) =>
           assert baud != 0;
           var info' := SerialInfo(info.baudBase, (info.flags - SPD_MASK) + SPD_CUST,
                                   CustomDivisor(info.baudBase, baud));
           var calls := [GetSerialCall, SetSerialCall(info')];
           if os.setSerial != 0 then (Reject(ErrorSet(os.setSerial, os.osText)), calls)
           else (Pass(B(0)), calls))
      case NoCustom =>
        (Reject(Fail(SER_ENOTSUP, "Custom baudrates unsupported")), [])
  }

  /** The byte-size switch: the CSn flag. */
  function CharSizeStep(bytesz: int): (r: Checked<CFlag>)
    ensures r.Pass? <==> SER_BYTESZ_8 <= bytesz <= SER_BYTESZ_5
    ensures r.Pass? ==> r.value in CharSizes
  {
    if bytesz == SER_BYTESZ_8 then Pass(CS8)
    else if bytesz == SER_BYTESZ_7 then Pass(CS7)
    else if bytesz == SER_BYTESZ_6 then Pass(CS6)
    else if bytesz == SER_BYTESZ_5 then Pass(CS5)
    else Reject(Fail(SER_EINVAL, "Invalid byte size"))
  }

  /** The parity switch: the flags it ORs in. */
  function ParityStep(parity: int, hasCmspar: bool): (r: Checked<set<CFlag>>)
    ensures r.Pass? <==> ParitySupported(parity, hasCmspar)
    ensures r.Pass? ==> r.value <= {PARENB, PARODD, CMSPAR}
    ensures parity in {SER_PAR_MARK, SER_PAR_SPACE} && !hasCmspar ==>
      r == Reject(Fail(SER_ENOTSUP, "Unsupported mark or space parity"))
    ensures !(SER_PAR_NONE <= parity <= SER_PAR_SPACE) ==> r == Reject(Fail(SER_EINVAL, "Invalid parity type"))
  {
    if parity == SER_PAR_NONE then Pass({})
    else if parity == SER_PAR_ODD then Pass({PARENB, PARODD})
    else if parity == SER_PAR_EVEN then Pass({PARENB})
    else if parity == SER_PAR_MARK || parity == SER_PAR_SPACE then
      if !hasCmspar then Reject(Fail(SER_ENOTSUP, "Unsupported mark or space parity"))
      else if parity == SER_PAR_MARK then Pass({PARENB, CMSPAR, PARODD})
      else Pass({PARENB, CMSPAR})
    else Reject(Fail(SER_EINVAL, "Invalid parity type"))
  }

  /** The stop-bits switch. */
  function StopStep(stopbits: int): (r: Checked<set<CFlag>>)
    ensures r.Pass? <==> stopbits in {SER_STOPB_ONE, SER_STOPB_TWO}
    ensures r.Pass? ==> r.value <= {CSTOPB}
    ensures stopbits == SER_STOPB_ONE5 ==> r == Reject(Fail(SER_ENOTSUP, "Unsupported number of stop bits"))
    ensures !(SER_STOPB_ONE <= stopbits <= SER_STOPB_TWO) ==> r == Reject(Fail(SER_EINVAL, "Invalid number of stop bits"))
  {
    if stopbits == SER_STOPB_ONE then Pass({})
    else if stopbits == SER_STOPB_ONE5 then Reject(Fail(SER_ENOTSUP, "Unsupported number of stop bits"))
    else if stopbits == SER_STOPB_TWO then Pass({CSTOPB})
    else Reject(Fail(SER_EINVAL, "Invalid number of stop bits"))
  }

  /** Everything `port_configure` leaves behind. */
  datatype ConfigResult = ConfigResult(
    st: Status,
    saved: Option<Termios>,
    timeouts: Option<(int32, int32)>,
    calls: seq<OsCall>)

  /** `port_configure`, step by step as the function runs it. */
  function ConfigureFlow(opts: Options, plat: Platform, os: ConfigureOs): (r: ConfigResult)
    requires 0 in plat.defined
    ensures os.getattr.Errno? ==> r.saved.None? && r.timeouts.None? && r.calls == []
    ensures os.getattr.Done? ==> r.saved == Some(os.getattr.value)
    ensures r.timeouts.Some? <==> Applied(r).Some?
    ensures r.timeouts.Some? ==> r.timeouts.value == (opts.rdTimeout, opts.rdTimeout) && r.st == ErrorSet(os.setattr, os.osText)
  {
    match os.getattr
    case Errno(e) => ConfigResult(ErrorSet(e, os.osText), None, None, [])
    case Done(prev) =>
      var (baud, calls) := BaudStep(opts.baudrate, plat, os);
      if baud.Reject? then ConfigResult(baud.st, Some(prev), None, calls)
      else
        var cs := CharSizeStep(opts.bytesz);
        if cs.Reject? then ConfigResult(cs.st, Some(prev), None, calls)
        else
          var par := ParityStep(opts.parity, plat.hasCmspar);
          if par.Reject? then ConfigResult(par.st, Some(prev), None, calls)
          else
            var stop := StopStep(opts.stopbits);
            if stop.Reject? then ConfigResult(stop.st, Some(prev), None, calls)
            else
              var tios := Termios({CREAD, CLOCAL} + {cs.value} + par.value + stop.value,
                                  baud.value, baud.value, 1, 0);
              ConfigResult(ErrorSet(os.setattr, os.osText), Some(prev),
                           Some((opts.rdTimeout, opts.rdTimeout)),
                           calls + [SetAttrFlush(tios)])
  }

  /** The settings applied by the final `tcsetattr(TCSAFLUSH)`, if it was issued. */
  function Applied(r: ConfigResult): Option<Termios>
  {
    if |r.calls| > 0 && r.calls[|r.calls| - 1].SetAttrFlush? then Some(r.calls[|r.calls| - 1].tios)
    else None
  }

  // ---------------------------------------------------------------------------
  // Properties of the configuration
  // ---------------------------------------------------------------------------

  /** Every system call answers with success. */
  predicate OsCooperates(os: ConfigureOs)
  {
    os.getattr.Done? && os.iossSpeed == 0 && os.getSerial.Done? && os.setSerial == 0 && os.setattr == 0
  }

  predicate BaudSupported(baud: nat, plat: Platform)
  {
    StandardSpeed(baud, plat).Some? || plat.custom != NoCustom
  }

  predicate ParitySupported(parity: int, hasCmspar: bool)
  {
    parity in {SER_PAR_NONE, SER_PAR_ODD, SER_PAR_EVEN}
    || (hasCmspar && parity in {SER_PAR_MARK, SER_PAR_SPACE})
  }

  /** The options the POSIX backend can apply on `plat`. */
  predicate PosixAccepts(opts: Options, plat: Platform)
  {
    && BaudSupported(opts.baudrate, plat)
    && SER_BYTESZ_8 <= opts.bytesz <= SER_BYTESZ_5
    && ParitySupported(opts.parity, plat.hasCmspar)
    && opts.stopbits in {SER_STOPB_ONE, SER_STOPB_TWO}
  }

  /** With cooperating system calls, configuration succeeds exactly on the accepted options. */
  lemma ConfigureSucceedsIff(opts: Options, plat: Platform, os: ConfigureOs)
    requires 0 in plat.defined && OsCooperates(os)
    ensures ConfigureFlow(opts, plat, os).st.code == 0 <==> PosixAccepts(opts, plat)
    ensures ConfigureFlow(opts, plat, os).st.code != 0 ==> ConfigureFlow(opts, plat, os).st.code in {SER_EINVAL, SER_ENOTSUP}
  {
  }

  /**
   * The checks run in the order baud, byte size, parity, stop bits: a
   * failing check is reported whatever the later fields hold.
   */
  lemma ConfigureCheckOrder(opts: Options, plat: Platform, os: ConfigureOs)
    requires 0 in plat.defined && OsCooperates(os)
    ensures !BaudSupported(opts.baudrate, plat) ==>
      ConfigureFlow(opts, plat, os).st == Fail(SER_ENOTSUP, "Custom baudrates unsupported")
    ensures BaudSupported(opts.baudrate, plat) && !(SER_BYTESZ_8 <= opts.bytesz <= SER_BYTESZ_5) ==>
      ConfigureFlow(opts, plat, os).st == Fail(SER_EINVAL, "Invalid byte size")
    ensures BaudSupported(opts.baudrate, plat) && SER_BYTESZ_8 <= opts.bytesz <= SER_BYTESZ_5
            && !(SER_PAR_NONE <= opts.parity <= SER_PAR_SPACE) ==>
      ConfigureFlow(opts, plat, os).st == Fail(SER_EINVAL, "Invalid parity type")
    ensures BaudSupported(opts.baudrate, plat) && SER_BYTESZ_8 <= opts.bytesz <= SER_BYTESZ_5
            && opts.parity in {SER_PAR_MARK, SER_PAR_SPACE} && !plat.hasCmspar ==>
      ConfigureFlow(opts, plat, os).st == Fail(SER_ENOTSUP, "Unsupported mark or space parity")
    ensures BaudSupported(opts.baudrate, plat) && SER_BYTESZ_8 <= opts.bytesz <= SER_BYTESZ_5
            && ParitySupported(opts.parity, plat.hasCmspar) && opts.stopbits == SER_STOPB_ONE5 ==>
      ConfigureFlow(opts, plat, os).st == Fail(SER_ENOTSUP, "Unsupported number of stop bits")
    ensures BaudSupported(opts.baudrate, plat) && SER_BYTESZ_8 <= opts.bytesz <= SER_BYTESZ_5
            && ParitySupported(opts.parity, plat.hasCmspar) && !(SER_STOPB_ONE <= opts.stopbits <= SER_STOPB_TWO) ==>
      ConfigureFlow(opts, plat, os).st == Fail(SER_EINVAL, "Invalid number of stop bits")
  {
  }

  /** The character size, parity and stop bits a `c_cflag` encodes. */
  function DecodeCflag(cflag: set<CFlag>): (int, int, int)
  {
    var bytesz := if CS8 in cflag then SER_BYTESZ_8 else if CS7 in cflag then SER_BYTESZ_7
                  else if CS6 in cflag then SER_BYTESZ_6 else SER_BYTESZ_5;
    var parity := if PARENB !in cflag then SER_PAR_NONE
                  else if CMSPAR in cflag then (if PARODD in cflag then SER_PAR_MARK else SER_PAR_SPACE)
                  else if PARODD in cflag then SER_PAR_ODD else SER_PAR_EVEN;
    var stopbits := if CSTOPB in cflag then SER_STOPB_TWO else SER_STOPB_ONE;
    (bytesz, parity, stopbits)
  }

  /**
   * For accepted options and cooperating system calls, the applied `c_cflag` has CREAD|CLOCAL, exactly one CSn,
   * PARENB iff there is parity, CSTOPB iff two stop bits, and it decodes
   * back to the requested frame: nothing is substituted. Both stored
   * timeouts are the read timeout; VMIN is 1 and VTIME 0.
   */
  lemma ConfiguredSettings(opts: Options, plat: Platform, os: ConfigureOs)
    requires 0 in plat.defined
    requires OsCooperates(os) && PosixAccepts(opts, plat)
    ensures Applied(ConfigureFlow(opts, plat, os)).Some?
    ensures var t := Applied(ConfigureFlow(opts, plat, os)).value;
      && {CREAD, CLOCAL} <= t.cflag
      && OnlyCharSize(t.cflag, CharSizeStep(opts.bytesz).value)
      && (PARENB in t.cflag <==> opts.parity != SER_PAR_NONE)
      && (PARODD in t.cflag <==> opts.parity in {SER_PAR_ODD, SER_PAR_MARK})
      && (CSTOPB in t.cflag <==> opts.stopbits == SER_STOPB_TWO)
      && DecodeCflag(t.cflag) == (opts.bytesz, opts.parity, opts.stopbits)
      && t.vmin == 1 && t.vtime == 0
      && (StandardSpeed(opts.baudrate, plat).Some? ==> t.ispeed == t.ospeed == B(opts.baudrate))
    ensures ConfigureFlow(opts, plat, os).timeouts == Some((opts.rdTimeout, opts.rdTimeout))
  {
    var b := BaudStep(opts.baudrate, plat, os);
    var cs := CharSizeStep(opts.bytesz);
    var par := ParityStep(opts.parity, plat.hasCmspar);
    var stop := StopStep(opts.stopbits);
    assert b.0.Pass? && cs.Pass? && par.Pass? && stop.Pass?;
    var cflag := BuiltCflag(opts.bytesz, opts.parity, opts.stopbits, plat.hasCmspar);
    var t := Termios(cflag, b.0.value, b.0.value, 1, 0);
    assert ConfigureFlow(opts, plat, os).calls == b.1 + [SetAttrFlush(t)];
    assert Applied(ConfigureFlow(opts, plat, os)) == Some(t);
    CflagFacts(opts.bytesz, opts.parity, opts.stopbits, plat.hasCmspar);
  }

  /** The `c_cflag` assembled from the three switches. */
  function BuiltCflag(bytesz: int, parity: int, stopbits: int, hasCmspar: bool): set<CFlag>
    requires SER_BYTESZ_8 <= bytesz <= SER_BYTESZ_5
    requires ParitySupported(parity, hasCmspar)
    requires stopbits in {SER_STOPB_ONE, SER_STOPB_TWO}
  {
    {CREAD, CLOCAL} + {CharSizeStep(bytesz).value} + ParityStep(parity, hasCmspar).value + StopStep(stopbits).value
  }

  /** For valid fields the built `c_cflag` decodes back to them. */
  lemma CflagFacts(bytesz: int, parity: int, stopbits: int, hasCmspar: bool)
    requires SER_BYTESZ_8 <= bytesz <= SER_BYTESZ_5
    requires ParitySupported(parity, hasCmspar)
    requires stopbits in {SER_STOPB_ONE, SER_STOPB_TWO}
    ensures var cflag := BuiltCflag(bytesz, parity, stopbits, hasCmspar);
      && OnlyCharSize(cflag, CharSizeStep(bytesz).value)
      && (PARENB in cflag <==> parity != SER_PAR_NONE)
      && (PARODD in cflag <==> parity in {SER_PAR_ODD, SER_PAR_MARK})
      && (CSTOPB in cflag <==> stopbits == SER_STOPB_TWO)
      && DecodeCflag(cflag) == (bytesz, parity, stopbits)
  {
    CflagCharSize(bytesz, parity, stopbits, hasCmspar);
    CflagParity(bytesz, parity, stopbits, hasCmspar);
  }

  lemma CflagCharSize(bytesz: int, parity: int, stopbits: int, hasCmspar: bool)
    requires SER_BYTESZ_8 <= bytesz <= SER_BYTESZ_5
    requires ParitySupported(parity, hasCmspar)
    requires stopbits in {SER_STOPB_ONE, SER_STOPB_TWO}
    ensures var cflag := BuiltCflag(bytesz, parity, stopbits, hasCmspar);
      OnlyCharSize(cflag, CharSizeStep(bytesz).value) && DecodeCflag(cflag).0 == bytesz && DecodeCflag(cflag).2 == stopbits
      && (CSTOPB in cflag <==> stopbits == SER_STOPB_TWO)
  {
    var cs := CharSizeStep(bytesz).value;
    var rest := ParityStep(parity, hasCmspar).value + StopStep(stopbits).value;
    var cflag := BuiltCflag(bytesz, parity, stopbits, hasCmspar);
    assert rest <= {PARENB, PARODD, CMSPAR, CSTOPB};
    assert CSTOPB in cflag <==> CSTOPB in StopStep(stopbits).value;
  }

  lemma CflagParity(bytesz: int, parity: int, stopbits: int, hasCmspar: bool)
    requires SER_BYTESZ_8 <= bytesz <= SER_BYTESZ_5
    requires ParitySupported(parity, hasCmspar)
    requires stopbits in {SER_STOPB_ONE, SER_STOPB_TWO}
    ensures var cflag := BuiltCflag(bytesz, parity, stopbits, hasCmspar);
      && (PARENB in cflag <==> parity != SER_PAR_NONE)
      && (PARODD in cflag <==> parity in {SER_PAR_ODD, SER_PAR_MARK})
      && DecodeCflag(cflag).1 == parity
  {
    var par := ParityStep(parity, hasCmspar).value;
    var cflag := BuiltCflag(bytesz, parity, stopbits, hasCmspar);
    assert PARENB in cflag <==> PARENB in par;
    assert PARODD in cflag <==> PARODD in par;
    assert CMSPAR in cflag <==> CMSPAR in par;
  }

  /**
   * A rate outside the table takes the Linux custom path: TIOCSSERIAL gets
   * `baud_base / (int)rate` and the speed bits replaced by ASYNC_SPD_CUST.
   */
  lemma LinuxCustomDivisor(opts: Options, plat: Platform, os: ConfigureOs)
    requires 0 in plat.defined && plat.custom == LinuxDivisor && OsCooperates(os)
    requires StandardSpeed(opts.baudrate, plat).None?
    ensures opts.baudrate != 0
    ensures var info := os.getSerial.value;
      var calls := ConfigureFlow(opts, plat, os).calls;
      |calls| >= 2 && calls[0] == GetSerialCall && calls[1].SetSerialCall?
      && calls[1].info.customDivisor == CustomDivisor(info.baudBase, opts.baudrate)
      && calls[1].info.flags * SPD_MASK == SPD_CUST
      && calls[1].info.flags - SPD_MASK == info.flags - SPD_MASK
    ensures 0 < opts.baudrate <= INT32_MAX && os.getSerial.value.baudBase >= 0 ==>
      var d := ConfigureFlow(opts, plat, os).calls[1].info.customDivisor;
      d * opts.baudrate <= os.getSerial.value.baudBase < (d + 1) * opts.baudrate
  {
  }
  /**
   * A rate outside the table on macOS goes to IOSSIOSPEED as a `speed_t`,
   * which holds every `uint32_t`, so the device gets the rate itself; a
   * failing ioctl ends the configuration with its errno.
   */
  lemma MacCustomSpeed(opts: Options, plat: Platform, os: ConfigureOs)
    requires 0 in plat.defined && plat.custom == IossSpeed && os.getattr.Done?
    requires StandardSpeed(opts.baudrate, plat).None?
    ensures var r := ConfigureFlow(opts, plat, os);
      && |r.calls| >= 1 && r.calls[0] == IossSpeedCall(opts.baudrate)
      && (os.iossSpeed != 0 ==> r.st == ErrorSet(os.iossSpeed, os.osText) && r.calls == [IossSpeedCall(opts.baudrate)])
  {
  }


  // ---------------------------------------------------------------------------
  // The port handle (struct ser)
  // ---------------------------------------------------------------------------

  /** `struct ser` of the POSIX backend. */
  class PosixPort {
    var fd: int
    /** Settings saved by `tcgetattr`, restored on close. */
    var tiosOld: Termios
    var rdTimeout: int32
    var wrTimeout: int32

    constructor ()
      ensures fd == -1 && rdTimeout == 0 && wrTimeout == 0 && tiosOld == ZeroTermios
    {
      fd := -1;
      tiosOld := ZeroTermios;
      rdTimeout := 0;
      wrTimeout := 0;
    }

    /**
     * `port_configure`: save the current settings, build `c_cflag` switch by
     * switch, store the timeouts and apply with TCSAFLUSH.
     */
    method Configure(opts: Options, plat: Platform, os: ConfigureOs) returns (st: Status, calls: seq<OsCall>)
      requires 0 in plat.defined
      modifies this
      ensures var r := ConfigureFlow(opts, plat, os); st == r.st && calls == r.calls
      ensures tiosOld == (match ConfigureFlow(opts, plat, os).saved
                          case Some(t) => t case None => old(tiosOld))
      ensures (rdTimeout, wrTimeout) == (match ConfigureFlow(opts, plat, os).timeouts
                                         case Some(p) => p case None => (old(rdTimeout), old(wrTimeout)))
      ensures fd == old(fd)
    {
      calls := [];
      if os.getattr.Errno? {
        st := ErrorSet(os.getattr.code, os.osText);
        return;
      }
      tiosOld := os.getattr.value;

      var tios := ZeroTermios;
      tios := tios.(cflag := {CREAD, CLOCAL});

      // baud rate
      var sp := StandardSpeed(opts.baudrate, plat);
      if sp.Some? {
        tios := tios.(ispeed := sp.value, ospeed := sp.value);
      } else if plat.custom == IossSpeed {
        calls := calls + [IossSpeedCall(opts.baudrate)];
        if os.iossSpeed != 0 {
          st := ErrorSet(os.iossSpeed, os.osText);
          return;
        }
      } else if plat.custom == LinuxDivisor {
        calls := calls + [GetSerialCall];
        if os.getSerial.Errno? {
          st := ErrorSet(os.getSerial.code, os.osText);
          return;
        }
        var lser := os.getSerial.value;
        lser := lser.(customDivisor := CustomDivisor(lser.baudBase, opts.baudrate));
        lser := lser.(flags := lser.flags - SPD_MASK);
        lser := lser.(flags := lser.flags + SPD_CUST);
        calls := calls + [SetSerialCall(lser)];
        if os.setSerial != 0 {
          st := ErrorSet(os.setSerial, os.osText);
          return;
        }
      } else {
        st := Fail(SER_ENOTSUP, "Custom baudrates unsupported");
        return;
      }

      // byte size, parity, stop bits: each switch ORs its flags in or rejects
      var cs := CharSizeStep(opts.bytesz);
      if cs.Reject? {
        st := cs.st;
        return;
      }
      tios := tios.(cflag := tios.cflag + {cs.value});
      var par := ParityStep(opts.parity, plat.hasCmspar);
      if par.Reject? {
        st := par.st;
        return;
      }
      tios := tios.(cflag := tios.cflag + par.value);
      var stop := StopStep(opts.stopbits);
      if stop.Reject? {
        st := stop.st;
        return;
      }
      tios := tios.(cflag := tios.cflag + stop.value);

      // timeouts (the write slot takes the read timeout)
      rdTimeout := opts.rdTimeout;
      wrTimeout := opts.rdTimeout;

      tios := tios.(vmin := 1, vtime := 0);
      assert calls == BaudStep(opts.baudrate, plat, os).1;
      calls := calls + [SetAttrFlush(tios)];
      st := ErrorSet(os.setattr, os.osText);
    }

    /**
     * `ser_open`: open the device node (an oracle answering with a
     * descriptor or errno), then configure; a failed configuration closes the
     * descriptor again.
     */
    method Open(opts: Options, plat: Platform, openRes: OsResult<int>, os: ConfigureOs)
      returns (st: Status, calls: seq<OsCall>, closed: bool)
      requires 0 in plat.defined
      modifies this
      ensures openRes.Errno? ==> st == ErrorSet(openRes.code, os.osText) && calls == [] && !closed
      ensures openRes.Errno? ==>
        fd == -1 && tiosOld == old(tiosOld) && rdTimeout == old(rdTimeout) && wrTimeout == old(wrTimeout)
      ensures openRes.Done? ==> fd == openRes.value
      ensures openRes.Done? ==> st == ConfigureFlow(opts, plat, os).st && calls == ConfigureFlow(opts, plat, os).calls
      ensures openRes.Done? ==>
        tiosOld == (match ConfigureFlow(opts, plat, os).saved case Some(t) => t case None => old(tiosOld))
      ensures openRes.Done? ==>
        (rdTimeout, wrTimeout) == (match ConfigureFlow(opts, plat, os).timeouts
                                   case Some(p) => p case None => (old(rdTimeout), old(wrTimeout)))
      ensures closed <==> openRes.Done? && st.code < 0
    {
      calls, closed := [], false;
      match openRes {
        case Errno(e) =>
          // `open` answers -1, which is what lands in `ser->fd`
          fd := -1;
          st := ErrorSet(e, os.osText);
        case Done(d) =>
          fd := d;
          st, calls := Configure(opts, plat, os);
          closed := st.code < 0;
      }
    }

    /**
     * `ser_write`: wait for the descriptor to become writable, write the
     * remaining bytes, add the count into `sent_`, and repeat until all
     * bytes are out, a wait fails, or a write makes no progress with errno
     * other than EAGAIN. `script` lists what each round's wait and write
     * answer; the waits start from the stored write timeout.
     */
    method Write(data: seq<byte>, script: seq<Attempt>) returns (res: WriteResult)
      requires |data| < SIZE_LIMIT
      ensures res == WriteLoop(data, WriteStart(wrTimeout), script)
    {
      var s := WriteStart(wrTimeout);
      var i := 0;
      while i < |script|
        invariant 0 <= i <= |script| && s.sent < SIZE_LIMIT
        invariant WriteLoop(data, s, script[i..]) == WriteLoop(data, WriteStart(wrTimeout), script)
      {
        assert script[i..][1..] == script[i + 1..];
        var step := Round(data, s, script[i]);
        if step.Stop? {
          return WriteResult(step.end, step.last);
        }
        s := step.next;
        i := i + 1;
      }
      res := WriteResult(ScriptEnded, s);
    }
  }

  /**
   * One pass of the `ser_write` loop body on the loop's variables: the
   * readiness wait, the write, `sent_ += (size_t)sent_now`, and the checks
   * that end the loop.
   */
  method Round(data: seq<byte>, s: WriteState, a: Attempt) returns (step: Step)
    requires s.sent < SIZE_LIMIT
    ensures step == WriteStep(data, s, a)
    ensures step.Continue? ==> step.next.sent < SIZE_LIMIT
  {
    var sent, timeout, r, msg, wire, deadlines := s.sent, s.timeout, s.code, s.msg, s.wire, s.deadlines;
    // port_wait_ready(ser, SER_OP_WR, &timeout)
    var w := WaitReady(timeout, a.wait);
    r := w.st.code;
    if w.st.msg.Some? {
      msg := w.st.msg;
    }
    if w.deadline.Some? {
      deadlines := deadlines + [w.deadline.value];
    }
    timeout := w.timeout;
    if r < 0 {
      return Stop(Returned, WriteState(sent, timeout, r, msg, wire, deadlines));
    }
    if sent > |data| {
      return Stop(OutOfBounds, WriteState(sent, timeout, r, msg, wire, deadlines));
    }
    var n := a.write.n;
    if n < -1 || n > |data| - sent {
      return Stop(NotAWriteResult, WriteState(sent, timeout, r, msg, wire, deadlines));
    }
    if n > 0 {
      wire := wire + data[sent..sent + n];
    }
    sent := (sent + n) % SIZE_LIMIT;
    if n < 1 && a.write.errno != EAGAIN {
      msg := Some(MSG_DISCONNECTED);
      return Stop(Returned, WriteState(sent, timeout, r, msg, wire, deadlines));
    }
    if sent == |data| {
      r := 0;
      return Stop(Returned, WriteState(sent, timeout, r, msg, wire, deadlines));
    }
    step := Continue(WriteState(sent, timeout, r, msg, wire, deadlines));
  }

  // ---------------------------------------------------------------------------
  // Readiness wait (port_wait_ready)
  // ---------------------------------------------------------------------------

  /** A reading of CLOCK_MONOTONIC, or the errno of a failed read. */
  datatype ClockRead = ClockOk(t: Timespec) | ClockErr(errno: int)

  /** What the wait observes: the two clock readings around `select` and its result. */
  datatype WaitObs = WaitObs(start: ClockRead, selected: int, end: ClockRead, osText: string)

  /** The `timeout` argument given to `select`. */
  datatype Deadline = NoDeadline | Timeval(sec: int, usec: int)

  /** Outcome of `port_wait_ready`: the status, the new `*timeout`, and how select was called (None: not called). */
  datatype WaitResult = WaitResult(st: Status, timeout: int32, deadline: Option<Deadline>)

  /** The `struct timeval` built from a positive millisecond timeout. */
  function TimevalOf(ms: int32): (d: Deadline)
    ensures d.Timeval? && -1_000_000 < d.usec < 1_000_000
    ensures ms >= 0 ==> 0 <= d.sec && d.sec * 1000 <= ms < (d.sec + 1) * 1000
  {
    Timeval(CDiv(ms, 1000), CRem(ToInt32(ms * 1000), 1_000_000))
  }

  /** `(int32_t)(diff.tv_sec * 1000 + diff.tv_nsec / 1000000)`. */
  function ElapsedMs(d: Timespec): (ms: int32)
    ensures d.sec == 0 && 0 <= d.nsec < 1_000_000 ==> ms == 0
    ensures 0 <= d.sec && 0 <= d.nsec && d.sec * 1000 + d.nsec / 1_000_000 <= INT32_MAX ==>
      ms == d.sec * 1000 + d.nsec / 1_000_000
  {
    ToInt32(d.sec * 1000 + CDiv(d.nsec, 1_000_000))
  }

  /** How the select result is reported. */
  function SelectStatus(s: int, osText: string): (st: Status)
    ensures st.code == 0 <==> s > 0
    ensures st.code == SER_ETIMEDOUT <==> s == 0
    ensures st.code == SER_EFAIL <==> s < 0
    ensures st.code == 0 <==> st.msg.None?
  {
    if s > 0 then OK
    else if s == 0 then Fail(SER_ETIMEDOUT, MSG_TIMED_OUT)
    else Fail(SER_EFAIL, osText)
  }

  /**
   * `port_wait_ready(ser, op, &timeout)`. A positive timeout bounds select
   * and is then overwritten with the time that elapsed; otherwise select
   * has no deadline and the timeout is left alone.
   */
  function WaitReady(timeout: int32, w: WaitObs): (r: WaitResult)
    ensures timeout <= 0 ==> r.deadline == Some(NoDeadline) && r.timeout == timeout
                              && r.st == SelectStatus(w.selected, w.osText)
    ensures timeout > 0 ==> r.deadline != Some(NoDeadline)
    ensures timeout > 0 && w.start.ClockOk? && w.end.ClockOk? ==>
      && r.deadline == Some(TimevalOf(timeout))
      && r.timeout == ElapsedMs(Diff(w.end.t, w.start.t))
      && r.st == SelectStatus(w.selected, w.osText)
    ensures timeout > 0 && w.start.ClockErr? ==>
      r.deadline.None? && r.timeout == timeout && r.st == ErrorSet(w.start.errno, w.osText)
    ensures timeout > 0 && w.start.ClockOk? && w.end.ClockErr? ==>
      r == WaitResult(ErrorSet(w.end.errno, w.osText), timeout, Some(TimevalOf(timeout)))
  {
    if timeout > 0 then
      match w.start
      case ClockErr(e) => WaitResult(ErrorSet(e, w.osText), timeout, None)
      case ClockOk(start) =>
        match w.end
        case ClockErr(e) => WaitResult(ErrorSet(e, w.osText), timeout, Some(TimevalOf(timeout)))
        case ClockOk(end) =>
          WaitResult(SelectStatus(w.selected, w.osText), ElapsedMs(Diff(end, start)), Some(TimevalOf(timeout)))
    else
      WaitResult(SelectStatus(w.selected, w.osText), timeout, Some(NoDeadline))
  }

  /** For timeouts below 2147484 ms the timeval is exactly the timeout. */
  lemma TimevalIsTimeout(ms: int32)
    requires 0 < ms <= INT32_MAX / 1000
    ensures TimevalOf(ms).sec * 1000 + TimevalOf(ms).usec / 1000 == ms
    ensures 0 <= TimevalOf(ms).usec < 1_000_000
  {
    assert ToInt32(ms * 1000) == ms * 1000;
  }

  /**
   * The stored elapsed time is the whole number of milliseconds between the
   * two normalised clock readings (while it fits in 32 bits).
   */
  lemma ElapsedIsWholeMilliseconds(start: Timespec, end: Timespec)
    requires Normalised(start) && Normalised(end) && Nanos(start) <= Nanos(end)
    requires Nanos(end) - Nanos(start) <= INT32_MAX * 1_000_000
    ensures ElapsedMs(Diff(end, start)) == (Nanos(end) - Nanos(start)) / 1_000_000
  {
    var d := Diff(end, start);
    DiffNonNegative(end, start);
    var ms := d.sec * 1000 + d.nsec / 1_000_000;
    assert Nanos(d) == ms * 1_000_000 + d.nsec % 1_000_000;
    assert ms == Nanos(d) / 1_000_000;
  }

  /** `ser_read_wait`: wait for input with the stored read timeout (a local copy). */
  function ReadWait(port_rdTimeout: int32, w: WaitObs): (st: Status)
    ensures st == WaitReady(port_rdTimeout, w).st
    ensures w.selected > 0 && (port_rdTimeout <= 0 || (w.start.ClockOk? && w.end.ClockOk?)) ==> st == OK
  {
    WaitReady(port_rdTimeout, w).st
  }

  // ---------------------------------------------------------------------------
  // Read and flush
  // ---------------------------------------------------------------------------

  /** Outcome of `ser_read`: the status and what is stored in `*recvd` (None: left alone). */
  datatype ReadResult = ReadResult(st: Status, recvd: Option<nat>)

  /** `ser_read`, given what `read(fd, buf, sz)` returned and errno after it. */
  function Read(sz: nat, n: int, errno: int, osText: string): (r: ReadResult)
    requires -1 <= n <= sz
    ensures r.recvd.Some? <==> n > 0
    ensures r.recvd.Some? ==> r.recvd.value == n && r.recvd.value <= sz && r.st == OK
    ensures n == 0 ==> r.st == Fail(SER_EDISCONN, MSG_DISCONNECTED)
    ensures n < 0 ==> r.st == ErrorSet(errno, osText)
  {
    if n > 0 then ReadResult(OK, Some(n))
    else if n == 0 then ReadResult(ErrorSet(EIO, osText), None)
    else ReadResult(ErrorSet(errno, osText), None)
  }

  /**
   * "Empty" is reported exactly for a failed read with EAGAIN, the case a
   * caller answers with `ser_read_wait`; end of file is a disconnection.
   */
  lemma ReadClassification(sz: nat, n: int, errno: int, osText: string)
    requires -1 <= n <= sz
    ensures Read(sz, n, errno, osText).st.code == SER_EEMPTY <==> n < 0 && errno == EAGAIN
    ensures Read(sz, n, errno, osText).st.code == SER_EDISCONN <==> n == 0 || (n < 0 && errno in {EIO, ENXIO})
    ensures n != 0 && errno != 0 ==> (Read(sz, n, errno, osText).st.code == 0 <==> n > 0)
  {
  }

  /** termios queue selectors of `tcflush`. */
  datatype FlushQueue = TCIFLUSH | TCOFLUSH | TCIOFLUSH

  /** The queue mapping of `ser_flush`. */
  function FlushSelector(queue: int): (q: Option<FlushQueue>)
    ensures q.Some? <==> queue in {SER_QUEUE_IN, SER_QUEUE_OUT, SER_QUEUE_ALL}
  {
    if queue == SER_QUEUE_IN then Some(TCIFLUSH)
    else if queue == SER_QUEUE_OUT then Some(TCOFLUSH)
    else if queue == SER_QUEUE_ALL then Some(TCIOFLUSH)
    else None
  }

  /** `ser_flush`: the status and the `tcflush` request issued (None: none). */
  function Flush(queue: int, tcflushErrno: int, osText: string): (r: (Status, Option<FlushQueue>))
    ensures r.1 == FlushSelector(queue)
    ensures r.1.None? ==> r.0 == Fail(SER_EINVAL, "Invalid queue specified")
    ensures r.1.Some? ==> r.0 == ErrorSet(tcflushErrno, osText)
  {
    match FlushSelector(queue)
    case None => (Fail(SER_EINVAL, "Invalid queue specified"), None)
    case Some(q) => (ErrorSet(tcflushErrno, osText), Some(q))
  }

  // ---------------------------------------------------------------------------
  // The blocking write loop (ser_write)
  // ---------------------------------------------------------------------------

  /** What `write(fd, bufc + sent_, sz - sent_)` returned and errno after it. */
  datatype WriteCall = WriteCall(n: int, errno: int)

  /** One round of the loop: the readiness wait, then the write. */
  datatype Attempt = Attempt(wait: WaitObs, write: WriteCall)

  /**
   * How the loop ended: it returned; the script ran out first (the call
   * would still be running); the next write would start outside the
   * buffer; or the write answer is one `write` cannot give.
   */
  datatype WriteEnd = Returned | ScriptEnded | OutOfBounds | NotAWriteResult

  /**
   * The loop's variables: `sent_`, the in/out timeout, `r`, the last text
   * recorded, the bytes the device accepted in order, and the deadline
   * each select was given.
   */
  datatype WriteState = WriteState(
    sent: nat, timeout: int32, code: int, msg: Option<string>,
    wire: seq<byte>, deadlines: seq<Deadline>)

  datatype WriteResult = WriteResult(end: WriteEnd, final: WriteState)

  /** The state on entry: nothing sent, the timeout copied from the handle. */
  function WriteStart(wrTimeout: int32): WriteState
  {
    WriteState(0, wrTimeout, 0, None, [], [])
  }

  /** What the caller sees: the returned code and the text left in the slot. */
  function WriteStatus(res: WriteResult): Status
  {
    Status(res.final.code, res.final.msg)
  }

  /** One step of the loop. */
  datatype Step = Continue(next: WriteState) | Stop(end: WriteEnd, last: WriteState)

  /** One round of `ser_write` as written, `sent_ += (size_t)sent_now` included. */
  function WriteStep(data: seq<byte>, s: WriteState, a: Attempt): (step: Step)
    requires s.sent < SIZE_LIMIT
    ensures step.Continue? ==> step.next.sent < SIZE_LIMIT && step.next.sent != |data|
    ensures var after := if step.Continue? then step.next else step.last;
      && |s.wire| <= |after.wire| && after.wire[..|s.wire|] == s.wire
      && (|after.wire| > |s.wire| ==>
            s.sent + (|after.wire| - |s.wire|) <= |data|
            && after.wire[|s.wire|..] == data[s.sent..s.sent + (|after.wire| - |s.wire|)])
  {
    var w := WaitReady(s.timeout, a.wait);
    var msg := if w.st.msg.Some? then w.st.msg else s.msg;
    var deadlines := if w.deadline.Some? then s.deadlines + [w.deadline.value] else s.deadlines;
    var s1 := s.(timeout := w.timeout, code := w.st.code, msg := msg, deadlines := deadlines);
    if w.st.code < 0 then Stop(Returned, s1)
    else if s.sent > |data| then Stop(OutOfBounds, s1)
    else
      var n := a.write.n;
      if n < -1 || n > |data| - s.sent then Stop(NotAWriteResult, s1)
      else
        var wire := if n > 0 then s.wire + data[s.sent..s.sent + n] else s.wire;
        var s2 := s1.(sent := (s.sent + n) % SIZE_LIMIT, wire := wire);
        if n < 1 && a.write.errno != EAGAIN then Stop(Returned, s2.(msg := Some(MSG_DISCONNECTED)))
        else if s2.sent == |data| then Stop(Returned, s2.(code := 0))
        else Continue(s2)
  }

  /** The loop run over a script of rounds. */
  function WriteLoop(data: seq<byte>, s: WriteState, script: seq<Attempt>): (res: WriteResult)
    requires s.sent < SIZE_LIMIT
    decreases |script|
    ensures |s.wire| <= |res.final.wire| && res.final.wire[..|s.wire|] == s.wire
  {
    if |script| == 0 then WriteResult(ScriptEnded, s)
    else
      var step := WriteStep(data, s, script[0]);
      match step
      case Stop(e, last) => WriteResult(e, last)
      case Continue(next) =>
        assert next.sent < SIZE_LIMIT;
        WriteLoop(data, next, script[1..])
  }

  /** A round whose wait reports ready and whose clocks answer. */
  predicate Ready(a: Attempt)
  {
    a.wait.selected > 0 && a.wait.start.ClockOk? && a.wait.end.ClockOk?
  }

  /**
   * The oracle the write property assumes: every wait is ready and every
   * write accepts between 1 and the remaining bytes, until none remain.
   */
  predicate Cooperative(script: seq<Attempt>, remaining: nat)
    decreases |script|
  {
    && |script| > 0
    && Ready(script[0])
    && 1 <= script[0].write.n <= remaining
    && (script[0].write.n < remaining ==> Cooperative(script[1..], remaining - script[0].write.n))
  }

  /**
   * With a cooperating device the loop returns 0 with every byte sent,
   * once and in order, and leaves the error slot alone.
   */
  lemma {:induction false} WriteCompletes(data: seq<byte>, s: WriteState, script: seq<Attempt>)
    requires |data| < SIZE_LIMIT
    requires s.sent < |data| && s.wire == data[..s.sent]
    requires Cooperative(script, |data| - s.sent)
    decreases |script|
    ensures var res := WriteLoop(data, s, script);
      && res.end == Returned
      && res.final.code == 0 && res.final.msg == s.msg
      && res.final.sent == |data|
      && res.final.wire == data
  {
    var a := script[0];
    var n := a.write.n;
    assert script == [a] + script[1..];
    var next := ReadyLoopRound(data, s, a, script[1..]);
    assert data[..s.sent] + data[s.sent..s.sent + n] == data[..s.sent + n];
    if n < |data| - s.sent {
      WriteCompletes(data, next, script[1..]);
    } else {
      assert data[..s.sent + n] == data;
    }
  }

  /** Under a cooperating device each round strictly advances `sent_` within the buffer. */
  lemma WriteAdvances(data: seq<byte>, s: WriteState, a: Attempt)
    requires |data| < SIZE_LIMIT && s.sent < |data|
    requires Ready(a) && 1 <= a.write.n <= |data| - s.sent
    ensures var step := WriteStep(data, s, a);
      var after := if step.Continue? then step.next else step.last;
      s.sent < after.sent <= |data|
      && (step.Stop? <==> after.sent == |data|)
  {
    assert WaitReady(s.timeout, a.wait).st == OK;
  }

  /** A failing wait ends the loop with its code; nothing more is written. */
  lemma WriteWaitErrorStops(data: seq<byte>, s: WriteState, script: seq<Attempt>)
    requires s.sent < SIZE_LIMIT && |script| > 0
    requires WaitReady(s.timeout, script[0].wait).st.code < 0
    ensures var res := WriteLoop(data, s, script);
      var w := WaitReady(s.timeout, script[0].wait);
      res.end == Returned && res.final.code == w.st.code
      && res.final.sent == s.sent && res.final.wire == s.wire
  {
  }

  /**
   * An empty buffer is still "written": one wait, one zero-byte write,
   * and 0 is returned; unless errno is EAGAIN the disconnection text is
   * recorded on the way.
   */
  lemma WriteEmptyBuffer(t: int32, a: Attempt, rest: seq<Attempt>)
    requires Ready(a) && a.write.n == 0
    ensures var res := WriteLoop([], WriteStart(t), [a] + rest);
      res.end == Returned && res.final.code == 0 && res.final.sent == 0
      && (a.write.errno != EAGAIN <==> res.final.msg == Some(MSG_DISCONNECTED))
  {
    assert WaitReady(t, a.wait).st == OK;
  }

  /** A ready wait reports success and records the deadline select was given. */
  lemma ReadyWait(t: int32, w: WaitObs)
    requires w.selected > 0 && w.start.ClockOk? && w.end.ClockOk?
    ensures WaitReady(t, w).st == OK && WaitReady(t, w).deadline.Some?
    ensures t <= 0 ==> WaitReady(t, w) == WaitResult(OK, t, Some(NoDeadline))
  {
  }

  /** `sent_ += n` in `size_t`: a count that fits stays, a negative one wraps once. */
  lemma SentInRange(x: int)
    requires -SIZE_LIMIT <= x < SIZE_LIMIT
    ensures x % SIZE_LIMIT == if x >= 0 then x else x + SIZE_LIMIT
  {
  }

  /**
   * One round after a ready wait whose write returns a result the loop
   * goes on from (bytes accepted, or nothing with EAGAIN): the new state
   * spelled out field by field.
   */
  lemma ReadyRound(data: seq<byte>, s: WriteState, a: Attempt)
    requires |data| < SIZE_LIMIT && s.sent <= |data|
    requires Ready(a) && -1 <= a.write.n <= |data| - s.sent
    requires a.write.n >= 1 || a.write.errno == EAGAIN
    ensures var w := WaitReady(s.timeout, a.wait);
      var n := a.write.n;
      var next := s.(timeout := w.timeout, code := 0, deadlines := s.deadlines + [w.deadline.value],
                     sent := (s.sent + n) % SIZE_LIMIT,
                     wire := if n > 0 then s.wire + data[s.sent..s.sent + n] else s.wire);
      WriteStep(data, s, a) == if next.sent == |data| then Stop(Returned, next) else Continue(next)
  {
    ReadyWait(s.timeout, a.wait);
  }

  // ---------------------------------------------------------------------------
  // Discrepancies in the write path, and the loop as evidently intended
  // ---------------------------------------------------------------------------

  /**
   * A write that makes no progress with errno other than EAGAIN records the
   * disconnection but `r` keeps the 0 of the preceding wait: the call
   * returns success with bytes missing.
   */
  lemma WriteDisconnectReturnsZero(data: seq<byte>, s: WriteState, a: Attempt, rest: seq<Attempt>)
    requires |data| < SIZE_LIMIT && s.sent < |data|
    requires Ready(a) && a.write.n == 0 && a.write.errno != EAGAIN
    ensures var res := WriteLoop(data, s, [a] + rest);
      && res.end == Returned
      && res.final.code == 0
      && res.final.msg == Some(MSG_DISCONNECTED)
      && res.final.sent == s.sent < |data|
  {
    assert WaitReady(s.timeout, a.wait).st == OK;
  }

  /**
   * A -1 from `write` (errno EAGAIN) is added into `sent_`: after one byte
   * went out, `sent_` drops back to 0, the next write resends the first
   * byte and the call reports all three bytes sent while the device got four.
   */
  lemma WriteMinusOneResends(data: seq<byte>, a1: Attempt, a2: Attempt, a3: Attempt)
    requires |data| == 3
    requires Ready(a1) && Ready(a2) && Ready(a3)
    requires a1.write.n == 1 && a2.write == WriteCall(-1, EAGAIN) && a3.write.n == 3
    ensures var res := WriteLoop(data, WriteStart(0), [a1, a2, a3]);
      && res.end == Returned && res.final.code == 0 && res.final.sent == 3
      && res.final.wire == [data[0]] + data
  {
    assert [a1, a2, a3] == [a1] + [a2, a3];
    var s1 := ReadyLoopRound(data, WriteStart(0), a1, [a2, a3]);
    ResendAfterMinusOne(data, s1, a2, a3);
  }

  /** From one byte sent, a -1 and then a full write resend that byte. */
  lemma ResendAfterMinusOne(data: seq<byte>, s1: WriteState, a2: Attempt, a3: Attempt)
    requires |data| == 3 && s1.sent == 1 && s1.wire == data[0..1] && s1.timeout == 0
    requires Ready(a2) && Ready(a3) && a2.write == WriteCall(-1, EAGAIN) && a3.write.n == 3
    ensures var res := WriteLoop(data, s1, [a2, a3]);
      && res.end == Returned && res.final.code == 0 && res.final.sent == 3
      && res.final.wire == [data[0]] + data
  {
    assert [a2, a3] == [a2] + [a3] && [a3] == [a3] + [];
    var s2 := ReadyLoopRound(data, s1, a2, [a3]);
    var s3 := ReadyLoopRound(data, s2, a3, []);
    assert data[0..3] == data;
  }

  /**
   * One round after a ready wait whose write goes on: the state after it,
   * and the loop either returning there or going on from it.
   */
  lemma ReadyLoopRound(data: seq<byte>, s: WriteState, a: Attempt, rest: seq<Attempt>) returns (next: WriteState)
    requires |data| < SIZE_LIMIT && s.sent <= |data|
    requires Ready(a) && -1 <= a.write.n <= |data| - s.sent
    requires a.write.n >= 1 || a.write.errno == EAGAIN
    ensures next.timeout == WaitReady(s.timeout, a.wait).timeout
    ensures s.timeout <= 0 ==> next.timeout == s.timeout
    ensures next.deadlines == s.deadlines + [WaitReady(s.timeout, a.wait).deadline.value]
    ensures next.code == 0 && next.msg == s.msg
    ensures next.sent == if s.sent + a.write.n >= 0 then s.sent + a.write.n else s.sent + a.write.n + SIZE_LIMIT
    ensures next.wire == if a.write.n > 0 then s.wire + data[s.sent..s.sent + a.write.n] else s.wire
    ensures next.sent == |data| ==> WriteLoop(data, s, [a] + rest) == WriteResult(Returned, next)
    ensures next.sent != |data| ==> WriteLoop(data, s, [a] + rest) == WriteLoop(data, next, rest)
  {
    next := ReadyStepNext(data, s, a);
    ReadyWait(s.timeout, a.wait);
    SentInRange(s.sent + a.write.n);
    LoopHead(data, s, a, rest, next);
  }

  /** The loop over a script whose first round returns at, or goes on from, `next`. */
  lemma LoopHead(data: seq<byte>, s: WriteState, a: Attempt, rest: seq<Attempt>, next: WriteState)
    requires s.sent < SIZE_LIMIT
    requires WriteStep(data, s, a) == if next.sent == |data| then Stop(Returned, next) else Continue(next)
    ensures next.sent == |data| ==> WriteLoop(data, s, [a] + rest) == WriteResult(Returned, next)
    ensures next.sent != |data| ==> WriteLoop(data, s, [a] + rest) == WriteLoop(data, next, rest)
  {
    assert ([a] + rest)[0] == a && ([a] + rest)[1..] == rest;
  }


  /**
   * A -1 on the first round wraps `sent_` to SIZE_MAX, so the next round
   * would write from before the start of the buffer.
   */
  lemma WriteMinusOneFirstWraps(data: seq<byte>, t: int32, a: Attempt, b: Attempt)
    requires 0 < |data| < SIZE_LIMIT - 1
    requires Ready(a) && a.write == WriteCall(-1, EAGAIN) && Ready(b)
    ensures WriteLoop(data, WriteStart(t), [a, b]).end == OutOfBounds
    ensures WriteLoop(data, WriteStart(t), [a, b]).final.sent == SIZE_LIMIT - 1
  {
    assert [a, b] == [a] + [b];
    var s1 := ReadyLoopRound(data, WriteStart(t), a, [b]);
    assert s1.sent == SIZE_LIMIT - 1;
    ReadyWait(s1.timeout, b.wait);
  }

  /**
   * One round as evidently intended: only a positive count advances
   * `sent_`, and a write that makes no progress with errno other than
   * EAGAIN returns SER_EDISCONN.
   */
  function WriteStepFixed(data: seq<byte>, s: WriteState, a: Attempt): (step: Step)
    requires s.sent <= |data|
    ensures step.Continue? ==> s.sent <= step.next.sent < |data|
    ensures step.Stop? ==> step.last.sent <= |data|
    ensures var after := if step.Continue? then step.next else step.last;
      after.sent >= s.sent && (s.wire == data[..s.sent] ==> after.wire == data[..after.sent])
    ensures step.Stop? && step.end == Returned && step.last.code == 0 ==> step.last.sent == |data|
    ensures step.Stop? ==> step.end in {Returned, NotAWriteResult}
  {
    var w := WaitReady(s.timeout, a.wait);
    var msg := if w.st.msg.Some? then w.st.msg else s.msg;
    var deadlines := if w.deadline.Some? then s.deadlines + [w.deadline.value] else s.deadlines;
    var s1 := s.(timeout := w.timeout, code := w.st.code, msg := msg, deadlines := deadlines);
    if w.st.code < 0 then Stop(Returned, s1)
    else
      var n := a.write.n;
      if n < -1 || n > |data| - s.sent then Stop(NotAWriteResult, s1)
      else if n < 1 && a.write.errno != EAGAIN then
        Stop(Returned, s1.(code := SER_EDISCONN, msg := Some(MSG_DISCONNECTED)))
      else
        var k := if n > 0 then n else 0;
        assert data[..s.sent] + data[s.sent..s.sent + k] == data[..s.sent + k];
        var s2 := s1.(sent := s.sent + k, wire := s.wire + data[s.sent..s.sent + k]);
        if s2.sent == |data| then Stop(Returned, s2.(code := 0))
        else Continue(s2)
  }

  /** The intended loop over a script of rounds. */
  function WriteLoopFixed(data: seq<byte>, s: WriteState, script: seq<Attempt>): (res: WriteResult)
    requires s.sent <= |data|
    decreases |script|
  {
    if |script| == 0 then WriteResult(ScriptEnded, s)
    else
      match WriteStepFixed(data, s, script[0])
      case Stop(e, last) => WriteResult(e, last)
      case Continue(next) => WriteLoopFixed(data, next, script[1..])
  }

  /**
   * Whatever the device answers, the intended loop never leaves the
   * buffer, the device receives exactly the first `sent` bytes, and a
   * return of 0 means every byte went out.
   */
  lemma {:induction false} WriteFixedSound(data: seq<byte>, s: WriteState, script: seq<Attempt>)
    requires s.sent <= |data| && s.wire == data[..s.sent]
    decreases |script|
    ensures var res := WriteLoopFixed(data, s, script);
      && res.end != OutOfBounds
      && s.sent <= res.final.sent <= |data|
      && res.final.wire == data[..res.final.sent]
      && (res.end == Returned && res.final.code == 0 ==> res.final.sent == |data|)
  {
    if |script| > 0 {
      var step := WriteStepFixed(data, s, script[0]);
      if step.Continue? {
        WriteFixedSound(data, step.next, script[1..]);
      }
    }
  }

  /** The disconnection case of the intended loop reports SER_EDISCONN. */
  lemma WriteFixedReportsDisconnect(data: seq<byte>, s: WriteState, a: Attempt, rest: seq<Attempt>)
    requires s.sent < |data| && Ready(a) && a.write.n == 0 && a.write.errno != EAGAIN
    ensures WriteStatus(WriteLoopFixed(data, s, [a] + rest)) == Fail(SER_EDISCONN, MSG_DISCONNECTED)
  {
    ReadyWait(s.timeout, a.wait);
    var step := WriteStepFixed(data, s, a);
    assert step.Stop? && step.last.code == SER_EDISCONN && step.last.msg == Some(MSG_DISCONNECTED);
    assert ([a] + rest)[0] == a;
  }

  // ---------------------------------------------------------------------------
  // Discrepancies in the timeout bookkeeping
  // ---------------------------------------------------------------------------

  /**
   * `port_wait_ready` is documented to leave the remaining time in
   * `*timeout` but stores the elapsed time: after 30 ms of a 100 ms wait it
   * holds 30, not 70; and when no whole millisecond elapsed it holds 0,
   * so the next wait of the write loop has no deadline at all.
   */
  lemma WaitStoresElapsed()
    ensures WaitReady(100, WaitObs(ClockOk(Timespec(5, 0)), 1, ClockOk(Timespec(5, 30_000_000)), "")).timeout == 30
  {
    assert Diff(Timespec(5, 30_000_000), Timespec(5, 0)) == Timespec(0, 30_000_000);
  }

  /**
   * A first round that takes under a millisecond stores 0 as the timeout,
   * so the second wait of the same `ser_write` has no deadline at all.
   */
  lemma WriteLosesDeadline(data: seq<byte>, t: int32, a: Attempt, b: Attempt)
    requires |data| == 2 && t > 0
    requires Ready(a) && a.wait.start == a.wait.end && a.write.n == 1
    requires Ready(b)
    ensures WriteLoop(data, WriteStart(t), [a, b]).final.deadlines == [TimevalOf(t), NoDeadline]
  {
    var s1 := InstantFirstRound(data, t, a, [b]);
    assert [a, b] == [a] + [b];
    ReadyWait(s1.timeout, b.wait);
    LastRoundDeadline(data, s1, b);
  }

  /** The first round of that write: one byte out, the timeout now 0, one bounded select. */
  lemma InstantFirstRound(data: seq<byte>, t: int32, a: Attempt, rest: seq<Attempt>) returns (s1: WriteState)
    requires |data| == 2 && t > 0
    requires Ready(a) && a.wait.start == a.wait.end && a.write.n == 1
    ensures s1.sent == 1 && s1.timeout == 0 && s1.deadlines == [TimevalOf(t)]
    ensures WriteLoop(data, WriteStart(t), [a] + rest) == WriteLoop(data, s1, rest)
  {
    InstantWait(t, a.wait);
    s1 := ReadyLoopRound(data, WriteStart(t), a, rest);
  }

  /** A ready wait whose two clock readings coincide stores an elapsed time of 0. */
  lemma InstantWait(t: int32, w: WaitObs)
    requires t > 0 && w.selected > 0 && w.start.ClockOk? && w.start == w.end
    ensures WaitReady(t, w) == WaitResult(OK, 0, Some(TimevalOf(t)))
  {
    DiffSelf(w.start.t);
    assert ElapsedMs(Timespec(0, 0)) == 0;
  }

  /** A loop of one round that waits records the deadline its select was given. */
  lemma LastRoundDeadline(data: seq<byte>, s: WriteState, a: Attempt)
    requires s.sent < SIZE_LIMIT && WaitReady(s.timeout, a.wait).deadline.Some?
    ensures WriteLoop(data, s, [a]).final.deadlines == s.deadlines + [WaitReady(s.timeout, a.wait).deadline.value]
  {
    assert [a][1..] == [];
  }


  /**
   * The bookkeeping as documented: for a positive timeout whose clocks
   * answer, the in/out timeout becomes what is left of it. Select and its
   * deadline are those of `WaitReady`.
   */
  function WaitReadyRemaining(timeout: int32, w: WaitObs): (r: WaitResult)
    ensures r.st == WaitReady(timeout, w).st && r.deadline == WaitReady(timeout, w).deadline
    ensures timeout <= 0 ==> r == WaitReady(timeout, w)
  {
    var r := WaitReady(timeout, w);
    if timeout > 0 && w.start.ClockOk? && w.end.ClockOk? then r.(timeout := ToInt32(timeout - r.timeout))
    else r
  }

  /**
   * Clock readings a monotonic clock gives around one select: normalised,
   * in order, and less than 2^31 ms apart.
   */
  predicate Monotone(w: WaitObs)
  {
    w.start.ClockOk? && w.end.ClockOk? ==>
      && Normalised(w.start.t) && Normalised(w.end.t)
      && Nanos(w.start.t) <= Nanos(w.end.t)
      && Nanos(w.end.t) - Nanos(w.start.t) <= INT32_MAX * 1_000_000
  }

  /**
   * With the documented bookkeeping the timeout becomes the budget minus the
   * whole milliseconds the wait took (which is what the code as written
   * stores): it never grows, and it reaches 0 or below exactly when the
   * wait used up the budget.
   */
  lemma RemainingIsBudgetLeft(timeout: int32, w: WaitObs)
    requires timeout > 0 && w.start.ClockOk? && w.end.ClockOk? && Monotone(w)
    ensures var spent := (Nanos(w.end.t) - Nanos(w.start.t)) / 1_000_000;
      && WaitReady(timeout, w).timeout == spent
      && WaitReadyRemaining(timeout, w).timeout == timeout - spent
      && WaitReadyRemaining(timeout, w).timeout <= timeout
      && (WaitReadyRemaining(timeout, w).timeout <= 0 <==> spent >= timeout)
  {
    ElapsedIsWholeMilliseconds(w.start.t, w.end.t);
  }

  /**
   * One round of `ser_write` with the documented bookkeeping: the same wait
   * and write as `WriteStep`, but the next round gets the remaining budget;
   * a bounded write whose budget is used up times out rather than wait
   * without a deadline.
   */
  function WriteStepRemaining(data: seq<byte>, s: WriteState, bounded: bool, a: Attempt): (step: Step)
    requires s.sent < SIZE_LIMIT
    ensures bounded && s.timeout <= 0 ==>
      && step.Stop? && step.end == Returned
      && step.last.code == SER_ETIMEDOUT && step.last.msg == Some(MSG_TIMED_OUT)
      && step.last.sent == s.sent && step.last.wire == s.wire && step.last.deadlines == s.deadlines
    ensures !(bounded && s.timeout <= 0) ==>
      var code := WriteStep(data, s, a);
      var after := if step.Continue? then step.next else step.last;
      var codeAfter := if code.Continue? then code.next else code.last;
      && step.Continue? == code.Continue?
      && (step.Stop? ==> step.end == code.end)
      && after == codeAfter.(timeout := WaitReadyRemaining(s.timeout, a.wait).timeout)
    ensures var after := if step.Continue? then step.next else step.last;
      |s.wire| <= |after.wire| && after.wire[..|s.wire|] == s.wire
  {
    if bounded && s.timeout <= 0 then Stop(Returned, s.(code := SER_ETIMEDOUT, msg := Some(MSG_TIMED_OUT)))
    else
      var left := WaitReadyRemaining(s.timeout, a.wait).timeout;
      match WriteStep(data, s, a)
      case Continue(next) => Continue(next.(timeout := left))
      case Stop(e, last) => Stop(e, last.(timeout := left))
  }

  /** The loop with the documented bookkeeping; `bounded` says whether the write timeout was positive. */
  function WriteLoopRemaining(data: seq<byte>, s: WriteState, bounded: bool, script: seq<Attempt>): (res: WriteResult)
    requires s.sent < SIZE_LIMIT
    decreases |script|
    ensures |s.wire| <= |res.final.wire| && res.final.wire[..|s.wire|] == s.wire
  {
    if |script| == 0 then WriteResult(ScriptEnded, s)
    else
      match WriteStepRemaining(data, s, bounded, script[0])
      case Stop(e, last) => WriteResult(e, last)
      case Continue(next) => WriteLoopRemaining(data, next, bounded, script[1..])
  }

  /**
   * On the input of `WriteLosesDeadline` the documented bookkeeping bounds
   * the second select too: the first round took no time, so the whole
   * timeout is left.
   */
  lemma RemainingKeepsDeadline(data: seq<byte>, t: int32, a: Attempt, b: Attempt)
    requires |data| == 2 && t > 0
    requires Ready(a) && a.wait.start == a.wait.end && a.write.n == 1
    requires Ready(b)
    ensures WriteLoopRemaining(data, WriteStart(t), true, [a, b]).final.deadlines == [TimevalOf(t), TimevalOf(t)]
  {
    var s1 := RemainingFirstRound(data, t, a, [b]);
    assert [a, b] == [a] + [b];
    ReadyWait(t, b.wait);
    RemainingLastRound(data, s1, b);
  }

  /** The first round of that write with the documented bookkeeping: one byte out, the whole timeout left. */
  lemma RemainingFirstRound(data: seq<byte>, t: int32, a: Attempt, rest: seq<Attempt>) returns (s1: WriteState)
    requires |data| == 2 && t > 0
    requires Ready(a) && a.wait.start == a.wait.end && a.write.n == 1
    ensures s1.sent == 1 && s1.timeout == t && s1.deadlines == [TimevalOf(t)]
    ensures WriteLoopRemaining(data, WriteStart(t), true, [a] + rest) == WriteLoopRemaining(data, s1, true, rest)
  {
    InstantFirstStep(data, t, a);
    InstantRemaining(t, a.wait);
    RemainingStepContinues(data, WriteStart(t), a);
    s1 := WriteStep(data, WriteStart(t), a).next.(timeout := t);
    RemainingLoopContinues(data, WriteStart(t), true, a, rest);
  }

  /** That round as the code writes it: one byte out, one bounded select, and the whole timeout still left. */
  lemma InstantFirstStep(data: seq<byte>, t: int32, a: Attempt)
    requires |data| == 2 && t > 0
    requires Ready(a) && a.wait.start == a.wait.end && a.write.n == 1
    ensures WriteStep(data, WriteStart(t), a).Continue?
    ensures WriteStep(data, WriteStart(t), a).next.sent == 1
    ensures WriteStep(data, WriteStart(t), a).next.deadlines == [TimevalOf(t)]
  {
    InstantWait(t, a.wait);
    var next := ReadyStepNext(data, WriteStart(t), a);
    assert (0 + 1) % SIZE_LIMIT == 1;
    assert next.deadlines == [] + [TimevalOf(t)];
  }

  /** A ready round that writes what the device accepts: the state it leaves. */
  lemma ReadyStepNext(data: seq<byte>, s: WriteState, a: Attempt) returns (next: WriteState)
    requires |data| < SIZE_LIMIT && s.sent <= |data|
    requires Ready(a) && -1 <= a.write.n <= |data| - s.sent
    requires a.write.n >= 1 || a.write.errno == EAGAIN
    ensures next.sent == (s.sent + a.write.n) % SIZE_LIMIT
    ensures next.deadlines == s.deadlines + [WaitReady(s.timeout, a.wait).deadline.value]
    ensures next.timeout == WaitReady(s.timeout, a.wait).timeout
    ensures next.code == 0 && next.msg == s.msg
    ensures next.wire == if a.write.n > 0 then s.wire + data[s.sent..s.sent + a.write.n] else s.wire
    ensures WriteStep(data, s, a) == if next.sent == |data| then Stop(Returned, next) else Continue(next)
  {
    ReadyRound(data, s, a);
    var w := WaitReady(s.timeout, a.wait);
    var n := a.write.n;
    next := s.(timeout := w.timeout, code := 0, deadlines := s.deadlines + [w.deadline.value],
               sent := (s.sent + n) % SIZE_LIMIT,
               wire := if n > 0 then s.wire + data[s.sent..s.sent + n] else s.wire);
  }

  /** A wait that took no time leaves the whole budget under the documented bookkeeping. */
  lemma InstantRemaining(t: int32, w: WaitObs)
    requires t > 0 && w.selected > 0 && w.start.ClockOk? && w.start == w.end
    ensures WaitReadyRemaining(t, w).timeout == t
  {
    InstantWait(t, w);
    assert ToInt32(t - 0) == t;
  }

  /** A round the as-written loop goes on from goes on in the corrected loop, with the remaining budget. */
  lemma RemainingStepContinues(data: seq<byte>, s: WriteState, a: Attempt)
    requires s.sent < SIZE_LIMIT && s.timeout > 0 && WriteStep(data, s, a).Continue?
    ensures WriteStepRemaining(data, s, true, a)
      == Continue(WriteStep(data, s, a).next.(timeout := WaitReadyRemaining(s.timeout, a.wait).timeout))
  {
  }

  /** The corrected loop over a script that starts with a round that goes on. */
  lemma RemainingLoopContinues(data: seq<byte>, s: WriteState, bounded: bool, a: Attempt, rest: seq<Attempt>)
    requires s.sent < SIZE_LIMIT && WriteStepRemaining(data, s, bounded, a).Continue?
    ensures WriteLoopRemaining(data, s, bounded, [a] + rest)
      == WriteLoopRemaining(data, WriteStepRemaining(data, s, bounded, a).next, bounded, rest)
  {
    assert ([a] + rest)[1..] == rest;
  }

  /** A last round of the corrected loop that selects records its deadline. */
  lemma RemainingLastRound(data: seq<byte>, s: WriteState, a: Attempt)
    requires s.sent < SIZE_LIMIT && s.timeout > 0 && WaitReady(s.timeout, a.wait).deadline.Some?
    ensures WriteLoopRemaining(data, s, true, [a]).final.deadlines == s.deadlines + [WaitReady(s.timeout, a.wait).deadline.value]
  {
    assert [a][1..] == [];
  }

  /** Every select deadline is a timeval of a positive number of milliseconds up to `t`. */
  ghost predicate DeadlinesWithin(ds: seq<Deadline>, t: int)
  {
    forall i :: 0 <= i < |ds| ==> ds[i].Timeval? && 0 < ds[i].sec * 1000 + ds[i].usec / 1000 <= t
  }

  /**
   * With the documented bookkeeping a bounded write never waits longer than
   * its timeout `t` in one select and the stored budget never grows, as
   * long as the clock is monotonic and `t` is small enough for
   * `*timeout * 1000` to fit an `int`.
   */
  lemma {:induction false} RemainingWithinBudget(data: seq<byte>, s: WriteState, t: int32, script: seq<Attempt>)
    requires 0 < t <= INT32_MAX / 1000
    requires s.sent < SIZE_LIMIT && s.timeout <= t && DeadlinesWithin(s.deadlines, t)
    requires forall i :: 0 <= i < |script| ==> Monotone(script[i].wait)
    ensures var f := WriteLoopRemaining(data, s, true, script).final;
      f.timeout <= s.timeout && DeadlinesWithin(f.deadlines, t)
    decreases |script|
  {
    if |script| > 0 {
      var after := RemainingStepWithin(data, s, t, script[0]);
      match WriteStepRemaining(data, s, true, script[0])
      case Stop(_, _) =>
      case Continue(next) =>
        RemainingWithinBudget(data, next, t, script[1..]);
    }
  }

  /** One round of the corrected loop keeps the budget and the deadline bound. */
  lemma RemainingStepWithin(data: seq<byte>, s: WriteState, t: int32, a: Attempt) returns (after: WriteState)
    requires 0 < t <= INT32_MAX / 1000
    requires s.sent < SIZE_LIMIT && s.timeout <= t && DeadlinesWithin(s.deadlines, t)
    requires Monotone(a.wait)
    ensures after == match WriteStepRemaining(data, s, true, a) case Continue(n) => n case Stop(_, l) => l
    ensures after.timeout <= s.timeout && DeadlinesWithin(after.deadlines, t)
  {
    var step := WriteStepRemaining(data, s, true, a);
    after := match step case Continue(n) => n case Stop(_, l) => l;
    if s.timeout > 0 {
      var w := WaitReady(s.timeout, a.wait);
      var raw := WriteStep(data, s, a);
      var rawAfter := match raw case Continue(n) => n case Stop(_, l) => l;
      assert rawAfter.deadlines == if w.deadline.Some? then s.deadlines + [w.deadline.value] else s.deadlines;
      assert after.deadlines == rawAfter.deadlines;
      if w.deadline.Some? {
        assert w.deadline.value == TimevalOf(s.timeout);
        TimevalIsTimeout(s.timeout);
      }
      if a.wait.start.ClockOk? && a.wait.end.ClockOk? {
        RemainingIsBudgetLeft(s.timeout, a.wait);
      }
    }
  }

  /** A bounded write whose budget is used up times out without another select or write. */
  lemma RemainingExhaustedTimesOut(data: seq<byte>, s: WriteState, a: Attempt, rest: seq<Attempt>)
    requires s.sent < SIZE_LIMIT && s.timeout <= 0
    ensures var res := WriteLoopRemaining(data, s, true, [a] + rest);
      && WriteStatus(res) == Fail(SER_ETIMEDOUT, MSG_TIMED_OUT)
      && res.final.deadlines == s.deadlines
      && res.final.sent == s.sent && res.final.wire == s.wire
  {
  }

  /** Without a write timeout the documented bookkeeping changes nothing. */
  lemma {:induction false} RemainingUnboundedUnchanged(data: seq<byte>, s: WriteState, script: seq<Attempt>)
    requires s.sent < SIZE_LIMIT && s.timeout <= 0
    ensures WriteLoopRemaining(data, s, false, script) == WriteLoop(data, s, script)
    decreases |script|
  {
    if |script| > 0 {
      var a := script[0];
      assert WaitReadyRemaining(s.timeout, a.wait).timeout == s.timeout;
      match WriteStep(data, s, a)
      case Stop(_, last) =>
        assert last.timeout == s.timeout;
      case Continue(next) =>
        assert next.timeout == s.timeout;
        assert WriteStepRemaining(data, s, false, a) == Continue(next);
        RemainingUnboundedUnchanged(data, next, script[1..]);
    }
  }

  /**
   * `port_configure` stores the read timeout in the write slot: a port
   * opened with no read timeout and a 100 ms write timeout blocks every
   * write wait without a deadline.
   */
  lemma WriteTimeoutFromReadSlot(plat: Platform, os: ConfigureOs, a: Attempt)
    requires 0 in plat.defined && 9600 in plat.defined && OsCooperates(os)
    requires Ready(a) && a.write.n == 1
    ensures var opts := DefaultOptions.(baudrate := 9600, wrTimeout := 100);
      var r := ConfigureFlow(opts, plat, os);
      && r.st.code == 0
      && r.timeouts == Some((0, 0))
      && WriteLoop([7], WriteStart(r.timeouts.value.1), [a]).final.deadlines == [NoDeadline]
  {
    var opts := DefaultOptions.(baudrate := 9600, wrTimeout := 100);
    ConfigureSucceedsIff(opts, plat, os);
    ConfiguredSettings(opts, plat, os);
    assert WaitReady(0, a.wait).deadline == Some(NoDeadline);
  }

  /** The timeouts `port_configure` evidently means to store: each from its own option. */
  function StoredTimeoutsFixed(opts: Options): (t: (int32, int32))
    ensures t.1 == opts.wrTimeout && t.0 == opts.rdTimeout
  {
    (opts.rdTimeout, opts.wrTimeout)
  }

  /** With the intended timeouts the first write wait is bounded exactly when a write timeout is set. */
  lemma WriteTimeoutFixedBounds(opts: Options, data: seq<byte>, a: Attempt, rest: seq<Attempt>)
    requires |data| < SIZE_LIMIT && a.wait.start.ClockOk?
    ensures var res := WriteLoop(data, WriteStart(StoredTimeoutsFixed(opts).1), [a] + rest);
      |res.final.deadlines| > 0
      && (res.final.deadlines[0] == NoDeadline <==> opts.wrTimeout <= 0)
  {
    var t := StoredTimeoutsFixed(opts).1;
    var d := FirstRoundDeadline(data, t, a);
    assert d == NoDeadline <==> t <= 0;
    var step := WriteStep(data, WriteStart(t), a);
    assert ([a] + rest)[0] == a && ([a] + rest)[1..] == rest;
    if step.Continue? {
      WriteDeadlinesGrow(data, step.next, rest);
    }
  }

  /** A first round whose clock answers records exactly one deadline, and it is unbounded iff `t <= 0`. */
  lemma FirstRoundDeadline(data: seq<byte>, t: int32, a: Attempt) returns (d: Deadline)
    requires a.wait.start.ClockOk?
    ensures d == NoDeadline <==> t <= 0
    ensures var step := WriteStep(data, WriteStart(t), a);
      (if step.Continue? then step.next else step.last).deadlines == [d]
  {
    var w := WaitReady(t, a.wait);
    d := w.deadline.value;
    assert [] + [d] == [d];
  }

  /** The loop only appends to the deadline trace. */
  lemma {:induction false} WriteDeadlinesGrow(data: seq<byte>, s: WriteState, script: seq<Attempt>)
    requires s.sent < SIZE_LIMIT
    decreases |script|
    ensures var d := WriteLoop(data, s, script).final.deadlines;
      |d| >= |s.deadlines| && d[..|s.deadlines|] == s.deadlines
  {
    if |script| > 0 {
      var step := WriteStep(data, s, script[0]);
      if step.Continue? {
        WriteDeadlinesGrow(data, step.next, script[1..]);
      }
    }
  }
}
