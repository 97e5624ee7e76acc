/**
 * Shared vocabulary of libsercomm: the library error codes, the port
 * options with their C enumerations, the device record and the outcome of
 * an operation (its return code plus the text it leaves in the last-error
 * slot).
 */
module SerTypes {

  datatype Option<+T> = None | Some(value: T)

  // ---------------------------------------------------------------------------
  // Machine integers
  // ---------------------------------------------------------------------------

  const UINT16_LIMIT: int := 0x1_0000
  const UINT32_LIMIT: int := 0x1_0000_0000
  const INT32_MIN: int := -0x8000_0000
  const INT32_MAX: int := 0x7FFF_FFFF
  const SIZE_LIMIT: int := 0x1_0000_0000_0000_0000

  type uint16 = x: int | 0 <= x < 0x1_0000
  type uint32 = x: int | 0 <= x < 0x1_0000_0000
  type int32 = x: int | -0x8000_0000 <= x < 0x8000_0000
  type byte = x: int | 0 <= x < 0x100

  /** A C cast to `uint16_t`: keep the low 16 bits. */
  function ToUint16(x: int): (r: uint16)
    ensures 0 <= x < UINT16_LIMIT ==> r == x
    ensures (r - x) % UINT16_LIMIT == 0
  {
    x % UINT16_LIMIT
  }

  /** A C cast to `int32_t` (or `int`): two's-complement wrap-around. */
  function ToInt32(x: int): (r: int32)
    ensures INT32_MIN <= x <= INT32_MAX ==> r == x
    ensures (r - x) % UINT32_LIMIT == 0
  {
    var m := x % UINT32_LIMIT;
    if m <= INT32_MAX then m else m - UINT32_LIMIT
  }

  /** A C cast to `DWORD` (unsigned 32 bits). */
  function ToUint32(x: int): (r: uint32)
    ensures 0 <= x < UINT32_LIMIT ==> r == x
    ensures (r - x) % UINT32_LIMIT == 0
  {
    x % UINT32_LIMIT
  }

  /** C integer division, which truncates toward zero. */
  function CDiv(a: int, b: int): (q: int)
    requires b != 0
    ensures a >= 0 && b > 0 ==> q == a / b
    ensures q * b + CRem(a, b) == a
  {
    if (a >= 0) == (b > 0) then Abs(a) / Abs(b) else -(Abs(a) / Abs(b))
  }

  /** C remainder, which takes the sign of the dividend. */
  function CRem(a: int, b: int): (r: int)
    requires b != 0
    ensures Abs(r) < Abs(b)
    ensures a >= 0 ==> r >= 0
    ensures a <= 0 ==> r <= 0
  {
    if a >= 0 then Abs(a) % Abs(b) else -(Abs(a) % Abs(b))
  }

  function Abs(x: int): nat { if x < 0 then -x else x }

  // ---------------------------------------------------------------------------
  // Library error codes (include/public/sercomm/types.h)
  // ---------------------------------------------------------------------------

  const SER_EFAIL: int := -1
  const SER_EINVAL: int := -2
  const SER_EDISCONN: int := -3
  const SER_ETIMEDOUT: int := -4
  const SER_ENODEV: int := -5
  const SER_EBUSY: int := -6
  const SER_ENOTSUP: int := -7
  const SER_EEMPTY: int := -8

  predicate IsErrorCode(c: int) { SER_EEMPTY <= c <= SER_EFAIL }

  /**
   * The observable outcome of one library call: the code it returns and the
   * last text it passed to `sererr_set` (None when it left the slot alone).
   */
  datatype Status = Status(code: int, msg: Option<string>)

  const OK: Status := Status(0, None)

  function Fail(code: int, text: string): Status { Status(code, Some(text)) }

  /**
   * What the caller observes when a call ends with `r` after an earlier
   * step of the same call recorded `earlier`: a later step without a text
   * keeps the earlier text in the slot.
   */
  function After(earlier: Option<string>, r: Status): Status
  {
    if r.msg.Some? then r else Status(r.code, earlier)
  }

  // ---------------------------------------------------------------------------
  // Port options (include/public/sercomm/comms.h)
  // ---------------------------------------------------------------------------

  const SER_NO_TIMEOUT: int := 0

  const SER_BYTESZ_8: int := 0
  const SER_BYTESZ_7: int := 1
  const SER_BYTESZ_6: int := 2
  const SER_BYTESZ_5: int := 3

  const SER_PAR_NONE: int := 0
  const SER_PAR_ODD: int := 1
  const SER_PAR_EVEN: int := 2
  const SER_PAR_MARK: int := 3
  const SER_PAR_SPACE: int := 4

  const SER_STOPB_ONE: int := 0
  const SER_STOPB_ONE5: int := 1
  const SER_STOPB_TWO: int := 2

  const SER_QUEUE_IN: int := 0
  const SER_QUEUE_OUT: int := 1
  const SER_QUEUE_ALL: int := 2

  /**
   * `ser_opts_t`. The enumerations are kept as the raw integers a C caller
   * can store in them, so that out-of-range values can be passed.
   */
  datatype Options = Options(
    port: string,
    baudrate: uint32,
    bytesz: int,
    parity: int,
    stopbits: int,
    rdTimeout: int32,
    wrTimeout: int32)

  /** `SER_OPTS_INIT` (the NULL port name is the empty string here). */
  const DefaultOptions: Options :=
    Options("", 0, SER_BYTESZ_8, SER_PAR_NONE, SER_STOPB_ONE, 0, 0)

  /** Number of data bits a valid `ser_bytesz_t` stands for. */
  function DataBits(bytesz: int): (n: int)
    requires SER_BYTESZ_8 <= bytesz <= SER_BYTESZ_5
    ensures 5 <= n <= 8
    ensures n == 8 - bytesz
  {
    8 - bytesz
  }

  // ---------------------------------------------------------------------------
  // Devices (include/public/sercomm/dev.h)
  // ---------------------------------------------------------------------------

  const SER_DEV_PATH_SZ: nat := 128

  /** `ser_dev_t`: path (at most 128 bytes), vendor and product IDs. */
  datatype Device = Device(path: string, vid: uint16, pid: uint16)

  /** The record after `memset(dev, 0, sizeof(*dev))`. */
  const ZeroDevice: Device := Device("", 0, 0)

  datatype Event = Added | Removed
}
