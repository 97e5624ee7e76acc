# libsercomm core, modelled in Dafny

libsercomm is a C library for serial ports. It has one API and three backends:
POSIX termios with udev on Linux, IOKit on macOS, and Win32 COMM with SetupDi
on Windows. This project models the deterministic logic inside those backends:

- how port options are checked and turned into termios or DCB settings;
- how errno and Win32 codes become library error codes;
- how raw read, wait and write results are classified;
- the blocking write loop of the POSIX backend and its timeout bookkeeping;
- how device descriptions are pulled from udev, IOKit and SetupDi data;
- the per-event decision of each device monitor;
- the singly linked device list, built by prepending and freed node by node;
- the `timespec` subtraction;
- the last-error slot.

Every operating-system call is an oracle: its answer is a parameter of the
model (a datatype of results), never behaviour the model invents.

Modules, one per source file or shared header:

| module | file | models |
|---|---|---|
| `SerTypes` | `types.dfy` | error codes, `ser_opts_t` and its enums, `ser_dev_t`, C integer casts and C division |
| `ErrSlot` | `err.dfy` | `sercomm/err.c`: the `err_last` slot as a class |
| `Clock` | `time.dfy` | `sercomm/posix/time.c`: `clock__diff` |
| `CStrings` | `cstring.dfy` | `strstr`, NUL-terminated buffers, `strncpy` into the 128-byte path, `strtoul(.., 16)` cast to `uint16_t` |
| `DevList` | `dev_list.dfy` | `struct ser_dev_list`: nodes, `ser_dev_list_foreach`, `ser_dev_list_destroy`, the prepend-and-abandon build steps |
| `PosixComms` | `posix_comms.dfy` | `sercomm/posix/comms.c` |
| `WinComms` | `win_comms.dfy` | `sercomm/win/comms.c` |
| `WinDev` | `win_dev.dfy` | `sercomm/win/dev.c` |
| `LinuxDev` | `linux_dev.dfy` | `sercomm/posix/dev_linux.c` |
| `MacDev` | `macos_dev.dfy` | `sercomm/posix/dev_macos.c` |

Conventions:

- C enum fields are raw integers, so out-of-range values reach the `default:` branches.
- A call's outcome is a `Status`: the code it returns, and the last text it passed to `sererr_set` (`None` when it left the slot alone).
- Texts produced by `strerror` or FormatMessage are given strings.
- `c_cflag` is a set of symbolic flags. `Bxxx` is the symbolic `B(rate)`.
- The build target is a parameter: which `Bxxx` macros it defines, whether it has `CMSPAR`, and which custom-baud mechanism it compiles.
- A write that would loop forever is modelled over a finite script of rounds. When the script runs out first, the result says so (`ScriptEnded`).
- Allocation failure is an oracle: `failAt` is the number of nodes allocated before `calloc` returns NULL.

The model follows the code as written:

- `port_configure` checks the baud rate first on POSIX; the Windows backend never checks it.
- `port_wait_ready` stores the elapsed time, not the remaining one its comment promises.
- Both backends store the read timeout in the write slot.

## Model

| member | source | states |
|---|---|---|
| `SerTypes.ToUint16` | sercomm/posix/dev_linux.c:145 | `(uint16_t)` keeps the value when it fits and is congruent to it modulo 2^16 |
| `SerTypes.ToInt32` | sercomm/posix/comms.c:538 | `(int32_t)` keeps values in range and wraps the rest modulo 2^32 |
| `SerTypes.CDiv` | sercomm/posix/comms.c:362 | C division truncates toward zero and pairs with `CRem` so that q·b + r == a |
| `SerTypes.CRem` | sercomm/posix/comms.c:521 | C remainder is smaller than the divisor in magnitude and has the dividend's sign |
| `SerTypes.DataBits` | include/public/sercomm/comms.h:44-55 | the byte-size enum 0..3 stands for 8..5 data bits |
| `ErrSlot.Clip` | sercomm/err.c:32-42 | `vsnprintf` into the 256-byte slot keeps a prefix of at most 255 characters, the whole message when it fits |
| `ErrSlot.LastError.constructor` | sercomm/err.c:35 | the slot starts as "Success" |
| `ErrSlot.LastError.Set` | sercomm/err.c:37-44 | `sererr_set` replaces the whole slot with the clipped message, and does nothing without SER_WITH_ERRDESC |
| `ErrSlot.LastError.Record` | sercomm/err.c:35-44 | a call that set no text leaves the slot unchanged; a failing call leaves its last text |
| `ErrSlot.LastError.Last` | sercomm/err.c:51-57 | `sererr_last` returns the slot (at most 255 characters) exactly when descriptions are built in, NULL otherwise |
| `ErrSlot.SetThenLast` | sercomm/err.c:37-57 | after `sererr_set(msg)`, `sererr_last` returns the clipped `msg` |
| `Clock.Diff` | sercomm/posix/time.c:69-83 | the difference preserves total nanoseconds, borrows exactly one second iff the nsec difference is negative, and is normalised for normalised inputs |
| `Clock.DiffSelf` | sercomm/posix/time.c:73-80 | `clock__diff(a, a)` is (0, 0) |
| `Clock.DiffNonNegative` | sercomm/posix/time.c:73-80 | a later normalised instant minus an earlier one has a non-negative second field |
| `Clock.DiffRoundTrip` | sercomm/posix/time.c:73-80 | adding the difference back to the subtrahend gives the minuend (normalised inputs) |
| `Clock.NormalisedUnique` | sercomm/posix/time.c:76-80 | a normalised timespec is determined by its instant |
| `Clock.Add` | sercomm/posix/time.c:73-80 | the inverse of `Diff`: adds instants and keeps normalisation |
| `CStrings.Find` | sercomm/win/dev.c:102 | `strstr` returns the first occurrence, and None exactly when there is none |
| `CStrings.FindChar` | sercomm/win/dev.c:110 | `strstr(name, "#")` finds the first `#`, with no `#` before it, and None exactly when there is none |
| `CStrings.FindFirst` | sercomm/win/dev.c:160 | an occurrence with none before it is the one `strstr` finds |
| `CStrings.CStr` | sercomm/win/dev.c:105 | the C string of a buffer is the NUL-free prefix ending at the first NUL |
| `CStrings.CStrCut` | sercomm/win/dev.c:105 | writing NUL inside the C string cuts it there |
| `CStrings.CStrWrite` | sercomm/win/dev.c:113 | writing a non-NUL character inside the C string changes only that character |
| `CStrings.CopyPath` | sercomm/posix/dev_linux.c:138 | `strncpy` into the 128-byte path keeps at most 128 characters, all of a short source |
| `CStrings.Strtoul16` | sercomm/posix/dev_linux.c:145 | `strtoul(s, NULL, 16)` is below ULONG_MAX+1, saturates on overflow, is the digits' value without a sign, and the digits' value negated modulo ULONG_MAX+1 after a `-` |
| `CStrings.HexField` | sercomm/posix/dev_linux.c:145 | `(uint16_t)strtoul(s, NULL, 16)` keeps a value that fits 16 bits and is otherwise congruent to it modulo 2^16 |
| `CStrings.HexValueBound` | sercomm/win/dev.c:163 | n hex digits are below 16^n; four digits fit 16 bits |
| `CStrings.HexFieldOfDigits` | sercomm/win/dev.c:163 | up to four hex digits followed by a non-digit read back, after the `uint16_t` cast, as the number they spell |
| `CStrings.HexFieldOfNonDigit` | sercomm/posix/dev_linux.c:142-146 | a field with no digit reads as 0 |
| `CStrings.HexFieldSaturates` | sercomm/win/dev.c:163 | a value too large for `unsigned long` saturates, so the cast gives 0xFFFF |
| `DevList.Node.constructor` | sercomm/posix/dev_linux.c:328-343 | a node linked in front of `next` lists its device followed by `next`'s devices |
| `DevList.Destroy` | sercomm/posix/dev_linux.c:363-376 | `ser_dev_list_destroy` frees exactly the nodes reachable through `next`, in `next` order (the same loop is at sercomm/win/dev.c:424-437 and sercomm/posix/dev_macos.c:382-395) |
| `DevList.DestroyFreesEachOnce` | sercomm/win/dev.c:424-437 | destroy frees one node per device and no node twice |
| `DevList.Items` | include/public/sercomm/dev.h:108-110 | `ser_dev_list_foreach` visits the list's devices in `next` order |
| `DevList.NodesDistinct` | include/public/sercomm/dev.h:64-71 | a list built this way has no cycle |
| `DevList.NextOfNode` | include/public/sercomm/dev.h:64-71 | the `next` of the k-th node is the (k+1)-th node, or NULL after the last |
| `DevList.ReverseIndex` | sercomm/posix/dev_macos.c:351-363 | the i-th element of a reversal is the i-th from the end |
| `DevList.ReverseInvolutive` | sercomm/posix/dev_macos.c:351-363 | reversing twice gives back the enumeration order |
| `DevList.ListedMembers` | sercomm/posix/dev_linux.c:320-346 | a device is listed exactly when some kept entry describes it |
| `DevList.ListedAppend` | sercomm/posix/dev_linux.c:320-346 | the devices of two runs of entries, one after the other |
| `DevList.Prepend` | sercomm/win/dev.c:363-372 | prepending a node for the next kept entry keeps the list the reversal of the devices kept so far |
| `DevList.Abandon` | sercomm/win/dev.c:365-371 | on allocation failure the partial list is destroyed, one node freed per device kept so far |
| `DevList.BuildingStep` | sercomm/win/dev.c:356-411 | visiting one entry prepends it when kept and leaves the list alone otherwise |
| `DevList.Visit` | sercomm/win/dev.c:363-372 | the body of each build loop: a kept entry's device becomes a new head whose `next` is the old list, counted once; any other entry leaves list and count alone; the list stays the reversal of the devices kept so far |
| `PosixComms.ErrorSet` | sercomm/posix/comms.c:77-110 | 0 gives 0 with no text; ENOENT, EBUSY, EIO/ENXIO, EAGAIN map to their codes (both directions); every other non-zero errno gives SER_EFAIL; every non-zero input gives a negative code |
| `PosixComms.StandardSpeed` | sercomm/posix/comms.c:144-333 | a listed rate whose `Bxxx` is defined selects exactly that `Bxxx`; any other rate takes the custom path |
| `PosixComms.BaudStep` | sercomm/posix/comms.c:144-376 | the baud step passes iff the rate is in the table or the target's custom path succeeds; a table rate issues no request; the custom path leaves the zeroed speed B0; without a custom mechanism it is SER_ENOTSUP "Custom baudrates unsupported" with no request; it never issues `tcsetattr` |
| `PosixComms.CharSizeStep` | sercomm/posix/comms.c:378-397 | the byte-size switch passes exactly the four enums, each with its CSn, and rejects others with SER_EINVAL |
| `PosixComms.ParityStep` | sercomm/posix/comms.c:399-428 | the parity switch passes exactly none, odd, even, and mark/space when CMSPAR exists, ORing in only PARENB, PARODD and CMSPAR; mark or space without CMSPAR is SER_ENOTSUP "Unsupported mark or space parity"; any other value is SER_EINVAL "Invalid parity type" |
| `PosixComms.StopStep` | sercomm/posix/comms.c:430-446 | the stop-bit switch passes exactly one and two stop bits, ORing in at most CSTOPB; one and a half is SER_ENOTSUP; any other value is SER_EINVAL "Invalid number of stop bits" |
| `PosixComms.ConfigureSucceedsIff` | sercomm/posix/comms.c:123-463 | with cooperating system calls, configuration succeeds iff baud, byte size, parity and stop bits are supported on the target; failures are SER_EINVAL or SER_ENOTSUP |
| `PosixComms.ConfigureCheckOrder` | sercomm/posix/comms.c:144-446 | the checks run baud, byte size, parity, stop bits, and the first failing field's code and text are returned: an unsupported custom rate, a bad byte size, a bad parity, mark/space without CMSPAR, one and a half stop bits, a bad stop-bit value |
| `PosixComms.ConfigureFlow` | sercomm/posix/comms.c:123-463 | a failed `tcgetattr` saves nothing, stores no timeouts and issues no request; otherwise the old termios is saved; the timeouts are stored exactly when the final `tcsetattr` is issued, and then both slots hold the read timeout and the status is `tcsetattr`'s |
| `PosixComms.ConfiguredSettings` | sercomm/posix/comms.c:139-456 | the applied `c_cflag` has CREAD and CLOCAL, exactly one CSn, PARENB iff parity, PARODD for odd and mark, and CSTOPB iff two stop bits; it decodes back to the requested frame; a standard rate sets the same Bxxx both ways; VMIN 1, VTIME 0; both stored timeouts are the read timeout |
| `PosixComms.CflagFacts` | sercomm/posix/comms.c:378-446 | the `c_cflag` built from valid fields decodes back to those fields |
| `PosixComms.LinuxCustomDivisor` | sercomm/posix/comms.c:351-370 | a rate outside the table reads the serial info, then writes the divisor `baud_base / (int)rate` (the floor for positive values) with the speed bits replaced by ASYNC_SPD_CUST |
| `PosixComms.MacCustomSpeed` | sercomm/posix/comms.c:342-350 | a rate outside the table on macOS is passed to IOSSIOSPEED unchanged as a `speed_t`, and a failing ioctl ends the call with its errno |
| `PosixComms.PosixPort.Configure` | sercomm/posix/comms.c:123-463 | `port_configure` as a method on the handle: saves the old termios, builds `c_cflag` switch by switch, stores the timeouts, and matches `ConfigureFlow` (so the custom-rate requests of `LinuxCustomDivisor` and `MacCustomSpeed` and the settings of `ConfiguredSettings`) |
| `PosixComms.PosixPort.Open` | sercomm/posix/comms.c:569-595 | `ser_open` maps an open failure through errno and leaves -1 in the descriptor with the saved settings and timeouts untouched; otherwise it keeps the descriptor, leaves the saved termios and the stored timeouts exactly as `port_configure` does, and closes the descriptor again on failure |
| `PosixComms.WaitReady` | sercomm/posix/comms.c:489-563 | a timeout ≤ 0 selects with no deadline and keeps the timeout; a positive one selects with its timeval and is overwritten with the elapsed ms; select >0, ==0, <0 maps to 0, SER_ETIMEDOUT, SER_EFAIL; a failure of the first clock read is mapped through errno before any select; a failure of the second is mapped after the select and leaves the timeout unchanged |
| `PosixComms.SelectStatus` | sercomm/posix/comms.c:545-559 | select >0 gives 0, ==0 gives SER_ETIMEDOUT, <0 gives SER_EFAIL, each both ways |
| `PosixComms.TimevalOf` | sercomm/posix/comms.c:520-521 | the select timeval has a microsecond part below one second in magnitude, and for a non-negative timeout the whole seconds it contains |
| `PosixComms.ElapsedMs` | sercomm/posix/comms.c:537-538 | a difference below one millisecond gives 0; a non-negative difference that fits gives its whole milliseconds |
| `PosixComms.TimevalIsTimeout` | sercomm/posix/comms.c:520-521 | the select timeval is exactly the timeout for timeouts up to 2147483 ms |
| `PosixComms.ElapsedIsWholeMilliseconds` | sercomm/posix/comms.c:537-538 | the stored value is the whole number of milliseconds between the two clock readings |
| `PosixComms.ReadWait` | sercomm/posix/comms.c:659-665 | `ser_read_wait` is a wait on a copy of the read timeout, and succeeds when select reports ready |
| `PosixComms.Read` | sercomm/posix/comms.c:667-693 | a positive count returns 0 and stores the count; 0 bytes gives SER_EDISCONN via EIO; -1 maps errno |
| `PosixComms.ReadClassification` | sercomm/posix/comms.c:673-692 | SER_EEMPTY exactly for -1 with EAGAIN; SER_EDISCONN exactly for end of file or EIO/ENXIO |
| `PosixComms.FlushSelector` | sercomm/posix/comms.c:611-626 | exactly the three queue enums have a `tcflush` selector |
| `PosixComms.Flush` | sercomm/posix/comms.c:604-638 | IN, OUT and ALL select TCIFLUSH, TCOFLUSH and TCIOFLUSH; any other queue gives SER_EINVAL with no flush |
| `PosixComms.PosixPort.Write` | sercomm/posix/comms.c:695-747 | `ser_write` as a loop method, equal to `WriteLoop` from the stored write timeout |
| `PosixComms.Round` | sercomm/posix/comms.c:707-737 | one pass of the loop body equals `WriteStep` and keeps `sent_` a `size_t` |
| `PosixComms.WriteStep` | sercomm/posix/comms.c:707-737 | a round that continues leaves `sent_` a `size_t` short of `sz`; the device keeps what it had and receives the next bytes of the buffer from `sent_` onward |
| `PosixComms.WriteLoop` | sercomm/posix/comms.c:705-744 | the loop as written, over a script of rounds; what the device has received only grows |
| `PosixComms.WriteCompletes` | sercomm/posix/comms.c:705-744 | when every wait is ready and each write accepts 1 to the remaining bytes, the loop returns 0 with `sent_ == sz`, every byte sent once and in order, and the last text left as it was |
| `PosixComms.WriteAdvances` | sercomm/posix/comms.c:718-736 | under that oracle each round strictly increases `sent_` without exceeding `sz`, and the loop stops iff `sent_ == sz` |
| `PosixComms.WriteWaitErrorStops` | sercomm/posix/comms.c:708-712 | a failing wait ends the loop with its code and nothing more is written |
| `PosixComms.WriteEmptyBuffer` | sercomm/posix/comms.c:718-735 | a zero-length write still waits and writes once and returns 0; the disconnection text is recorded iff errno ≠ EAGAIN |
| `PosixComms.WriteDisconnectReturnsZero` | sercomm/posix/comms.c:723-727 | a zero-byte write with errno ≠ EAGAIN records "Device was disconnected" and stops, but returns 0 with bytes missing |
| `PosixComms.WriteMinusOneResends` | sercomm/posix/comms.c:718-720 | a -1 write result added into `sent_` makes the next write resend a byte, while the call reports all bytes sent |
| `PosixComms.WriteMinusOneFirstWraps` | sercomm/posix/comms.c:720 | a -1 on the first round wraps `sent_` to SIZE_MAX |
| `PosixComms.WriteStepFixed` | sercomm/posix/comms.c:707-737 | the intended round: only positive counts advance `sent_`, which stays within the buffer; a stalled write returns SER_EDISCONN; a 0 return means all bytes went out |
| `PosixComms.WriteFixedSound` | sercomm/posix/comms.c:705-744 | whatever the device answers, the intended loop stays in the buffer, the device gets exactly the first `sent` bytes, and 0 means complete |
| `PosixComms.WriteFixedReportsDisconnect` | sercomm/posix/comms.c:723-727 | the intended loop reports a stalled write as SER_EDISCONN |
| `PosixComms.WaitStoresElapsed` | sercomm/posix/comms.c:484-538 | after 30 ms of a 100 ms wait the in/out timeout holds 30 (elapsed), not 70 (remaining) |
| `PosixComms.WriteLosesDeadline` | sercomm/posix/comms.c:538 | a write round that takes under a millisecond stores 0, so the next wait of the same `ser_write` has no deadline |
| `PosixComms.InstantWait` | sercomm/posix/comms.c:513-538 | a ready wait whose clock readings coincide stores an elapsed time of 0 |
| `PosixComms.WaitReadyRemaining` | sercomm/posix/comms.c:484-538 | the documented bookkeeping waits and selects exactly as the code does; only the stored timeout differs |
| `PosixComms.RemainingIsBudgetLeft` | sercomm/posix/comms.c:484-538 | with a monotonic clock, the code stores the whole milliseconds spent, the documented bookkeeping the budget minus them; the latter never grows and is ≤ 0 exactly when the budget is spent |
| `PosixComms.WriteStepRemaining` | sercomm/posix/comms.c:707-737 | the corrected round: a bounded write with no budget left returns SER_ETIMEDOUT "Operation timed out" with no select and no write; otherwise it is the code's round with the remaining budget stored instead of the elapsed time |
| `PosixComms.WriteLoopRemaining` | sercomm/posix/comms.c:705-744 | the corrected loop: what the device has received and the record of select deadlines only grow |
| `PosixComms.RemainingKeepsDeadline` | sercomm/posix/comms.c:700-738 | on the input where the code's second select has no deadline, the corrected loop gives both selects the full timeout |
| `PosixComms.RemainingWithinBudget` | sercomm/posix/comms.c:700-738 | in the corrected bounded loop every select deadline is a positive time within the write timeout and the stored budget never grows |
| `PosixComms.RemainingExhaustedTimesOut` | sercomm/posix/comms.c:700-738 | a corrected bounded write whose budget is spent returns SER_ETIMEDOUT without another select or write |
| `PosixComms.RemainingUnboundedUnchanged` | sercomm/posix/comms.c:700-738 | without a write timeout the corrected loop is the code's loop |
| `PosixComms.WriteTimeoutFromReadSlot` | sercomm/posix/comms.c:449-450 | a port opened with no read timeout and a 100 ms write timeout waits for writes with no deadline |
| `PosixComms.StoredTimeoutsFixed` | sercomm/posix/comms.c:449-450 | the intended timeouts: each slot takes its own option |
| `PosixComms.WriteTimeoutFixedBounds` | sercomm/posix/comms.c:701-708 | with the intended timeouts the first write wait has a deadline iff a write timeout is set |
| `PosixComms.WriteDeadlinesGrow` | sercomm/posix/comms.c:705-738 | the loop only appends to the record of select deadlines |
| `WinComms.Werr` | sercomm/win/comms.c:56-92 | FILE_NOT_FOUND, ACCESS_DENIED, INVALID_PARAMETER, BAD_COMMAND/GEN_FAILURE/OPERATION_ABORTED and WAIT_TIMEOUT map to their codes (both directions); anything else is SER_EFAIL with the system text; a text is always set |
| `WinComms.SysMessage` | sercomm/win/err.c:15-29 | `werr_setc` records "windows: " followed by the system text |
| `WinComms.ByteSizeStep` | sercomm/win/comms.c:132-150 | ByteSize is 8/7/6/5 for the four enums; anything else is SER_EINVAL |
| `WinComms.ParityStep` | sercomm/win/comms.c:152-173 | all five parities are accepted; anything else is SER_EINVAL |
| `WinComms.StopStep` | sercomm/win/comms.c:175-190 | one, one and a half, and two stop bits are accepted; anything else is SER_EINVAL |
| `WinComms.TimeoutDword` | sercomm/win/comms.c:210-217 | 0 becomes INFINITE, positive values are kept, and negative values wrap as DWORDs (so -1 is INFINITE too) |
| `WinComms.WinConfigureFlow` | sercomm/win/comms.c:105-238 | success exactly when the wait limits are stored, any failure negative; the saved DCB and timeouts are GetCommState's and GetCommTimeouts' answers; the read limit is the read option mapped by `TimeoutDword`; a failed SetCommTimeouts applies the saved DCB again; the first request carries the baud rate unchanged |
| `WinComms.WinConfigureSucceedsIff` | sercomm/win/comms.c:105-238 | with cooperating calls, configuration succeeds iff the three enums are in range; the checks run byte size, parity, stop bits; every rejection is SER_EINVAL and issues no call |
| `WinComms.WinConfiguredSettings` | sercomm/win/comms.c:126-229 | the DCB carries BaudRate unchanged and decodes back to the frame; the device timeouts are set non-blocking; the read wait limit is the read option as a DWORD (0 is INFINITE); the write limit is INFINITE when the write option is 0 and otherwise the read option; the input queue is purged |
| `WinComms.WinConfigureRestores` | sercomm/win/comms.c:204-208 | if SetCommTimeouts fails the saved DCB is applied again, the error returned, and the wait limits left alone |
| `WinComms.WinPort.Configure` | sercomm/win/comms.c:105-238 | `port_configure` as a method on the handle, matching `WinConfigureFlow` and saving the old DCB and timeouts |
| `WinComms.DevicePath` | sercomm/win/comms.c:250-258 | the opened path is `\\.\` followed by the port name |
| `WinComms.WinPort.Open` | sercomm/win/comms.c:244-299 | `ser_open`: prefixed CreateFile, configuration, SetCommMask, closing the handle after a later failure; a failed CreateFile leaves INVALID_HANDLE_VALUE in the handle and reports its own error text; a malloc failure returns 0 with the handle untouched; the status is always `WinOpenOutcome`'s; after an open handle the saved DCB, the saved timeouts and the stored wait limits are those `port_configure` leaves, and otherwise they are untouched |
| `WinComms.PurgeFlags` | sercomm/win/comms.c:322-337 | IN purges RX, OUT purges TX, ALL purges both; nothing else is a queue |
| `WinComms.Flush` | sercomm/win/comms.c:318-345 | an unknown queue gives SER_EINVAL without purging; otherwise the purge result is reported |
| `WinComms.Completion` | sercomm/win/comms.c:444-468 | an overlapped call succeeds iff it completes at once or is pending and then signalled; a wait timeout is SER_ETIMEDOUT |
| `WinComms.WaitedWith` | sercomm/win/comms.c:444-453 | WaitForSingleObject is called exactly when the call failed with ERROR_IO_PENDING |
| `WinComms.ReadWait` | sercomm/win/comms.c:364-425 | `ser_read_wait` succeeds iff the event wait completes and the mask has EV_RXCHAR; a mask without it is SER_EFAIL |
| `WinComms.Read` | sercomm/win/comms.c:427-495 | a completed read of 0 bytes is SER_EEMPTY and still stores 0; a positive count returns 0 and stores it |
| `WinComms.Write` | sercomm/win/comms.c:497-555 | one WriteFile, no retry: the completed count is stored iff the call returns 0 |
| `WinComms.WinShortWriteSucceeds` | sercomm/win/comms.c:513-548 | a short completed write is reported as success with the short count |
| `WinComms.OpenMallocFailureReturnsZero` | sercomm/win/comms.c:250-254 | a failed malloc returns 0 with the allocation error in the slot; the corrected outcome is SER_EFAIL |
| `WinComms.WinOpenOutcome` | sercomm/win/comms.c:244-299 | the status `ser_open` returns as written, 0 on malloc failure |
| `WinComms.WinOpenFixedSound` | sercomm/win/comms.c:244-299 | with the fix, `ser_open` returns 0 only with an open, configured and subscribed handle |
| `WinComms.WinWriteTimeoutFromReadSlot` | sercomm/win/comms.c:219-226 | the write wait limit comes from the read option: (rd 0, wr 100) gives a write limit of 0 ms, (rd 50, wr 0) an INFINITE one |
| `WinComms.WinWriteTimeoutFixed` | sercomm/win/comms.c:219-226 | the intended write limit is the write option mapped like the read one |
| `WinComms.WinWriteTimeoutFixedWaits` | sercomm/win/comms.c:518-521 | with the fix a pending write waits exactly its own positive option |
| `WinDev.RewriteInterfaceName` | sercomm/win/dev.c:102-115 | in place on `dbcc_name`: NUL written one character before the first `{`, then a do-while replacing each `#` with `\` |
| `WinDev.RewriteResult` | sercomm/win/dev.c:97-115 | the rewritten C string is the name cut one character before `{`, with every `#` replaced, and no `#` left |
| `WinDev.Enumerator` | sercomm/win/dev.c:96-122 | the C string at `&dbcc_name[4]` after the rewrite: the rewritten name from its 5th character, with no `#`, when the rewrite keeps four characters; otherwise `{` sits right after the `\\?\` prefix and the enumerator is the original text from that `{` on |
| `WinDev.ReplaceHashes` | sercomm/win/dev.c:108-115 | each `#` becomes `\`, every other character is kept |
| `WinDev.IdAfterAbsent` | sercomm/win/dev.c:159-171 | without "VID_"/"PID_" the field stays 0 from the memset |
| `WinDev.IdAfterDigits` | sercomm/win/dev.c:159-171 | the hex digits after the first tag give the field's value |
| `WinDev.IdAfter` | sercomm/win/dev.c:159-171 | an absent tag leaves the field 0, and a non-zero field means the tag was found |
| `WinDev.PropertiesFromBroadcast` | sercomm/win/dev.c:87-173 | the whole descriptor step: rewrite in place, the enumerator from the 5th character, the port name, and VID/PID from the rewritten name |
| `WinDev.BroadcastDevice` | sercomm/win/dev.c:87-173 | the path is the registry port name clipped to 128 bytes, empty without one; vid and pid are the fields after VID_ and PID_ of the rewritten name |
| `WinDev.EventOf` | sercomm/win/dev.c:204-214 | DBT_DEVICEARRIVAL is ADDED and DBT_DEVICEREMOVECOMPLETE is REMOVED, both ways |
| `WinDev.MsgProc` | sercomm/win/dev.c:187-235 | only WM_DEVICECHANGE with a device-interface broadcast and a supported wParam fires the callback; other messages go to DefWindowProc; the name is untouched otherwise |
| `WinDev.MsgProcEvents` | sercomm/win/dev.c:204-214 | exactly two wParams fire, with different events |
| `WinDev.ListGet` | sercomm/win/dev.c:307-422 | every port not named exactly "LPT" is prepended (reverse order); vid/pid only from a non-empty hardware ID; allocation failure frees the partial list and returns NULL; no ports returns NULL with "No devices found" |
| `WinDev.Gather` | sercomm/win/dev.c:356-411 | the loop over the ports: the reversed list of every port not named "LPT", or, when `calloc` fails, NULL with exactly `failAt` nodes freed |
| `WinDev.ListGetOrder` | sercomm/win/dev.c:363-372 | the i-th node is the i-th kept port from the end |
| `WinDev.ListGetMembers` | sercomm/win/dev.c:356-405 | a device is listed exactly when some kept port describes it |
| `WinDev.ParallelPortListed` | sercomm/win/dev.c:357-358 | a parallel port named "LPT1" passes the exact `strcmp` and is listed |
| `WinDev.WinListedFixedSound` | sercomm/win/dev.c:357-358 | with a prefix test no parallel port is listed, and every other named port is |
| `LinuxDev.UdevProperties` | sercomm/posix/dev_linux.c:125-154 | zeroed record; path from the devnode clipped to 128 bytes when present; missing properties leave 0 |
| `LinuxDev.UdevIdsRead` | sercomm/posix/dev_linux.c:141-153 | four-digit ID_VENDOR_ID and ID_MODEL_ID become vid and pid |
| `LinuxDev.IsDevice` | sercomm/posix/dev_linux.c:80-115 | an entry is a device iff the probe could allocate and the "/device" directory opened; an allocation failure leaves its text |
| `LinuxDev.ProbeOverflowsIff` | sercomm/posix/dev_linux.c:90-101 | the probe stays in its PATH_MAX buffer iff the sysfs path has at most PATH_MAX − 8 characters |
| `LinuxDev.ProbeOverflowExample` | sercomm/posix/dev_linux.c:100-101 | a sysfs path of PATH_MAX − 7 characters makes the append store PATH_MAX + 1 bytes |
| `LinuxDev.ProbedPathFixed` | sercomm/posix/dev_linux.c:99-101 | a bounded append fits the buffer and is the sysfs path + "/device" whenever that fits |
| `LinuxDev.ActionEvent` | sercomm/posix/dev_linux.c:246-258 | "add" is ADDED and "remove" is REMOVED, both ways; any other action gives no event |
| `LinuxDev.MonitorDecide` | sercomm/posix/dev_linux.c:219-268 | the step ends the thread iff select fails or the pipe is readable; a select failure keeps its text; a callback carries the event of its action and the device's properties |
| `LinuxDev.MonitorDecisions` | sercomm/posix/dev_linux.c:219-268 | a readable termination pipe wins over a pending device; exactly one callback for "add"/"remove" with the device's properties; the step ends the thread iff select fails or the pipe is readable |
| `LinuxDev.LastProbeErrorFrom` | sercomm/posix/dev_linux.c:90-94 | the text kept is some probe's, and none is kept iff every probe allocated |
| `LinuxDev.ListGet` | sercomm/posix/dev_linux.c:288-361 | setup failures return NULL with their text; entries accepted by the probe are prepended (reverse order); allocation failure frees the partial list and returns NULL; none returns NULL with "No devices found"; otherwise the last probe-allocation text, if any, is left |
| `LinuxDev.Enumerate` | sercomm/posix/dev_linux.c:320-351 | the foreach once udev is set up: allocation failure frees `failAt` nodes and returns NULL with its text; otherwise the reversed list of accepted entries, NULL with "No devices found" when empty |
| `LinuxDev.Prepended` | sercomm/posix/dev_linux.c:320-346 | the foreach builds the reversed list of accepted entries, or abandons it after `failAt` nodes |
| `LinuxDev.ListGetMembers` | sercomm/posix/dev_linux.c:320-346 | a device is listed exactly when an entry with a device directory describes it |
| `LinuxDev.ListGetOrder` | sercomm/posix/dev_linux.c:328-343 | the head is the last accepted entry and the tail the first |
| `MacDev.FirstUsbFromIff` | sercomm/posix/dev_macos.c:109-128 | the walk stops at k exactly when k is the first entry from the device upward whose class contains "USB", all classes up to it readable |
| `MacDev.FirstUsbNone` | sercomm/posix/dev_macos.c:109-128 | the walk ends without USB exactly when no such entry exists |
| `MacDev.UsbWalk` | sercomm/posix/dev_macos.c:109-128 | the while loop over `io_dev_curr`/`is_usb` starts at the device itself and ends where `FirstUsbFrom` says |
| `MacDev.CalloutPath` | sercomm/posix/dev_macos.c:98-106 | the callout path when it fits the 128-byte path with its terminator; any non-empty path is the callout path |
| `MacDev.IoProperties` | sercomm/posix/dev_macos.c:86-157 | the path is the callout path; without a USB entry vid/pid are 0; otherwise they come from the first USB entry of the walk |
| `MacDev.PropertiesFromIo` | sercomm/posix/dev_macos.c:86-157 | the descriptor: callout path, and vid/pid read from the entry where the walk stopped; the parent it releases |
| `MacDev.IdsFromUsbAncestor` | sercomm/posix/dev_macos.c:131-153 | vid/pid come from the first USB ancestor, not from the device |
| `MacDev.NoUsbNoIds` | sercomm/posix/dev_macos.c:95-156 | without a USB ancestor vid/pid stay 0 |
| `MacDev.Notify` | sercomm/posix/dev_macos.c:169-185 | one callback per iterator element, in iterator order, all with the same event |
| `MacDev.Drain` | sercomm/posix/dev_macos.c:261-300 | arming takes every existing match from the iterator and releases it, in iterator order, with no callback |
| `MacDev.HexTextValue` | sercomm/posix/dev_macos.c:342 | the `%x` digits of the match failure read back as the code |
| `MacDev.MatchFailure` | sercomm/posix/dev_macos.c:342 | the text starts "Could not obtain the list of matching dev. (0x", ends with `)`, and its hex digits read back as the code cast to unsigned |
| `MacDev.MacListedAll` | sercomm/posix/dev_macos.c:346-368 | every matched service is listed once, in iterator order |
| `MacDev.ListGet` | sercomm/posix/dev_macos.c:325-380 | a match failure returns NULL with its own message; services are prepended (reverse order); allocation failure frees the previous nodes and returns NULL; zero matches returns NULL with "No devices found" |
| `MacDev.Collect` | sercomm/posix/dev_macos.c:346-373 | the loop over the iterator, with its allocation-failure and empty outcomes |
| `MacDev.Gather` | sercomm/posix/dev_macos.c:346-368 | the loop over the iterator: the reversed list of every service, or, when `calloc` fails, NULL with exactly `failAt` nodes freed |

## Findings

| source | as written | input that shows it | evidently intended | confidence | as-written member | corrected member |
|---|---|---|---|---|---|---|
| sercomm/posix/comms.c:723-727 | a stalled write records the disconnection but `r` keeps the wait's 0 | ready wait, `write` returns 0 with errno EIO on a 3-byte buffer | return SER_EDISCONN | high, not executed | `PosixComms.WriteDisconnectReturnsZero` | `PosixComms.WriteFixedReportsDisconnect` |
| sercomm/posix/comms.c:720 | `sent_ += (size_t)sent_now` adds -1 | writes of 1, then -1 with EAGAIN, then 3, on a 3-byte buffer: the device gets 4 bytes | only a positive count advances `sent_` | high, not executed | `PosixComms.WriteMinusOneResends` | `PosixComms.WriteFixedSound` |
| sercomm/posix/comms.c:484-538 | the in/out timeout receives the elapsed time | 100 ms budget, 30 ms elapsed: 30 is stored; under 1 ms elapsed: 0 is stored and the next wait is unbounded | store the remaining time | high, not executed | `PosixComms.WriteLosesDeadline` | `PosixComms.RemainingKeepsDeadline` |
| sercomm/posix/comms.c:450 | the write timeout slot takes the read option | rd 0, wr 100: write waits have no deadline | `timeouts.wr` from `opts->timeouts.wr` | high, not executed | `PosixComms.WriteTimeoutFromReadSlot` | `PosixComms.WriteTimeoutFixedBounds` |
| sercomm/win/comms.c:225 | the write wait limit takes the read option | rd 0, wr 100: write limit 0; rd 50, wr 0: write INFINITE | `(DWORD)opts->timeouts.wr` | high, not executed | `WinComms.WinWriteTimeoutFromReadSlot` | `WinComms.WinWriteTimeoutFixedWaits` |
| sercomm/win/comms.c:251-254 | a failed malloc returns `r = 0` | malloc returns NULL | return SER_EFAIL | high, not executed | `WinComms.OpenMallocFailureReturnsZero` | `WinComms.WinOpenFixedSound` |
| sercomm/win/dev.c:357-358 | the LPT filter is an exact `strcmp` with "LPT" | a port named "LPT1" is listed | skip every name starting with "LPT" | medium, not executed | `WinDev.ParallelPortListed` | `WinDev.WinListedFixedSound` |
| sercomm/posix/dev_linux.c:100-101 | `strncat(full_path, "/device", PATH_MAX)` bounds the appended text, not the room left | a sysfs path of PATH_MAX − 7 characters stores PATH_MAX + 1 bytes | bound the append by the space left | low (such paths are unusual), not executed | `LinuxDev.ProbeOverflowExample` | `LinuxDev.ProbedPathFixed` |

`PosixPort.Write`, `WinPort.Configure`, `WinPort.Open` and `WinDev.ListGet`
model the code as written. The corrected members sit beside them with their
properties proved.

## Left out

- Device-monitor threads: start-up handshakes, mutex and condition-variable timed waits, termination pipes, CFRunLoop, the Win32 message pump and TerminateThread. These are concurrency. Only the per-event decision steps (`LinuxDev.MonitorDecide`, `WinDev.MsgProc`, `MacDev.Notify`, `MacDev.Drain`) are modelled.
- The behaviour of operating-system calls: open, close, read, write, select, ioctl, tcgetattr, tcsetattr, tcflush; CreateFile, ReadFile, WriteFile, WaitCommEvent, PurgeComm; SetupDi and the registry; IOKit; libudev. Their answers are inputs.
- Wall-clock measurement and the Mach `clock_gettime` shim (sercomm/posix/time.c:14-67). Clock readings are inputs.
- Message formatting by `vsnprintf` and FormatMessage. Formatted texts are given strings. Only the clipping to the 256-byte slot is modelled.
- `ser_available`, `ser_close` and `port_restore` on both backends. They are single OS calls with no logic of their own.
- `ser_create`/`ser_destroy` and the version string (sercomm/base.c, sercomm/posix/base.c). They are allocation wrappers.
- The structured-exception guard around CloseHandle (sercomm/win/comms.c:311-316). This is platform exception handling.
- The thread-local storage of the error slot. The model holds one slot per `LastError` object, which is what one thread sees.
- `PosixComms.PosixPort.Write`: the loop is modelled over a finite script of rounds and stops in three places where the code would go on. A loop that never ends (the device never accepts a byte) stops when the script runs out, as `ScriptEnded`. After a first-round -1 has wrapped `sent_` to SIZE_MAX (sercomm/posix/comms.c:720), the code calls `write(fd, bufc + sent_, sz - sent_)` from outside the buffer; the model stops there as `OutOfBounds` and does not model that write. A write answer below -1 or above the bytes still to send, which `write` cannot give, stops the model as `NotAWriteResult`.
- `PosixComms.RemainingWithinBudget`: proved for write timeouts up to 2147483 ms only. Above that, `*timeout * 1000` overflows `int` (sercomm/posix/comms.c:521) and the select deadline is no longer the timeout.
- `PosixComms.Read`: the NULL `recvd` out-pointer (sercomm/posix/comms.c:678-681) is not modelled; the count is always reported when positive.
- `WinComms.Read`: the NULL `recvd` out-pointer (sercomm/win/comms.c:484-487) is not modelled; the count is always reported once the read completes.
- `WinComms.Write`: the NULL `sent` out-pointer (sercomm/win/comms.c:544-547) is not modelled; the count is always reported once the write completes.
- `PosixComms.PosixPort.Write`: the NULL `sent` out-pointer (sercomm/posix/comms.c:740-743) is not modelled; `sent_` is always part of the result.
- `MacDev.PropertiesFromIo`: when the device itself is the USB entry, `IOObjectRelease` is given an `io_dev_parent` that was never set. The model reports this as a release of "no parent" and does not model what the kernel does with it.
- `MacDev.CalloutPath`: `CFStringGetCString` is modelled as failing, and leaving the path zeroed, exactly when the path does not fit with its terminator. ASCII conversion failures are not modelled.
- `WinDev.PropertiesFromBroadcast`: the result of `SetupDiGetClassDevs` and `RegQueryValueEx` is reduced to "a port name, or none". A port name longer than the 128-byte path is clipped as `strncpy` would clip it; the registry call's own truncation is not modelled.
