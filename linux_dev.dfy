/**
 * Device discovery of the Linux backend (sercomm/posix/dev_linux.c): the
 * device described by a udev device, the test that a `tty` entry is a real
 * device, one decision step of the monitor thread, and the enumeration of
 * the `tty` subsystem into a device list. libudev, `select`, `opendir` and
 * `malloc` are oracles: their answers are parameters.
 */
module LinuxDev {
  import opened SerTypes
  import opened CStrings
  import opened DevList

  // ---------------------------------------------------------------------------
  // dev_properties_get_from_udev
  // ---------------------------------------------------------------------------

  /** What libudev reports for a device: its node and two properties, each possibly absent. */
  datatype UdevDevice = UdevDevice(devnode: Option<string>, vendorId: Option<string>, modelId: Option<string>)

  /** `(uint16_t)strtoul(s, NULL, 16)` with the 64-bit `unsigned long` of Linux, 0 when absent. */
  function IdOf(s: Option<string>): uint16
  {
    if s.Some? then HexField(s.value, ULONG64_LIMIT) else 0
  }

  /**
   * `dev_properties_get_from_udev`: a zeroed record, then the node copied
   * into the 128-byte path and the two IDs parsed, each only when present.
   */
  function UdevProperties(u: UdevDevice): (d: Device)
    ensures u.devnode.None? ==> d.path == []
    ensures u.devnode.Some? ==> d.path == CopyPath(u.devnode.value)
    ensures u.vendorId.None? ==> d.vid == 0
    ensures u.modelId.None? ==> d.pid == 0
  {
    Device(
      if u.devnode.Some? then CopyPath(u.devnode.value) else [],
      IdOf(u.vendorId),
      IdOf(u.modelId))
  }

  /** The usual udev IDs, four hex digits, read back as the number they spell. */
  lemma UdevIdsRead(node: string, vendor: string, model: string)
    requires |vendor| == 4 && AllHex(vendor) && |model| == 4 && AllHex(model)
    ensures var d := UdevProperties(UdevDevice(Some(node), Some(vendor), Some(model)));
      d.path == CopyPath(node) && d.vid == HexValue(vendor) && d.pid == HexValue(model)
  {
    HexFieldOfDigits(vendor, "", ULONG64_LIMIT);
    HexFieldOfDigits(model, "", ULONG64_LIMIT);
    assert vendor + "" == vendor && model + "" == model;
  }

  // ---------------------------------------------------------------------------
  // udev_list_entry_is_device
  // ---------------------------------------------------------------------------

  /** `PATH_MAX`, the size of the buffer the probed path is built in. */
  const PATH_MAX: nat := 4096

  const DEVICE_SUFFIX: string := "/device"

  /** The directory whose presence marks a device: the sysfs path followed by "/device". */
  function ProbedPath(sysfs: string): string
  {
    sysfs + DEVICE_SUFFIX
  }

  /**
   * Bytes `strncpy(full_path, sysfs, PATH_MAX)` then `strncat(full_path,
   * "/device", PATH_MAX)` store, terminator included. `strncat`'s bound
   * limits the characters appended, not the room left in the buffer.
   */
  function ProbeBytes(sysfs: string): (n: nat)
    ensures |sysfs| < PATH_MAX ==> n == |ProbedPath(sysfs)| + 1
  {
    if |sysfs| < PATH_MAX then |sysfs| + |DEVICE_SUFFIX| + 1
    else PATH_MAX + |DEVICE_SUFFIX| + 1   // no terminator: the append starts past the buffer
  }

  /** Whether the probe writes past the PATH_MAX-byte buffer. */
  predicate ProbeOverflows(sysfs: string)
  {
    ProbeBytes(sysfs) > PATH_MAX
  }

  /** The probe stays inside the buffer exactly for sysfs paths of at most PATH_MAX - 8 characters. */
  lemma ProbeOverflowsIff(sysfs: string)
    ensures ProbeOverflows(sysfs) <==> |sysfs| > PATH_MAX - |DEVICE_SUFFIX| - 1
  {
  }

  /**
   * A sysfs path of PATH_MAX - 7 characters is accepted by `strncpy` with
   * its terminator, and the append then stores PATH_MAX + 1 bytes.
   */
  lemma ProbeOverflowExample()
    ensures var sysfs := seq(PATH_MAX - 7, _ => 'a'); ProbeOverflows(sysfs) && ProbeBytes(sysfs) == PATH_MAX + 1
  {
  }

  /** The probe as the buffer allows: the append bounded by the room left, as `snprintf` would. */
  function ProbedPathFixed(sysfs: string): (p: string)
    ensures |p| + 1 <= PATH_MAX
    ensures |sysfs| + |DEVICE_SUFFIX| < PATH_MAX ==> p == ProbedPath(sysfs)
    ensures p == ProbedPath(sysfs)[..|p|]
  {
    var full := ProbedPath(sysfs);
    if |full| < PATH_MAX then full else full[..PATH_MAX - 1]
  }

  /**
   * One entry of the `tty` enumeration: its sysfs path, the `strerror` text
   * when `malloc(PATH_MAX)` fails for its probe, whether `opendir` opens the
   * probed directory, and the device libudev builds from the path.
   */
  datatype UdevEntry = UdevEntry(syspath: string, probeError: Option<string>, hasDeviceDir: bool, dev: UdevDevice)

  /** `udev_list_entry_is_device`: the probed directory opened, the text set when the probe could not allocate. */
  function IsDevice(e: UdevEntry): (r: (bool, Option<string>))
    ensures r.0 <==> e.probeError.None? && e.hasDeviceDir
    ensures r.1 == e.probeError
  {
    if e.probeError.Some? then (false, e.probeError)
    else (e.hasDeviceDir, None)
  }

  // ---------------------------------------------------------------------------
  // The monitor thread's decision for one wake-up
  // ---------------------------------------------------------------------------

  /** The udev action names the monitor reports; any other action is ignored. */
  function ActionEvent(action: string): (e: Option<Event>)
    ensures e == Some(Added) <==> action == "add"
    ensures e == Some(Removed) <==> action == "remove"
  {
    if action == "add" then Some(Added)
    else if action == "remove" then Some(Removed)
    else None
  }

  /** A device received from the udev monitor, with its action. */
  datatype Received = Received(action: string, dev: UdevDevice)

  /** What the monitor does after one `select`. */
  datatype MonitorStep =
    | SelectFailed(msg: string)        // error text set, the thread ends
    | Terminate                         // the termination pipe is readable
    | Nothing                           // no device, or an action nobody is told about
    | Report(evt: Event, dev: Device)   // one call of `on_event`

  /**
   * The body of the monitor loop: `s` is select's result, `pipeReady` whether
   * the termination pipe is among the ready descriptors, `received` what
   * `udev_monitor_receive_device` returns (None for NULL).
   */
  function MonitorDecide(s: int, errText: string, pipeReady: bool, received: Option<Received>): (m: MonitorStep)
    ensures Ends(m) <==> s <= 0 || pipeReady
    ensures m.SelectFailed? ==> m.msg == errText
    ensures m.Report? ==> received.Some? && ActionEvent(received.value.action) == Some(m.evt)
                          && m.dev == UdevProperties(received.value.dev)
  {
    if s <= 0 then SelectFailed(errText)
    else if pipeReady then Terminate
    else if received.None? then Nothing
    else match ActionEvent(received.value.action)
      case None => Nothing
      case Some(evt) => Report(evt, UdevProperties(received.value.dev))
  }

  /** Whether the step ends the monitor thread. */
  predicate Ends(m: MonitorStep) { m.SelectFailed? || m.Terminate? }

  /**
   * The termination request wins over a pending device, a callback happens
   * exactly for "add" and "remove" on a successful wake-up, and it carries
   * the device's properties.
   */
  lemma MonitorDecisions(s: int, errText: string, pipeReady: bool, received: Option<Received>)
    ensures s > 0 && pipeReady ==> MonitorDecide(s, errText, pipeReady, received) == Terminate
    ensures MonitorDecide(s, errText, pipeReady, received).Report? <==>
      s > 0 && !pipeReady && received.Some? && (received.value.action == "add" || received.value.action == "remove")
    ensures MonitorDecide(s, errText, pipeReady, received).Report? ==>
      MonitorDecide(s, errText, pipeReady, received).evt == ActionEvent(received.value.action).value &&
      MonitorDecide(s, errText, pipeReady, received).dev == UdevProperties(received.value.dev)
    ensures Ends(MonitorDecide(s, errText, pipeReady, received)) <==> s <= 0 || pipeReady
  {
  }

  // ---------------------------------------------------------------------------
  // ser_dev_list_get
  // ---------------------------------------------------------------------------

  /** An entry becomes a node when its probe finds the device directory. */
  predicate LinuxKept(e: UdevEntry)
  {
    IsDevice(e).0
  }

  function EntryDevice(e: UdevEntry): Device
  {
    UdevProperties(e.dev)
  }

  function LinuxListed(es: seq<UdevEntry>): seq<Device>
  {
    Listed(es, LinuxKept, EntryDevice)
  }

  /** The text of the last probe that could not allocate, if any probe failed so. */
  function LastProbeError(es: seq<UdevEntry>): Option<string>
  {
    if |es| == 0 then None
    else if es[|es| - 1].probeError.Some? then es[|es| - 1].probeError
    else LastProbeError(es[..|es| - 1])
  }

  /** The text kept is one of the probes' and is kept exactly when some probe failed. */
  lemma {:induction false} LastProbeErrorFrom(es: seq<UdevEntry>)
    ensures LastProbeError(es).Some? ==> exists i :: 0 <= i < |es| && es[i].probeError == LastProbeError(es)
    ensures LastProbeError(es).None? <==> forall i :: 0 <= i < |es| ==> es[i].probeError.None?
    decreases |es|
  {
    if |es| > 0 && es[|es| - 1].probeError.None? {
      var init := es[..|es| - 1];
      LastProbeErrorFrom(init);
      assert forall i :: 0 <= i < |init| ==> init[i] == es[i];
    }
  }

  /** One more entry replaces the last probe text when its own probe could not allocate. */
  lemma LastProbeErrorSnoc(es: seq<UdevEntry>, e: UdevEntry)
    ensures LastProbeError(es + [e]) == if e.probeError.Some? then e.probeError else LastProbeError(es)
  {
    assert (es + [e])[..|es|] == es;
  }

  /** Visiting entry `i` replaces the last probe text when that entry's probe could not allocate. */
  lemma ProbeErrorStep(entries: seq<UdevEntry>, i: nat)
    requires i < |entries|
    ensures LastProbeError(entries[..i + 1])
            == if entries[i].probeError.Some? then entries[i].probeError else LastProbeError(entries[..i])
  {
    assert entries[..i + 1] == entries[..i] + [entries[i]];
    LastProbeErrorSnoc(entries[..i], entries[i]);
  }

  /** What the library setup yields: an instance and an enumerator, or the text of the failure. */
  datatype Setup = SetupOk | NoUdev(text: string) | NoEnumerate(text: string)

  /**
   * `ser_dev_list_get`. `failAt` is the number of nodes allocated before
   * `calloc` fails, if it does; `allocText` is `strerror(errno)` then.
   * Each probe that cannot allocate leaves its text in the error slot, so
   * a successful enumeration still reports the last of them.
   */
  method ListGet(setup: Setup, entries: seq<UdevEntry>, failAt: Option<nat>, allocText: string)
    returns (b: Built)
    ensures b.lst != null ==> b.lst.Valid()
    ensures !setup.SetupOk? ==> b.lst == null && b.msg == Some(setup.text) && b.freed == []
    ensures setup.SetupOk? && failAt.Some? && failAt.value < |LinuxListed(entries)| ==>
      b.lst == null && b.msg == Some(allocText) && |b.freed| == failAt.value
    ensures setup.SetupOk? && (failAt.None? || failAt.value >= |LinuxListed(entries)|) ==>
      && ListDevices(b.lst) == Reverse(LinuxListed(entries))
      && b.freed == []
      && (b.lst == null <==> LinuxListed(entries) == [])
      && b.msg == (if b.lst == null then Some(MSG_NO_DEVICES) else LastProbeError(entries))
  {
    if !setup.SetupOk? {
      return Built(null, Some(setup.text), []);
    }
    b := Enumerate(entries, failAt, allocText);
  }

  /** The foreach over the `tty` entries of `ser_dev_list_get`, once libudev is set up. */
  method Enumerate(entries: seq<UdevEntry>, failAt: Option<nat>, allocText: string)
    returns (b: Built)
    ensures b.lst != null ==> b.lst.Valid()
    ensures failAt.Some? && failAt.value < |LinuxListed(entries)| ==>
      b.lst == null && b.msg == Some(allocText) && |b.freed| == failAt.value
    ensures (failAt.None? || failAt.value >= |LinuxListed(entries)|) ==>
      && ListDevices(b.lst) == Reverse(LinuxListed(entries))
      && b.freed == []
      && (b.lst == null <==> LinuxListed(entries) == [])
      && b.msg == (if b.lst == null then Some(MSG_NO_DEVICES) else LastProbeError(entries))
  {
    var lst, msg, abandoned := Prepended(entries, failAt);
    if abandoned.Some? {
      return Built(null, Some(allocText), abandoned.value);
    }
    if lst == null {
      return Built(null, Some(MSG_NO_DEVICES), []);
    }
    return Built(lst, msg, []);
  }

  /**
   * The loop itself: every entry the probe accepts is prepended; when
   * `calloc` fails the nodes made so far are destroyed (`abandoned` lists
   * them) and the loop stops. `msg` is the last text a probe recorded.
   */
  method Prepended(entries: seq<UdevEntry>, failAt: Option<nat>)
    returns (lst: Node?, msg: Option<string>, abandoned: Option<seq<Node>>)
    ensures abandoned.Some? <==> failAt.Some? && failAt.value < |LinuxListed(entries)|
    ensures abandoned.Some? ==> lst == null && |abandoned.value| == failAt.value
    ensures abandoned.None? ==> HoldsReversed(lst, LinuxListed(entries)) && msg == LastProbeError(entries)
  {
    msg := None;
    lst := null;
    abandoned := None;
    var made := 0;
    var i := 0;
    while i < |entries|
      invariant i <= |entries|
      invariant Building(entries, i, LinuxKept, EntryDevice, lst, made)
      invariant msg == LastProbeError(entries[..i])
      invariant failAt.Some? ==> made <= failAt.value
    {
      var e := entries[i];
      ghost var sofar := LinuxListed(entries[..i]);
      var probe := IsDevice(e);
      if probe.0 && failAt.Some? && failAt.value == made {
        BuildingShort(entries, i, LinuxKept, EntryDevice);
        var freed := Abandon(lst, sofar);
        return null, msg, Some(freed);
      }
      lst, made := Visit(entries, i, LinuxKept, EntryDevice, lst, made, UdevProperties(e.dev));
      ProbeErrorStep(entries, i);
      msg := if probe.1.Some? then probe.1 else msg;
      i := i + 1;
    }
    BuildingDone(entries, LinuxKept, EntryDevice, lst, made);
    assert entries[..i] == entries;
  }

  /** Exactly the entries with a device directory are listed, each once per entry. */
  lemma ListGetMembers(entries: seq<UdevEntry>, d: Device)
    ensures d in LinuxListed(entries) <==>
      exists i :: 0 <= i < |entries| && entries[i].probeError.None? && entries[i].hasDeviceDir
                  && UdevProperties(entries[i].dev) == d
  {
    ListedMembers(entries, LinuxKept, EntryDevice, d);
  }

  /** A list that is handed out has been reversed once: its last node is the first device enumerated. */
  lemma ListGetOrder(entries: seq<UdevEntry>, ds: seq<Device>)
    requires ds == Reverse(LinuxListed(entries)) && |ds| > 0
    ensures ds[|ds| - 1] == LinuxListed(entries)[0]
    ensures ds[0] == LinuxListed(entries)[|ds| - 1]
  {
    ReverseIndex(LinuxListed(entries), |ds| - 1);
    ReverseIndex(LinuxListed(entries), 0);
  }
}
