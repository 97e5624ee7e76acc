/**
 * Device discovery of the macOS backend (sercomm/posix/dev_macos.c): the
 * device described by an IOKit serial service, found by walking up the
 * service plane to the first USB entry; the notifier that reports every
 * device of an IOKit iterator; and the enumeration of the serial services
 * into a device list. IOKit and CoreFoundation are oracles: the registry
 * entries and their properties are parameters.
 */
module MacDev {
  import opened SerTypes
  import opened CStrings
  import opened DevList

  // ---------------------------------------------------------------------------
  // dev_properties_get_from_io
  // ---------------------------------------------------------------------------

  /**
   * A registry entry as the walk sees it: its class name (None when
   * IOObjectGetClass fails) and its idVendor/idProduct numbers, if present.
   */
  datatype IoEntry = IoEntry(cls: Option<string>, vendor: Option<int>, product: Option<int>)

  /**
   * A serial service: its callout-device property, if present, the entry
   * itself and its ancestors in the service plane, parent first. The
   * ancestors end where IORegistryEntryGetParentEntry fails.
   */
  datatype IoDevice = IoDevice(callout: Option<string>, self: IoEntry, ancestors: seq<IoEntry>)

  /** The entries the walk may visit: the service, then its parent, its parent's parent, ... */
  function Chain(d: IoDevice): (c: seq<IoEntry>)
    ensures |c| >= 1 && c[0] == d.self
  {
    [d.self] + d.ancestors
  }

  /** `strstr(class, "USB") != NULL`. */
  predicate IsUsbClass(cls: string)
  {
    Find(cls, "USB").Some?
  }

  /** The index the walk stops at, starting from entry `i`, when it meets a USB class. */
  function FirstUsbFrom(chain: seq<IoEntry>, i: nat): Option<nat>
    requires i < |chain|
    decreases |chain| - i
  {
    if chain[i].cls.None? then None
    else if IsUsbClass(chain[i].cls.value) then Some(i)
    else if i + 1 < |chain| then FirstUsbFrom(chain, i + 1)
    else None
  }

  /** Entry `k` is the first USB class, every class up to it being readable. */
  ghost predicate UsbAt(chain: seq<IoEntry>, from: nat, k: nat)
  {
    && from <= k < |chain|
    && (forall j :: from <= j <= k ==> chain[j].cls.Some?)
    && IsUsbClass(chain[k].cls.value)
    && (forall j :: from <= j < k ==> !IsUsbClass(chain[j].cls.value))
  }

  /** The walk finds entry `k` exactly when `k` is the first USB class reachable with readable classes. */
  lemma {:induction false} FirstUsbFromIff(chain: seq<IoEntry>, i: nat, k: nat)
    requires i < |chain|
    ensures FirstUsbFrom(chain, i) == Some(k) <==> UsbAt(chain, i, k)
    decreases |chain| - i
  {
    if chain[i].cls.Some? && !IsUsbClass(chain[i].cls.value) && i + 1 < |chain| {
      FirstUsbFromIff(chain, i + 1, k);
    }
  }

  /** The walk fails exactly when no entry satisfies UsbAt. */
  lemma FirstUsbNone(chain: seq<IoEntry>)
    requires |chain| >= 1
    ensures FirstUsbFrom(chain, 0).None? <==> forall k :: !UsbAt(chain, 0, k)
  {
    if FirstUsbFrom(chain, 0).Some? {
      FirstUsbFromIff(chain, 0, FirstUsbFrom(chain, 0).value);
    }
    forall k | UsbAt(chain, 0, k)
      ensures FirstUsbFrom(chain, 0).Some?
    {
      FirstUsbFromIff(chain, 0, k);
    }
  }

  /**
   * The USB walk: from the service itself, read the class; while no USB
   * class has been met and the last lookup succeeded, either stop at a USB
   * class or move to the parent and read its class. `parent` is the
   * ancestor `io_dev_parent` was last set to (None while it is unset);
   * it is what IOObjectRelease is given once a USB entry is found.
   */
  method UsbWalk(d: IoDevice) returns (isUsb: bool, curr: nat, parent: Option<nat>)
    ensures isUsb <==> FirstUsbFrom(Chain(d), 0).Some?
    ensures isUsb ==> curr == FirstUsbFrom(Chain(d), 0).value
    ensures parent == if curr == 0 then None else Some(curr)
  {
    var chain := Chain(d);
    isUsb := false;
    curr := 0;
    parent := None;
    var ok := chain[0].cls.Some?;
    while !isUsb && ok
      invariant curr < |chain|
      invariant ok ==> chain[curr].cls.Some?
      invariant !isUsb ==> FirstUsbFrom(chain, 0) == (if ok then FirstUsbFrom(chain, curr) else None)
      invariant isUsb ==> FirstUsbFrom(chain, 0) == Some(curr)
      invariant parent == if curr == 0 then None else Some(curr)
      decreases |chain| - curr, !isUsb && ok
    {
      if IsUsbClass(chain[curr].cls.value) {
        isUsb := true;
      } else if curr + 1 < |chain| {
        curr := curr + 1;
        parent := Some(curr);
        ok := chain[curr].cls.Some?;
      } else {
        ok := false;
      }
    }
  }

  /**
   * `CFStringGetCString` into the 128-byte path: the callout path when it
   * fits with its terminator, and the zeroed path otherwise.
   */
  function CalloutPath(callout: Option<string>): (p: string)
    ensures |p| < SER_DEV_PATH_SZ
    ensures callout.Some? && |callout.value| < SER_DEV_PATH_SZ ==> p == callout.value
    ensures p != [] ==> callout == Some(p)
  {
    if callout.Some? && |callout.value| < SER_DEV_PATH_SZ then callout.value else []
  }

  /** A number read as `kCFNumberSInt16Type` into a 16-bit field: its low 16 bits. */
  function Id16(n: Option<int>): uint16
  {
    if n.Some? then ToUint16(n.value) else 0
  }

  /** `dev_properties_get_from_io`: the path, and the IDs of the USB entry the walk stopped at. */
  function IoProperties(d: IoDevice): (dev: Device)
    ensures dev.path == CalloutPath(d.callout)
    ensures FirstUsbFrom(Chain(d), 0).None? ==> dev.vid == 0 && dev.pid == 0
    ensures FirstUsbFrom(Chain(d), 0).Some? ==>
      var k := FirstUsbFrom(Chain(d), 0).value;
      UsbAt(Chain(d), 0, k) && dev.vid == Id16(Chain(d)[k].vendor) && dev.pid == Id16(Chain(d)[k].product)
  {
    var chain := Chain(d);
    match FirstUsbFrom(chain, 0)
    case None => Device(CalloutPath(d.callout), 0, 0)
    case Some(k) =>
      FirstUsbFromIff(chain, 0, k);
      Device(CalloutPath(d.callout), Id16(chain[k].vendor), Id16(chain[k].product))
  }

  /** The device record from the walk, and the ancestor released afterwards when the walk found USB. */
  method PropertiesFromIo(d: IoDevice) returns (dev: Device, released: Option<Option<nat>>)
    ensures dev == IoProperties(d)
    ensures released.Some? <==> FirstUsbFrom(Chain(d), 0).Some?
    ensures released.Some? ==> released.value == (if FirstUsbFrom(Chain(d), 0) == Some(0) then None
                                                  else FirstUsbFrom(Chain(d), 0))
  {
    var path := CalloutPath(d.callout);
    var vid: uint16 := 0;
    var pid: uint16 := 0;
    released := None;
    var isUsb, curr, parent := UsbWalk(d);
    if isUsb {
      var chain := Chain(d);
      FirstUsbFromIff(chain, 0, curr);
      if chain[curr].vendor.Some? {
        vid := ToUint16(chain[curr].vendor.value);
      }
      if chain[curr].product.Some? {
        pid := ToUint16(chain[curr].product.value);
      }
      released := Some(parent);
    }
    dev := Device(path, vid, pid);
  }

  /**
   * The IDs come from the first USB entry of the chain, which need not be
   * the service: an ancestor's idVendor/idProduct are reported. Without a
   * USB entry both stay 0.
   */
  lemma IdsFromUsbAncestor(d: IoDevice, k: nat)
    requires UsbAt(Chain(d), 0, k)
    ensures IoProperties(d).vid == Id16(Chain(d)[k].vendor)
    ensures IoProperties(d).pid == Id16(Chain(d)[k].product)
  {
    FirstUsbFromIff(Chain(d), 0, k);
  }

  /** No USB entry reachable: the record has only the path. */
  lemma NoUsbNoIds(d: IoDevice)
    requires forall k :: !UsbAt(Chain(d), 0, k)
    ensures IoProperties(d) == Device(CalloutPath(d.callout), 0, 0)
  {
    FirstUsbNone(Chain(d));
  }

  // ---------------------------------------------------------------------------
  // Notifications
  // ---------------------------------------------------------------------------

  /** One call of `on_event`. */
  datatype Call = Call(evt: Event, dev: Device)

  /** `dev_notify`: one callback per service of the iterator, in its order, all with the same event. */
  method Notify(evt: Event, iter: seq<IoDevice>) returns (calls: seq<Call>)
    ensures |calls| == |iter|
    ensures forall i :: 0 <= i < |iter| ==> calls[i] == Call(evt, IoProperties(iter[i]))
  {
    calls := [];
    var i := 0;
    while i < |iter|
      invariant i <= |iter| && |calls| == i
      invariant forall j :: 0 <= j < i ==> calls[j] == Call(evt, IoProperties(iter[j]))
    {
      var dev, _ := PropertiesFromIo(iter[i]);
      calls := calls + [Call(evt, dev)];
      i := i + 1;
    }
  }

  /**
   * Arming a notification: the services already matched are taken from the
   * iterator one by one and released, and nobody is told about them.
   */
  method Drain(iter: seq<IoDevice>) returns (released: seq<IoDevice>)
    ensures released == iter
  {
    released := [];
    var i := 0;
    while i < |iter|
      invariant i <= |iter| && released == iter[..i]
    {
      released := released + [iter[i]];
      i := i + 1;
    }
  }

  // ---------------------------------------------------------------------------
  // ser_dev_list_get
  // ---------------------------------------------------------------------------

  const IO_RETURN_SUCCESS: int := 0

  /** The digits `%x` prints for an unsigned value: lower case, no leading zeros. */
  function HexText(n: nat): (s: string)
    ensures |s| >= 1 && AllHex(s)
    decreases n
  {
    var c := "0123456789abcdef"[n % 16];
    assert IsHex(c);
    if n < 16 then [c] else HexText(n / 16) + [c]
  }

  /** Reading the printed digits back in base 16 gives the value printed. */
  lemma {:induction false} HexTextValue(n: nat)
    ensures HexValue(HexText(n)) == n
    decreases n
  {
    var s := HexText(n);
    var c := "0123456789abcdef"[n % 16];
    assert HexDigit(c) == Some(n % 16);
    if n >= 16 {
      HexTextValue(n / 16);
      assert s[..|s| - 1] == HexText(n / 16);
    }
  }

  /** The text set when the serial services cannot be matched; `%x` shows the code as unsigned. */
  function MatchFailure(ir: int): (m: string)
    ensures |m| > |MATCH_FAILED| && m[..|MATCH_FAILED|] == MATCH_FAILED && m[|m| - 1] == ')'
    ensures AllHex(m[|MATCH_FAILED|..|m| - 1]) && HexValue(m[|MATCH_FAILED|..|m| - 1]) == ToUint32(ir)
  {
    var digits := HexText(ToUint32(ir));
    HexTextValue(ToUint32(ir));
    var m := MATCH_FAILED + digits + ")";
    assert m[|MATCH_FAILED|..|m| - 1] == digits;
    m
  }

  /** The text before the `%x` digits. */
  const MATCH_FAILED := "Could not obtain the list of matching dev. (0x"

  /** Every matched service becomes a node. */
  predicate Matched(d: IoDevice) { true }

  function MacListed(iter: seq<IoDevice>): seq<Device>
  {
    Listed(iter, Matched, IoProperties)
  }

  /** The devices listed are those of the iterator, one each, in its order. */
  lemma {:induction false} MacListedAll(iter: seq<IoDevice>)
    ensures |MacListed(iter)| == |iter|
    ensures forall i :: 0 <= i < |iter| ==> MacListed(iter)[i] == IoProperties(iter[i])
    decreases |iter|
  {
    if |iter| > 0 {
      var init := iter[..|iter| - 1];
      MacListedAll(init);
      assert forall i :: 0 <= i < |init| ==> init[i] == iter[i];
    }
  }

  /**
   * `ser_dev_list_get`. `ir` is what IOServiceGetMatchingServices returns,
   * `iter` the services its iterator yields; `failAt` is the number of
   * nodes allocated before `calloc` fails, if it does.
   */
  method ListGet(ir: int, iter: seq<IoDevice>, failAt: Option<nat>, allocText: string)
    returns (b: Built)
    ensures b.lst != null ==> b.lst.Valid()
    ensures ir != IO_RETURN_SUCCESS ==> b.lst == null && b.msg == Some(MatchFailure(ir)) && b.freed == []
    ensures ir == IO_RETURN_SUCCESS && failAt.Some? && failAt.value < |iter| ==>
      b.lst == null && b.msg == Some(allocText) && |b.freed| == failAt.value
    ensures ir == IO_RETURN_SUCCESS && (failAt.None? || failAt.value >= |iter|) ==>
      && ListDevices(b.lst) == Reverse(MacListed(iter))
      && b.freed == []
      && (b.lst == null <==> iter == [])
      && b.msg == (if iter == [] then Some(MSG_NO_DEVICES) else None)
  {
    if ir != IO_RETURN_SUCCESS {
      return Built(null, Some(MatchFailure(ir)), []);
    }
    MacListedAll(iter);
    b := Collect(iter, failAt, allocText);
  }

  /**
   * The loop over the iterator of `ser_dev_list_get` and what follows it:
   * a failed allocation returns NULL with its text, an empty iterator
   * "No devices found".
   */
  method Collect(iter: seq<IoDevice>, failAt: Option<nat>, allocText: string) returns (b: Built)
    ensures b.lst != null ==> b.lst.Valid()
    ensures failAt.Some? && failAt.value < |iter| ==>
      b.lst == null && b.msg == Some(allocText) && |b.freed| == failAt.value
    ensures (failAt.None? || failAt.value >= |iter|) ==>
      && ListDevices(b.lst) == Reverse(MacListed(iter))
      && b.freed == []
      && (b.lst == null <==> iter == [])
      && b.msg == (if iter == [] then Some(MSG_NO_DEVICES) else None)
  {
    MacListedAll(iter);
    var lst, abandoned := Gather(iter, failAt);
    if abandoned.Some? {
      return Built(null, Some(allocText), abandoned.value);
    }
    if lst == null {
      return Built(null, Some(MSG_NO_DEVICES), []);
    }
    return Built(lst, None, []);
  }

  /**
   * The loop itself: a node is prepended per service; when `calloc` fails
   * the nodes made so far are destroyed (`abandoned` lists them) and the
   * loop stops.
   */
  method Gather(iter: seq<IoDevice>, failAt: Option<nat>) returns (lst: Node?, abandoned: Option<seq<Node>>)
    ensures abandoned.Some? <==> failAt.Some? && failAt.value < |iter|
    ensures abandoned.Some? ==> lst == null && |abandoned.value| == failAt.value
    ensures abandoned.None? ==> HoldsReversed(lst, MacListed(iter))
  {
    lst := null;
    abandoned := None;
    var made := 0;
    var i := 0;
    while i < |iter|
      invariant i <= |iter| && made == i
      invariant Building(iter, i, Matched, IoProperties, lst, made)
      invariant failAt.Some? ==> i <= failAt.value
    {
      if failAt.Some? && failAt.value == i {
        var freed := Abandon(lst, MacListed(iter[..i]));
        return null, Some(freed);
      }
      var dev, _ := PropertiesFromIo(iter[i]);
      assert Matched(iter[i]);
      lst, made := Visit(iter, i, Matched, IoProperties, lst, made, dev);
      i := i + 1;
    }
    BuildingDone(iter, Matched, IoProperties, lst, made);
  }
}
