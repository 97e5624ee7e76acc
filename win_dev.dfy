/**
 * Device discovery of the Windows backend (sercomm/win/dev.c): the device
 * description recovered from a device-interface broadcast, the
 * WM_DEVICECHANGE decision of the monitor's window procedure, and the
 * enumeration of the ports class into a device list. SetupDi, the registry
 * and the window manager are oracles: their answers are parameters.
 */
module WinDev {
  import opened SerTypes
  import opened CStrings
  import opened DevList

  // ---------------------------------------------------------------------------
  // VID_/PID_ fields
  // ---------------------------------------------------------------------------

  /**
   * The identifier after the first `tag` in `s`, read as `(uint16_t)strtoul(
   * .., 16)` with Windows' 32-bit `unsigned long`; 0 when `tag` is absent.
   */
  function IdAfter(s: string, tag: string): (id: uint16)
    requires |tag| == 4
    ensures (forall j :: 0 <= j <= |s| ==> !OccursAt(s, tag, j)) ==> id == 0
    ensures id != 0 ==> Find(s, tag).Some?
  {
    match Find(s, tag)
    case None => 0
    case Some(k) => HexField(s[k + 4..], ULONG32_LIMIT)
  }

  /** An absent tag leaves the field at the zero it was cleared to. */
  lemma IdAfterAbsent(s: string, tag: string)
    requires |tag| == 4
    requires forall j :: 0 <= j <= |s| ==> !OccursAt(s, tag, j)
    ensures IdAfter(s, tag) == 0
  {
  }

  /**
   * A tag followed by up to four hex digits and then a non-digit (the `&`
   * between VID and PID, the `\` after PID) gives the number those digits
   * spell.
   */
  lemma IdAfterDigits(pre: string, tag: string, ds: string, rest: string)
    requires |tag| == 4
    requires forall j :: 0 <= j < |pre| ==> !OccursAt(pre + tag, tag, j)
    requires 1 <= |ds| <= 4 && AllHex(ds)
    requires !(ds == "0" && |rest| > 0 && (rest[0] == 'x' || rest[0] == 'X'))
    requires |rest| == 0 || !IsHex(rest[0])
    ensures IdAfter(pre + tag + ds + rest, tag) == HexValue(ds)
  {
    var head := pre + tag;
    var s := head + (ds + rest);
    assert pre + tag + ds + rest == s;
    assert OccursAt(s, tag, |pre|) by {
      OccursAtPrefix(head, ds + rest, tag, |pre|);
      assert head[|pre|..|pre| + 4] == tag;
    }
    forall j | 0 <= j < |pre|
      ensures !OccursAt(s, tag, j)
    {
      OccursAtPrefix(head, ds + rest, tag, j);
    }
    FindFirst(s, tag, |pre|);
    assert s[|pre| + 4..] == ds + rest;
    HexFieldOfDigits(ds, rest, ULONG32_LIMIT);
  }

  // ---------------------------------------------------------------------------
  // The interface name of a device-interface broadcast
  // ---------------------------------------------------------------------------

  /**
   * The form Windows gives `dbcc_name`: a C string starting `\\?\`, e.g.
   * `\\?\USB#VID_0403&PID_6001#A5#{86e0d1e0-...}`.
   */
  ghost predicate InterfaceName(buf: seq<char>)
  {
    var c := CStr(buf);
    |c| >= 4 && c[..4] == "\\\\?\\"
  }

  /** The buffer after the NUL written just before the first `{`, if any. */
  function CutBeforeBrace(buf: seq<char>): (t: seq<char>)
    requires InterfaceName(buf)
    ensures |t| == |buf|
  {
    match Find(CStr(buf), "{")
    case None => buf
    case Some(k) =>
      assert k >= 1 by { assert CStr(buf)[0] == '\\'; }
      buf[k - 1 := NUL]
  }

  /** Every `#` of the C string held by `buf` turned into `\`; the rest of the buffer untouched. */
  function Unhashed(buf: seq<char>): (t: seq<char>)
    ensures |t| == |buf|
  {
    var n := |CStr(buf)|;
    seq(|buf|, i requires 0 <= i < |buf| => if i < n && buf[i] == '#' then '\\' else buf[i])
  }

  /** A string with every `#` turned into `\`. */
  function ReplaceHashes(s: string): (r: string)
    ensures |r| == |s|
    ensures forall i :: 0 <= i < |s| ==> r[i] == (if s[i] == '#' then '\\' else s[i])
  {
    if |s| == 0 then [] else [if s[0] == '#' then '\\' else s[0]] + ReplaceHashes(s[1..])
  }

  /** The C string the rewrite leaves: cut before `{`, no `#` left. */
  function RewrittenName(name: string): (r: string)
    ensures |r| <= |name|
    ensures '#' !in r
  {
    match Find(name, "{")
    case None => ReplaceHashesNoHash(name); ReplaceHashes(name)
    case Some(k) => if k == 0 then [] else ReplaceHashesNoHash(name[..k - 1]); ReplaceHashes(name[..k - 1])
  }

  /** Unhashed only changes `#` characters before the terminator, so the C string keeps its length. */
  lemma UnhashedCStr(buf: seq<char>)
    ensures CStr(Unhashed(buf)) == ReplaceHashes(CStr(buf))
  {
    var c := CStr(buf);
    var u := Unhashed(buf);
    var r := ReplaceHashes(c);
    assert forall i :: 0 <= i < |r| ==> r[i] != NUL;
    assert r == u[..|r|];
    CStrUnique(u, r);
  }

  /**
   * The two steps of the rewrite, in place on `dbcc_name`: a NUL just
   * before the first `{`, then a do-while of `strstr(name, "#")` replacing
   * the occurrence found by `\` until none is left.
   */
  method RewriteInterfaceName(name: array<char>)
    requires InterfaceName(name[..])
    modifies name
    ensures name[..] == Unhashed(CutBeforeBrace(old(name[..])))
  {
    ghost var t := CutBeforeBrace(name[..]);
    var brace := Find(CStr(name[..]), "{");
    if brace.Some? {
      assert CStr(name[..])[0] == '\\';
      name[brace.value - 1] := NUL;
    }
    assert name[..] == t;
    ghost var n := |CStr(t)|;
    ghost var lo := 0;
    var pos := FindChar(CStr(name[..]), '#');
    while pos.Some?
      invariant |CStr(name[..])| == n
      invariant Unhashed(name[..]) == Unhashed(t)
      invariant lo <= n
      invariant NoHashBefore(name[..], lo)
      invariant pos == FindChar(CStr(name[..]), '#')
      decreases n - lo
    {
      ghost var before := name[..];
      NoHashBeforeFound(before, lo, pos.value);
      name[pos.value] := '\\';
      assert name[..] == before[pos.value := '\\'];
      UnhashedWrite(before, pos.value);
      lo := pos.value + 1;
      pos := FindChar(CStr(name[..]), '#');
    }
    UnhashedDone(name[..]);
  }

  /** No `#` among the first `lo` characters. */
  ghost predicate NoHashBefore(buf: seq<char>, lo: nat)
  {
    forall j :: 0 <= j < lo && j < |buf| ==> buf[j] != '#'
  }

  /** The first `#` of the C string lies at or past `lo`, and replacing it extends the clean prefix. */
  lemma NoHashBeforeFound(buf: seq<char>, lo: nat, p: nat)
    requires NoHashBefore(buf, lo)
    requires FindChar(CStr(buf), '#') == Some(p)
    ensures lo <= p < |CStr(buf)|
    ensures NoHashBefore(buf[p := '\\'], p + 1)
  {
    var c := CStr(buf);
    assert buf[p] == c[p] == '#';
    forall j | 0 <= j < p
      ensures buf[j] != '#'
    {
      assert buf[j] == c[j];
    }
  }

  /** Replacing a `#` of the C string by `\` changes neither the C string's length nor Unhashed. */
  lemma UnhashedWrite(buf: seq<char>, i: nat)
    requires i < |CStr(buf)| && buf[i] == '#'
    ensures |CStr(buf[i := '\\'])| == |CStr(buf)|
    ensures Unhashed(buf[i := '\\']) == Unhashed(buf)
  {
    CStrWrite(buf, i, '\\');
  }

  /** With no `#` left in the C string, Unhashed changes nothing. */
  lemma UnhashedDone(buf: seq<char>)
    requires FindChar(CStr(buf), '#').None?
    ensures Unhashed(buf) == buf
  {
    var c := CStr(buf);
    forall i | 0 <= i < |c|
      ensures buf[i] != '#'
    {
      assert buf[i] == c[i];
    }
  }

  /** The rewrite leaves the C string cut one character before `{`, with no `#` in it. */
  lemma RewriteResult(buf: seq<char>)
    requires InterfaceName(buf)
    ensures CStr(Unhashed(CutBeforeBrace(buf))) == RewrittenName(CStr(buf))
    ensures '#' !in RewrittenName(CStr(buf))
  {
    UnhashedCStr(CutBeforeBrace(buf));
    CutCStr(buf);
    var c := CStr(buf);
    var cut := if Find(c, "{").Some? then c[..Find(c, "{").value - 1] else c;
    assert RewrittenName(c) == ReplaceHashes(cut);
    ReplaceHashesNoHash(cut);
  }

  /** The cut leaves the C string up to the character before `{`, which never starts it. */
  lemma CutCStr(buf: seq<char>)
    requires InterfaceName(buf)
    ensures var c := CStr(buf);
      && (Find(c, "{").Some? ==> 1 <= Find(c, "{").value <= |c|)
      && CStr(CutBeforeBrace(buf)) == if Find(c, "{").Some? then c[..Find(c, "{").value - 1] else c
  {
    var c := CStr(buf);
    match Find(c, "{")
    case None =>
    case Some(k) =>
      assert k >= 1 by { assert c[0] == '\\'; }
      CStrCut(buf, k - 1);
  }

  /** No `#` survives the replacement. */
  lemma ReplaceHashesNoHash(s: string)
    ensures '#' !in ReplaceHashes(s)
  {
    var r := ReplaceHashes(s);
    forall i | 0 <= i < |r|
      ensures r[i] != '#'
    {
    }
  }


  /**
   * The enumerator handed to SetupDiGetClassDevs: the C string at
   * `&dbcc_name[4]` of the rewritten buffer. When the rewrite keeps at least
   * four characters it is the rewritten name from its 5th character, with no
   * `#`; when `{` directly follows the `\\?\` prefix the cut NUL lands at
   * index 3 and index 4 reads on into the untouched original text.
   */
  function Enumerator(buf: seq<char>): (e: string)
    requires InterfaceName(buf)
    ensures var r := RewrittenName(CStr(buf));
      && (|r| >= 4 ==> e == r[4..] && '#' !in e)
      && (|r| < 4 ==> Find(CStr(buf), "{") == Some(4) && e == CStr(buf)[4..])
  {
    EnumeratorCases(buf);
    CStr(Unhashed(CutBeforeBrace(buf))[4..])
  }

  /** A C string read from inside another one is its suffix. */
  lemma CStrFrom(buf: seq<char>, i: nat)
    requires i <= |CStr(buf)|
    ensures CStr(buf[i..]) == CStr(buf)[i..]
  {
    CStrUnique(buf[i..], CStr(buf)[i..]);
  }

  /** The two cases of `&dbcc_name[4]` after the rewrite. */
  lemma EnumeratorCases(buf: seq<char>)
    requires InterfaceName(buf)
    ensures var c := CStr(buf); var r := RewrittenName(c); var u := Unhashed(CutBeforeBrace(buf));
      && |u| >= 4
      && (|r| >= 4 ==> CStr(u[4..]) == r[4..])
      && (|r| < 4 ==> Find(c, "{") == Some(4) && CStr(u[4..]) == c[4..])
  {
    var c := CStr(buf);
    var r := RewrittenName(c);
    var u := Unhashed(CutBeforeBrace(buf));
    RewriteResult(buf);
    if |r| >= 4 {
      CStrFrom(u, 4);
    } else {
      match Find(c, "{")
      case None =>
        assert false;
      case Some(k) =>
        assert c[k] == '{';
        assert |r| == k - 1;
        assert k == 4;
        var t := buf[3 := NUL];
        assert CutBeforeBrace(buf) == t;
        CStrCut(buf, 3);
        assert u[4..] == buf[4..];
        CStrFrom(buf, 4);
    }
  }

  /**
   * `dev_properties_get_from_dev_bcast_devintf` on a name whose rewrite is
   * `rewritten`: the registry's PortName (when the device-info lookup
   * succeeded) and the VID_/PID_ fields of the rewritten name; everything
   * else stays at the zero of the memset.
   */
  function BroadcastDevice(rewritten: string, portName: Option<string>): (d: Device)
    ensures |d.path| <= SER_DEV_PATH_SZ
    ensures portName.None? ==> d.path == []
    ensures portName.Some? ==> |d.path| <= |portName.value| && d.path == portName.value[..|d.path|]
                               && (|portName.value| <= SER_DEV_PATH_SZ ==> d.path == portName.value)
    ensures d.vid == IdAfter(rewritten, "VID_") && d.pid == IdAfter(rewritten, "PID_")
  {
    Device(
      if portName.Some? then CopyPath(portName.value) else [],
      IdAfter(rewritten, "VID_"),
      IdAfter(rewritten, "PID_"))
  }

  /**
   * The whole of `dev_properties_get_from_dev_bcast_devintf`: rewrite the
   * name in place, then describe the device. `enumerator` is the string the
   * SetupDi lookup was given; `portName` is that lookup's answer.
   */
  method PropertiesFromBroadcast(name: array<char>, portName: Option<string>)
    returns (dev: Device, enumerator: string)
    requires InterfaceName(name[..])
    modifies name
    ensures name[..] == Unhashed(CutBeforeBrace(old(name[..])))
    ensures enumerator == Enumerator(old(name[..]))
    ensures dev == BroadcastDevice(RewrittenName(CStr(old(name[..]))), portName)
  {
    ghost var orig := name[..];
    RewriteInterfaceName(name);
    RewriteResult(orig);
    var s := CStr(name[..]);
    enumerator := CStr(name[4..]);
    var path: string := [];
    if portName.Some? {
      path := CopyPath(portName.value);
    }
    var vid := IdAfter(s, "VID_");
    var pid := IdAfter(s, "PID_");
    dev := Device(path, vid, pid);
  }

  // ---------------------------------------------------------------------------
  // The monitor's window procedure
  // ---------------------------------------------------------------------------

  const WM_DEVICECHANGE: int := 0x0219
  const DBT_DEVICEARRIVAL: int := 0x8000
  const DBT_DEVICEREMOVECOMPLETE: int := 0x8004
  const DBT_DEVTYP_DEVICEINTERFACE: int := 5

  /** The switch on `wParam`: arrival adds, remove-complete removes, the rest is unsupported. */
  function EventOf(wParam: int): (e: Option<Event>)
    ensures e == Some(Added) <==> wParam == DBT_DEVICEARRIVAL
    ensures e == Some(Removed) <==> wParam == DBT_DEVICEREMOVECOMPLETE
  {
    if wParam == DBT_DEVICEARRIVAL then Some(Added)
    else if wParam == DBT_DEVICEREMOVECOMPLETE then Some(Removed)
    else None
  }

  /** What the window procedure does with one message. */
  datatype ProcOutcome =
    | Notified(evt: Event, dev: Device)   // `on_event` called, returns 0
    | Ignored                             // a WM_DEVICECHANGE nothing is reported for, returns 0
    | Default                             // handed to DefWindowProc

  /**
   * `dev_mon_win_msg_proc`. `devtype` is None when `lParam` is NULL and
   * otherwise the broadcast's `dbcc_devicetype`; `name` is its `dbcc_name`.
   */
  method MsgProc(message: int, wParam: int, devtype: Option<int>, name: array<char>,
                 portName: Option<string>)
    returns (out: ProcOutcome)
    requires devtype == Some(DBT_DEVTYP_DEVICEINTERFACE) ==> InterfaceName(name[..])
    modifies name
    ensures out.Default? <==> message != WM_DEVICECHANGE
    ensures out.Notified? <==>
      message == WM_DEVICECHANGE && devtype == Some(DBT_DEVTYP_DEVICEINTERFACE) && EventOf(wParam).Some?
    ensures out.Notified? ==> out.evt == EventOf(wParam).value
    ensures out.Notified? ==> out.dev == BroadcastDevice(RewrittenName(CStr(old(name[..]))), portName)
    ensures !out.Notified? ==> name[..] == old(name[..])
  {
    out := Default;
    if message == WM_DEVICECHANGE {
      out := Ignored;
      if devtype.Some? && devtype.value == DBT_DEVTYP_DEVICEINTERFACE {
        var evt := EventOf(wParam);
        if evt.Some? {
          var dev, _ := PropertiesFromBroadcast(name, portName);
          out := Notified(evt.value, dev);
        }
      }
    }
  }

  /** Exactly the two device-change kinds for device interfaces fire the callback, each with its own event. */
  lemma MsgProcEvents(wParam: int)
    ensures EventOf(wParam).Some? <==> wParam == DBT_DEVICEARRIVAL || wParam == DBT_DEVICEREMOVECOMPLETE
    ensures EventOf(DBT_DEVICEARRIVAL) != EventOf(DBT_DEVICEREMOVECOMPLETE)
  {
  }

  // ---------------------------------------------------------------------------
  // ser_dev_list_get
  // ---------------------------------------------------------------------------

  /**
   * One member of the ports class as the enumeration sees it: the PortName
   * value (None when RegQueryValueEx fails) and the hardware-ID property
   * (None when SetupDiGetDeviceRegistryProperty fails; otherwise the text
   * and the size it reported).
   */
  datatype PortEntry = PortEntry(portName: Option<string>, hwId: Option<(string, nat)>)

  /** The port is listed unless its name is exactly "LPT". */
  predicate Kept(e: PortEntry)
  {
    e.portName.Some? && e.portName.value != "LPT"
  }

  /** The device a kept entry becomes: its port name, and IDs read from a non-empty hardware ID. */
  function EntryDevice(e: PortEntry): (d: Device)
  {
    var hw := e.hwId.Some? && e.hwId.value.1 > 0;
    Device(
      if e.portName.Some? then CopyPath(e.portName.value) else [],
      if hw then IdAfter(e.hwId.value.0, "VID_") else 0,
      if hw then IdAfter(e.hwId.value.0, "PID_") else 0)
  }

  /** The devices of the enumeration in enumeration order. */
  function WinListed(es: seq<PortEntry>): seq<Device>
  {
    Listed(es, Kept, EntryDevice)
  }

  /**
   * `ser_dev_list_get`. `failAt` is the number of nodes allocated before
   * `calloc` fails, if it does; `allocText` is `strerror(errno)` then.
   */
  method ListGet(entries: seq<PortEntry>, failAt: Option<nat>, allocText: string)
    returns (b: Built)
    ensures b.lst != null ==> b.lst.Valid()
    ensures failAt.Some? && failAt.value < |WinListed(entries)| ==>
      b.lst == null && b.msg == Some(allocText) && |b.freed| == failAt.value
    ensures (failAt.None? || failAt.value >= |WinListed(entries)|) ==>
      && ListDevices(b.lst) == Reverse(WinListed(entries))
      && b.freed == []
      && (b.lst == null <==> WinListed(entries) == [])
      && b.msg == (if b.lst == null then Some(MSG_NO_DEVICES) else None)
  {
    var lst, abandoned := Gather(entries, failAt);
    if abandoned.Some? {
      return Built(null, Some(allocText), abandoned.value);
    }
    if lst == null {
      return Built(null, Some(MSG_NO_DEVICES), []);
    }
    return Built(lst, None, []);
  }

  /**
   * The loop over the ports: every port not named "LPT" is prepended; when
   * `calloc` fails the nodes made so far are destroyed (`abandoned` lists
   * them) and the loop stops.
   */
  method Gather(entries: seq<PortEntry>, failAt: Option<nat>) returns (lst: Node?, abandoned: Option<seq<Node>>)
    ensures abandoned.Some? <==> failAt.Some? && failAt.value < |WinListed(entries)|
    ensures abandoned.Some? ==> lst == null && |abandoned.value| == failAt.value
    ensures abandoned.None? ==> HoldsReversed(lst, WinListed(entries))
  {
    lst := null;
    abandoned := None;
    var made := 0;
    var i := 0;
    while i < |entries|
      invariant i <= |entries|
      invariant Building(entries, i, Kept, EntryDevice, lst, made)
      invariant failAt.Some? ==> made <= failAt.value
    {
      var e := entries[i];
      var kept := e.portName.Some? && e.portName.value != "LPT";
      assert kept == Kept(e);
      if kept && failAt.Some? && failAt.value == made {
        BuildingShort(entries, i, Kept, EntryDevice);
        var freed := Abandon(lst, WinListed(entries[..i]));
        return null, Some(freed);
      }
      lst, made := Visit(entries, i, Kept, EntryDevice, lst, made, EntryDevice(e));
      i := i + 1;
    }
    BuildingDone(entries, Kept, EntryDevice, lst, made);
  }

  /** With no allocation failure, the list holds exactly the kept ports, last enumerated first. */
  lemma ListGetOrder(entries: seq<PortEntry>, ds: seq<Device>, i: nat)
    requires ds == Reverse(WinListed(entries))
    requires i < |ds|
    ensures ds[i] == WinListed(entries)[|ds| - 1 - i]
  {
    ReverseIndex(WinListed(entries), i);
  }

  /** A listed device comes from a kept entry, and every kept entry is listed. */
  lemma ListGetMembers(entries: seq<PortEntry>, d: Device)
    ensures d in WinListed(entries) <==>
      exists i :: 0 <= i < |entries| && Kept(entries[i]) && EntryDevice(entries[i]) == d
  {
    ListedMembers(entries, Kept, EntryDevice, d);
  }

  // ---------------------------------------------------------------------------
  // The parallel-port filter
  // ---------------------------------------------------------------------------

  /**
   * As written, the filter compares the whole port name with "LPT", but
   * parallel ports are named "LPT1", "LPT2", ...: such a port is kept and
   * listed like a serial port.
   */
  lemma ParallelPortListed()
    ensures WinListed([PortEntry(Some("LPT1"), None)]) == [Device("LPT1", 0, 0)]
  {
    var e := PortEntry(Some("LPT1"), None);
    assert [e][..0] == [];
    assert Kept(e);
  }

  /** Whether a port name names a parallel port: it starts with "LPT". */
  predicate IsParallelPort(name: string)
  {
    |name| >= 3 && name[..3] == "LPT"
  }

  /** The filter the comment describes: skip every parallel port. */
  predicate KeptFixed(e: PortEntry)
  {
    e.portName.Some? && !IsParallelPort(e.portName.value)
  }

  /** The ports the corrected filter lists. */
  function WinListedFixed(es: seq<PortEntry>): seq<Device>
  {
    Listed(es, KeptFixed, EntryDevice)
  }

  /**
   * With the corrected filter no parallel port is listed and every other
   * named port is.
   */
  lemma WinListedFixedSound(es: seq<PortEntry>, d: Device)
    ensures d in WinListedFixed(es) <==>
      exists i :: 0 <= i < |es| && es[i].portName.Some? && !IsParallelPort(es[i].portName.value)
                  && EntryDevice(es[i]) == d
    ensures d in WinListedFixed(es) ==> !IsParallelPort(d.path)
  {
    ListedMembers(es, KeptFixed, EntryDevice, d);
    if d in WinListedFixed(es) {
      var i :| 0 <= i < |es| && KeptFixed(es[i]) && EntryDevice(es[i]) == d;
    }
  }
}
