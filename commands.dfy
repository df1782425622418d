/**
 * The QEMU argument vector that "Start VM" builds from the current profile
 * (`start_vm`): the executable, memory, CPUs, the boot-ordered media, the
 * firmware drive, the extra options, the USB devices and the network.
 */
module Commands {
  import opened Wrappers
  import opened Text
  import opened Profiles

  /** One checkbox of the USB passthrough list: its text (the device id) and its state. */
  datatype UsbCheckbox = UsbCheckbox(text: string, checked: bool)

  const CdromBoot := "ISO (cdrom)"
  const NatMode := "user (NAT)"
  const TapMode := "bridged (TAP)"
  const CustomMode := "custom"

  /** The value of the `-drive` option for the disk image: always declared qcow2. */
  function DiskToken(disk: string): string {
    "file=" + disk + ",format=qcow2"
  }

  /** The disk token names the image verbatim between `file=` and `,format=qcow2`. */
  lemma DiskTokenShape(disk: string)
    ensures var t := DiskToken(disk);
      StartsWith(t, "file=") && EndsWith(t, ",format=qcow2") && |t| == |disk| + 18 && t[5..|t| - 13] == disk
  {
  }

  /** The value of the `-drive` option for the UEFI firmware flash. */
  function PflashToken(ovmfPath: string): string {
    "if=pflash,format=raw,readonly=on,file=" + ovmfPath
  }

  /** The value of the `-device` option passing through one host USB device. */
  function UsbToken(id: string): string {
    "usb-host,hostdevice=" + id
  }

  function CdromArgs(p: Profile): seq<string> {
    if p.iso != "" then ["-cdrom", p.iso] else []
  }

  function DiskArgs(p: Profile): seq<string> {
    if p.disk != "" then ["-drive", DiskToken(p.disk)] else []
  }

  /** The media options, the boot medium's first. */
  function MediaArgs(p: Profile): seq<string> {
    if p.boot == CdromBoot then CdromArgs(p) + DiskArgs(p) else DiskArgs(p) + CdromArgs(p)
  }

  /**
   * The media options case by case: each present medium contributes its
   * pair, and with both present the boot medium's pair comes first.
   */
  lemma MediaCases(p: Profile)
    ensures var r := MediaArgs(p);
      && (p.iso != "" && p.disk != "" && p.boot == CdromBoot ==> r == ["-cdrom", p.iso, "-drive", DiskToken(p.disk)])
      && (p.iso != "" && p.disk != "" && p.boot != CdromBoot ==> r == ["-drive", DiskToken(p.disk), "-cdrom", p.iso])
      && (p.iso != "" && p.disk == "" ==> r == ["-cdrom", p.iso])
      && (p.iso == "" && p.disk != "" ==> r == ["-drive", DiskToken(p.disk)])
      && (p.iso == "" && p.disk == "" ==> r == [])
  {
  }

  function FirmwareArgs(p: Profile): seq<string> {
    if p.ovmfEnabled && p.ovmfPath != "" then ["-drive", PflashToken(p.ovmfPath)] else []
  }

  function ExtraArgs(p: Profile): seq<string> {
    if p.extra != "" then Split(p.extra) else []
  }

  /** The texts of the checked boxes, in list order. */
  function CheckedLabels(boxes: seq<UsbCheckbox>): (ids: seq<string>)
    ensures |ids| <= |boxes|
  {
    if boxes == [] then []
    else
      var last := boxes[|boxes| - 1];
      CheckedLabels(boxes[..|boxes| - 1]) + (if last.checked then [last.text] else [])
  }

  /** The labels of two lists of boxes are the first list's followed by the second's. */
  lemma {:induction false} CheckedLabelsAppend(a: seq<UsbCheckbox>, b: seq<UsbCheckbox>)
    ensures CheckedLabels(a + b) == CheckedLabels(a) + CheckedLabels(b)
  {
    if b == [] {
      assert a + b == a;
    } else {
      var init := b[..|b| - 1];
      CheckedLabelsAppend(a, init);
      assert (a + b)[..|a + b| - 1] == a + init;
      assert (a + b)[|a + b| - 1] == b[|b| - 1];
    }
  }

  /** A single box gives its text when checked and nothing otherwise. */
  lemma CheckedLabelsOfOne(box: UsbCheckbox)
    ensures CheckedLabels([box]) == if box.checked then [box.text] else []
  {
    assert [box][..0] == [];
  }

  /** A label is listed exactly when some checked box carries it. */
  lemma {:induction false} CheckedLabelsMembers(boxes: seq<UsbCheckbox>, x: string)
    ensures x in CheckedLabels(boxes) <==> exists i :: 0 <= i < |boxes| && boxes[i].checked && boxes[i].text == x
  {
    if boxes != [] {
      var init := boxes[..|boxes| - 1];
      CheckedLabelsMembers(init, x);
      assert forall i :: 0 <= i < |init| ==> init[i] == boxes[i];
    }
  }

  /** One `-device usb-host,hostdevice=<id>` pair per checked box, in list order. */
  function UsbArgs(boxes: seq<UsbCheckbox>): seq<string> {
    if boxes == [] then []
    else
      var last := boxes[|boxes| - 1];
      UsbArgs(boxes[..|boxes| - 1]) + (if last.checked then ["-device", UsbToken(last.text)] else [])
  }

  function NetworkArgs(p: Profile): seq<string> {
    if p.networkMode == NatMode then ["-net", "nic", "-net", "user"]
    else if p.networkMode == TapMode then ["-net", "nic", "-net", "tap"]
    else if p.networkMode == CustomMode && p.networkOptions != "" then Split(p.networkOptions)
    else []
  }

  /** The five leading tokens: executable, memory and CPU count. */
  function HeaderArgs(p: Profile): seq<string> {
    [p.qemuPath, "-m", IntToString(p.ram), "-smp", IntToString(p.cpus)]
  }

  /**
   * The argument vector for `p`, or None when the executable path is empty or
   * names no existing file. USB devices count only when the USB library is
   * available.
   */
  function Command(p: Profile, exeExists: bool, usbAvailable: bool, boxes: seq<UsbCheckbox>): (r: Option<seq<string>>)
    ensures r.None? <==> p.qemuPath == "" || !exeExists
    ensures r.Some? ==> |r.value| >= 5 && r.value[0] == p.qemuPath
  {
    if p.qemuPath == "" || !exeExists then None
    else Some(HeaderArgs(p) + OptionArgs(p, usbAvailable, boxes))
  }

  /** Everything after the header, in emission order. */
  function OptionArgs(p: Profile, usbAvailable: bool, boxes: seq<UsbCheckbox>): seq<string> {
    MediaArgs(p) + FirmwareArgs(p) + ExtraArgs(p) + DeviceArgs(usbAvailable, boxes) + NetworkArgs(p)
  }

  /** The USB options: none when the USB library is unavailable. */
  function DeviceArgs(usbAvailable: bool, boxes: seq<UsbCheckbox>): seq<string> {
    if usbAvailable then UsbArgs(boxes) else []
  }

  /** The loop over the USB checkboxes: each checked one adds its `-device` pair to `cmd`. */
  method AppendUsbDevices(cmd: seq<string>, boxes: seq<UsbCheckbox>) returns (r: seq<string>)
    ensures r == cmd + UsbArgs(boxes)
  {
    r := cmd;
    var i := 0;
    while i < |boxes|
      invariant 0 <= i <= |boxes|
      invariant r == cmd + UsbArgs(boxes[..i])
    {
      assert boxes[..i + 1][..i] == boxes[..i];
      if boxes[i].checked {
        r := r + ["-device", UsbToken(boxes[i].text)];
      }
      i := i + 1;
    }
    assert boxes[..|boxes|] == boxes;
  }

  /** Concatenating the six sections one after the other gives the header followed by the options. */
  lemma Regroup<T>(h: seq<T>, m: seq<T>, f: seq<T>, e: seq<T>, d: seq<T>, n: seq<T>)
    ensures h + m + f + e + d + n == h + (m + f + e + d + n)
  {
  }

  /** Where the header, the media pairs and the firmware pair sit in the assembled vector. */
  lemma Sections<T>(h: seq<T>, m: seq<T>, f: seq<T>, e: seq<T>, d: seq<T>, n: seq<T>)
    ensures var s := h + (m + f + e + d + n);
      && |h| + |m| + |f| <= |s|
      && s[..|h|] == h
      && s[|h|..|h| + |m|] == m
      && s[|h| + |m|..|h| + |m| + |f|] == f
  {
    var s := h + (m + f + e + d + n);
    assert s == h + m + f + (e + d + n);
  }

  /** The media step: the boot medium's pair first, each pair only when its path is set. */
  method AppendMedia(cmd: seq<string>, p: Profile) returns (c: seq<string>)
    ensures c == cmd + MediaArgs(p)
  {
    c := cmd;
    if p.boot == CdromBoot {
      if p.iso != "" { c := c + ["-cdrom", p.iso]; }
      assert c == cmd + CdromArgs(p);
      if p.disk != "" { c := c + ["-drive", DiskToken(p.disk)]; }
      assert c == cmd + CdromArgs(p) + DiskArgs(p);
    } else {
      if p.disk != "" { c := c + ["-drive", DiskToken(p.disk)]; }
      assert c == cmd + DiskArgs(p);
      if p.iso != "" { c := c + ["-cdrom", p.iso]; }
      assert c == cmd + DiskArgs(p) + CdromArgs(p);
    }
  }

  /** The network step, chosen by the mode string. */
  method AppendNetwork(cmd: seq<string>, p: Profile) returns (c: seq<string>)
    ensures c == cmd + NetworkArgs(p)
  {
    c := cmd;
    if p.networkMode == NatMode {
      c := c + ["-net", "nic", "-net", "user"];
    } else if p.networkMode == TapMode {
      c := c + ["-net", "nic", "-net", "tap"];
    } else if p.networkMode == CustomMode && p.networkOptions != "" {
      c := c + Split(p.networkOptions);
    }
  }

  /** `start_vm` up to the process launch: the vector built step by step as the source does. */
  method BuildCommand(p: Profile, exeExists: bool, usbAvailable: bool, boxes: seq<UsbCheckbox>)
    returns (cmd: Option<seq<string>>)
    ensures cmd == Command(p, exeExists, usbAvailable, boxes)
  {
    var exe := p.qemuPath;
    if exe == "" || !exeExists {
      return None;
    }
    var c := [exe];
    c := c + ["-m", IntToString(p.ram)];
    c := c + ["-smp", IntToString(p.cpus)];
    ghost var header := c;
    assert header == HeaderArgs(p);
    c := AppendMedia(c, p);
    ghost var media := c;
    if p.ovmfEnabled && p.ovmfPath != "" {
      c := c + ["-drive", PflashToken(p.ovmfPath)];
    }
    assert c == media + FirmwareArgs(p);
    ghost var firmware := c;
    if p.extra != "" {
      c := c + Split(p.extra);
    }
    assert c == firmware + ExtraArgs(p);
    ghost var extra := c;
    if usbAvailable {
      c := AppendUsbDevices(c, boxes);
    }
    assert c == extra + DeviceArgs(usbAvailable, boxes);
    ghost var usb := c;
    c := AppendNetwork(c, p);
    assert c == usb + NetworkArgs(p);
    Regroup(header, MediaArgs(p), FirmwareArgs(p), ExtraArgs(p), DeviceArgs(usbAvailable, boxes), NetworkArgs(p));
    cmd := Some(c);
  }

  // ---------------------------------------------------------------------------
  // Properties of the argument vector
  // ---------------------------------------------------------------------------

  /** The vector starts with the executable, then `-m <ram>` and `-smp <cpus>` in decimal. */
  lemma CommandHeader(p: Profile, exeExists: bool, usbAvailable: bool, boxes: seq<UsbCheckbox>)
    requires p.qemuPath != "" && exeExists
    ensures var cmd := Command(p, exeExists, usbAvailable, boxes).value;
      && cmd[0] == p.qemuPath
      && cmd[1] == "-m" && ParseInt(cmd[2]) == Some(p.ram)
      && cmd[3] == "-smp" && ParseInt(cmd[4]) == Some(p.cpus)
  {
    var cmd := Command(p, exeExists, usbAvailable, boxes).value;
    var ram, cpus := IntToString(p.ram), IntToString(p.cpus);
    assert cmd == [p.qemuPath, "-m", ram, "-smp", cpus] + OptionArgs(p, usbAvailable, boxes);
    assert cmd[2] == ram && cmd[4] == cpus;
    IntToStringRoundTrip(p.ram);
    IntToStringRoundTrip(p.cpus);
  }

  /**
   * With both an ISO and a disk, the boot medium comes first: the `-cdrom`
   * pair right after the header when booting from the ISO, the `-drive`
   * pair first for any other boot value.
   */
  lemma CommandMediaOrder(p: Profile, exeExists: bool, usbAvailable: bool, boxes: seq<UsbCheckbox>)
    requires p.qemuPath != "" && exeExists
    requires p.iso != "" && p.disk != ""
    ensures var cmd := Command(p, exeExists, usbAvailable, boxes).value;
      if p.boot == CdromBoot then cmd[5..9] == ["-cdrom", p.iso, "-drive", DiskToken(p.disk)]
      else cmd[5..9] == ["-drive", DiskToken(p.disk), "-cdrom", p.iso]
  {
    MediaCases(p);
    Sections(HeaderArgs(p), MediaArgs(p), FirmwareArgs(p), ExtraArgs(p), DeviceArgs(usbAvailable, boxes), NetworkArgs(p));
  }

  /** Every boot value other than the ISO one gives the same vector. */
  lemma OtherBootValuesAgree(p: Profile, boot1: string, boot2: string, exeExists: bool, usbAvailable: bool, boxes: seq<UsbCheckbox>)
    requires boot1 != CdromBoot && boot2 != CdromBoot
    ensures Command(p.(boot := boot1), exeExists, usbAvailable, boxes) == Command(p.(boot := boot2), exeExists, usbAvailable, boxes)
  {
    var p1, p2 := p.(boot := boot1), p.(boot := boot2);
    assert MediaArgs(p1) == DiskArgs(p) + CdromArgs(p) == MediaArgs(p2);
    assert OptionArgs(p1, usbAvailable, boxes) == OptionArgs(p2, usbAvailable, boxes);
  }

  /**
   * With the firmware enabled, the pflash drive comes right after the header
   * and the media options.
   */
  lemma CommandFirmware(p: Profile, exeExists: bool, usbAvailable: bool, boxes: seq<UsbCheckbox>)
    requires p.qemuPath != "" && exeExists
    requires p.ovmfEnabled && p.ovmfPath != ""
    ensures var cmd := Command(p, exeExists, usbAvailable, boxes).value;
      var at := 5 + |MediaArgs(p)|;
      at + 2 <= |cmd| && cmd[at..at + 2] == ["-drive", PflashToken(p.ovmfPath)]
  {
    Sections(HeaderArgs(p), MediaArgs(p), FirmwareArgs(p), ExtraArgs(p), DeviceArgs(usbAvailable, boxes), NetworkArgs(p));
  }

  /** Enabling the firmware without a firmware path changes nothing. */
  lemma FirmwareNeedsPath(p: Profile, exeExists: bool, usbAvailable: bool, boxes: seq<UsbCheckbox>)
    requires p.ovmfPath == ""
    ensures Command(p, exeExists, usbAvailable, boxes) == Command(p.(ovmfEnabled := false), exeExists, usbAvailable, boxes)
  {
    var q := p.(ovmfEnabled := false);
    assert FirmwareArgs(p) == [] == FirmwareArgs(q);
    assert MediaArgs(p) == MediaArgs(q) && ExtraArgs(p) == ExtraArgs(q) && NetworkArgs(p) == NetworkArgs(q);
    assert OptionArgs(p, usbAvailable, boxes) == OptionArgs(q, usbAvailable, boxes);
    assert HeaderArgs(p) == HeaderArgs(q);
  }

  /**
   * The extra options are whitespace-free, non-empty tokens that, put back
   * together, are exactly the non-whitespace characters of the field.
   */
  lemma ExtraArgsVerbatim(p: Profile)
    ensures forall k :: 0 <= k < |ExtraArgs(p)| ==> IsToken(ExtraArgs(p)[k])
    ensures Concat(ExtraArgs(p)) == RemoveSpaces(p.extra)
  {
    if p.extra != "" {
      SplitTokens(p.extra);
      SplitKeepsCharacters(p.extra);
    }
  }

  /** The extra options `-foo bar` become the two tokens `-foo` and `bar`. */
  lemma ExtraArgsExample(p: Profile)
    requires p.extra == "-foo bar"
    ensures ExtraArgs(p) == ["-foo", "bar"]
  {
    SplitExample();
  }

  /** Without the USB library the checkboxes contribute nothing. */
  lemma UsbUnavailable(p: Profile, exeExists: bool, boxes: seq<UsbCheckbox>)
    ensures Command(p, exeExists, false, boxes) == Command(p, exeExists, false, [])
  {
  }

  /** Unchecked boxes contribute nothing. */
  lemma {:induction false} UncheckedBoxesIgnored(boxes: seq<UsbCheckbox>)
    requires forall i :: 0 <= i < |boxes| ==> !boxes[i].checked
    ensures UsbArgs(boxes) == []
  {
    if boxes != [] {
      UncheckedBoxesIgnored(boxes[..|boxes| - 1]);
    }
  }

  /** The USB options are one `-device` pair per checked box, in list order. */
  lemma {:induction false} UsbArgsPairs(boxes: seq<UsbCheckbox>)
    ensures var r, ids := UsbArgs(boxes), CheckedLabels(boxes);
      |r| == 2 * |ids| && forall k :: 0 <= k < |ids| ==> r[2 * k] == "-device" && r[2 * k + 1] == UsbToken(ids[k])
  {
    if boxes != [] {
      var init := boxes[..|boxes| - 1];
      UsbArgsPairs(init);
      var last := boxes[|boxes| - 1];
      var r0, ids0 := UsbArgs(init), CheckedLabels(init);
      if last.checked {
        assert UsbArgs(boxes) == r0 + ["-device", UsbToken(last.text)];
        assert CheckedLabels(boxes) == ids0 + [last.text];
      } else {
        assert UsbArgs(boxes) == r0;
        assert CheckedLabels(boxes) == ids0;
      }
    }
  }

  lemma LastPart<T>(h: seq<T>, x: seq<T>, n: seq<T>)
    ensures var s := h + (x + n); |n| <= |s| && s[|s| - |n|..] == n
  {
    var s := h + (x + n);
    assert s == (h + x) + n;
  }

  /** The network options are the last tokens of the vector. */
  lemma CommandEndsWithNetwork(p: Profile, exeExists: bool, usbAvailable: bool, boxes: seq<UsbCheckbox>)
    requires p.qemuPath != "" && exeExists
    ensures var cmd := Command(p, exeExists, usbAvailable, boxes).value;
      |NetworkArgs(p)| <= |cmd| && cmd[|cmd| - |NetworkArgs(p)|..] == NetworkArgs(p)
  {
    var rest := MediaArgs(p) + FirmwareArgs(p) + ExtraArgs(p) + DeviceArgs(usbAvailable, boxes);
    LastPart(HeaderArgs(p), rest, NetworkArgs(p));
  }

  /**
   * The network suffix by mode: fixed NIC pairs for NAT and TAP, the split
   * custom options, and nothing for any other mode string.
   */
  lemma NetworkModes(p: Profile)
    ensures p.networkMode == NatMode ==> NetworkArgs(p) == ["-net", "nic", "-net", "user"]
    ensures p.networkMode == TapMode ==> NetworkArgs(p) == ["-net", "nic", "-net", "tap"]
    ensures p.networkMode == CustomMode ==> NetworkArgs(p) == Split(p.networkOptions)
    ensures p.networkMode !in {NatMode, TapMode, CustomMode} ==> NetworkArgs(p) == []
  {
  }

  /** A profile never saved from the form keeps the mode "user" and gets no network options. */
  lemma DefaultProfileHasNoNetwork(name: string)
    ensures NetworkArgs(Default(name)) == []
  {
  }

  /** The ISO-boot scenario with NAT networking, token for token. */
  lemma NatIsoScenario(p: Profile, exeExists: bool, usbAvailable: bool)
    requires p.qemuPath == "qemu-system-x86_64" && exeExists
    requires p.ram == 4096 && p.cpus == 4 && p.boot == CdromBoot
    requires p.iso == "a.iso" && p.disk == "b.qcow2" && !p.ovmfEnabled && p.extra == ""
    requires p.networkMode == NatMode
    ensures Command(p, exeExists, usbAvailable, []) == Some([
      "qemu-system-x86_64", "-m", "4096", "-smp", "4", "-cdrom", "a.iso",
      "-drive", "file=b.qcow2,format=qcow2", "-net", "nic", "-net", "user"])
  {
    assert NatToString(4) == "4";
    assert NatToString(40) == NatToString(4) + "0";
    assert NatToString(409) == NatToString(40) + "9";
    assert NatToString(4096) == NatToString(409) + "6";
    assert IntToString(4096) == "4096";
    assert DiskToken("b.qcow2") == "file=b.qcow2,format=qcow2";
    assert HeaderArgs(p) == ["qemu-system-x86_64", "-m", "4096", "-smp", "4"];
    assert MediaArgs(p) == ["-cdrom", "a.iso", "-drive", "file=b.qcow2,format=qcow2"];
    assert FirmwareArgs(p) == [] && ExtraArgs(p) == [] && DeviceArgs(usbAvailable, []) == [];
    assert NetworkArgs(p) == ["-net", "nic", "-net", "user"];
    var h, m, n := HeaderArgs(p), MediaArgs(p), NetworkArgs(p);
    Regroup(h, m, FirmwareArgs(p), ExtraArgs(p), DeviceArgs(usbAvailable, []), n);
    assert Command(p, exeExists, usbAvailable, []).value == h + m + n;
    assert h + m + n == [
      "qemu-system-x86_64", "-m", "4096", "-smp", "4", "-cdrom", "a.iso",
      "-drive", "file=b.qcow2,format=qcow2", "-net", "nic", "-net", "user"];
  }
}
