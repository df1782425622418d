/**
 * The profile form: the values its widgets hold, how `load_profile_to_form`
 * fills them from a profile and how `save_profile` copies them back.
 */
module Forms {
  import opened Text
  import opened Profiles

  /** What the form's widgets show; field for field the values `save_profile` reads. */
  datatype Form = Form(
    name: string,
    qemuPath: string,
    arch: string,
    iso: string,
    disk: string,
    ram: int,
    cpus: int,
    boot: string,
    extra: string,
    ovmfEnabled: bool,
    ovmfPath: string,
    networkMode: string,
    networkOptions: string)

  const ArchItems: seq<string> := ["x86_64", "i386", "aarch64", "arm", "ppc", "mips", "riscv64"]
  const BootItems: seq<string> := ["ISO (cdrom)", "Disk image"]
  const NetworkItems: seq<string> := ["user (NAT)", "bridged (TAP)", "custom"]
  const NatItem := "user (NAT)"

  const RamMin := 128
  const RamMax := 131072
  const CpusMin := 1
  const CpusMax := 64

  /** The range a spin box forces its value into. */
  function Clamp(v: int, lo: int, hi: int): (r: int)
    requires lo <= hi
    ensures lo <= r <= hi
    ensures lo <= v <= hi ==> r == v
    ensures v < lo ==> r == lo
    ensures hi < v ==> r == hi
  {
    if v < lo then lo else if hi < v then hi else v
  }

  /** A non-editable combo box's `setCurrentText`: the text when it is an item, the old selection otherwise. */
  function Choose(items: seq<string>, current: string, text: string): (r: string)
    ensures current in items ==> r in items
    ensures text in items ==> r == text
    ensures text !in items ==> r == current
  {
    if text in items then text else current
  }

  /** Every value is one the widget can hold: combo boxes on an item, spin boxes in range. */
  predicate FormValid(f: Form) {
    && f.arch in ArchItems
    && f.boot in BootItems
    && f.networkMode in NetworkItems
    && RamMin <= f.ram <= RamMax
    && CpusMin <= f.cpus <= CpusMax
  }

  /**
   * The form as the window constructs it. The memory spin box gets 2048
   * while its range is still the default 0 to 99, so it holds 99 and then
   * the lower bound 128 once the range is set; combo boxes start on their
   * first item.
   */
  function InitialForm(): (f: Form)
    ensures FormValid(f)
    ensures f.ram == RamMin && f.cpus == 2
  {
    var ram := Clamp(Clamp(2048, 0, 99), RamMin, RamMax);
    var cpus := Clamp(Clamp(2, 0, 99), CpusMin, CpusMax);
    Form("Default VM", "", ArchItems[0], "", "", ram, cpus, BootItems[0], "", false, "", NetworkItems[0], "")
  }

  /** `load_profile_to_form` as written: a mode without "bridged" is shown as NAT. */
  function LoadToFormAsWritten(f: Form, p: Profile): Form {
    var mode := if Contains(p.networkMode, "bridged") then p.networkMode else NatItem;
    LoadWithMode(f, p, mode)
  }

  /** `load_profile_to_form` as intended: a mode that is one of the items is shown as it is. */
  function LoadToForm(f: Form, p: Profile): Form {
    var mode := if p.networkMode in NetworkItems then p.networkMode else NatItem;
    LoadWithMode(f, p, mode)
  }

  /** Every widget set from the profile; the network combo from `mode`. */
  function LoadWithMode(f: Form, p: Profile, mode: string): Form {
    Form(
      p.name, p.qemuPath, Choose(ArchItems, f.arch, p.arch), p.iso, p.disk,
      Clamp(p.ram, RamMin, RamMax), Clamp(p.cpus, CpusMin, CpusMax),
      Choose(BootItems, f.boot, p.boot), p.extra, p.ovmfEnabled, p.ovmfPath,
      Choose(NetworkItems, f.networkMode, mode), p.networkOptions)
  }

  /** `save_profile`'s field copy: the thirteen form values replace the profile's, the rest stays. */
  function SaveFormInto(p: Profile, f: Form): (q: Profile)
    ensures q.usbDevices == p.usbDevices && q.snapshots == p.snapshots
    ensures q.secondaryIsos == p.secondaryIsos && q.isoLibraryDir == p.isoLibraryDir
  {
    p.(name := f.name, qemuPath := f.qemuPath, arch := f.arch, iso := f.iso, disk := f.disk,
       ram := f.ram, cpus := f.cpus, boot := f.boot, extra := f.extra, ovmfEnabled := f.ovmfEnabled,
       ovmfPath := f.ovmfPath, networkMode := f.networkMode, networkOptions := f.networkOptions)
  }

  /** A profile every one of whose values the form can show. */
  predicate Representable(p: Profile) {
    && p.arch in ArchItems
    && p.boot in BootItems
    && p.networkMode in NetworkItems
    && RamMin <= p.ram <= RamMax
    && CpusMin <= p.cpus <= CpusMax
  }

  /** Loading keeps the form valid, and which values it takes from the profile. */
  lemma LoadToFormValid(f: Form, p: Profile)
    requires FormValid(f)
    ensures var g := LoadToForm(f, p);
      && FormValid(g)
      && g.name == p.name && g.qemuPath == p.qemuPath && g.iso == p.iso && g.disk == p.disk
      && g.extra == p.extra && g.ovmfEnabled == p.ovmfEnabled && g.ovmfPath == p.ovmfPath
      && g.networkOptions == p.networkOptions
      && (p.arch in ArchItems ==> g.arch == p.arch) && (p.arch !in ArchItems ==> g.arch == f.arch)
      && (p.boot in BootItems ==> g.boot == p.boot) && (p.boot !in BootItems ==> g.boot == f.boot)
      && (p.networkMode in NetworkItems ==> g.networkMode == p.networkMode)
      && (p.networkMode !in NetworkItems ==> g.networkMode == NatItem)
  {
    assert NatItem in NetworkItems;
  }

  /**
   * The code as written also keeps the form valid and differs from the
   * corrected load in the network combo only, which shows the profile's mode
   * when that names "bridged" and is an item, keeps its selection when it
   * names "bridged" and is no item, and shows NAT otherwise.
   */
  lemma LoadToFormAsWrittenValid(f: Form, p: Profile)
    requires FormValid(f)
    ensures var g := LoadToFormAsWritten(f, p);
      && FormValid(g)
      && g == LoadToForm(f, p).(networkMode := g.networkMode)
      && (Contains(p.networkMode, "bridged") && p.networkMode in NetworkItems ==> g.networkMode == p.networkMode)
      && (Contains(p.networkMode, "bridged") && p.networkMode !in NetworkItems ==> g.networkMode == f.networkMode)
      && (!Contains(p.networkMode, "bridged") ==> g.networkMode == NatItem)
  {
    assert NatItem in NetworkItems;
  }

  /** Saving a valid form and loading the profile back shows the same form, whatever it showed before. */
  lemma SaveThenLoad(p: Profile, f: Form, before: Form)
    requires FormValid(f)
    ensures LoadToForm(before, SaveFormInto(p, f)) == f
  {
  }

  /** Loading a representable profile and saving the form over it gives the profile back. */
  lemma LoadThenSave(p: Profile, f: Form)
    requires Representable(p)
    ensures SaveFormInto(p, LoadToForm(f, p)) == p
  {
  }

  /** As written the custom mode does not survive: after a save the form shows NAT. */
  lemma CustomModeLostAsWritten(p: Profile, f: Form, before: Form)
    requires FormValid(f) && f.networkMode == "custom"
    ensures LoadToFormAsWritten(before, SaveFormInto(p, f)).networkMode == NatItem
  {
  }

  /**
   * What the code as written shows after a save: the same form, except that
   * a custom network mode has become NAT.
   */
  lemma SaveThenLoadAsWritten(p: Profile, f: Form, before: Form)
    requires FormValid(f)
    ensures LoadToFormAsWritten(before, SaveFormInto(p, f)) ==
      if f.networkMode == "custom" then f.(networkMode := NatItem) else f
  {
    var q := SaveFormInto(p, f);
    if f.networkMode != "custom" {
      LoadAsWrittenAgrees(before, q);
      SaveThenLoad(p, f, before);
    }
  }

  /** The two loads agree on every mode but the custom one and unlisted ones naming "bridged". */
  lemma LoadAsWrittenAgrees(f: Form, p: Profile)
    requires p.networkMode != "custom"
    requires p.networkMode in NetworkItems || !Contains(p.networkMode, "bridged")
    ensures LoadToFormAsWritten(f, p) == LoadToForm(f, p)
  {
    var natMode, tap := NatItem, "bridged (TAP)";
    if p.networkMode == natMode {
      forall i: nat ensures !OccursAt("bridged", natMode, i) {
        assert i + 7 <= |natMode| ==> natMode[i..i + 7][0] == natMode[i] != 'b';
      }
    } else if p.networkMode == tap {
      assert OccursAt("bridged", tap, 0);
    }
  }
}
