/**
 * One VM profile (`QemuProfile`), its dictionary form (`to_dict`,
 * `from_dict`) and the conversion of the whole profile list to and from
 * the list of dictionaries the configuration file holds.
 */
module Profiles {
  import opened Wrappers

  /** A VM configuration record; field for field the attributes of `QemuProfile`. */
  datatype Profile = Profile(
    name: string,
    qemuPath: string,
    arch: string,
    iso: string,
    disk: string,
    ram: int,
    cpus: int,
    boot: string,
    extra: string,
    networkMode: string,
    networkOptions: string,
    usbDevices: seq<string>,
    ovmfEnabled: bool,
    ovmfPath: string,
    snapshots: seq<string>,
    secondaryIsos: seq<string>,
    isoLibraryDir: string)

  /** The name a profile gets when none is given. */
  const DefaultName := "Default VM"

  /** `QemuProfile(name)`: the values the constructor assigns. */
  function Default(name: string): (p: Profile)
    ensures p.name == name && p.qemuPath == "" && p.arch == "x86_64"
    ensures p.iso == "" && p.disk == "" && p.ram == 2048 && p.cpus == 2
    ensures p.boot == "ISO (cdrom)" && p.extra == "" && p.networkMode == "user" && p.networkOptions == ""
    ensures p.usbDevices == [] && !p.ovmfEnabled && p.ovmfPath == ""
    ensures p.snapshots == [] && p.secondaryIsos == [] && p.isoLibraryDir == ""
  {
    Profile(name, "", "x86_64", "", "", 2048, 2, "ISO (cdrom)", "", "user", "", [], false, "", [], [], "")
  }

  /** A value as stored in the configuration file. */
  datatype Value = Str(str: string) | Int(num: int) | Bool(flag: bool) | List(items: seq<string>)

  /** The attribute dictionary of a profile, keyed by attribute name. */
  type Dict = map<string, Value>

  /** The attribute names of `QemuProfile`. */
  const FieldNames: set<string> := {
    "name", "qemu_path", "arch", "iso", "disk", "ram", "cpus", "boot", "extra",
    "network_mode", "network_options", "usb_devices", "ovmf_enabled", "ovmf_path",
    "snapshots", "secondary_isos", "iso_library_dir"
  }

  /** Whether `v` has the kind of value the attribute `key` holds. */
  predicate FitsField(key: string, v: Value) {
    if key == "ram" || key == "cpus" then v.Int?
    else if key == "ovmf_enabled" then v.Bool?
    else if key == "usb_devices" || key == "snapshots" || key == "secondary_isos" then v.List?
    else v.Str?
  }

  /** Every attribute the dictionary gives has a value of the attribute's kind. */
  predicate WellTyped(d: Dict) {
    forall k :: k in d && k in FieldNames ==> FitsField(k, d[k])
  }

  /** The value of the attribute `key` of `p`, as `to_dict` stores it. */
  function Attribute(p: Profile, key: string): Value {
    if key == "name" then Str(p.name)
    else if key == "qemu_path" then Str(p.qemuPath)
    else if key == "arch" then Str(p.arch)
    else if key == "iso" then Str(p.iso)
    else if key == "disk" then Str(p.disk)
    else if key == "ram" then Int(p.ram)
    else if key == "cpus" then Int(p.cpus)
    else if key == "boot" then Str(p.boot)
    else if key == "extra" then Str(p.extra)
    else if key == "network_mode" then Str(p.networkMode)
    else if key == "network_options" then Str(p.networkOptions)
    else if key == "usb_devices" then List(p.usbDevices)
    else if key == "ovmf_enabled" then Bool(p.ovmfEnabled)
    else if key == "ovmf_path" then Str(p.ovmfPath)
    else if key == "snapshots" then List(p.snapshots)
    else if key == "secondary_isos" then List(p.secondaryIsos)
    else Str(p.isoLibraryDir)
  }

  /** `to_dict`: the profile's attributes as a dictionary. */
  function ToDict(p: Profile): (d: Dict)
    ensures d.Keys == FieldNames
  {
    map k | k in FieldNames :: Attribute(p, k)
  }

  /** Every attribute of a profile's dictionary has the attribute's kind. */
  lemma ToDictWellTyped(p: Profile)
    ensures WellTyped(ToDict(p))
  {
    forall k | k in ToDict(p) && k in FieldNames ensures FitsField(k, ToDict(p)[k]) {
    }
  }

  function StrOr(d: Dict, key: string, fallback: string): string {
    if key in d && d[key].Str? then d[key].str else fallback
  }

  function IntOr(d: Dict, key: string, fallback: int): int {
    if key in d && d[key].Int? then d[key].num else fallback
  }

  function BoolOr(d: Dict, key: string, fallback: bool): bool {
    if key in d && d[key].Bool? then d[key].flag else fallback
  }

  function ListOr(d: Dict, key: string, fallback: seq<string>): seq<string> {
    if key in d && d[key].List? then d[key].items else fallback
  }

  /** `from_dict`: a default profile with the attributes `d` gives laid over it. */
  function FromDict(d: Dict): Profile {
    var p := Default(DefaultName);
    Profile(
      StrOr(d, "name", p.name), StrOr(d, "qemu_path", p.qemuPath), StrOr(d, "arch", p.arch),
      StrOr(d, "iso", p.iso), StrOr(d, "disk", p.disk), IntOr(d, "ram", p.ram),
      IntOr(d, "cpus", p.cpus), StrOr(d, "boot", p.boot), StrOr(d, "extra", p.extra),
      StrOr(d, "network_mode", p.networkMode), StrOr(d, "network_options", p.networkOptions),
      ListOr(d, "usb_devices", p.usbDevices), BoolOr(d, "ovmf_enabled", p.ovmfEnabled),
      StrOr(d, "ovmf_path", p.ovmfPath), ListOr(d, "snapshots", p.snapshots),
      ListOr(d, "secondary_isos", p.secondaryIsos), StrOr(d, "iso_library_dir", p.isoLibraryDir))
  }

  /** The attributes of `d` that a profile has. */
  function Known(d: Dict): Dict {
    map k | k in d && k in FieldNames :: d[k]
  }

  /** Decoding a profile's own dictionary gives the profile back, field for field. */
  lemma FromDictToDict(p: Profile)
    ensures FromDict(ToDict(p)) == p
  {
  }

  /** One attribute of a decoded profile: the dictionary's value if it has one, the default otherwise. */
  lemma FromDictAttribute(d: Dict, key: string)
    requires WellTyped(d) && key in FieldNames
    ensures Attribute(FromDict(d), key) == if key in d then d[key] else Attribute(Default(DefaultName), key)
  {
    if key in d {
      assert FitsField(key, d[key]);
    }
    if key == "name" {
    } else if key == "qemu_path" {
    } else if key == "arch" {
    } else if key == "iso" {
    } else if key == "disk" {
    } else if key == "ram" {
    } else if key == "cpus" {
    } else if key == "boot" {
    } else if key == "extra" {
    } else if key == "network_mode" {
    } else if key == "network_options" {
    } else if key == "usb_devices" {
    } else if key == "ovmf_enabled" {
    } else if key == "ovmf_path" {
    } else if key == "snapshots" {
    } else if key == "secondary_isos" {
    } else {
      assert key == "iso_library_dir";
    }
  }

  /**
   * `from_dict` is `__dict__.update(d)` on a default profile: each attribute
   * comes from `d` when `d` has it and is the constructor's value otherwise.
   */
  lemma FromDictIsUpdate(d: Dict)
    requires WellTyped(d)
    ensures ToDict(FromDict(d)) == ToDict(Default(DefaultName)) + Known(d)
  {
    var lhs := ToDict(FromDict(d));
    var rhs := ToDict(Default(DefaultName)) + Known(d);
    assert lhs.Keys == rhs.Keys;
    forall k | k in lhs ensures lhs[k] == rhs[k] {
      FromDictAttribute(d, k);
    }
  }

  /** An attribute missing from the stored record gets the constructor's value. */
  lemma FromDictMissingFields(d: Dict)
    ensures "usb_devices" !in d ==> FromDict(d).usbDevices == []
    ensures "snapshots" !in d ==> FromDict(d).snapshots == []
    ensures "secondary_isos" !in d ==> FromDict(d).secondaryIsos == []
    ensures "iso_library_dir" !in d ==> FromDict(d).isoLibraryDir == ""
    ensures d == map[] ==> FromDict(d) == Default(DefaultName)
  {
  }

  /** The profile list read from the configuration file; an absent file gives no profiles. */
  function LoadProfiles(file: Option<seq<Dict>>): (ps: seq<Profile>)
    ensures file.None? ==> ps == []
    ensures file.Some? ==> |ps| == |file.value|
    ensures file.Some? ==> forall i :: 0 <= i < |ps| ==> ps[i] == FromDict(file.value[i])
  {
    match file
    case None => []
    case Some(ds) => seq(|ds|, i requires 0 <= i < |ds| => FromDict(ds[i]))
  }

  /** The list of dictionaries written to the configuration file. */
  function SaveProfiles(ps: seq<Profile>): (ds: seq<Dict>)
    ensures |ds| == |ps|
    ensures forall i :: 0 <= i < |ps| ==> ds[i] == ToDict(ps[i])
  {
    seq(|ps|, i requires 0 <= i < |ps| => ToDict(ps[i]))
  }

  /** Reading back what was written gives the same list, in the same order. */
  lemma LoadSaveRoundTrip(ps: seq<Profile>)
    ensures LoadProfiles(Some(SaveProfiles(ps))) == ps
  {
    var back := LoadProfiles(Some(SaveProfiles(ps)));
    forall i | 0 <= i < |ps| ensures back[i] == ps[i] {
      FromDictToDict(ps[i]);
    }
  }
}
