/**
 * The main window's state (`UltimateQemuFrontend`): the profile list, the
 * selected row of the profile list widget, the form, the ISO library list,
 * the configuration file and the VMs launched. Each method is one handler
 * of the window, with the widget signals it triggers.
 */
module Frontend {
  import opened Wrappers
  import opened Host
  import opened Profiles
  import opened Commands
  import opened Disks
  import opened Forms

  /** `del s[i]`. */
  function RemoveAt<T>(s: seq<T>, i: nat): seq<T>
    requires i < |s|
  {
    s[..i] + s[i + 1..]
  }

  /** Removing element `i` keeps the others, in their order, and drops only that one. */
  lemma RemoveAtSpec<T>(s: seq<T>, i: nat)
    requires i < |s|
    ensures var r := RemoveAt(s, i);
      && |r| == |s| - 1
      && (forall k :: 0 <= k < i ==> r[k] == s[k])
      && (forall k :: i <= k < |r| ==> r[k] == s[k + 1])
      && multiset(r) + multiset{s[i]} == multiset(s)
  {
    assert s == s[..i] + [s[i]] + s[i + 1..];
  }

  function Max(a: int, b: int): int {
    if a < b then b else a
  }

  class QemuFrontend {
    /** The profiles, in list order. */
    var profiles: seq<Profile>
    /** `profile_list.currentRow()`: -1 when no row is selected. */
    var row: int
    /** What the form's widgets show. */
    var form: Form
    /** The entries of the ISO library list. */
    var isoLibrary: seq<string>
    /** The configuration file's contents; None while it does not exist. */
    var stored: Option<seq<Dict>>
    /** The argument vectors of the VMs launched and not yet stopped. */
    var running: seq<seq<string>>

    /** There is always a profile, the selection is a row or none, and the form holds widget values. */
    predicate Valid()
      reads this
    {
      |profiles| > 0 && -1 <= row < |profiles| && FormValid(form)
    }

    /** `current_profile`'s index: the selected row, or the first profile when none is selected. */
    function CurrentIndex(): (i: nat)
      reads this
      requires |profiles| > 0
      ensures i < |profiles|
      ensures 0 <= row < |profiles| ==> i == row
      ensures !(0 <= row < |profiles|) ==> i == 0
    {
      if row < 0 || row >= |profiles| then 0 else row
    }

    /**
     * The window starting up: the profiles read from the configuration file
     * (a default one when it holds none), no row selected, the first profile
     * shown in the form.
     */
    constructor(file: Option<seq<Dict>>, fs: FileSystem)
      ensures Valid()
      ensures var loaded := LoadProfiles(file);
        profiles == if loaded == [] then [Default(DefaultName)] else loaded
      ensures row == -1 && stored == file && running == []
      ensures form == LoadToFormAsWritten(InitialForm(), profiles[0])
      ensures isoLibrary == IsoLibrary(fs, profiles[0].isoLibraryDir)
    {
      var loaded := LoadProfiles(file);
      if loaded == [] {
        loaded := loaded + [Default(DefaultName)];
      }
      profiles := loaded;
      row := -1;
      stored := file;
      running := [];
      LoadToFormAsWrittenValid(InitialForm(), loaded[0]);
      form := LoadToFormAsWritten(InitialForm(), loaded[0]);
      var items := RefreshIsoLibrary(fs, loaded[0].isoLibraryDir);
      isoLibrary := items;
    }

    /**
     * `setCurrentRow(t)` after the list widget was refilled: the row changes
     * from none to `t`, so the form and the ISO library are reloaded from
     * profile `t`.
     */
    method ShowRow(t: int, fs: FileSystem)
      requires Valid() && 0 <= t < |profiles|
      modifies this
      ensures Valid()
      ensures row == t && form == LoadToFormAsWritten(old(form), profiles[t])
      ensures isoLibrary == IsoLibrary(fs, profiles[t].isoLibraryDir)
      ensures profiles == old(profiles) && stored == old(stored) && running == old(running)
    {
      LoadToFormAsWrittenValid(form, profiles[t]);
      row := t;
      form := LoadToFormAsWritten(form, profiles[t]);
      isoLibrary := RefreshIsoLibrary(fs, profiles[t].isoLibraryDir);
    }

    /** `new_profile`: a default profile appended and selected; the file is not written. */
    method NewProfile(fs: FileSystem)
      requires Valid()
      modifies this
      ensures Valid()
      ensures profiles == old(profiles) + [Default(DefaultName)]
      ensures row == |profiles| - 1
      ensures form == LoadToFormAsWritten(old(form), Default(DefaultName))
      ensures isoLibrary == []
      ensures stored == old(stored) && running == old(running)
    {
      profiles := profiles + [Default(DefaultName)];
      row := -1;  // refilling the list widget clears its selection
      ShowRow(|profiles| - 1, fs);
    }

    /**
     * `delete_profile`: without a selection or with a single profile nothing
     * happens; otherwise the selected profile is removed, the previous one
     * (or the first) selected and the list written to the file.
     */
    method DeleteProfile(fs: FileSystem)
      requires Valid()
      modifies this
      ensures Valid()
      ensures old(row) < 0 || |old(profiles)| <= 1 ==>
        profiles == old(profiles) && row == old(row) && form == old(form)
        && isoLibrary == old(isoLibrary) && stored == old(stored)
      ensures !(old(row) < 0 || |old(profiles)| <= 1) ==>
        && profiles == RemoveAt(old(profiles), old(row))
        && |profiles| == |old(profiles)| - 1
        && row == Max(0, old(row) - 1)
        && form == LoadToFormAsWritten(old(form), profiles[row])
        && isoLibrary == IsoLibrary(fs, profiles[row].isoLibraryDir)
        && stored == Some(SaveProfiles(profiles))
      ensures running == old(running)
    {
      if row < 0 || |profiles| <= 1 {
        return;
      }
      var idx := row;
      profiles := RemoveAt(profiles, idx);
      row := -1;  // refilling the list widget clears its selection
      ShowRow(Max(0, idx - 1), fs);
      stored := Some(SaveProfiles(profiles));
    }

    /**
     * `save_profile`: without a selection nothing happens; otherwise the form
     * is copied into the selected profile only, the row reselected and the
     * list written to the file. The reselection reloads the form, which comes
     * back unchanged except that a custom network mode is shown as NAT; the
     * file reads back as the list.
     */
    method SaveProfile(fs: FileSystem)
      requires Valid()
      modifies this
      ensures Valid()
      ensures old(row) < 0 ==>
        profiles == old(profiles) && row == old(row) && form == old(form)
        && isoLibrary == old(isoLibrary) && stored == old(stored)
      ensures 0 <= old(row) ==>
        && profiles == old(profiles)[old(row) := SaveFormInto(old(profiles)[old(row)], old(form))]
        && row == old(row) && form == LoadToFormAsWritten(old(form), profiles[row])
        && form == (if old(form).networkMode == CustomMode then old(form).(networkMode := NatItem) else old(form))
        && isoLibrary == IsoLibrary(fs, profiles[row].isoLibraryDir)
        && stored == Some(SaveProfiles(profiles))
        && LoadProfiles(stored) == profiles
      ensures running == old(running)
    {
      if row < 0 {
        return;
      }
      var idx := row;
      var saved := SaveFormInto(profiles[idx], form);
      SaveThenLoadAsWritten(profiles[idx], form, form);
      profiles := profiles[idx := saved];
      row := -1;  // refilling the list widget clears its selection
      ShowRow(idx, fs);
      stored := Some(SaveProfiles(profiles));
      LoadSaveRoundTrip(profiles);
    }

    /** A click on row `r` of the list (-1 clears it): the form is reloaded only when the row changes. */
    method SelectRow(r: int, fs: FileSystem)
      requires Valid() && -1 <= r < |profiles|
      modifies this
      ensures Valid()
      ensures row == r && profiles == old(profiles) && stored == old(stored) && running == old(running)
      ensures 0 <= r != old(row) ==>
        form == LoadToFormAsWritten(old(form), profiles[r]) && isoLibrary == IsoLibrary(fs, profiles[r].isoLibraryDir)
      ensures r < 0 || r == old(row) ==> form == old(form) && isoLibrary == old(isoLibrary)
    {
      if r != row {
        if 0 <= r {
          ShowRow(r, fs);
        } else {
          row := r;
        }
      }
    }

    /** Typing into the form's widgets (other than the firmware checkbox): only the form changes. */
    method EditForm(f: Form)
      requires Valid() && FormValid(f) && f.ovmfEnabled == form.ovmfEnabled
      modifies this
      ensures Valid()
      ensures form == f
      ensures profiles == old(profiles) && row == old(row) && isoLibrary == old(isoLibrary)
      ensures stored == old(stored) && running == old(running)
    {
      form := f;
    }

    /**
     * `ovmf_toggled`: a change of the firmware checkbox is written straight
     * into the current profile, which is not written to the file.
     */
    method ToggleOvmf(enabled: bool)
      requires Valid()
      modifies this
      ensures Valid()
      ensures form == old(form).(ovmfEnabled := enabled)
      ensures enabled == old(form).ovmfEnabled ==> profiles == old(profiles)
      ensures enabled != old(form).ovmfEnabled ==>
        var i := old(CurrentIndex());
        profiles == old(profiles)[i := old(profiles)[i].(ovmfEnabled := enabled)]
      ensures row == old(row) && isoLibrary == old(isoLibrary) && stored == old(stored) && running == old(running)
    {
      if enabled != form.ovmfEnabled {
        var i := CurrentIndex();
        profiles := profiles[i := profiles[i].(ovmfEnabled := enabled)];
      }
      form := form.(ovmfEnabled := enabled);
    }

    /**
     * `choose_iso_library_dir`: a chosen folder (empty when cancelled) becomes
     * the current profile's library folder and the library list is refilled.
     */
    method ChooseIsoLibraryDir(dirname: string, fs: FileSystem)
      requires Valid()
      modifies this
      ensures Valid()
      ensures dirname == "" ==> profiles == old(profiles) && isoLibrary == old(isoLibrary)
      ensures dirname != "" ==>
        var i := old(CurrentIndex());
        profiles == old(profiles)[i := old(profiles)[i].(isoLibraryDir := dirname)]
        && isoLibrary == IsoLibrary(fs, dirname)
      ensures row == old(row) && form == old(form) && stored == old(stored) && running == old(running)
    {
      if dirname != "" {
        var i := CurrentIndex();
        profiles := profiles[i := profiles[i].(isoLibraryDir := dirname)];
        isoLibrary := RefreshIsoLibrary(fs, dirname);
      }
    }

    /**
     * `start_vm`: the vector built from the current profile (not the form);
     * when there is one and the launch succeeds it joins the running VMs.
     */
    method StartVm(fs: FileSystem, usbAvailable: bool, boxes: seq<UsbCheckbox>, launches: bool)
      returns (cmd: Option<seq<string>>)
      requires Valid()
      modifies this
      ensures Valid()
      ensures var p := profiles[CurrentIndex()];
        cmd == Command(p, Exists(fs, p.qemuPath), usbAvailable, boxes)
      ensures running == if cmd.Some? && launches then old(running) + [cmd.value] else old(running)
      ensures profiles == old(profiles) && row == old(row) && form == old(form)
      ensures isoLibrary == old(isoLibrary) && stored == old(stored)
    {
      var p := profiles[CurrentIndex()];
      cmd := BuildCommand(p, Exists(fs, p.qemuPath), usbAvailable, boxes);
      if cmd.Some? && launches {
        running := running + [cmd.value];
      }
    }

    /** `stop_all_vms`: every tracked VM is told to stop and the list is cleared. */
    method StopAllVms()
      requires Valid()
      modifies this
      ensures Valid()
      ensures running == []
      ensures profiles == old(profiles) && row == old(row) && form == old(form)
      ensures isoLibrary == old(isoLibrary) && stored == old(stored)
    {
      running := [];
    }

    /**
     * `create_disk`, with `qemu-img` derived from the executable named in the
     * form; a created image becomes the form's disk.
     */
    method CreateDisk(fname: string, size: Option<int>, fs: FileSystem, succeeds: bool)
      returns (outcome: DiskOutcome)
      requires Valid()
      requires size.Some? ==> 1 <= size.value <= 2048
      modifies this
      ensures Valid()
      ensures outcome == Disks.CreateDisk(old(form).qemuPath, fname, size, fs, succeeds)
      ensures form == if outcome.Created? then old(form).(disk := fname) else old(form)
      ensures profiles == old(profiles) && row == old(row) && isoLibrary == old(isoLibrary)
      ensures stored == old(stored) && running == old(running)
    {
      outcome := Disks.CreateDisk(form.qemuPath, fname, size, fs, succeeds);
      if outcome.Created? {
        form := form.(disk := fname);
      }
    }
  }

  /** The handlers keep at least one profile: deleting stops at one. */
  lemma DeleteNeverEmpties(profiles: seq<Profile>, row: int)
    requires 0 <= row < |profiles| && |profiles| > 1
    ensures |RemoveAt(profiles, row)| >= 1
    ensures 0 <= Max(0, row - 1) < |RemoveAt(profiles, row)|
  {
  }
}
