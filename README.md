# Ultimate QEMU Frontend — a verified model of its core

The Ultimate QEMU Frontend is a single-window desktop program. It keeps a
list of VM profiles in a JSON configuration file, shows the selected
profile in a form, and turns a profile into the argument vector it hands
to `qemu-system-*`. It also creates disk images with `qemu-img` and lists
the ISO images of a library folder.

This project models the program's core in Dafny and proves what that core
promises:

- `wrappers.dfy` holds `Option`.
- `text.dfy` holds the string operations the core relies on:
  - Python's `str.split()` on whitespace;
  - `str(int)` and decimal parsing;
  - `endswith`, ASCII `lower` and `str.replace`.
- `profiles.dfy` holds the `QemuProfile` record and its constructor defaults.
  - `to_dict`/`from_dict` work over a dictionary of JSON-like values.
  - The profile list is read from and written to the configuration file, which is modelled as an optional list of dictionaries.
- `commands.dfy` builds the `start_vm` vector in two forms.
  - `Command` is a specification function.
  - The imperative `BuildCommand` appends section by section and has a loop over the USB checkboxes. It is proved equal to `Command`.
  - Lemmas state the vector's layout: header, media order by boot device, firmware, extra options, USB pairs and network suffix.
- `host.dfy` is the part of the file system the core looks at: which paths exist, and what a directory lists.
- `disks.dfy` is "Create Disk": the image format, the `qemu-img` path and its argument vector, and the outcome of the dialog sequence. It also holds the ISO library filter, with a loop method proved against its specification.
- `forms.dfy` is the form's widget values. It covers:
  - how `load_profile_to_form` fills them, given the spin box ranges and the combo box items;
  - how `save_profile` copies them back.
- `frontend.dfy` is the main window as a class. Its fields are the profile list, the selected row, the form, the ISO list, the stored file and the running VMs. Each handler is a method stating the whole new state.

Two places where the code does not do what it evidently means are logged
under "Findings": the derivation of the `qemu-img` path and the network
mode shown when a profile is loaded. The window and "Create Disk" use both
exactly as written, and what follows from them is proved: "Create Disk"
misses an installed `qemu-img`, and a save turns a custom mode into NAT on
the form. Beside each, a corrected definition (`Disks.QemuImgPath`,
`Forms.LoadToForm`) is stated with the property the code evidently
intends; rows marked "corrected" below are about those definitions.

## Model

| member | source | states |
|---|---|---|
| Text.Split | ultimate_qemu_frontendc.py:523 | Python's `str.split()`: the whitespace-separated words; its properties are the lemmas below |
| Text.SplitTokens | ultimate_qemu_frontendc.py:523 | every piece `split()` returns is a non-empty run without whitespace |
| Text.SplitKeepsCharacters | ultimate_qemu_frontendc.py:523 | the pieces, concatenated, are the input with its whitespace removed: nothing is lost or reordered |
| Text.SplitJoin | ultimate_qemu_frontendc.py:523 | joining tokens with single spaces and splitting gives the tokens back |
| Text.SplitExample | ultimate_qemu_frontendc.py:523 | `"-foo bar"` splits into `-foo` and `bar` |
| Text.IntToString | ultimate_qemu_frontendc.py:508-509 | `str(i)`: a `-` before the digits of a negative value; round trip and injectivity below |
| Text.NatToString | ultimate_qemu_frontendc.py:508-509 | `str(n)` is a non-empty digit string with no leading zero except for 0 itself |
| Text.NatToStringValue | ultimate_qemu_frontendc.py:508-509 | the decimal digits of `str(n)` denote `n` |
| Text.IntToStringRoundTrip | ultimate_qemu_frontendc.py:508-509 | parsing `str(i)` gives `i` back, negative values included |
| Text.IntToStringInjective | ultimate_qemu_frontendc.py:508-509 | different integers give different strings |
| Text.Lower | ultimate_qemu_frontendc.py:392 | a lower-cased name has the same length and each character lower-cased |
| Text.Replace | ultimate_qemu_frontendc.py:368 | `str.replace`: occurrences replaced left to right without overlap; characterised by the two lemmas below |
| Text.ReplaceAbsent | ultimate_qemu_frontendc.py:368 | `replace` leaves a string without the pattern unchanged |
| Text.ReplaceFirst | ultimate_qemu_frontendc.py:368 | `replace` rewrites the first occurrence and goes on after it |
| Profiles.Default | ultimate_qemu_frontendc.py:66-83 | each of the seventeen attributes has the constructor's default |
| Profiles.ToDict | ultimate_qemu_frontendc.py:84-85 | the dictionary's keys are exactly the seventeen attribute names |
| Profiles.ToDictWellTyped | ultimate_qemu_frontendc.py:84-85 | every stored value has its attribute's kind: integer, boolean, list or string |
| Profiles.FromDict | ultimate_qemu_frontendc.py:86-98 | `from_dict`: a default profile with the dictionary's values laid over it; characterised by the lemmas below |
| Profiles.FromDictToDict | ultimate_qemu_frontendc.py:84-98 | decoding a profile's own dictionary gives the profile back |
| Profiles.FromDictAttribute | ultimate_qemu_frontendc.py:86-98 | each decoded attribute is the dictionary's value when it has one, the default otherwise |
| Profiles.FromDictIsUpdate | ultimate_qemu_frontendc.py:86-98 | a decoded profile is the default profile's dictionary updated with the known keys of the input |
| Profiles.FromDictMissingFields | ultimate_qemu_frontendc.py:90-97 | the four late attributes default to empty when absent; an empty record decodes to the default profile |
| Profiles.LoadProfiles | ultimate_qemu_frontendc.py:472-476 | an absent file gives no profiles; otherwise one profile per record, in order, each decoded |
| Profiles.SaveProfiles | ultimate_qemu_frontendc.py:478-480 | one record per profile, in order, each the profile's dictionary |
| Profiles.LoadSaveRoundTrip | ultimate_qemu_frontendc.py:472-480 | reading back the written file gives the same profile list |
| Commands.HeaderArgs | ultimate_qemu_frontendc.py:507-509 | the executable, `-m` with the RAM and `-smp` with the CPU count; see Commands.CommandHeader |
| Commands.MediaArgs | ultimate_qemu_frontendc.py:510-519 | the `-cdrom` and `-drive` pairs of the present media, the boot medium's first; see Commands.MediaCases |
| Commands.FirmwareArgs | ultimate_qemu_frontendc.py:520-521 | the pflash drive when the firmware is enabled and has a path; see Commands.CommandFirmware |
| Commands.ExtraArgs | ultimate_qemu_frontendc.py:522-523 | the extra options split on whitespace; see Commands.ExtraArgsVerbatim |
| Commands.UsbArgs | ultimate_qemu_frontendc.py:525-528 | a `-device` pair per checked box; see Commands.UsbArgsPairs |
| Commands.NetworkArgs | ultimate_qemu_frontendc.py:530-535 | the options of the network mode; see Commands.NetworkModes |
| Commands.DiskTokenShape | ultimate_qemu_frontendc.py:514 | the disk token holds the image path verbatim between `file=` and `,format=qcow2` |
| Commands.MediaCases | ultimate_qemu_frontendc.py:510-519 | each present medium adds its pair; with both present the boot medium's pair is first; with neither there is nothing |
| Commands.CheckedLabels | ultimate_qemu_frontendc.py:526-527 | at most one label per checkbox |
| Commands.CheckedLabelsAppend | ultimate_qemu_frontendc.py:526-527 | the labels of two lists of boxes are the first list's followed by the second's, so list order is kept |
| Commands.CheckedLabelsOfOne | ultimate_qemu_frontendc.py:526-527 | a single box contributes its text exactly when checked |
| Commands.CheckedLabelsMembers | ultimate_qemu_frontendc.py:526-527 | a label is listed exactly when some checked box carries that text |
| Commands.Command | ultimate_qemu_frontendc.py:501-535 | no vector exactly when the executable is empty or missing; otherwise it starts with the executable and has at least the five header tokens |
| Commands.AppendUsbDevices | ultimate_qemu_frontendc.py:525-528 | the loop appends exactly the USB options of the checked boxes |
| Commands.AppendMedia | ultimate_qemu_frontendc.py:510-519 | the branches append exactly the media options |
| Commands.AppendNetwork | ultimate_qemu_frontendc.py:530-535 | the mode chain appends exactly the network options |
| Commands.BuildCommand | ultimate_qemu_frontendc.py:501-535 | the step-by-step construction yields the specified vector, or none when the executable is unusable |
| Commands.CommandHeader | ultimate_qemu_frontendc.py:507-509 | the executable comes first; then `-m` with a token that parses back to the RAM, then `-smp` with one that parses back to the CPU count |
| Commands.CommandMediaOrder | ultimate_qemu_frontendc.py:510-519 | with an ISO and a disk, tokens 5-8 are the `-cdrom` pair then the `-drive` pair when booting from the ISO, the reverse otherwise |
| Commands.OtherBootValuesAgree | ultimate_qemu_frontendc.py:515-519 | any two boot values other than the ISO one give the same vector |
| Commands.CommandFirmware | ultimate_qemu_frontendc.py:520-521 | with the firmware enabled and a path, the pflash `-drive` pair follows the header and media options |
| Commands.FirmwareNeedsPath | ultimate_qemu_frontendc.py:520-521 | enabling the firmware without a path changes nothing in the vector |
| Commands.ExtraArgsVerbatim | ultimate_qemu_frontendc.py:522-523 | the extra options become whitespace-free tokens whose concatenation is the text without its whitespace |
| Commands.ExtraArgsExample | ultimate_qemu_frontendc.py:522-523 | `-foo bar` contributes the two tokens `-foo` and `bar` |
| Commands.UsbUnavailable | ultimate_qemu_frontendc.py:525-528 | without the USB library the checkboxes do not affect the vector |
| Commands.UncheckedBoxesIgnored | ultimate_qemu_frontendc.py:525-528 | unchecked boxes contribute nothing |
| Commands.UsbArgsPairs | ultimate_qemu_frontendc.py:525-528 | the USB options are a `-device usb-host,hostdevice=<label>` pair per checked box, in list order |
| Commands.CommandEndsWithNetwork | ultimate_qemu_frontendc.py:529-535 | the network options are the last tokens of the vector |
| Commands.NetworkModes | ultimate_qemu_frontendc.py:530-535 | NAT and TAP give their fixed NIC pairs; custom gives its split options; any other mode string gives nothing |
| Commands.DefaultProfileHasNoNetwork | ultimate_qemu_frontendc.py:530-535 | a fresh profile's mode `user` matches no branch, so it adds no network options |
| Commands.NatIsoScenario | ultimate_qemu_frontendc.py:501-535 | an ISO-boot NAT profile with 4096 MB, 4 CPUs, an ISO and a disk gives its thirteen tokens in order |
| Disks.DiskFormat | ultimate_qemu_frontendc.py:372 | the format is `qcow2` exactly when the name ends in `.qcow2`, `raw` otherwise |
| Disks.DiskFormatExamples | ultimate_qemu_frontendc.py:372 | the suffix test is case-sensitive, so `.QCOW2` and `.img` give raw |
| Disks.CreateDiskArgs | ultimate_qemu_frontendc.py:373 | the `qemu-img create` vector; see Disks.CreateDiskArgsShape |
| Disks.CreateDiskArgsShape | ultimate_qemu_frontendc.py:373 | six tokens: tool, `create -f`, the suffix's format, the file, and the size in gigabytes that parses back |
| Disks.QemuImgPathAsWritten | ultimate_qemu_frontendc.py:368 | the path as the code derives it, every `qemu-system-` replaced by `qemu-img`; see the lemmas below |
| Disks.QemuImgPathKeepsArch | ultimate_qemu_frontendc.py:368 | as written, for a folder without `-` and a suffix without `q`, the replace turns `<dir>qemu-system-<rest>` into `<dir>qemu-img<rest>` and keeps the architecture |
| Disks.QemuImgPathAsWrittenExample | ultimate_qemu_frontendc.py:368 | as written, `<dir>qemu-system-x86_64.exe` gives `<dir>qemu-imgx86_64.exe` |
| Disks.QemuImgPathAsWrittenDiffers | ultimate_qemu_frontendc.py:368 | for every `qemu-system-<arch>.exe` in a folder without `-` the written path differs from the intended one |
| Disks.QemuImgPath | ultimate_qemu_frontendc.py:368 | corrected: the file `qemu-img` in the emulator's folder, with the emulator's extension; see the lemmas below |
| Disks.DirLengthSpec | ultimate_qemu_frontendc.py:368 | corrected: a path splits at its last separator into a directory and a base name without separators |
| Disks.ExtStartSpec | ultimate_qemu_frontendc.py:368 | corrected: a base name's extension starts at its last dot; a name without a dot has none |
| Disks.QemuImgPathSibling | ultimate_qemu_frontendc.py:368 | corrected: the intended `qemu-img` path lies in the emulator's directory and is named `qemu-img` plus the emulator's extension |
| Disks.QemuImgPathExtension | ultimate_qemu_frontendc.py:368 | corrected: the intended path keeps the emulator's extension |
| Disks.QemuImgPathIdempotent | ultimate_qemu_frontendc.py:368 | corrected: deriving the path from a derived path changes nothing |
| Disks.QemuImgPathExample | ultimate_qemu_frontendc.py:368 | corrected: every `<dir>qemu-system-<arch>.exe` gives `<dir>qemu-img.exe` |
| Disks.CreateDisk | ultimate_qemu_frontendc.py:362-379 | cancelled exactly when either dialog is cancelled; not-found names the path derived as written and that path is missing; otherwise the tool at that path runs with the six-token vector; created exactly when it exists and succeeds |
| Disks.CreateDiskMissesInstalledImg | ultimate_qemu_frontendc.py:368-371 | with only `qemu-img.exe` next to `qemu-system-<arch>.exe`, "Create Disk" reports the tool not found |
| Disks.IsIsoName | ultimate_qemu_frontendc.py:392 | the lower-cased name ends in `.iso`; see Disks.IsIsoNameExamples |
| Disks.IsIsoNameExamples | ultimate_qemu_frontendc.py:392 | the suffix test ignores case: `.ISO` is listed, `iso` and `.txt` are not |
| Disks.IsoFiles | ultimate_qemu_frontendc.py:391-393 | the filter never lengthens the listing |
| Disks.IsoFilesMembers | ultimate_qemu_frontendc.py:391-393 | a name is listed exactly when the directory holds it and it ends in `.iso` in any case |
| Disks.IsoFilesAppend | ultimate_qemu_frontendc.py:391-393 | the filter keeps directory order |
| Disks.IsoLibrary | ultimate_qemu_frontendc.py:387-393 | the ISO names of the folder's listing when it is a non-empty existing folder, none otherwise |
| Disks.RefreshIsoLibrary | ultimate_qemu_frontendc.py:387-393 | the loop lists the ISO names of an existing folder, in listing order, and nothing for an empty or missing folder |
| Forms.Clamp | ultimate_qemu_frontendc.py:142-145 | a spin box holds its value when in range, else the nearer bound |
| Forms.Choose | ultimate_qemu_frontendc.py:422-431 | a non-editable combo box takes a text that is an item; otherwise it keeps its selection |
| Forms.InitialForm | ultimate_qemu_frontendc.py:126-160 | the constructed form holds widget values, with RAM at 128 (2048 set before the range) and 2 CPUs |
| Forms.SaveFormInto | ultimate_qemu_frontendc.py:440-452 | a save leaves the USB devices, snapshots, secondary ISOs and library folder as they were |
| Forms.LoadWithMode | ultimate_qemu_frontendc.py:420-432 | the twelve widget settings of a load, with the network combo set to a given text |
| Forms.LoadToFormAsWritten | ultimate_qemu_frontendc.py:416-432 | `load_profile_to_form` as written, with the ternary of line 431; see Forms.LoadToFormAsWrittenValid |
| Forms.LoadToForm | ultimate_qemu_frontendc.py:416-432 | corrected: a mode that is a combo item is shown as it is; see Forms.LoadToFormValid |
| Forms.LoadToFormValid | ultimate_qemu_frontendc.py:416-432 | corrected: loading keeps the form valid; text fields are copied; combo fields are copied when they are items, else kept (network: NAT) |
| Forms.LoadToFormAsWrittenValid | ultimate_qemu_frontendc.py:416-432 | the code as written keeps the form valid; it differs from the corrected load only in the network combo, which shows NAT for every mode not naming "bridged" |
| Forms.SaveThenLoad | ultimate_qemu_frontendc.py:420-452 | corrected: saving a valid form and loading the profile back shows the same form, whatever it showed before |
| Forms.LoadThenSave | ultimate_qemu_frontendc.py:420-452 | corrected: loading a profile the form can show, then saving, gives the profile back |
| Forms.CustomModeLostAsWritten | ultimate_qemu_frontendc.py:431 | as written, a saved custom mode is shown as NAT after reload |
| Forms.SaveThenLoadAsWritten | ultimate_qemu_frontendc.py:420-452 | as written, saving a valid form and loading it back shows the same form except that a custom mode becomes NAT |
| Forms.LoadAsWrittenAgrees | ultimate_qemu_frontendc.py:431 | the written and corrected loads agree on every mode but custom and unlisted modes naming "bridged" |
| Frontend.RemoveAt | ultimate_qemu_frontendc.py:467 | `del profiles[idx]`; see Frontend.RemoveAtSpec |
| Frontend.RemoveAtSpec | ultimate_qemu_frontendc.py:467 | deleting one profile keeps the others in order; the multiset loses only that one |
| Frontend.DeleteNeverEmpties | ultimate_qemu_frontendc.py:465-469 | a delete leaves a profile, and the row selected afterwards exists |
| Frontend.QemuFrontend.CurrentIndex | ultimate_qemu_frontendc.py:405-409 | the current profile is the selected row when that is a row, the first profile otherwise |
| Frontend.QemuFrontend.constructor | ultimate_qemu_frontendc.py:271-276 | the loaded profiles, or one default profile when there are none; no row selected; the first profile in the form as `load_profile_to_form` shows it, so a custom mode appears as NAT |
| Frontend.QemuFrontend.ShowRow | ultimate_qemu_frontendc.py:416-433 | selecting a row reloads the form (as written) and the ISO list from that profile and changes nothing else |
| Frontend.QemuFrontend.NewProfile | ultimate_qemu_frontendc.py:457-461 | a default profile is appended and selected and the form shows it; the file is not written |
| Frontend.QemuFrontend.DeleteProfile | ultimate_qemu_frontendc.py:463-470 | without a selection or with one profile nothing changes; otherwise the selected profile is removed, the previous one selected and the file written |
| Frontend.QemuFrontend.SaveProfile | ultimate_qemu_frontendc.py:435-455 | the form goes into the selected profile only; the reselection reloads the form, which is unchanged except that a custom mode is now shown as NAT; the written file reads back as the list |
| Frontend.QemuFrontend.SelectRow | ultimate_qemu_frontendc.py:271 | the form is reloaded only when the selection moves to a different row |
| Frontend.QemuFrontend.EditForm | ultimate_qemu_frontendc.py:440-452 | editing widgets changes only the form the next save reads |
| Frontend.QemuFrontend.ToggleOvmf | ultimate_qemu_frontendc.py:400-404 | a checkbox change is written into the current profile, not the file |
| Frontend.QemuFrontend.ChooseIsoLibraryDir | ultimate_qemu_frontendc.py:381-385 | a chosen folder becomes the current profile's library and refills the list; cancelling changes nothing |
| Frontend.QemuFrontend.StartVm | ultimate_qemu_frontendc.py:501-541 | the vector comes from the current profile, not the form; a launched vector joins the running VMs and nothing else changes |
| Frontend.QemuFrontend.StopAllVms | ultimate_qemu_frontendc.py:543-550 | the running list is emptied and nothing else changes |
| Frontend.QemuFrontend.CreateDisk | ultimate_qemu_frontendc.py:362-379 | the outcome is that of "Create Disk" for the executable shown in the form, with the `qemu-img` path derived as written; only a created image changes the form's disk |

## Left out

- The Qt widgets, layouts, tooltips and message boxes are not modelled. The dialogs are inputs: a chosen file name or folder (empty when cancelled) and a size (None when cancelled).
- JSON parsing and file I/O are not modelled. The configuration file is an optional list of dictionaries, and a failed write is not modelled.
- Starting `qemu` with `Popen`, and `terminate`, are not modelled. Whether the launch succeeds is an input; `stop_all_vms` only clears the list. The output log text is not modelled.
- `qemu-img` is not run. Whether `check_call` succeeds is an input.
- USB enumeration through pyusb (`refresh_usb_list`) and the checkbox label format are not modelled. The checkboxes, their labels and whether pyusb is present are inputs.
- `download_iso_dialog` and `download_iso` are not modelled. They fetch the image over HTTP on a background thread, write it to a file and set the ISO field from that thread; the network, the file write and the concurrency are all outside the model.
- The `browse_*` handlers, the about dialog and the unimplemented stubs are not modelled: each only shows a dialog, sets a text field or does nothing.
- `select_iso_from_library` is not modelled: it is `os.path.join` into a text field.
- Profiles.FromDict: a known key whose stored value has the wrong kind keeps the default, where Python would store the value as it is. Unknown keys are dropped, where Python keeps them in the object.
- Text.Lower: lower-cases ASCII letters only; Python's `str.lower` also folds other Unicode letters.
- Forms.LoadWithMode: a text field's length limit (a line edit holds at most 32767 characters) is not modelled.
- Frontend.QemuFrontend.EditForm: requires that the new values be ones the widgets can hold. A typed edit cannot move a combo box off its items or a spin box out of range.
- Integer widths are not an issue: spin box values stay within their ranges.
- Behaviours of the program the model keeps, which a reader might expect otherwise:
  - A profile's defaults are the constructor's values.
  - USB options come from the checked boxes, not from the profile's `usb_devices`.
  - No handler deals with a failure to read or write the configuration file.
  - The default network mode `user` selects no network branch of `start_vm`.
  - At startup no row of the list is selected: the first profile is loaded into the form without `setCurrentRow`.

## Findings

| source | as written | input that shows it | evidently intended | confidence | as-written member | corrected member |
|---|---|---|---|---|---|---|
| ultimate_qemu_frontendc.py:368 | replacing `qemu-system-` by `qemu-img` keeps the architecture suffix | `C:\qemu\qemu-system-x86_64.exe` gives `C:\qemu\qemu-imgx86_64.exe`, a file a standard installation does not have, so "Create Disk" reports qemu-img not found | `C:\qemu\qemu-img.exe`: the tool next to the emulator, with its extension | high; not executed | Disks.CreateDiskMissesInstalledImg | Disks.QemuImgPathSibling |
| ultimate_qemu_frontendc.py:431 | every mode without "bridged" is shown as `user (NAT)` | save a profile with mode `custom`; the reload right after the save shows `user (NAT)`, and the next save stores NAT | a mode that is one of the combo's items is shown as it is | high; not executed | Forms.CustomModeLostAsWritten | Forms.SaveThenLoad |
