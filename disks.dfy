/**
 * "Create Disk" (`create_disk`): the `qemu-img` path derived from the QEMU
 * executable, the image format chosen from the file name and the
 * `qemu-img create` vector; and the ISO library listing
 * (`refresh_iso_library`).
 */
module Disks {
  import opened Wrappers
  import opened Text
  import opened Host

  // ---------------------------------------------------------------------------
  // Image format and the qemu-img vector
  // ---------------------------------------------------------------------------

  /** The image format: qcow2 exactly when the name ends in `.qcow2` (case-sensitive), raw otherwise. */
  function DiskFormat(fname: string): (fmt: string)
    ensures fmt == "qcow2" || fmt == "raw"
    ensures fmt == "qcow2" <==> EndsWith(fname, ".qcow2")
  {
    if EndsWith(fname, ".qcow2") then "qcow2" else "raw"
  }

  /** `qemu-img create -f <fmt> <file> <size>G`. */
  function CreateDiskArgs(qemuImg: string, fname: string, size: int): seq<string> {
    [qemuImg, "create", "-f", DiskFormat(fname), fname, IntToString(size) + "G"]
  }

  /** The vector names the tool, the format matching the suffix, the file, and the size in gigabytes. */
  lemma CreateDiskArgsShape(qemuImg: string, fname: string, size: int)
    ensures var argv := CreateDiskArgs(qemuImg, fname, size);
      && |argv| == 6 && argv[0] == qemuImg && argv[1..3] == ["create", "-f"]
      && (argv[3] == "qcow2" <==> EndsWith(fname, ".qcow2")) && argv[4] == fname
      && EndsWith(argv[5], "G") && ParseInt(argv[5][..|argv[5]| - 1]) == Some(size)
  {
    var argv := CreateDiskArgs(qemuImg, fname, size);
    var digits := IntToString(size);
    assert argv[5] == digits + "G";
    assert argv[5][..|argv[5]| - 1] == digits;
    IntToStringRoundTrip(size);
  }

  /** Upper-case suffixes and other extensions give a raw image. */
  lemma DiskFormatExamples()
    ensures DiskFormat("win.qcow2") == "qcow2"
    ensures DiskFormat("WIN.QCOW2") == "raw"
    ensures DiskFormat("win.img") == "raw"
  {
    assert "win.qcow2"[3..] == ".qcow2";
    assert "WIN.QCOW2"[3..] != ".qcow2" by { assert "WIN.QCOW2"[4] != ".qcow2"[1]; }
  }

  // ---------------------------------------------------------------------------
  // The qemu-img path
  // ---------------------------------------------------------------------------

  const SystemPrefix := "qemu-system-"
  const ImgName := "qemu-img"

  /** The path of `qemu-img` as the code derives it: every `qemu-system-` replaced by `qemu-img`. */
  function QemuImgPathAsWritten(exe: string): string {
    Replace(exe, SystemPrefix, ImgName)
  }

  /**
   * As written, the architecture suffix stays in the name: the emulator
   * `<dir>qemu-system-<arch>` gives `<dir>qemu-img<arch>`, not `<dir>qemu-img`
   * plus its extension.
   */
  lemma QemuImgPathKeepsArch(dir: string, rest: string)
    requires '-' !in dir && 'q' !in rest
    ensures QemuImgPathAsWritten(dir + SystemPrefix + rest) == dir + ImgName + rest
  {
    PrefixNotInDirectory(dir, rest);
    ReplaceFirst(dir, SystemPrefix, rest, ImgName);
    PrefixNotInRest(rest);
    ReplaceAbsent(rest, SystemPrefix, ImgName);
  }

  /** No `qemu-system-` starts inside a directory without a dash. */
  lemma PrefixNotInDirectory(dir: string, rest: string)
    requires '-' !in dir
    ensures forall i: nat :: i < |dir| ==> !OccursAt(SystemPrefix, dir + SystemPrefix + rest, i)
  {
    var s := dir + SystemPrefix + rest;
    forall i: nat | i < |dir| ensures !OccursAt(SystemPrefix, s, i) {
      if i + 4 < |dir| {
        // the dash of the prefix would fall inside the directory
        assert s[i + 4] == dir[i + 4] != '-';
        assert i + |SystemPrefix| <= |s| ==> s[i..i + |SystemPrefix|][4] == s[i + 4];
      } else {
        // the prefix's first letter after the directory would have to match one of "emu-"
        var j := |dir| - i;
        assert s[|dir|] == 'q' != SystemPrefix[j];
        assert i + |SystemPrefix| <= |s| ==> s[i..i + |SystemPrefix|][j] == s[|dir|];
      }
    }
  }

  /** No `qemu-system-` occurs in a string without the letter q. */
  lemma PrefixNotInRest(rest: string)
    requires 'q' !in rest
    ensures Absent(SystemPrefix, rest)
  {
    forall i: nat | i < |rest| ensures !OccursAt(SystemPrefix, rest, i) {
      assert rest[i] != 'q';
      assert i + |SystemPrefix| <= |rest| ==> rest[i..i + |SystemPrefix|][0] == rest[i];
    }
  }


  /**
   * For the Windows x86-64 emulator in any folder without a dash in its path
   * (such as `C:\\qemu\\`) the derived path names `qemu-imgx86_64.exe`, a file
   * QEMU does not ship.
   */
  lemma QemuImgPathAsWrittenExample(dir: string)
    requires '-' !in dir
    ensures QemuImgPathAsWritten(dir + "qemu-system-x86_64.exe") == dir + "qemu-imgx86_64.exe"
  {
    var rest := "x86_64.exe";
    assert "qemu-system-x86_64.exe" == SystemPrefix + rest;
    assert dir + "qemu-system-x86_64.exe" == dir + SystemPrefix + rest;
    QemuImgPathKeepsArch(dir, rest);
    assert dir + ImgName + rest == dir + "qemu-imgx86_64.exe";
  }

  predicate IsSeparator(c: char) {
    c == '/' || c == '\\'
  }

  /** No character of `s` is a path separator. */
  predicate NoSeparator(s: string) {
    forall i :: 0 <= i < |s| ==> !IsSeparator(s[i])
  }

  /** No character of `s` is a dot. */
  predicate NoDot(s: string) {
    forall i :: 0 <= i < |s| ==> s[i] != '.'
  }

  /** The length of the directory part: everything up to and including the last separator. */
  function DirLength(s: string): (n: nat)
    ensures n <= |s|
  {
    if s == [] then 0
    else if IsSeparator(s[|s| - 1]) then |s|
    else DirLength(s[..|s| - 1])
  }

  /** The directory part ends at a separator, and none follows it. */
  lemma {:induction false} DirLengthSpec(s: string)
    ensures var n := DirLength(s); (n == 0 || IsSeparator(s[n - 1])) && NoSeparator(s[n..])
  {
    if s != [] && !IsSeparator(s[|s| - 1]) {
      var init := s[..|s| - 1];
      DirLengthSpec(init);
      var n := DirLength(init);
      assert s[n..] == init[n..] + [s[|s| - 1]];
    }
  }

  /** Only the end of a separator-terminated prefix has the directory-part properties. */
  lemma DirLengthUnique(s: string, n: nat)
    requires n <= |s| && (n == 0 || IsSeparator(s[n - 1])) && NoSeparator(s[n..])
    ensures DirLength(s) == n
  {
    var m := DirLength(s);
    DirLengthSpec(s);
    assert forall j :: m <= j < |s| ==> s[j] == s[m..][j - m];
    assert forall j :: n <= j < |s| ==> s[j] == s[n..][j - n];
  }

  /** The directory part of a path, with its trailing separator. */
  function Directory(s: string): string {
    s[..DirLength(s)]
  }

  /** The file-name part of a path. */
  function BaseName(s: string): string {
    s[DirLength(s)..]
  }

  /** Where the extension of a file name starts: at its last dot, or at its end without a dot. */
  function ExtStart(b: string): (n: nat)
    ensures n <= |b|
  {
    if b == [] then 0
    else if b[|b| - 1] == '.' then |b| - 1
    else
      var k := ExtStart(b[..|b| - 1]);
      if k == |b| - 1 then |b| else k
  }

  /** The extension starts at a dot, no dot follows it, and a name without one has none. */
  lemma {:induction false} ExtStartSpec(b: string)
    ensures var n := ExtStart(b);
      && (n < |b| ==> b[n] == '.' && NoDot(b[n + 1..]))
      && (n == |b| ==> NoDot(b))
  {
    if b != [] && b[|b| - 1] != '.' {
      var init := b[..|b| - 1];
      ExtStartSpec(init);
      var k := ExtStart(init);
      if k < |init| {
        assert b[k + 1..] == init[k + 1..] + [b[|b| - 1]];
      } else {
        assert b == init + [b[|b| - 1]];
      }
    }
  }

  /** The extension of a file name, with its dot. */
  function Extension(b: string): string {
    b[ExtStart(b)..]
  }

  /** An extension is empty, or a dot followed by no other dot. */
  predicate IsExtension(e: string) {
    e == [] || (e[0] == '.' && NoDot(e[1..]))
  }

  /** The evidently intended `qemu-img` path: the file `qemu-img` next to the emulator, with its extension. */
  function QemuImgPath(exe: string): string {
    Directory(exe) + ImgName + Extension(BaseName(exe))
  }

  /** Appending a name without separators to a directory keeps the directory. */
  lemma DirLengthAppend(dir: string, name: string)
    requires dir == [] || IsSeparator(dir[|dir| - 1])
    requires NoSeparator(name)
    ensures DirLength(dir + name) == |dir|
  {
    var s := dir + name;
    assert s[|dir|..] == name;
    if dir != [] {
      assert s[|dir| - 1] == dir[|dir| - 1];
    }
    DirLengthUnique(s, |dir|);
  }

  /** A name without dots followed by an extension has that extension. */
  lemma ExtensionAppend(stem: string, e: string)
    requires NoDot(stem) && IsExtension(e)
    ensures Extension(stem + e) == e
  {
    var s := stem + e;
    var n := ExtStart(s);
    ExtStartSpec(s);
    assert forall j :: 0 <= j < |stem| ==> s[j] == stem[j];
    if n < |s| {
      assert forall j :: n < j < |s| ==> s[j] == s[n + 1..][j - n - 1];
    }
    if e != [] {
      assert s[|stem|] == '.';
      assert forall j :: |stem| < j < |s| ==> s[j] == e[1..][j - |stem| - 1];
    }
  }

  /** The extension of a file name is an extension, without separators when the name has none. */
  lemma ExtensionOfName(b: string)
    requires NoSeparator(b)
    ensures IsExtension(Extension(b)) && NoSeparator(Extension(b))
  {
    ExtStartSpec(b);
    var n := ExtStart(b);
    var e := Extension(b);
    assert forall i :: 0 <= i < |e| ==> e[i] == b[n + i];
    if n < |b| {
      assert e[1..] == b[n + 1..];
    }
  }

  /** The directory part of a path is empty or ends with a separator; the file-name part has none. */
  lemma PathParts(exe: string)
    ensures var dir := Directory(exe); dir == [] || IsSeparator(dir[|dir| - 1])
    ensures NoSeparator(BaseName(exe))
  {
    DirLengthSpec(exe);
    var n := DirLength(exe);
    if n > 0 {
      assert Directory(exe)[n - 1] == exe[n - 1];
    }
  }

  /** `qemu-img` followed by an extension without separators has no separator. */
  lemma ImgFileName(e: string)
    requires NoSeparator(e)
    ensures NoSeparator(ImgName + e)
  {
    var name := ImgName + e;
    assert forall i :: |ImgName| <= i < |name| ==> name[i] == e[i - |ImgName|];
  }

  /**
   * The derived path lies in the emulator's directory, is named `qemu-img`
   * and keeps the emulator's extension.
   */
  lemma QemuImgPathSibling(exe: string)
    ensures var img := QemuImgPath(exe);
      && Directory(img) == Directory(exe)
      && BaseName(img) == ImgName + Extension(BaseName(exe))
  {
    var dir, e := Directory(exe), Extension(BaseName(exe));
    var name := ImgName + e;
    PathParts(exe);
    ExtensionOfName(BaseName(exe));
    ImgFileName(e);
    DirLengthAppend(dir, name);
    var img := dir + name;
    assert QemuImgPath(exe) == img;
    assert img[..|dir|] == dir && img[|dir|..] == name;
  }

  /** The derived file keeps the emulator's extension. */
  lemma QemuImgPathExtension(exe: string)
    ensures Extension(BaseName(QemuImgPath(exe))) == Extension(BaseName(exe))
  {
    QemuImgPathSibling(exe);
    PathParts(exe);
    ExtensionOfName(BaseName(exe));
    ExtensionAppend(ImgName, Extension(BaseName(exe)));
  }

  /** Deriving the path twice gives the same path. */
  lemma QemuImgPathIdempotent(exe: string)
    ensures QemuImgPath(QemuImgPath(exe)) == QemuImgPath(exe)
  {
    QemuImgPathSibling(exe);
    QemuImgPathExtension(exe);
  }

  lemma NoSeparatorAppend(a: string, b: string)
    requires NoSeparator(a) && NoSeparator(b)
    ensures NoSeparator(a + b)
  {
    assert forall i :: |a| <= i < |a + b| ==> (a + b)[i] == b[i - |a|];
  }

  lemma NoDotAppend(a: string, b: string)
    requires NoDot(a) && NoDot(b)
    ensures NoDot(a + b)
  {
    assert forall i :: |a| <= i < |a + b| ==> (a + b)[i] == b[i - |a|];
  }

  /** A directory followed by a file name splits back into the two. */
  lemma SplitPath(dir: string, name: string)
    requires dir == [] || IsSeparator(dir[|dir| - 1])
    requires NoSeparator(name)
    ensures Directory(dir + name) == dir && BaseName(dir + name) == name
  {
    DirLengthAppend(dir, name);
    var exe := dir + name;
    assert exe[..|dir|] == dir && exe[|dir|..] == name;
  }

  lemma PrefixCharacters()
    ensures NoSeparator(SystemPrefix) && NoDot(SystemPrefix) && NoSeparator(".exe")
  {
  }

  /** A file `<stem><ext>` in folder `dir` gets `qemu-img<ext>` in the same folder. */
  lemma QemuImgPathOfParts(dir: string, stem: string, ext: string)
    requires dir == [] || IsSeparator(dir[|dir| - 1])
    requires NoSeparator(stem + ext) && NoDot(stem) && IsExtension(ext)
    ensures QemuImgPath(dir + (stem + ext)) == dir + ImgName + ext
  {
    SplitPath(dir, stem + ext);
    ExtensionAppend(stem, ext);
  }

  /** A Windows emulator `qemu-system-<arch>.exe` gets `qemu-img.exe` in the same folder. */
  lemma QemuImgPathExample(dir: string, arch: string)
    requires dir == [] || IsSeparator(dir[|dir| - 1])
    requires NoDot(arch) && NoSeparator(arch)
    ensures QemuImgPath(dir + SystemPrefix + arch + ".exe") == dir + "qemu-img.exe"
  {
    var stem, ext := SystemPrefix + arch, ".exe";
    PrefixCharacters();
    NoSeparatorAppend(SystemPrefix, arch);
    NoSeparatorAppend(stem, ext);
    NoDotAppend(SystemPrefix, arch);
    assert IsExtension(ext);
    QemuImgPathOfParts(dir, stem, ext);
    assert dir + SystemPrefix + arch + ".exe" == dir + (stem + ext);
    assert dir + ImgName + ext == dir + "qemu-img.exe";
  }

  /**
   * For every emulator `qemu-system-<arch>.exe` in a folder without a dash,
   * the code's path and the intended one differ.
   */
  lemma QemuImgPathAsWrittenDiffers(dir: string, arch: string)
    requires '-' !in dir && (dir == [] || IsSeparator(dir[|dir| - 1]))
    requires arch != [] && 'q' !in arch && NoDot(arch) && NoSeparator(arch)
    ensures var exe := dir + SystemPrefix + arch + ".exe";
      QemuImgPathAsWritten(exe) != QemuImgPath(exe)
  {
    var rest := arch + ".exe";
    assert 'q' !in rest by {
      assert forall i :: |arch| <= i < |rest| ==> rest[i] == ".exe"[i - |arch|];
    }
    QemuImgPathKeepsArch(dir, rest);
    QemuImgPathExample(dir, arch);
    var exe := dir + SystemPrefix + arch + ".exe";
    assert exe == dir + SystemPrefix + rest;
    var written, intended := dir + ImgName + rest, dir + "qemu-img.exe";
    assert written[|dir| + 8] == arch[0] != '.' == intended[|dir| + 8];
  }

  // ---------------------------------------------------------------------------
  // Creating the image
  // ---------------------------------------------------------------------------

  /** How "Create Disk" ends; the argument vector is the one handed to `qemu-img`. */
  datatype DiskOutcome =
    | Cancelled
    | ImgNotFound(imgPath: string)
    | CreateFailed(argv: seq<string>)
    | Created(argv: seq<string>)

  /**
   * "Create Disk" for the chosen file name (empty when the dialog was
   * cancelled), the chosen size (None when that dialog was cancelled), the
   * executable field and whether `qemu-img` succeeds. The tool is looked for
   * where the code derives it, by the replacement.
   */
  function CreateDisk(qemuField: string, fname: string, size: Option<int>, fs: FileSystem, succeeds: bool): (o: DiskOutcome)
    requires size.Some? ==> 1 <= size.value <= 2048
    ensures o.Cancelled? <==> fname == "" || size.None?
    ensures o.ImgNotFound? ==> o.imgPath == QemuImgPathAsWritten(qemuField) && !Exists(fs, o.imgPath)
    ensures (o.CreateFailed? || o.Created?) ==>
              Exists(fs, QemuImgPathAsWritten(qemuField))
              && o.argv == CreateDiskArgs(QemuImgPathAsWritten(qemuField), fname, size.value)
    ensures o.Created? <==> fname != "" && size.Some? && Exists(fs, QemuImgPathAsWritten(qemuField)) && succeeds
  {
    if fname == "" || size.None? then Cancelled
    else
      var img := QemuImgPathAsWritten(qemuField);
      if !Exists(fs, img) then ImgNotFound(img)
      else
        var argv := CreateDiskArgs(img, fname, size.value);
        if succeeds then Created(argv) else CreateFailed(argv)
  }

  /**
   * The consequence of the derivation as written: with `qemu-img` installed
   * next to `qemu-system-<arch>.exe` and nothing else present, "Create Disk"
   * reports the tool missing, while the intended path names the file that
   * is there.
   */
  lemma CreateDiskMissesInstalledImg(dir: string, arch: string, fname: string, size: int, succeeds: bool)
    requires '-' !in dir && (dir == [] || IsSeparator(dir[|dir| - 1]))
    requires arch != [] && 'q' !in arch && NoDot(arch) && NoSeparator(arch)
    requires fname != "" && 1 <= size <= 2048
    ensures var exe := dir + SystemPrefix + arch + ".exe";
      var fs := FileSystem({QemuImgPath(exe)}, map[]);
      && Exists(fs, QemuImgPath(exe))
      && CreateDisk(exe, fname, Some(size), fs, succeeds) == ImgNotFound(QemuImgPathAsWritten(exe))
  {
    QemuImgPathAsWrittenDiffers(dir, arch);
  }

  // ---------------------------------------------------------------------------
  // The ISO library
  // ---------------------------------------------------------------------------

  /** Whether a directory entry is listed: its lower-cased name ends in `.iso`. */
  predicate IsIsoName(f: string) {
    EndsWith(Lower(f), ".iso")
  }

  /** Any capitalisation of the suffix counts; other suffixes do not. */
  lemma IsIsoNameExamples()
    ensures IsIsoName("debian.iso") && IsIsoName("Win11.ISO") && IsIsoName(".iso")
    ensures !IsIsoName("notes.txt") && !IsIsoName("iso")
  {
    assert Lower("Win11.ISO")[5..] == ".iso";
    assert Lower("debian.iso")[6..] == ".iso";
    assert Lower(".iso") == ".iso";
    assert Lower("notes.txt")[5..] != ".iso" by { assert Lower("notes.txt")[6] == 't'; }
  }

  /** The directory entries the library shows, in listing order. */
  function IsoFiles(listing: seq<string>): (r: seq<string>)
    ensures |r| <= |listing|
  {
    if listing == [] then []
    else
      var f := listing[|listing| - 1];
      IsoFiles(listing[..|listing| - 1]) + (if IsIsoName(f) then [f] else [])
  }

  /** An entry is shown exactly when it is listed and has the ISO suffix. */
  lemma {:induction false} IsoFilesMembers(listing: seq<string>, f: string)
    ensures f in IsoFiles(listing) <==> f in listing && IsIsoName(f)
  {
    if listing != [] {
      var init, last := listing[..|listing| - 1], listing[|listing| - 1];
      IsoFilesMembers(init, f);
      assert listing == init + [last];
    }
  }

  /** Filtering keeps the listing order: the entries of a concatenation are the entries of each part. */
  lemma {:induction false} IsoFilesAppend(a: seq<string>, b: seq<string>)
    ensures IsoFiles(a + b) == IsoFiles(a) + IsoFiles(b)
    decreases |b|
  {
    if b == [] {
      assert a + b == a;
    } else {
      var init, last := b[..|b| - 1], b[|b| - 1];
      assert (a + b)[..|a + b| - 1] == a + init;
      IsoFilesAppend(a, init);
    }
  }

  /** What the library list holds for the folder `dir`: nothing unless it is a directory. */
  function IsoLibrary(fs: FileSystem, dir: string): seq<string> {
    if dir != "" && IsDir(fs, dir) then IsoFiles(ListDir(fs, dir)) else []
  }

  /** `refresh_iso_library`: the loop over the directory entries. */
  method RefreshIsoLibrary(fs: FileSystem, dir: string) returns (items: seq<string>)
    ensures items == IsoLibrary(fs, dir)
  {
    items := [];
    if dir != "" && IsDir(fs, dir) {
      var listing := ListDir(fs, dir);
      var i := 0;
      while i < |listing|
        invariant 0 <= i <= |listing|
        invariant items == IsoFiles(listing[..i])
      {
        assert listing[..i + 1][..i] == listing[..i];
        if IsIsoName(listing[i]) {
          items := items + [listing[i]];
        }
        i := i + 1;
      }
      assert listing[..|listing|] == listing;
    }
  }
}
