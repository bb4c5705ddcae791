/**
 * The init command (cmd/init.go): checks the argument count, chooses the package
 * name (the argument, or the last element of the working directory), and writes a
 * default package.json with `os.Create` and the JSON encoder.
 */
module InitCommand {
  import opened Wrappers
  import opened GoStrings
  import opened GoPath
  import opened Manifests
  import opened Workspace

  const DefaultVersion: string := "1.0.0"
  const DefaultMain: string := "index.js"
  const TestScript: string := "Echo \"Error: no test specified\" && exit 1"

  /**
   * The command's argument check and the name its `Run` passes on: more than one
   * argument is rejected; one argument is the module name; none is "".
   */
  function InitArguments(args: seq<string>): (r: Result<string, Error>)
    ensures r.Failure? <==> |args| > 1
    ensures r.Failure? ==> r.error == TooManyArguments
    ensures |args| == 1 ==> r == Success(args[0])
    ensures |args| == 0 ==> r == Success("")
  {
    if |args| > 1 then Failure(TooManyArguments)
    else if |args| == 1 then Success(args[0])
    else Success("")
  }

  /**
   * The last element of splitting the working directory at the separator: its
   * longest '/'-free suffix.
   */
  function FolderName(dir: string): (r: string)
    ensures Separator !in r
    ensures |r| <= |dir| && r == dir[|dir| - |r|..]
    ensures r == dir || dir[|dir| - |r| - 1] == Separator
  {
    var elements := Split(dir, Separator);
    LastOfSplit(dir, Separator);
    var last := AfterLast(dir, Separator);
    assert elements[|elements| - 1] == last;
    elements[|elements| - 1]
  }

  /** `getFolderName`: fails only when the working directory cannot be read. */
  function GetFolderName(cwd: Option<string>): (r: Result<string, Error>)
    ensures r.Failure? <==> cwd.None?
    ensures r.Failure? ==> r.error == GetwdFailed
    ensures r.Success? ==> r.value == FolderName(cwd.value)
  {
    if cwd.None? then Failure(GetwdFailed) else Success(FolderName(cwd.value))
  }

  /** For a directory not ending in the separator, the folder name is `filepath.Base`. */
  lemma FolderNameIsBase(dir: string)
    requires |dir| > 0 && dir[|dir| - 1] != Separator
    ensures FolderName(dir) == Base(dir)
  {
    assert TrimTrailing(dir, Separator) == dir;
    assert Base(dir) == AfterLast(dir, Separator);
  }

  /**
   * A directory ending in the separator (such as the root "/") has the empty
   * folder name, where `filepath.Base` never gives "".
   */
  lemma FolderNameOfTrailingSeparator(dir: string)
    requires |dir| > 0 && dir[|dir| - 1] == Separator
    ensures FolderName(dir) == ""
    ensures Base(dir) != FolderName(dir)
  {
    LastOfSplit(dir, Separator);
  }

  /**
   * The name `createPackageJSONFile` chooses: a non-empty module name as given
   * (the second half of its `!= "" || len > 0` test adds nothing), otherwise the
   * folder name, whose failure is the error.
   */
  function PackageName(moduleName: string, cwd: Option<string>): (r: Result<string, Error>)
    ensures r.Failure? <==> moduleName == "" && cwd.None?
    ensures moduleName != "" ==> r == Success(moduleName)
    ensures moduleName == "" && cwd.Some? ==> r == Success(FolderName(cwd.value))
  {
    if moduleName != "" || |moduleName| > 0 then Success(moduleName)
    else GetFolderName(cwd)
  }

  /**
   * The default manifest: the name with surrounding white space removed, version
   * "1.0.0", main "index.js", an empty description, a single "test" script, and
   * allocated empty dependency maps.
   */
  function DefaultManifest(packageName: string): (m: Manifest)
    ensures |m.name| > 0 ==> !IsSpace(m.name[0]) && !IsSpace(m.name[|m.name| - 1])
    ensures m.name == TrimSpace(packageName)
    ensures m.version == DefaultVersion && m.main == DefaultMain && m.description == ""
    ensures m.scripts.Made? && m.scripts.entries.Keys == {"test"} && m.scripts.entries["test"] == TestScript
    ensures m.dependencies == Made(map[]) && m.devDependencies == Made(map[])
  {
    Manifest(
      name := TrimSpace(packageName),
      version := DefaultVersion,
      description := "",
      main := DefaultMain,
      scripts := Made(map["test" := TestScript]),
      dependencies := Made(map[]),
      devDependencies := Made(map[]))
  }

  /**
   * What `createPackageJSONFile` leaves: with no usable name, or when package.json
   * cannot be created, nothing changes; once created, an existing package.json is
   * truncated, so a failed encoding leaves a malformed file; otherwise it holds the
   * default manifest. Nothing else changes.
   */
  function InitOutcome(fs: FileSystem, moduleName: string, cwd: Option<string>, createOk: bool, encodeOk: bool): (r: (Option<Error>, FileSystem))
    ensures r.1.dirs == fs.dirs && r.1.tempFile == fs.tempFile
    ensures r.0.None? <==> PackageName(moduleName, cwd).Success? && createOk && encodeOk
    ensures r.0.None? ==> r.1.packageJson == Some(Encoded(DefaultManifest(PackageName(moduleName, cwd).value)))
    ensures PackageName(moduleName, cwd).Failure? || !createOk ==> r.1 == fs
    ensures PackageName(moduleName, cwd).Success? && createOk && !encodeOk ==>
      r == (Some(EncodeFailed), fs.(packageJson := Some(Malformed)))
  {
    match PackageName(moduleName, cwd)
    case Failure(e) => (Some(e), fs)
    case Success(name) =>
      if !createOk then (Some(CreateFailed), fs)
      else if !encodeOk then (Some(EncodeFailed), fs.(packageJson := Some(Malformed)))
      else (None, fs.(packageJson := Some(Encoded(DefaultManifest(name)))))
  }

  /** `createPackageJSONFile(moduleName)` step by step. */
  method CreatePackageJSONFile(fs: FileSystem, moduleName: string, cwd: Option<string>, createOk: bool, encodeOk: bool)
    returns (err: Option<Error>, fs': FileSystem)
    ensures (err, fs') == InitOutcome(fs, moduleName, cwd, createOk, encodeOk)
  {
    var packageName := "";
    if moduleName != "" || |moduleName| > 0 {
      packageName := moduleName;
    } else {
      var name := GetFolderName(cwd);
      if name.Failure? {
        return Some(name.error), fs;
      }
      packageName := name.value;
    }
    var jsonFile := DefaultManifest(packageName);
    if !createOk {
      return Some(CreateFailed), fs;
    }
    // os.Create truncates an existing file
    fs' := fs.(packageJson := Some(Malformed));
    if !encodeOk {
      return Some(EncodeFailed), fs';
    }
    fs' := fs'.(packageJson := Some(Encoded(jsonFile)));
    err := None;
  }

  /**
   * Without an argument, in a directory whose last element has no surrounding
   * white space, the package is named `filepath.Base` of the directory.
   */
  lemma InitNamesPackageAfterFolder(fs: FileSystem, dir: string)
    requires |dir| > 0 && dir[|dir| - 1] != Separator
    requires var folder := FolderName(dir); |folder| > 0 ==> !IsSpace(folder[0]) && !IsSpace(folder[|folder| - 1])
    ensures InitOutcome(fs, "", Some(dir), true, true).1.packageJson == Some(Encoded(DefaultManifest(Base(dir))))
    ensures DefaultManifest(Base(dir)).name == Base(dir)
  {
    FolderNameIsBase(dir);
    assert FolderName(dir) != "";
  }

  /** A module argument made only of white space is accepted and gives the empty name. */
  lemma BlankArgumentGivesEmptyName(fs: FileSystem, moduleName: string, cwd: Option<string>)
    requires moduleName != ""
    requires forall i :: 0 <= i < |moduleName| ==> IsSpace(moduleName[i])
    ensures InitOutcome(fs, moduleName, cwd, true, true).1.packageJson.value.document.name == ""
  {
  }
}
