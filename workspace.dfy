/**
 * The project directory as the installer sees it: package.json, its temporary
 * sibling package.json.tmp, and the directories under the working directory.
 * Paths are relative to the working directory.
 */
module Workspace {
  import opened Wrappers
  import opened GoStrings
  import opened GoPath
  import opened Manifests

  const NodeModule: string := "node_modules"
  const PackageJsonFile: string := "package.json"

  /** A file's content as far as the JSON decoder is concerned. */
  datatype Content =
    | Encoded(document: Manifest)  // written by the JSON encoder in full
    | Malformed                    // anything else, e.g. an empty or half-written file

  datatype FileSystem = FileSystem(
    packageJson: Option<Content>,  // package.json, when it exists
    tempFile: Option<Content>,     // package.json.tmp, when it exists
    dirs: set<string>)             // the directories that exist

  /** The causes of the errors the commands return. */
  datatype Error =
    | OpenFailed                    // package.json cannot be opened
    | DecodeFailed                  // package.json is not a decodable manifest
    | GetwdFailed                   // the working directory cannot be read
    | MkdirFailed                   // a directory cannot be created
    | CreateFailed                  // package.json cannot be created
    | TempOpenFailed                // package.json.tmp cannot be opened
    | EncodeFailed                  // encoding into the open file failed
    | RenameFailed                  // package.json.tmp cannot replace package.json
    | TooManyArguments              // init was given more than one argument
    | DownloadFailed(dependency: string)
    | ResolveFailed(dependency: string)
    | UnzipFailed(archive: string)  // tar could not extract this archive
    | Panicked(dependency: string)  // a run-time panic in the worker for this dependency

  /**
   * Opening package.json and decoding it: fails when the file is missing or not a
   * decodable manifest, and otherwise gives exactly the encoded document.
   */
  function ReadManifest(fs: FileSystem): (r: Result<Manifest, Error>)
    ensures fs.packageJson.None? <==> r == Failure(OpenFailed)
    ensures fs.packageJson == Some(Malformed) <==> r == Failure(DecodeFailed)
    ensures r.Success? ==> fs.packageJson == Some(Encoded(r.value))
  {
    match fs.packageJson
    case None => Failure(OpenFailed)
    case Some(Malformed) => Failure(DecodeFailed)
    case Some(Encoded(m)) => Success(m)
  }

  /**
   * `os.Stat`, then `os.Mkdir` only when the path does not exist: an existing
   * directory is success and changes nothing; a missing one is created unless
   * `mkdirOk` says the creation fails. Only `dirs` can change.
   */
  function EnsureDirectory(fs: FileSystem, path: string, mkdirOk: bool): (r: (Option<Error>, FileSystem))
    ensures path in fs.dirs ==> r == (None, fs)
    ensures r.0.None? <==> path in fs.dirs || mkdirOk
    ensures r.0.Some? ==> r.0.value == MkdirFailed && r.1 == fs
    ensures r.0.None? ==> r.1 == fs.(dirs := fs.dirs + {path})
  {
    if path in fs.dirs then (None, fs)
    else if mkdirOk then (None, fs.(dirs := fs.dirs + {path}))
    else (Some(MkdirFailed), fs)
  }

  /** A clean relative path under node_modules is the plain concatenation. */
  lemma JoinUnderNodeModules(path: string)
    requires IsCleanRelative(path)
    ensures Join([NodeModule, path]) == NodeModule + [Separator] + path
  {
    var joined := NodeModule + [Separator] + path;
    assert JoinWith([NodeModule, path], Separator) == joined;
    UnderNodeModulesClean(path);
    CleanOfClean(joined);
  }

  /** Putting a clean relative path under node_modules keeps it clean. */
  lemma UnderNodeModulesClean(path: string)
    requires IsCleanRelative(path)
    ensures IsCleanRelative(NodeModule + [Separator] + path)
  {
    SplitConcat(NodeModule, path, Separator);
    NodeModuleOnePiece();
  }

  /** "node_modules" has no separator, so it splits into itself. */
  lemma NodeModuleOnePiece()
    ensures Split(NodeModule, Separator) == [NodeModule]
  {
    assert Separator !in NodeModule;
    SplitPieces(NodeModule, Separator);
  }

  /**
   * The directory `NewDirectory(dirname)` creates, and the one the dev command
   * unpacks a package into: `filepath.Join` of node_modules and the name, which is
   * `node_modules/<dirname>` for a clean relative name.
   */
  function DirectoryPath(dirname: string): (path: string)
    ensures IsCleanRelative(dirname) ==> path == NodeModule + [Separator] + dirname
  {
    if IsCleanRelative(dirname) then
      JoinUnderNodeModules(dirname);
      Join([NodeModule, dirname])
    else Join([NodeModule, dirname])
  }

  /**
   * `CreateNodeModulesFolder` (and its copy in the add command): creates
   * node_modules only when it is absent; "already exists" is success.
   */
  function CreateNodeModulesFolder(fs: FileSystem, mkdirOk: bool): (r: (Option<Error>, FileSystem))
    ensures NodeModule in fs.dirs ==> r == (None, fs)
    ensures NodeModule !in fs.dirs ==>
      r == (if mkdirOk then (None, fs.(dirs := fs.dirs + {NodeModule})) else (Some(MkdirFailed), fs))
  {
    EnsureDirectory(fs, NodeModule, mkdirOk)
  }

  /**
   * `NewDirectory(dirname)`: fails when the working directory cannot be read;
   * otherwise creates `node_modules/<dirname>` only when it is absent.
   */
  function NewDirectory(fs: FileSystem, dirname: string, getwdOk: bool, mkdirOk: bool): (r: (Option<Error>, FileSystem))
    ensures !getwdOk ==> r == (Some(GetwdFailed), fs)
    ensures getwdOk && DirectoryPath(dirname) in fs.dirs ==> r == (None, fs)
    ensures getwdOk && DirectoryPath(dirname) !in fs.dirs ==>
      r == (if mkdirOk then (None, fs.(dirs := fs.dirs + {DirectoryPath(dirname)})) else (Some(MkdirFailed), fs))
  {
    if !getwdOk then (Some(GetwdFailed), fs)
    else EnsureDirectory(fs, DirectoryPath(dirname), mkdirOk)
  }
}
