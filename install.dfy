/**
 * The install command (`getPackageJson` in cmd/install.go): reads package.json,
 * makes sure node_modules exists, then runs the add batch over every runtime
 * dependency and, if that succeeds, the dev batch over every dev dependency.
 */
module InstallCommand {
  import opened Wrappers
  import opened Manifests
  import opened Workspace
  import opened Registry
  import opened Batch
  import AddCommand
  import DevCommand

  /** `list` names every key of `d` exactly once. */
  ghost predicate Enumerates(list: seq<string>, d: GoMap)
  {
    && |list| == |d.Entries()|
    && (forall k :: k in list <==> k in d.Entries())
    && (forall i, j :: 0 <= i < j < |list| ==> list[i] != list[j])
  }

  /**
   * `extractDependencies`: the keys of the map in the map's iteration order,
   * which is unspecified, so any order; it never fails.
   */
  method ExtractDependencies(dependencies: GoMap) returns (deps: seq<string>, err: Option<Error>)
    ensures Enumerates(deps, dependencies)
    ensures err.None?
  {
    var remaining := dependencies.Entries().Keys;
    deps := [];
    while remaining != {}
      invariant forall k :: k in deps || k in remaining <==> k in dependencies.Entries()
      invariant forall k :: k in deps ==> k !in remaining
      invariant forall i, j :: 0 <= i < j < |deps| ==> deps[i] != deps[j]
      invariant |deps| + |remaining| == |dependencies.Entries()|
      decreases |remaining|
    {
      var dep :| dep in remaining;
      deps := deps + [dep];
      remaining := remaining - {dep};
    }
    err := None;
  }

  /**
   * The whole install, given the lists the extraction produced: a read failure is
   * returned before anything else happens; then node_modules is created if absent;
   * then the runtime batch runs, whose error ends the run; then the dev batch
   * runs on the file the runtime batch left.
   */
  function InstallOutcome(
    fs: FileSystem, mkdirOk: bool, deps: seq<string>, devDeps: seq<string>,
    net: Network, extracts: string -> bool, addSteps: CommitSteps, devSteps: CommitSteps): (r: (Option<Error>, FileSystem))
    ensures ReadManifest(fs).Failure? ==> r == (Some(ReadManifest(fs).error), fs)
    ensures ReadManifest(fs).Success? && CreateNodeModulesFolder(fs, mkdirOk).0.Some? ==>
      r == CreateNodeModulesFolder(fs, mkdirOk)
    ensures r.0.None? ==> ReadManifest(fs).Success? && NodeModule in r.1.dirs
    ensures r.1.dirs == fs.dirs || r.1.dirs == fs.dirs + {NodeModule}
  {
    match ReadManifest(fs)
    case Failure(e) => (Some(e), fs)
    case Success(_) =>
      var (mkdirErr, fs1) := CreateNodeModulesFolder(fs, mkdirOk);
      if mkdirErr.Some? then (mkdirErr, fs1)
      else
        var (runtimeErr, fs2) := BatchOutcome(fs1, Runtime, deps, AddCommand.Outcomes(net), addSteps);
        if runtimeErr.Some? then (runtimeErr, fs2)
        else BatchOutcome(fs2, Dev, devDeps, DevCommand.Outcomes(net, extracts), devSteps)
  }

  /**
   * `getPackageJson`: the phases in order with their early returns. It also
   * returns the two lists it extracted, each of which enumerates its map once
   * the run gets that far.
   */
  method GetPackageJson(
    fs: FileSystem, mkdirOk: bool, net: Network, extracts: string -> bool,
    addSteps: CommitSteps, devSteps: CommitSteps)
    returns (err: Option<Error>, fs': FileSystem, deps: seq<string>, devDeps: seq<string>)
    ensures (err, fs') == InstallOutcome(fs, mkdirOk, deps, devDeps, net, extracts, addSteps, devSteps)
    ensures ReadManifest(fs).Success? && CreateNodeModulesFolder(fs, mkdirOk).0.None? ==>
      Enumerates(deps, ReadManifest(fs).value.dependencies)
    ensures
      && ReadManifest(fs).Success?
      && CreateNodeModulesFolder(fs, mkdirOk).0.None?
      && BatchOutcome(CreateNodeModulesFolder(fs, mkdirOk).1, Runtime, deps, AddCommand.Outcomes(net), addSteps).0.None?
      ==> Enumerates(devDeps, ReadManifest(fs).value.devDependencies)
  {
    deps, devDeps := [], [];
    var read := ReadManifest(fs);
    if read.Failure? {
      return Some(read.error), fs, deps, devDeps;
    }
    var fileContent := read.value;
    var mkdirErr, fs1 := CreateNodeModulesFolder(fs, mkdirOk).0, CreateNodeModulesFolder(fs, mkdirOk).1;
    if mkdirErr.Some? {
      return mkdirErr, fs1, deps, devDeps;
    }
    // extractDependencies never fails, so its error branch is not modelled
    var extractErr;
    deps, extractErr := ExtractDependencies(fileContent.dependencies);
    var runtimeErr, fs2 := AddCommand.FetchDependencies(fs1, deps, net, addSteps);
    if runtimeErr.Some? {
      return runtimeErr, fs2, deps, devDeps;
    }
    devDeps, extractErr := ExtractDependencies(fileContent.devDependencies);
    err, fs' := DevCommand.FetchDevDependencies(fs2, devDeps, net, extracts, devSteps);
  }

  /**
   * Once the runtime batch succeeds, a failing dev worker is the install's error:
   * the first failure of the dev batch is returned, and the file system is the
   * one the runtime batch left.
   */
  lemma DevFailureFailsInstall(
    fs: FileSystem, mkdirOk: bool, deps: seq<string>, devDeps: seq<string>,
    net: Network, extracts: string -> bool, addSteps: CommitSteps, devSteps: CommitSteps)
    requires ReadManifest(fs).Success?
    requires CreateNodeModulesFolder(fs, mkdirOk).0.None?
    requires BatchOutcome(CreateNodeModulesFolder(fs, mkdirOk).1, Runtime, deps, AddCommand.Outcomes(net), addSteps).0.None?
    requires FirstFailure(devDeps, DevCommand.Outcomes(net, extracts)).Some?
    ensures var r := InstallOutcome(fs, mkdirOk, deps, devDeps, net, extracts, addSteps, devSteps);
      && r.0 == FirstFailure(devDeps, DevCommand.Outcomes(net, extracts))
      && r.1 == BatchOutcome(CreateNodeModulesFolder(fs, mkdirOk).1, Runtime, deps, AddCommand.Outcomes(net), addSteps).1
  {
    var fs1 := CreateNodeModulesFolder(fs, mkdirOk).1;
    var fs2 := BatchOutcome(fs1, Runtime, deps, AddCommand.Outcomes(net), addSteps).1;
    assert ReadManifest(fs1).Success?;
    assert ReadManifest(fs2).Success?;
  }

  /** The manifest a batch leaves behind: the merged one when something was recorded, else the one it read. */
  function AfterBatch(m: Manifest, kind: Kind, args: seq<string>, outcome: string -> Worker): Manifest
  {
    if AnyRecorded(args, outcome) then Apply(m, kind, RecordedMap(args, outcome)) else m
  }

  /**
   * A successful install leaves package.json holding the manifest it read with
   * the runtime batch's packages merged into `dependencies` first and the dev
   * batch's packages merged into `devDependencies` on top of that file, and
   * node_modules exists.
   */
  lemma InstallWritesRuntimeThenDev(
    fs: FileSystem, mkdirOk: bool, deps: seq<string>, devDeps: seq<string>,
    net: Network, extracts: string -> bool, addSteps: CommitSteps, devSteps: CommitSteps)
    requires InstallOutcome(fs, mkdirOk, deps, devDeps, net, extracts, addSteps, devSteps).0.None?
    ensures ReadManifest(fs).Success?
    ensures var afterRuntime := AfterBatch(ReadManifest(fs).value, Runtime, deps, AddCommand.Outcomes(net));
      var afterDev := AfterBatch(afterRuntime, Dev, devDeps, DevCommand.Outcomes(net, extracts));
      InstallOutcome(fs, mkdirOk, deps, devDeps, net, extracts, addSteps, devSteps).1.packageJson == Some(Encoded(afterDev))
    ensures InstallOutcome(fs, mkdirOk, deps, devDeps, net, extracts, addSteps, devSteps).1.dirs == fs.dirs + {NodeModule}
  {
    var m := ReadManifest(fs).value;
    var fs1 := CreateNodeModulesFolder(fs, mkdirOk).1;
    var addOutcome := AddCommand.Outcomes(net);
    var devOutcome := DevCommand.Outcomes(net, extracts);
    assert ReadManifest(fs1) == Success(m);
    var fs2 := BatchOutcome(fs1, Runtime, deps, addOutcome, addSteps).1;
    var afterRuntime := AfterBatch(m, Runtime, deps, addOutcome);
    assert fs2.packageJson == Some(Encoded(afterRuntime));
    assert ReadManifest(fs2) == Success(afterRuntime);
  }

  /**
   * When the runtime batch fails, its error ends the install: the dev batch never
   * runs, and package.json is as it was before the install.
   */
  lemma RuntimeFailureStopsInstall(
    fs: FileSystem, mkdirOk: bool, deps: seq<string>, devDeps: seq<string>,
    net: Network, extracts: string -> bool, addSteps: CommitSteps, devSteps: CommitSteps)
    requires ReadManifest(fs).Success?
    requires CreateNodeModulesFolder(fs, mkdirOk).0.None?
    requires BatchOutcome(CreateNodeModulesFolder(fs, mkdirOk).1, Runtime, deps, AddCommand.Outcomes(net), addSteps).0.Some?
    ensures InstallOutcome(fs, mkdirOk, deps, devDeps, net, extracts, addSteps, devSteps)
      == BatchOutcome(CreateNodeModulesFolder(fs, mkdirOk).1, Runtime, deps, AddCommand.Outcomes(net), addSteps)
    ensures InstallOutcome(fs, mkdirOk, deps, devDeps, net, extracts, addSteps, devSteps).1.packageJson == fs.packageJson
  {
    var fs1 := CreateNodeModulesFolder(fs, mkdirOk).1;
    var addOutcome := AddCommand.Outcomes(net);
    var r := BatchOutcome(fs1, Runtime, deps, addOutcome, addSteps);
    if FirstFailure(deps, addOutcome).None? && AnyRecorded(deps, addOutcome) {
      var m := ReadManifest(fs1).value;
      assert r == CommitOutcome(fs1, Apply(m, Runtime, RecordedMap(deps, addOutcome)), addSteps);
    }
  }

  /**
   * Install re-resolves: every runtime dependency it records is written with the
   * registry's current latest version, whatever version package.json named.
   */
  lemma InstallRecordsLatest(
    fs: FileSystem, mkdirOk: bool, deps: seq<string>, devDeps: seq<string>,
    net: Network, extracts: string -> bool, addSteps: CommitSteps, devSteps: CommitSteps, dependency: string)
    requires InstallOutcome(fs, mkdirOk, deps, devDeps, net, extracts, addSteps, devSteps).0.None?
    requires dependency in deps && AddCommand.AddWorker(dependency, net).Recorded?
    ensures var written := InstallOutcome(fs, mkdirOk, deps, devDeps, net, extracts, addSteps, devSteps).1.packageJson;
      && written.Some? && written.value.Encoded?
      && dependency in written.value.document.dependencies.Entries()
      && written.value.document.dependencies.Entries()[dependency] == GetDependencyLatest(dependency, net).value
  {
    InstallWritesRuntimeThenDev(fs, mkdirOk, deps, devDeps, net, extracts, addSteps, devSteps);
    var addOutcome := AddCommand.Outcomes(net);
    assert addOutcome(dependency).Recorded?;
    var i :| 0 <= i < |deps| && deps[i] == dependency;
    assert AnyRecorded(deps, addOutcome);
    assert dependency in RecordedMap(deps, addOutcome);
  }
}
