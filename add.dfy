/**
 * The add command's batch (`fetchDependencies` in cmd/add.go): each package is
 * looked up in the registry and its latest version downloaded; every downloaded
 * package is merged into `dependencies`, one singleton map at a time.
 */
module AddCommand {
  import opened Wrappers
  import opened Manifests
  import opened Workspace
  import opened Registry
  import opened Batch

  /**
   * `getDependencyInfo`: its own lookup of the document at `LookupUrl(dependency)`,
   * then a download of the `latest` it names. Any lookup failure gives
   * `(false, "")`; otherwise the pair is the download's success and that version.
   * The only failure is the panic of `Tarball` on a scoped name without '/'.
   */
  function GetDependencyInfo(dependency: string, net: Network): (r: Result<(bool, string), Error>)
    ensures GetDependencyLatest(dependency, net).Failure? ==> r == Success((false, ""))
    ensures GetDependencyLatest(dependency, net).Success? ==>
      var latest := GetDependencyLatest(dependency, net).value;
      && (r.Failure? <==> Tarball(dependency, latest).None?)
      && (r.Success? ==> r.value == (DownloadPackage(dependency, latest, net) == Success(true), latest))
  {
    var lookup := net.documents(LookupUrl(dependency));
    if !lookup.Decoded? then Success((false, ""))
    else
      var latest := lookup.body.latest;
      match DownloadPackage(dependency, latest, net)
      case Failure(e) => Failure(e)
      case Success(downloaded) => Success((downloaded, latest))
  }

  /**
   * One worker: the package is recorded exactly when the lookup succeeds and the
   * download of its latest version succeeds, with that version (even ""); there
   * is no unpack step on this path. Every other outcome is an error, never a skip.
   */
  function AddWorker(dependency: string, net: Network): (w: Worker)
    ensures w.Recorded? <==>
      && GetDependencyLatest(dependency, net).Success?
      && DownloadPackage(dependency, GetDependencyLatest(dependency, net).value, net) == Success(true)
    ensures w.Recorded? ==> w.version == GetDependencyLatest(dependency, net).value
    ensures !w.Skipped?
    ensures w.Failed? ==> w.error == DownloadFailed(dependency) || w.error == Panicked(dependency)
    ensures w == Failed(Panicked(dependency)) <==>
      && GetDependencyLatest(dependency, net).Success?
      && Tarball(dependency, GetDependencyLatest(dependency, net).value).None?
    ensures w == Failed(DownloadFailed(dependency)) <==>
      || GetDependencyLatest(dependency, net).Failure?
      || DownloadPackage(dependency, GetDependencyLatest(dependency, net).value, net) == Success(false)
  {
    match GetDependencyInfo(dependency, net)
    case Failure(e) => Failed(e)
    case Success((downloaded, version)) =>
      if downloaded then Recorded(version) else Failed(DownloadFailed(dependency))
  }

  /** The worker outcome of every package name. */
  function Outcomes(net: Network): string -> Worker
  {
    dependency => AddWorker(dependency, net)
  }

  /**
   * A registry document that decodes without a `latest` tag still leads to a
   * download and is recorded with version "" on this path.
   */
  lemma EmptyLatestRecorded(dependency: string, net: Network)
    requires GetDependencyLatest(dependency, net) == Success("")
    requires DownloadPackage(dependency, "", net) == Success(true)
    ensures AddWorker(dependency, net) == Recorded("")
  {
  }

  /**
   * `fetchDependencies(args)`: reads package.json, runs one worker per argument
   * (here one after another), merges each recorded package into `dependencies`,
   * then returns the first worker error, or skips the write when nothing was
   * recorded, or commits the merged manifest.
   */
  method FetchDependencies(fs: FileSystem, args: seq<string>, net: Network, steps: CommitSteps)
    returns (err: Option<Error>, fs': FileSystem)
    ensures (err, fs') == BatchOutcome(fs, Runtime, args, Outcomes(net), steps)
  {
    var read := ReadManifest(fs);
    if read.Failure? {
      return Some(read.error), fs;
    }
    var m := read.value;
    var outcome := Outcomes(net);
    var packageJson := new PackageJSON(m);
    var added := false;
    var failure: Option<Error> := None;
    for i := 0 to |args|
      invariant packageJson.Value() == m.(dependencies := FoldMerge(m.dependencies, args[..i], outcome))
      invariant added == AnyRecorded(args[..i], outcome)
      invariant failure == FirstFailure(args[..i], outcome)
    {
      var dependency := args[i];
      PrefixStep(m.dependencies, args, i, outcome);
      match AddWorker(dependency, net)
      case Recorded(version) =>
        packageJson.AddDependency(map[dependency := version]);
        added := true;
      case Skipped =>
      case Failed(e) =>
        if failure.None? {
          failure := Some(e);
        }
    }
    assert args[..|args|] == args;
    if failure.Some? {
      return failure, fs;
    }
    if !added {
      return None, fs;
    }
    FoldMergeIsMerge(m.dependencies, args, outcome);
    err, fs' := WriteManifest(fs, packageJson.Value(), steps);
  }
}
