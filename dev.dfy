/**
 * The dev command's batch (`fetchDevDependencies` in cmd/dev.go): each package is
 * resolved to its latest version, downloaded and unpacked into
 * `node_modules/<name>`; every unpacked package is merged into `devDependencies`.
 */
module DevCommand {
  import opened Wrappers
  import opened Manifests
  import opened Workspace
  import opened Registry
  import opened Batch

  /** The errgroup limit: the number of packages, but never more than `MaxConcurrentDownloads`. */
  function WorkerLimit(packages: nat): (limit: nat)
    ensures limit <= MaxConcurrentDownloads && limit <= packages
    ensures limit == packages || limit == MaxConcurrentDownloads
  {
    if packages > MaxConcurrentDownloads then MaxConcurrentDownloads else packages
  }

  /**
   * One worker, stage by stage: resolve, download, unzip, record. A resolve error
   * is the worker's error; an empty version or a failed download returns the nil
   * `err` and skips the package; an unzip error is the worker's error; only a
   * package that passed all three stages is recorded, with its latest version.
   */
  function DevWorker(dependency: string, net: Network, extracts: string -> bool): (w: Worker)
    ensures w.Recorded? <==>
      && GetDependencyLatest(dependency, net).Success?
      && var latest := GetDependencyLatest(dependency, net).value;
      && latest != ""
      && DownloadPackage(dependency, latest, net) == Success(true)
      && UnzipDependency(DirectoryPath(dependency), extracts).None?
    ensures w.Recorded? ==> w.version == GetDependencyLatest(dependency, net).value
    ensures w == Failed(ResolveFailed(dependency)) <==> GetDependencyLatest(dependency, net).Failure?
    ensures w.Skipped? <==>
      && GetDependencyLatest(dependency, net).Success?
      && var latest := GetDependencyLatest(dependency, net).value;
      && (latest == "" || DownloadPackage(dependency, latest, net) == Success(false))
    ensures w.Failed? && w.error.UnzipFailed? ==>
      DownloadPackage(dependency, GetDependencyLatest(dependency, net).value, net) == Success(true)
    ensures GetDependencyLatest(dependency, net).Success? && GetDependencyLatest(dependency, net).value != "" ==>
      var latest := GetDependencyLatest(dependency, net).value;
      && (DownloadPackage(dependency, latest, net).Failure? ==> w == Failed(Panicked(dependency)))
      && (DownloadPackage(dependency, latest, net) == Success(true) && UnzipDependency(DirectoryPath(dependency), extracts).Some? ==>
            w == Failed(UnzipDependency(DirectoryPath(dependency), extracts).value))
  {
    match GetDependencyLatest(dependency, net)
    case Failure(e) => Failed(e)
    case Success(version) =>
      if version == "" then Skipped
      else
        match DownloadPackage(dependency, version, net)
        case Failure(e) => Failed(e)
        case Success(downloaded) =>
          if !downloaded then Skipped
          else
            match UnzipDependency(DirectoryPath(dependency), extracts)
            case Some(e) => Failed(e)
            case None => Recorded(version)
  }

  /** The worker outcome of every package name. */
  function Outcomes(net: Network, extracts: string -> bool): string -> Worker
  {
    dependency => DevWorker(dependency, net, extracts)
  }

  /**
   * A failed download is not an error of the batch: with every download of a
   * batch failing, it returns nil and leaves the file system as it was.
   */
  lemma FailedDownloadsAreSilent(fs: FileSystem, args: seq<string>, net: Network, extracts: string -> bool, steps: CommitSteps)
    requires forall i :: 0 <= i < |args| ==>
      && GetDependencyLatest(args[i], net).Success?
      && GetDependencyLatest(args[i], net).value != ""
      && DownloadPackage(args[i], GetDependencyLatest(args[i], net).value, net) == Success(false)
    requires ReadManifest(fs).Success?
    ensures BatchOutcome(fs, Dev, args, Outcomes(net, extracts), steps) == (None, fs)
  {
    var outcome := Outcomes(net, extracts);
    assert forall i :: 0 <= i < |args| ==> outcome(args[i]).Skipped?;
  }

  /**
   * `fetchDevDependencies(args)`: reads package.json, runs one worker per argument
   * (here one after another; `WorkerLimit` only bounds how many run at once),
   * merges each recorded package into `devDependencies`, then returns the first
   * worker error, or skips the write when nothing was recorded, or commits the
   * merged manifest.
   */
  method FetchDevDependencies(fs: FileSystem, args: seq<string>, net: Network, extracts: string -> bool, steps: CommitSteps)
    returns (err: Option<Error>, fs': FileSystem)
    ensures (err, fs') == BatchOutcome(fs, Dev, args, Outcomes(net, extracts), steps)
  {
    var read := ReadManifest(fs);
    if read.Failure? {
      return Some(read.error), fs;
    }
    var m := read.value;
    var outcome := Outcomes(net, extracts);
    var packageJson := new PackageJSON(m);
    var added := false;
    var failure: Option<Error> := None;
    for i := 0 to |args|
      invariant packageJson.Value() == m.(devDependencies := FoldMerge(m.devDependencies, args[..i], outcome))
      invariant added == AnyRecorded(args[..i], outcome)
      invariant failure == FirstFailure(args[..i], outcome)
    {
      var dependency := args[i];
      PrefixStep(m.devDependencies, args, i, outcome);
      match DevWorker(dependency, net, extracts)
      case Recorded(version) =>
        packageJson.AddDevDependency(map[dependency := version]);
        added := true;
      case Skipped =>
      case Failed(e) =>
        if failure.None? {
          failure := Some(e);
        }
    }
    assert args[..|args|] == args;
    if failure.Some? {
      return failure, fs;
    }
    if !added {
      return None, fs;
    }
    FoldMergeIsMerge(m.devDependencies, args, outcome);
    err, fs' := WriteManifest(fs, packageJson.Value(), steps);
  }
}
