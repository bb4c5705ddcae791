/**
 * The npm registry as the installer addresses it: the package-document URL, the
 * latest-version lookup, the tarball URL, and where an archive is saved and unpacked.
 * The HTTP exchanges and the tar extraction are inputs (`Network`, `extracts`).
 */
module Registry {
  import opened Wrappers
  import opened GoStrings
  import opened GoPath
  import opened Workspace

  const NpmRegistry: string := "https://registry.npmjs.org/"
  const MaxConcurrentDownloads: nat := 20
  const ArchiveSuffix: string := ".tgz"
  /** The '/' that separates a package's scope from its name, in names and URLs. */
  const ScopeSeparator: char := '/'

  /** The part of the registry's package document that is decoded: the name and `dist-tags.latest`. */
  datatype BodyRegistery = BodyRegistery(name: string, latest: string)

  /** What the GET of a package document and the decoding of its body gave. */
  datatype Lookup =
    | BadRequest                    // the request could not be built
    | Unreachable                   // sending it failed (network error, deadline)
    | Undecodable                   // the body is not a JSON registry document
    | Decoded(body: BodyRegistery)  // any JSON object decodes; missing fields stay ""

  /** The address of a package's registry document. */
  function LookupUrl(dependency: string): (url: string)
    ensures HasPrefix(url, NpmRegistry) && url[|NpmRegistry|..] == dependency
  {
    NpmRegistry + dependency
  }

  /**
   * `GetDependencyLatest`: looks up the document at `LookupUrl(dependency)`; the
   * version is exactly its decoded `dist-tags.latest` (possibly ""), and every
   * failure of the lookup is an error.
   */
  function GetDependencyLatest(dependency: string, net: Network): (r: Result<string, Error>)
    ensures r.Success? <==> net.documents(LookupUrl(dependency)).Decoded?
    ensures r.Success? ==> r.value == net.documents(LookupUrl(dependency)).body.latest
    ensures r.Failure? ==> r.error == ResolveFailed(dependency)
  {
    var lookup := net.documents(LookupUrl(dependency));
    if lookup.Decoded? then Success(lookup.body.latest) else Failure(ResolveFailed(dependency))
  }

  /** A scoped name, such as `@types/node`. */
  predicate Scoped(dependency: string)
  {
    HasPrefix(dependency, "@")
  }

  /**
   * `Tarball(dependency, version)`: the archive URL under the package's own path,
   * whose file is named after the whole name for a plain package and after the
   * part following the first '/' for a scoped one. A scoped name without '/' has
   * no second part: the source indexes past the end of the split and panics,
   * which is `None` here.
   */
  function Tarball(dependency: string, version: string): (r: Option<string>)
    ensures r.None? <==> Scoped(dependency) && ScopeSeparator !in dependency
    ensures r.Some? ==> HasPrefix(r.value, LookupUrl(dependency) + "/-/")
    ensures !Scoped(dependency) ==>
      r == Some(LookupUrl(dependency) + "/-/" + dependency + "-" + version + ArchiveSuffix)
  {
    if Scoped(dependency) then
      var pieces := Split(dependency, ScopeSeparator);
      SplitPieces(dependency, ScopeSeparator);
      if |pieces| < 2 then None
      else Some(NpmRegistry + dependency + "/-/" + pieces[1] + "-" + version + ArchiveSuffix)
    else
      Some(NpmRegistry + dependency + "/-/" + dependency + "-" + version + ArchiveSuffix)
  }

  /**
   * The directory `Tarball` asks `NewDirectory` to create for a scoped name (the
   * part before the first '/'); its failure is only logged and does not change the URL.
   */
  function TarballDirectory(dependency: string): (r: Option<string>)
    ensures r.Some? <==> Scoped(dependency)
    ensures r.Some? ==> r.value == Split(dependency, ScopeSeparator)[0] && ScopeSeparator !in r.value
  {
    SplitPieces(dependency, ScopeSeparator);
    if Scoped(dependency) then Some(Split(dependency, ScopeSeparator)[0]) else None
  }

  /**
   * For `@scope/name` the URL keeps the full name as its path but names the file
   * after `name` alone, and the scope directory is `@scope`.
   */
  lemma TarballScoped(scope: string, name: string, version: string)
    requires ScopeSeparator !in scope && ScopeSeparator !in name
    ensures var dependency := "@" + scope + [ScopeSeparator] + name;
      && Tarball(dependency, version) == Some(NpmRegistry + dependency + "/-/" + name + "-" + version + ArchiveSuffix)
      && TarballDirectory(dependency) == Some("@" + scope)
  {
    var dependency := "@" + scope + [ScopeSeparator] + name;
    ScopedSplit(scope, name);
    assert HasPrefix(dependency, "@") by {
      assert dependency[..1] == "@";
    }
  }

  /** A scoped name with one '/' splits into the scope and the name. */
  lemma ScopedSplit(scope: string, name: string)
    requires ScopeSeparator !in scope && ScopeSeparator !in name
    ensures Split("@" + scope + [ScopeSeparator] + name, ScopeSeparator) == ["@" + scope, name]
  {
    SplitConcat("@" + scope, name, ScopeSeparator);
    SplitPieces("@" + scope, ScopeSeparator);
    SplitPieces(name, ScopeSeparator);
  }

  /**
   * The exchange `DownloadPackage` performs with a tarball URL: building and
   * sending the request, the HTTP status (which the source never reads), creating
   * the archive file, the declared content length and the copy of the body.
   */
  datatype Download = Download(
    requestOk: bool,
    sendOk: bool,
    status: int,
    openOk: bool,
    contentLength: int,
    copyOk: bool)

  /**
   * The outside world a worker talks to: what the GET of each registry document
   * gives, and what downloading each tarball URL into node_modules gives.
   */
  datatype Network = Network(documents: string -> Lookup, archives: string -> Download)

  /**
   * `DownloadPackage`: computes the tarball URL first (a panic for a scoped name
   * without '/'), then reports success when the request to that URL is built and
   * sent and the archive file `ArchivePath(dependency)` is created; the body is copied only when its length
   * is declared positive, and only that copy can still fail.
   */
  function DownloadPackage(dependency: string, version: string, net: Network): (r: Result<bool, Error>)
    ensures r.Failure? <==> Tarball(dependency, version).None?
    ensures r.Failure? ==> r.error == Panicked(dependency)
    ensures r == Success(true) <==>
      && Tarball(dependency, version).Some?
      && var exchange := net.archives(Tarball(dependency, version).value);
      && exchange.requestOk && exchange.sendOk && exchange.openOk
      && (exchange.contentLength > 0 ==> exchange.copyOk)
  {
    var url := Tarball(dependency, version);
    if url.None? then Failure(Panicked(dependency))
    else
      var exchange := net.archives(url.value);
      if !exchange.requestOk || !exchange.sendOk || !exchange.openOk then Success(false)
      else if exchange.contentLength > 0 && !exchange.copyOk then Success(false)
      else Success(true)
  }

  /**
   * The HTTP status of the tarball response has no influence on the result: a
   * 404 page saved as the archive counts as a download.
   */
  lemma DownloadIgnoresStatus(dependency: string, version: string, net: Network, net': Network)
    requires forall url :: net'.archives(url) == net.archives(url).(status := net'.archives(url).status)
    ensures DownloadPackage(dependency, version, net') == DownloadPackage(dependency, version, net)
  {
    var url := Tarball(dependency, version);
    if url.Some? {
      assert net'.archives(url.value) == net.archives(url.value).(status := net'.archives(url.value).status);
    }
  }

  /**
   * The file `DownloadPackage` writes the body into: `filepath.Join` of node_modules
   * and `<dependency>.tgz`, which is `node_modules/<dependency>.tgz` for a clean
   * relative name.
   */
  function ArchivePath(dependency: string): (path: string)
    ensures IsCleanRelative(dependency) ==> path == NodeModule + [Separator] + dependency + ArchiveSuffix
  {
    if IsCleanRelative(dependency) then
      ArchiveNameClean(dependency);
      JoinUnderNodeModules(dependency + ArchiveSuffix);
      Join([NodeModule, dependency + ArchiveSuffix])
    else Join([NodeModule, dependency + ArchiveSuffix])
  }

  /** The archive `UnzipDependency(filePath)` extracts: `filePath` plus ".tgz". */
  function CompressedFile(filePath: string): (r: string)
    ensures |r| == |filePath| + |ArchiveSuffix| && r[..|filePath|] == filePath && r[|filePath|..] == ArchiveSuffix
  {
    filePath + ArchiveSuffix
  }

  /**
   * `UnzipDependency(filePath)`: extracts `filePath` + ".tgz" into `filePath`;
   * `extracts` says, per archive, whether tar succeeded (it fails, among others, when
   * the archive is not a gzip tarball or the target directory could not be made).
   * The error names the archive.
   */
  function UnzipDependency(filePath: string, extracts: string -> bool): (r: Option<Error>)
    ensures r.None? <==> extracts(CompressedFile(filePath))
    ensures r.Some? ==> r.value == UnzipFailed(CompressedFile(filePath))
  {
    var compressed := CompressedFile(filePath);
    if extracts(compressed) then None else Some(UnzipFailed(compressed))
  }

  /** Appending ".tgz" to a clean relative path keeps it clean. */
  lemma ArchiveNameClean(dependency: string)
    requires IsCleanRelative(dependency)
    ensures IsCleanRelative(dependency + ArchiveSuffix)
  {
    SplitAppend(dependency, ArchiveSuffix, Separator);
    var pieces := Split(dependency, Separator);
    var extended := Split(dependency + ArchiveSuffix, Separator);
    assert Normal(pieces[|pieces| - 1] + ArchiveSuffix);
    forall i | 0 <= i < |extended|
      ensures Normal(extended[i])
    {
      if i < |pieces| - 1 {
        assert extended[i] == pieces[i];
      }
    }
  }

  /**
   * The archive the downloader writes is exactly the file the unpacker extracts:
   * for every clean relative name, `node_modules/<dep>.tgz` is the unpack target
   * `node_modules/<dep>` plus ".tgz".
   */
  lemma ArchiveMatchesUnpacker(dependency: string)
    requires IsCleanRelative(dependency)
    ensures DirectoryPath(dependency) == NodeModule + [Separator] + dependency
    ensures ArchivePath(dependency) == CompressedFile(DirectoryPath(dependency))
  {
  }

  /**
   * A scoped archive lands inside the scope directory that `Tarball` has
   * `NewDirectory` create: `node_modules/@scope/name.tgz`.
   */
  lemma ScopedArchiveInScopeDirectory(scope: string, name: string)
    requires ScopeSeparator !in scope && ScopeSeparator !in name && Normal(name)
    ensures var dependency := "@" + scope + [ScopeSeparator] + name;
      && TarballDirectory(dependency) == Some("@" + scope)
      && ArchivePath(dependency) == DirectoryPath("@" + scope) + [Separator] + name + ArchiveSuffix
  {
    var dependency := "@" + scope + [ScopeSeparator] + name;
    TarballScoped(scope, name, "");
    assert IsCleanRelative(dependency) by {
      ScopedSplit(scope, name);
    }
    assert IsCleanRelative("@" + scope) by {
      SplitPieces("@" + scope, Separator);
    }
    assert NodeModule + [Separator] + dependency + ArchiveSuffix
      == (NodeModule + [Separator] + "@" + scope) + [Separator] + name + ArchiveSuffix;
  }
}
