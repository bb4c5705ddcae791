# gopm installer core, modelled in Dafny

gopm is a small npm-style package installer written in Go. It has four commands:

- `init` writes a default `package.json`.
- `add` looks each named package up in the npm registry, downloads its latest tarball into `node_modules`, and records it under `dependencies`.
- `dev` does the same with an unpack step, and records under `devDependencies`.
- `install` re-runs both batches over every dependency that `package.json` already lists.

This project models the sequential logic under that plumbing and proves what it does.

The model covers:

- the registry URLs and the archive paths;
- the in-place dependency merge on the `PackageJSON` record;
- how the per-package worker outcomes of a batch decide between an error, no write, and a commit through `package.json.tmp` and a rename;
- the install phase order;
- the default manifest.

Modules, one per file:

- `Wrappers`: `Option` and `Result`.
- `GoStrings`: the parts of Go's `strings` package the installer uses, over `seq<char>`: `Split`, `Join`, `TrimSpace` with Go's `unicode.IsSpace` set, and `HasPrefix`.
- `GoPath`: `filepath.Clean`, `Join` and `Base` for a '/' separator.
- `Manifests`: the manifest document and the `PackageJSON` class. A Go nil map and an allocated map are kept apart (`GoMap`). The class's `AddDependency` and `AddDevDependency` update its fields in place.
- `Workspace`: the file system as a value. It holds `package.json`, `package.json.tmp`, and the set of directories, with paths relative to the working directory. It also has the error causes, reading the manifest, and `CreateNodeModulesFolder`/`NewDirectory`.
- `Registry`: the lookup URL, `GetDependencyLatest`, `Tarball` (including the panic on a scoped name without '/'), `DownloadPackage`, `UnzipDependency`, and the download and unpack paths. The network and `tar` are inputs: `Network` says what each registry URL and tarball URL gives, and `extracts` says whether `tar` accepts each archive.
- `Batch`: the worker outcomes, the fold of the locked merges, the commit, and the outcome of a whole batch.
- `AddCommand`, `DevCommand`, `InstallCommand`, `InitCommand`: the four commands' core functions.

The concurrent workers become a loop over the arguments in order. Each loop runs on a fresh `PackageJSON` object and calls `AddDependency` (or `AddDevDependency`) with a singleton map per recorded package. The lemmas `Batch.FoldMergeIsMerge` and `Batch.OrderIrrelevant`, with `Manifests.MergeCommute`, show that the merged manifest and the `added` flag do not depend on the order the workers took the lock.

Behaviours of the code a reader may not expect:

- The add path never unpacks: it downloads, then records.
- A download succeeds whatever HTTP status the tarball response has (`Registry.DownloadIgnoresStatus`).
- When the registry document decodes without a `latest` tag, the add path records the version "" (`AddCommand.EmptyLatestRecorded`).
- Any worker error means `package.json` is not written at all. There is no partial commit of the packages that succeeded (`Batch.BatchOutcome`, `Batch.WrittenManifest`).
- On the dev path, a failed download returns the nil `err`, so the package is skipped silently (`DevCommand.FailedDownloadsAreSilent`).
- `install` re-resolves every listed dependency to the registry's latest version, and its runtime phase never unpacks (`InstallCommand.InstallRecordsLatest`).
- `init` truncates an existing `package.json` before encoding, so a failed encoding leaves a malformed file (`InitCommand.InitOutcome`).
- `init` accepts a blank module argument, which `TrimSpace` turns into the empty name (`InitCommand.BlankArgumentGivesEmptyName`).
- Without a module argument, the name is the folder name with `TrimSpace` applied. For a folder whose name starts or ends with white space (a working directory "/tmp/ x", say) the package is named "x", not `filepath.Base`'s " x" (`InitCommand.DefaultManifest`, `GoStrings.TrimSpace`).
- The folder name is the last element of splitting the working directory. It is "" for a directory ending in '/', where `filepath.Base` gives the last non-empty element, or "/" for the root (`InitCommand.FolderNameOfTrailingSeparator`).

## Model

| member | source | states |
|---|---|---|
| Manifests.Merge | pkg/package.go:65-73 | An empty additions map leaves the map as it was, a nil map included. Otherwise the map is allocated, and its keys are the old keys plus the added ones. Every added key takes its new version, and every other key keeps its old one. |
| Manifests.PackageJSON.AddDependency | pkg/package.go:65-73 | `dependencies` becomes `Merge(old dependencies, additions)`, and no other field of the record changes. |
| Manifests.PackageJSON.AddDevDependency | cmd/dev.go:106 | The same as `AddDependency`, on `devDependencies` only. Its source is not part of this model; it is assumed analogous. |
| Manifests.PackageJSON.constructor | cmd/add.go:98-102 | Decoding a document into a zero `PackageJSON` gives a record whose encoded value is that document. |
| Manifests.MergeIdempotent | pkg/package.go:72 | Merging the same additions twice equals merging them once. |
| Manifests.MergeTwice | cmd/add.go:118-122 | Two successive merges equal one merge of their union, the later one winning on shared names. |
| Manifests.MergeCommute | cmd/add.go:118-122 | Merges whose additions agree on shared names (for example, have disjoint names) commute. This justifies treating the lock-protected merges as order-free. |
| Manifests.UnionCommute | pkg/package.go:72 | The union of two maps that agree on shared names does not depend on which side wins. |
| Workspace.ReadManifest | cmd/add.go:91-102 | A missing `package.json` is an open error, and an undecodable one is a decode error. Otherwise the result is exactly the encoded document. |
| Workspace.EnsureDirectory | pkg/package.go:132-135 | An existing directory is success with no change. A missing one is created exactly when `mkdir` succeeds, and only `dirs` can change. |
| Workspace.CreateNodeModulesFolder | pkg/package.go:198-210 | `node_modules` is created only when it is absent. "Already exists" is success, and a failed `mkdir` is an error that changes nothing. |
| Workspace.NewDirectory | pkg/package.go:126-136 | A failed `Getwd` is an error that changes nothing. Otherwise `node_modules/<dirname>` is created only when absent. |
| Registry.LookupUrl | pkg/package.go:175 | The lookup URL is the registry base followed by the package name. |
| Registry.GetDependencyLatest | pkg/package.go:171-195 | The lookup succeeds exactly when the document at the lookup URL is decoded. The version is then exactly its `dist-tags.latest`, possibly "". Every failure is that dependency's resolve error. |
| Registry.Tarball | pkg/package.go:53-62 | The result is missing (the index-out-of-range panic) exactly for a scoped name without '/'. Every URL starts with the lookup URL plus "/-/". A plain name's file is `<name>-<version>.tgz`. |
| Registry.TarballDirectory | pkg/package.go:54-58 | Exactly the scoped names ask `NewDirectory` for a directory. It is the part before the first '/', which contains no '/'. |
| Registry.TarballScoped | pkg/package.go:54-59 | For `@scope/name`, the URL keeps the full name as its path and names the file `name-<version>.tgz`. The scope directory is `@scope`. |
| Registry.ScopedSplit | pkg/package.go:55 | Splitting `@scope/name` at '/' gives exactly `@scope` and `name`. |
| Registry.DownloadPackage | pkg/package.go:76-123 | A panic happens exactly when there is no tarball URL. Success means the request is built and sent and the file is created. A body is copied only when its declared length is positive, and only then can the copy fail. |
| Registry.DownloadIgnoresStatus | pkg/package.go:76-123 | Two networks that differ only in the tarball responses' HTTP status give the same download result. |
| Registry.UnzipDependency | pkg/package.go:149-168 | It extracts `<filePath>.tgz`. It fails exactly when `tar` rejects that archive, and the error names the archive. |
| Registry.CompressedFile | pkg/package.go:150 | The unpacker's archive is the target path followed by exactly ".tgz". |
| Registry.ArchivePath | pkg/package.go:100-101 | The file the download writes is `node_modules/<name>.tgz` for every clean relative name. |
| Workspace.DirectoryPath | pkg/package.go:131 | The directory `NewDirectory` creates is `node_modules/<dirname>` for every clean relative name. The dev worker's unpack target at cmd/dev.go:100 is the same `filepath.Join` and uses this function too. |
| Workspace.JoinUnderNodeModules | pkg/package.go:101 | `filepath.Join("node_modules", p)` is plain concatenation with '/' for a clean relative `p`. |
| Registry.ArchiveNameClean | pkg/package.go:100 | Appending ".tgz" to a clean relative name keeps it clean. |
| Registry.ArchiveMatchesUnpacker | cmd/dev.go:100-101 | For every clean relative name, the path pkg/package.go:100-101 builds for the download is exactly the archive `UnzipDependency` extracts (`node_modules/<name>.tgz`). |
| Registry.ScopedArchiveInScopeDirectory | pkg/package.go:56-59 | A scoped archive is written inside the scope directory that `Tarball` has `NewDirectory` create. |
| Batch.FirstFailure | cmd/add.go:131-133 | There is no error exactly when no worker failed. Otherwise the error is one that some worker returned. |
| Batch.RecordedMap | cmd/add.go:118-122 | Its keys are exactly the given packages whose worker recorded a version, and each maps to the version its worker recorded. |
| Batch.FoldMergeIsMerge | cmd/add.go:115-128 | The singleton merges, in order, equal a single merge of all recorded packages. |
| Batch.RecordedMapSnoc | cmd/add.go:120 | One more worker adds its singleton map to the recorded ones exactly when it recorded. |
| Batch.PrefixStep | cmd/add.go:115-128 | The next worker extends the `added` flag, the first error and the merged map as the loop body does. |
| Batch.OrderIrrelevant | cmd/add.go:112-122 | Any order or repetition of the same packages gives the same merged map and the same `added` flag. It also gives the same answer to "did some worker fail". |
| Batch.CommitOutcome | cmd/add.go:141-163 | `package.json` changes only when the create, encode and rename steps all succeed, and then it holds exactly the encoded manifest. After a successful create the temporary file is gone, and directories are untouched. |
| Batch.WriteManifest | cmd/add.go:141-163 | The step-by-step commit, including the deferred removal, ends in exactly `CommitOutcome`. |
| Batch.BatchOutcome | cmd/add.go:83-164 | A read failure is returned with nothing changed. Any worker error is returned (the first in argument order) and nothing is written. With no failure and nothing recorded it returns nil and writes nothing. With no failure and something recorded it commits the read manifest with the recorded packages merged, so it returns nil and `package.json` holds that manifest exactly when the create, encode and rename steps all succeed. In every case `package.json` either stays as it was or holds that merged manifest. |
| Batch.WrittenManifest | cmd/add.go:135-162 | When a batch writes, no worker failed, and each recorded package has its recorded version. Every other package keeps its old version, and the other fields are as read. |
| Batch.AppliedFields | cmd/dev.go:106 | The manifest a batch commits holds each recorded version. A runtime batch changes only `dependencies`, and a dev batch only `devDependencies`. The other map and every other field are as read. |
| AddCommand.GetDependencyInfo | cmd/add.go:167-195 | A lookup failure gives `(false, "")`. Otherwise the result is the download's success and the decoded latest version, or the panic of `Tarball`. |
| AddCommand.AddWorker | cmd/add.go:117-127 | A package is recorded exactly when the lookup and the download of its latest version succeed, with that version. It is never skipped. The panic is the error exactly when the lookup succeeds and `Tarball` has no URL. The download error is the error exactly when the lookup fails or the download reports false. |
| AddCommand.EmptyLatestRecorded | cmd/add.go:193-194 | A registry document without a `latest` tag, whose download succeeds, is recorded with version "". |
| AddCommand.FetchDependencies | cmd/add.go:83-164 | The loop over the arguments, with its merges and final checks, ends in exactly `BatchOutcome` for the runtime map. |
| DevCommand.WorkerLimit | cmd/dev.go:76-81 | The limit is at most 20 and at most the number of packages, and equals one of the two. |
| DevCommand.DevWorker | cmd/dev.go:89-110 | The stages run resolve, download, unzip, record. A resolve error is the worker's error. An empty version or a failed download is a skip. Only a package that passed all three stages is recorded, with its latest version. The `Tarball` panic is the worker's error. When the download succeeded and tar rejects the archive, the worker fails with exactly that unzip error, which names the archive. |
| DevCommand.FailedDownloadsAreSilent | cmd/dev.go:96-98 | A batch whose downloads all fail returns nil and changes nothing. |
| DevCommand.FetchDevDependencies | cmd/dev.go:56-147 | The loop over the arguments, with its merges and final checks, ends in exactly `BatchOutcome` for the dev map. |
| InstallCommand.ExtractDependencies | cmd/install.go:73-79 | The result lists every key of the map exactly once, in any order, with length equal to the map size. It never returns an error. |
| InstallCommand.InstallOutcome | cmd/install.go:37-70 | A read failure is returned before `node_modules` is created or anything is fetched. A failed creation of `node_modules` is returned before any batch runs. A successful run leaves `node_modules` in place, and only `node_modules` can be added to the directories. |
| InstallCommand.GetPackageJson | cmd/install.go:37-70 | The phases with their early returns end in exactly `InstallOutcome`. Each extracted list enumerates its map once the run reaches it. |
| InstallCommand.InstallWritesRuntimeThenDev | cmd/install.go:50-66 | A successful install leaves the read manifest with the runtime batch merged first. The dev batch is merged on top of the file the runtime batch wrote. |
| InstallCommand.DevFailureFailsInstall | cmd/install.go:59-63 | After a successful runtime batch, a failing dev worker is the install's error: the dev batch's first failure is returned, and the file system is the one the runtime batch left. |
| InstallCommand.RuntimeFailureStopsInstall | cmd/install.go:51-57 | A failing runtime batch ends the install with its result. The dev batch never runs, and `package.json` is as before. |
| InstallCommand.InstallRecordsLatest | cmd/install.go:51-54 | Every runtime dependency that install records is written with the registry's current latest version. |
| InitCommand.InitArguments | cmd/init.go:16-39 | More than one argument is rejected. One argument is the module name, and none gives "". |
| InitCommand.FolderName | cmd/init.go:97-98 | The folder name is the longest '/'-free suffix of the working directory: either the whole directory or the text after its last '/'. |
| InitCommand.GetFolderName | cmd/init.go:92-99 | It fails exactly when the working directory cannot be read. Otherwise it gives the folder name. |
| InitCommand.FolderNameIsBase | cmd/init_test.go:74 | For a directory not ending in '/', the folder name equals `filepath.Base`. |
| InitCommand.FolderNameOfTrailingSeparator | cmd/init.go:97-98 | A directory ending in '/' has folder name "", which `filepath.Base` never gives. |
| InitCommand.PackageName | cmd/init.go:48-58 | A non-empty argument is used as given. An empty one means the folder name, whose failure is the error. |
| InitCommand.DefaultManifest | cmd/init.go:61-71 | The name is trimmed of surrounding white space, the version is "1.0.0", main is "index.js" and the description is empty. There is exactly one script, "test", and the dependency maps are allocated and empty. |
| InitCommand.InitOutcome | cmd/init.go:47-89 | Success writes the default manifest. With no usable name, or a failed create, nothing changes. A failed encoding leaves a truncated (malformed) `package.json`. Directories and the temporary file never change. |
| InitCommand.CreatePackageJSONFile | cmd/init.go:47-89 | The step-by-step construction and write ends in exactly `InitOutcome`. |
| InitCommand.InitNamesPackageAfterFolder | cmd/init_test.go:54-56 | Without an argument, in a working directory that does not end in '/' and whose last element has no white space at either end, the package is named `filepath.Base` of the working directory, with version "1.0.0" and main "index.js". |
| InitCommand.BlankArgumentGivesEmptyName | cmd/init.go:50-62 | A white-space-only argument is accepted and gives the empty name. |
| GoStrings.TrimSpace | cmd/init.go:62 | The result is a middle part of the input with only white space before and after it, and it has no white space at either end. It is the input itself when the input has none at its ends, and "" for an all-white-space input. |
| GoStrings.Split | pkg/package.go:55 | There is always at least one piece, and no piece contains the separator. |
| GoStrings.SplitJoin | cmd/init.go:97 | Joining the pieces of the split with the separator gives back the input, so the pieces are the separator-free parts of it in order. |
| GoStrings.LastOfSplit | cmd/init.go:97-98 | The last element of the split is exactly the text after the last separator. |
| GoPath.CleanOfClean | pkg/package.go:101 | `filepath.Clean` leaves a clean relative path unchanged. |

## Left out

- HTTP requests, timeouts and `context` deadlines are inputs. `Network` gives, per URL, what the registry lookup and the tarball download produce. Error message texts are not modelled, only their causes.
- Goroutines, the `errgroup` scheduling, the mutex and the atomic flag are replaced by a sequential fold, with `Batch.OrderIrrelevant` covering every order of the locked merges.
- Cancelling sibling workers through the errgroup context is not modelled. Each package's outcome is a function of its name alone. This cannot change whether the manifest is written, since any error already prevents the write.
- Batch.FirstFailure: reports the error of the first failing argument in order. The source returns the error of whichever worker failed first in time, which is not determined.
- `WorkerLimit` bounds only how many workers run at once. It does not change the outcome, and a limit of 0 for an empty list starts no worker.
- The `tar` extraction is an input (`extracts`). The asynchronous removal of the archive after unpacking is not modelled, because it runs in a detached goroutine.
- The contents of `node_modules` are not tracked. The batch outcomes do not record the directories and files the workers create: the scope directory from `Tarball`, the archive file, and the unpack target. `NewDirectory`, `DownloadPackage` and `UnzipDependency` are modelled on their own.
- A panic in a worker ends the Go process. The model reports it as that worker's error (`Panicked`), which has the same effect on `package.json`: no write.
- The JSON wire format (indentation, HTML escaping, unknown fields) is abstract. A file is either an encoded manifest or malformed, and encoding then decoding gives back the record.
- `ReadPackageJson` is not part of this model. Install reads the manifest the way the batches do (`Workspace.ReadManifest`).
- `AddDevDependency`'s source is not part of this model either. It is modelled as the twin of `AddDependency` on `devDependencies`.
- `GetCwd` exits the process when the working directory cannot be read, so it is not modelled. Paths are taken relative to the working directory, and the working directory is left out of `filepath.Join`.
- A `Stat` error other than "does not exist" is treated as "exists", as the source does, but the model has no such error to produce.
- The deferred removal of `package.json.tmp` is assumed to succeed.
- The commands' `Run` closures are not modelled: the `package.json` existence check through `VerifyJsonFile`, the add and dev argument-count checks, logging, exit codes, and the progress bar. Their order is the one `InstallCommand.InstallOutcome` shows for install.
- Each dev worker is taken to see the package name of its own iteration. cmd/dev.go:87-89 hands the loop variable to `g.Go` without copying it, which gives each closure its own name only under the loop-variable semantics of Go 1.22 and later.
- Only registry documents that are JSON objects are modelled (`Registry.Lookup`). A body of `null` decodes into a nil receiver: the dev path then panics at pkg/package.go:194, and the add path gets the version "" (cmd/add.go:187).
- The cobra command wiring in cmd/root.go and main.go is not part of this model.
- GoPath.Join, GoPath.Base, GoStrings.HasPrefix and GoStrings.IsSpace model the Go library calls `filepath.Join` (pkg/package.go:101, pkg/package.go:131, cmd/dev.go:100), `filepath.Base` (the folder-name test), `strings.HasPrefix` (pkg/package.go:54) and `unicode.IsSpace` (inside `strings.TrimSpace`, cmd/init.go:62). They are library models with no contract of their own. What the core relies on is stated through the lemmas that use them: `Workspace.JoinUnderNodeModules`, `GoPath.CleanOfClean`, `InitCommand.FolderNameIsBase` and `GoStrings.TrimSpace`.
