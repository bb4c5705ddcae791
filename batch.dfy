/**
 * What the add and dev commands share: the per-package workers' outcomes, how the
 * outcomes of a batch decide between an error, no write, and a write of the merged
 * manifest, and the commit through package.json.tmp and a rename.
 *
 * The workers run concurrently in the source and merge under a mutex. Here they are
 * a fold over the arguments in order; `FoldMergeIsMerge` and `OrderIrrelevant`
 * show that the merged manifest does not depend on that order.
 */
module Batch {
  import opened Wrappers
  import opened Manifests
  import opened Workspace

  /** What one worker did: recorded a version, returned nil without recording, or returned an error. */
  datatype Worker = Recorded(version: string) | Skipped | Failed(error: Error)

  /** Which map of the manifest a batch merges into. */
  datatype Kind = Runtime | Dev

  /** The outcome of each step of the commit: creating the temporary file, encoding into it, renaming it. */
  datatype CommitSteps = CommitSteps(openOk: bool, encodeOk: bool, renameOk: bool)

  /** The error of the first failing worker, in argument order. */
  function FirstFailure(args: seq<string>, outcome: string -> Worker): (r: Option<Error>)
    ensures r.None? <==> forall i :: 0 <= i < |args| ==> !outcome(args[i]).Failed?
    ensures r.Some? ==> exists i :: 0 <= i < |args| && outcome(args[i]) == Failed(r.value)
    decreases |args|
  {
    if |args| == 0 then None
    else
      var earlier := FirstFailure(args[..|args| - 1], outcome);
      var last := outcome(args[|args| - 1]);
      if earlier.Some? then earlier
      else if last.Failed? then Some(last.error)
      else None
  }

  /** Some worker recorded a version (the `added` flag). */
  predicate AnyRecorded(args: seq<string>, outcome: string -> Worker)
  {
    exists i :: 0 <= i < |args| && outcome(args[i]).Recorded?
  }

  /** Every recorded package with its version: the union of the singleton maps the workers merge. */
  function RecordedMap(args: seq<string>, outcome: string -> Worker): (r: StringMap)
    ensures forall k :: k in r <==> k in args && outcome(k).Recorded?
    ensures forall k :: k in r ==> r[k] == outcome(k).version
  {
    map k | k in args && outcome(k).Recorded? :: outcome(k).version
  }

  /** The locked merges of the workers, one singleton map per recorded package, in argument order. */
  function FoldMerge(d: GoMap, args: seq<string>, outcome: string -> Worker): GoMap
    decreases |args|
  {
    if |args| == 0 then d
    else
      var earlier := FoldMerge(d, args[..|args| - 1], outcome);
      var dependency := args[|args| - 1];
      if outcome(dependency).Recorded? then Merge(earlier, map[dependency := outcome(dependency).version])
      else earlier
  }

  /** The sequence of singleton merges is one merge of all recorded packages. */
  lemma {:induction false} FoldMergeIsMerge(d: GoMap, args: seq<string>, outcome: string -> Worker)
    ensures FoldMerge(d, args, outcome) == Merge(d, RecordedMap(args, outcome))
    decreases |args|
  {
    if |args| == 0 {
      assert RecordedMap(args, outcome) == map[];
    } else {
      var init := args[..|args| - 1];
      var dependency := args[|args| - 1];
      FoldMergeIsMerge(d, init, outcome);
      assert args == init + [dependency];
      RecordedMapSnoc(init, dependency, outcome);
      if outcome(dependency).Recorded? {
        MergeTwice(d, RecordedMap(init, outcome), map[dependency := outcome(dependency).version]);
      }
    }
  }

  /** One more package adds its singleton map to the recorded ones, if it was recorded. */
  lemma RecordedMapSnoc(init: seq<string>, dependency: string, outcome: string -> Worker)
    ensures RecordedMap(init + [dependency], outcome) ==
      if outcome(dependency).Recorded? then RecordedMap(init, outcome) + map[dependency := outcome(dependency).version]
      else RecordedMap(init, outcome)
  {
    var args := init + [dependency];
    assert forall k :: k in args <==> k in init || k == dependency;
  }

  /** How the outcome of the next worker in argument order extends the fold of the ones before it. */
  lemma PrefixStep(d: GoMap, args: seq<string>, i: nat, outcome: string -> Worker)
    requires i < |args|
    ensures AnyRecorded(args[..i + 1], outcome) <==> AnyRecorded(args[..i], outcome) || outcome(args[i]).Recorded?
    ensures FirstFailure(args[..i + 1], outcome) ==
      if FirstFailure(args[..i], outcome).Some? then FirstFailure(args[..i], outcome)
      else if outcome(args[i]).Failed? then Some(outcome(args[i]).error)
      else None
    ensures FoldMerge(d, args[..i + 1], outcome) ==
      if outcome(args[i]).Recorded? then Merge(FoldMerge(d, args[..i], outcome), map[args[i] := outcome(args[i]).version])
      else FoldMerge(d, args[..i], outcome)
  {
    var prefix := args[..i + 1];
    assert prefix[..i] == args[..i];
    assert prefix[i] == args[i];
    if AnyRecorded(prefix, outcome) && !outcome(args[i]).Recorded? {
      var j :| 0 <= j < |prefix| && outcome(prefix[j]).Recorded?;
      assert args[..i][j] == prefix[j];
    }
    if AnyRecorded(args[..i], outcome) {
      var j :| 0 <= j < i && outcome(args[..i][j]).Recorded?;
      assert prefix[j] == args[..i][j];
    }
  }

  /**
   * The merged map and the `added` flag depend only on which packages were given,
   * not on their order or repetitions: any schedule of the workers gives the same manifest.
   */
  lemma OrderIrrelevant(d: GoMap, args: seq<string>, args': seq<string>, outcome: string -> Worker)
    requires forall k :: k in args <==> k in args'
    ensures FoldMerge(d, args, outcome) == FoldMerge(d, args', outcome)
    ensures AnyRecorded(args, outcome) <==> AnyRecorded(args', outcome)
    ensures FirstFailure(args, outcome).None? <==> FirstFailure(args', outcome).None?
  {
    FoldMergeIsMerge(d, args, outcome);
    FoldMergeIsMerge(d, args', outcome);
    SameNamesSameMap(args, args', outcome);
    SameNamesSameFlags(args, args', outcome);
    SameNamesSameFlags(args', args, outcome);
  }

  /** The recorded map depends only on which names were given. */
  lemma SameNamesSameMap(args: seq<string>, args': seq<string>, outcome: string -> Worker)
    requires forall k :: k in args <==> k in args'
    ensures RecordedMap(args, outcome) == RecordedMap(args', outcome)
  {
  }

  /** A recording or a failing worker among `args` is one among `args'` when every name of `args` is in `args'`. */
  lemma SameNamesSameFlags(args: seq<string>, args': seq<string>, outcome: string -> Worker)
    requires forall k :: k in args ==> k in args'
    ensures AnyRecorded(args, outcome) ==> AnyRecorded(args', outcome)
    ensures FirstFailure(args, outcome).Some? ==> FirstFailure(args', outcome).Some?
  {
    if AnyRecorded(args, outcome) {
      var i :| 0 <= i < |args| && outcome(args[i]).Recorded?;
      assert args[i] in args';
    }
    if FirstFailure(args, outcome).Some? {
      var i :| 0 <= i < |args| && outcome(args[i]).Failed?;
      assert args[i] in args';
    }
  }

  /** The manifest after merging `additions` into the map `kind` names; no other field changes. */
  function Apply(m: Manifest, kind: Kind, additions: StringMap): Manifest
  {
    match kind
    case Runtime => m.(dependencies := Merge(m.dependencies, additions))
    case Dev => m.(devDependencies := Merge(m.devDependencies, additions))
  }

  /**
   * The commit: package.json changes only when every step succeeds, and then holds
   * exactly the encoded manifest; once the temporary file was created it is gone
   * afterwards (renamed, or removed by the deferred cleanup); directories are untouched.
   */
  function CommitOutcome(fs: FileSystem, m: Manifest, steps: CommitSteps): (r: (Option<Error>, FileSystem))
    ensures r.0.None? <==> steps.openOk && steps.encodeOk && steps.renameOk
    ensures r.0.None? ==> r.1.packageJson == Some(Encoded(m))
    ensures r.0.Some? ==> r.1.packageJson == fs.packageJson
    ensures !steps.openOk ==> r == (Some(TempOpenFailed), fs)
    ensures steps.openOk ==> r.1.tempFile.None?
    ensures r.1.dirs == fs.dirs
  {
    if !steps.openOk then (Some(TempOpenFailed), fs)
    else if !steps.encodeOk then (Some(EncodeFailed), fs.(tempFile := None))
    else if !steps.renameOk then (Some(RenameFailed), fs.(tempFile := None))
    else (None, fs.(packageJson := Some(Encoded(m)), tempFile := None))
  }

  /**
   * The commit step by step: create (or truncate) package.json.tmp, encode into it,
   * rename it over package.json; the deferred removal of the temporary file runs on
   * every return after a successful create.
   */
  method WriteManifest(fs: FileSystem, m: Manifest, steps: CommitSteps) returns (err: Option<Error>, fs': FileSystem)
    ensures (err, fs') == CommitOutcome(fs, m, steps)
  {
    fs' := fs;
    if !steps.openOk {
      return Some(TempOpenFailed), fs';
    }
    fs' := fs'.(tempFile := Some(Malformed));
    if !steps.encodeOk {
      err := Some(EncodeFailed);
    } else {
      fs' := fs'.(tempFile := Some(Encoded(m)));
      if !steps.renameOk {
        err := Some(RenameFailed);
      } else {
        fs' := fs'.(packageJson := fs'.tempFile, tempFile := None);
        err := None;
      }
    }
    // deferred os.Remove of the temporary file
    fs' := fs'.(tempFile := None);
  }

  /**
   * A whole batch: a manifest that cannot be read is an error before any worker
   * runs; any worker error is returned and nothing is written, even when other
   * packages were recorded; with nothing recorded the batch returns nil and writes
   * nothing; otherwise the manifest with every recorded package merged is
   * committed, which succeeds exactly when the create, encode and rename steps do.
   */
  function BatchOutcome(fs: FileSystem, kind: Kind, args: seq<string>, outcome: string -> Worker, steps: CommitSteps): (r: (Option<Error>, FileSystem))
    ensures ReadManifest(fs).Failure? ==> r == (Some(ReadManifest(fs).error), fs)
    ensures FirstFailure(args, outcome).Some? ==> r.0.Some? && r.1 == fs
    ensures ReadManifest(fs).Success? && FirstFailure(args, outcome).Some? ==> r == (FirstFailure(args, outcome), fs)
    ensures !AnyRecorded(args, outcome) ==> r.1 == fs
    ensures ReadManifest(fs).Success? && FirstFailure(args, outcome).None? && !AnyRecorded(args, outcome) ==>
      r == (None, fs)
    ensures ReadManifest(fs).Success? && FirstFailure(args, outcome).None? && AnyRecorded(args, outcome) ==>
      r == CommitOutcome(fs, Apply(ReadManifest(fs).value, kind, RecordedMap(args, outcome)), steps)
    ensures r.1.packageJson == fs.packageJson || r.1.packageJson == Some(Encoded(Apply(ReadManifest(fs).value, kind, RecordedMap(args, outcome))))
    ensures r.1.dirs == fs.dirs
  {
    match ReadManifest(fs)
    case Failure(e) => (Some(e), fs)
    case Success(m) =>
      var failure := FirstFailure(args, outcome);
      if failure.Some? then (failure, fs)
      else if !AnyRecorded(args, outcome) then (None, fs)
      else CommitOutcome(fs, Apply(m, kind, RecordedMap(args, outcome)), steps)
  }

  /**
   * When a batch writes package.json, every worker succeeded or skipped, each
   * recorded package has its recorded version in the merged map, every other
   * package keeps its old version, and the other fields are as they were read.
   */
  lemma WrittenManifest(fs: FileSystem, kind: Kind, args: seq<string>, outcome: string -> Worker, steps: CommitSteps)
    requires BatchOutcome(fs, kind, args, outcome, steps).1.packageJson != fs.packageJson
    ensures BatchOutcome(fs, kind, args, outcome, steps).0.None?
    ensures forall i :: 0 <= i < |args| ==> !outcome(args[i]).Failed?
    ensures ReadManifest(fs).Success?
    ensures var read := ReadManifest(fs).value;
      var written := BatchOutcome(fs, kind, args, outcome, steps).1.packageJson.value.document;
      var before := if kind == Runtime then read.dependencies else read.devDependencies;
      var after := if kind == Runtime then written.dependencies else written.devDependencies;
      && (forall i :: 0 <= i < |args| && outcome(args[i]).Recorded? ==>
            args[i] in after.Entries() && after.Entries()[args[i]] == outcome(args[i]).version)
      && (forall k :: k in before.Entries() && (k !in args || !outcome(k).Recorded?) ==>
            k in after.Entries() && after.Entries()[k] == before.Entries()[k])
      && after.Made?
      && written.name == read.name && written.version == read.version
      && written.description == read.description && written.main == read.main
      && written.scripts == read.scripts
      && (kind == Runtime ==> written.devDependencies == read.devDependencies)
      && (kind == Dev ==> written.dependencies == read.dependencies)
  {
    var r := BatchOutcome(fs, kind, args, outcome, steps);
    assert ReadManifest(fs).Success? && FirstFailure(args, outcome).None? && AnyRecorded(args, outcome);
    AppliedFields(ReadManifest(fs).value, kind, args, outcome);
  }

  /**
   * The manifest a batch with a recorded package commits: every recorded package
   * has its version in the map `kind` names, every other entry is kept, and no
   * other field changes.
   */
  lemma AppliedFields(m: Manifest, kind: Kind, args: seq<string>, outcome: string -> Worker)
    requires AnyRecorded(args, outcome)
    ensures var written := Apply(m, kind, RecordedMap(args, outcome));
      var before := if kind == Runtime then m.dependencies else m.devDependencies;
      var after := if kind == Runtime then written.dependencies else written.devDependencies;
      && (forall i :: 0 <= i < |args| && outcome(args[i]).Recorded? ==>
            args[i] in after.Entries() && after.Entries()[args[i]] == outcome(args[i]).version)
      && (forall k :: k in before.Entries() && (k !in args || !outcome(k).Recorded?) ==>
            k in after.Entries() && after.Entries()[k] == before.Entries()[k])
      && after.Made?
      && written.name == m.name && written.version == m.version
      && written.description == m.description && written.main == m.main
      && written.scripts == m.scripts
      && (kind == Runtime ==> written.devDependencies == m.devDependencies)
      && (kind == Dev ==> written.dependencies == m.dependencies)
  {
    var i :| 0 <= i < |args| && outcome(args[i]).Recorded?;
    assert args[i] in RecordedMap(args, outcome);
  }
}
