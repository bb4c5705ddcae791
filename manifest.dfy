/**
 * The project manifest (package.json): the decoded document, the in-memory
 * `PackageJSON` record the commands update in place, and the dependency merge.
 */
module Manifests {

  type StringMap = map<string, string>

  /** A Go `map[string]string` value: nil, or an allocated (possibly empty) map. */
  datatype GoMap = Nil | Made(entries: StringMap)
  {
    /** What ranging over or reading the map sees; a nil map reads as empty. */
    function Entries(): StringMap
    {
      if Nil? then map[] else entries
    }
  }

  /** The package.json document, field by field, as the JSON decoder fills it and the encoder writes it. */
  datatype Manifest = Manifest(
    name: string,
    version: string,
    description: string,
    main: string,
    scripts: GoMap,
    dependencies: GoMap,
    devDependencies: GoMap)

  /**
   * The effect of `AddDependency(additions)` on a dependency map: nothing at all for
   * an empty `additions` (a nil map stays nil); otherwise the map is allocated if
   * nil and every added name takes its new version, every other name keeps its old one.
   */
  function Merge(d: GoMap, additions: StringMap): (r: GoMap)
    ensures |additions| == 0 ==> r == d
    ensures |additions| > 0 ==> r.Made?
    ensures r.Entries().Keys == d.Entries().Keys + additions.Keys
    ensures forall k :: k in additions ==> r.Entries()[k] == additions[k]
    ensures forall k :: k in d.Entries() && k !in additions ==> r.Entries()[k] == d.Entries()[k]
  {
    if |additions| == 0 then d else Made(d.Entries() + additions)
  }

  /** Two maps that agree on every name they share (in particular, two with disjoint names). */
  predicate Compatible(a: StringMap, b: StringMap)
  {
    forall k :: k in a && k in b ==> a[k] == b[k]
  }

  /** Merging the same additions twice is the same as merging them once. */
  lemma MergeIdempotent(d: GoMap, additions: StringMap)
    ensures Merge(Merge(d, additions), additions) == Merge(d, additions)
  {
    if |additions| > 0 {
      var once := Merge(d, additions).Entries();
      assert once + additions == once;
    }
  }

  /** Merging `a` and then `b` is merging their union in one call, `b` winning on shared names. */
  lemma MergeTwice(d: GoMap, a: StringMap, b: StringMap)
    ensures Merge(Merge(d, a), b) == Merge(d, a + b)
  {
    if |a| > 0 && |b| == 0 {
      assert a + b == a;
    } else if |a| == 0 && |b| > 0 {
      assert a + b == b;
    } else if |a| == 0 && |b| == 0 {
      assert a + b == map[];
    } else {
      assert |a + b| > 0 by {
        var k :| k in b;
        assert k in (a + b).Keys;
      }
      assert d.Entries() + a + b == d.Entries() + (a + b);
    }
  }

  /**
   * Two merges whose additions agree on shared names (for instance, have disjoint
   * names) can be applied in either order with the same result.
   */
  lemma MergeCommute(d: GoMap, a: StringMap, b: StringMap)
    requires Compatible(a, b)
    ensures Merge(Merge(d, a), b) == Merge(Merge(d, b), a)
  {
    MergeTwice(d, a, b);
    MergeTwice(d, b, a);
    UnionCommute(a, b);
  }

  /** The union of two compatible maps does not depend on which one wins. */
  lemma UnionCommute(a: StringMap, b: StringMap)
    requires Compatible(a, b)
    ensures a + b == b + a
  {
    assert (a + b).Keys == (b + a).Keys;
    forall k | k in a + b
      ensures (a + b)[k] == (b + a)[k]
    {
    }
  }

  /** The in-memory record package.json is decoded into and encoded from. */
  class PackageJSON {
    var name: string
    var version: string
    var description: string
    var main: string
    var scripts: GoMap
    var dependencies: GoMap
    var devDependencies: GoMap

    /** Decoding the document `m` into a zero `PackageJSON`. */
    constructor (m: Manifest)
      ensures Value() == m
    {
      name := m.name;
      version := m.version;
      description := m.description;
      main := m.main;
      scripts := m.scripts;
      dependencies := m.dependencies;
      devDependencies := m.devDependencies;
    }

    /** The document the encoder writes for this record. */
    function Value(): Manifest
      reads this
    {
      Manifest(name, version, description, main, scripts, dependencies, devDependencies)
    }

    /** Merges `additions` into `dependencies`; no other field changes. */
    method AddDependency(additions: StringMap)
      modifies this
      ensures dependencies == Merge(old(dependencies), additions)
      ensures Value() == old(Value()).(dependencies := dependencies)
    {
      if |additions| == 0 {
        return;
      }
      if dependencies.Nil? {
        dependencies := Made(map[]);
      }
      dependencies := Made(dependencies.entries + additions);
    }

    /** The development-dependency twin of `AddDependency`. */
    method AddDevDependency(additions: StringMap)
      modifies this
      ensures devDependencies == Merge(old(devDependencies), additions)
      ensures Value() == old(Value()).(devDependencies := devDependencies)
    {
      if |additions| == 0 {
        return;
      }
      if devDependencies.Nil? {
        devDependencies := Made(map[]);
      }
      devDependencies := Made(devDependencies.entries + additions);
    }
  }
}
