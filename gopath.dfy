/**
 * The parts of Go's `path/filepath` package the installer relies on, for a system
 * whose separator is '/': `Clean`, `Join` and `Base`.
 */
module GoPath {
  import opened GoStrings

  const Separator: char := '/'

  /** A path element that `Clean` keeps as it is. */
  predicate Normal(element: string)
  {
    element != "" && element != "." && element != ".."
  }

  /** Every element of `path` is normal: no empty, "." or ".." element, no leading or trailing '/'. */
  predicate IsCleanRelative(path: string)
  {
    var elements := Split(path, Separator);
    forall i :: 0 <= i < |elements| ==> Normal(elements[i])
  }

  /** How `Clean` treats one more element, given the elements kept so far. */
  function Step(kept: seq<string>, element: string, rooted: bool): seq<string>
  {
    if element == "" || element == "." then kept
    else if element == ".." then
      if |kept| > 0 && kept[|kept| - 1] != ".." then kept[..|kept| - 1]
      else if rooted then kept
      else kept + [".."]
    else kept + [element]
  }

  /** The elements `Clean` keeps, processing them left to right. */
  function Resolve(elements: seq<string>, rooted: bool): seq<string>
    decreases |elements|
  {
    if elements == [] then []
    else Step(Resolve(elements[..|elements| - 1], rooted), elements[|elements| - 1], rooted)
  }

  /**
   * `filepath.Clean`: drops empty and "." elements, cancels each ".." against the
   * element before it (at the root it is dropped), and gives "." for an empty result.
   */
  function Clean(path: string): (r: string)
    ensures r != ""
  {
    var rooted := |path| > 0 && path[0] == Separator;
    var joined := JoinWith(Resolve(Split(path, Separator), rooted), Separator);
    if rooted then [Separator] + joined
    else if joined == "" then "."
    else joined
  }

  /**
   * `filepath.Join`: leading empty elements are ignored, the rest are joined with
   * the separator and cleaned; all-empty input gives "".
   */
  function Join(elements: seq<string>): string
  {
    if |elements| == 0 then ""
    else if elements[0] == "" then Join(elements[1..])
    else Clean(JoinWith(elements, Separator))
  }

  /** Elements that are all normal are kept as they are. */
  lemma {:induction false} ResolveNormal(elements: seq<string>, rooted: bool)
    requires forall i :: 0 <= i < |elements| ==> Normal(elements[i])
    ensures Resolve(elements, rooted) == elements
    decreases |elements|
  {
    if elements != [] {
      var init := elements[..|elements| - 1];
      ResolveNormal(init, rooted);
      assert elements == init + [elements[|elements| - 1]];
    }
  }

  /** `Clean` leaves a clean relative path unchanged. */
  lemma CleanOfClean(path: string)
    requires IsCleanRelative(path)
    ensures Clean(path) == path
  {
    var elements := Split(path, Separator);
    ResolveNormal(elements, false);
    ResolveNormal(elements, true);
    SplitJoin(path, Separator);
    if |path| > 0 {
      SplitCons(path, Separator);
    }
  }

  /** Drops every trailing `c`. */
  function TrimTrailing(s: string, c: char): (r: string)
    ensures |r| <= |s| && r == s[..|r|]
    ensures |r| > 0 ==> r[|r| - 1] != c
    ensures forall i :: |r| <= i < |s| ==> s[i] == c
  {
    if |s| > 0 && s[|s| - 1] == c then TrimTrailing(s[..|s| - 1], c) else s
  }

  /**
   * `filepath.Base`: the last element after trailing separators are removed;
   * "." for the empty path and "/" for a path of separators only.
   */
  function Base(path: string): (r: string)
    ensures r != ""
  {
    if path == "" then "."
    else
      var stripped := TrimTrailing(path, Separator);
      if stripped == "" then [Separator]
      else
        var last := AfterLast(stripped, Separator);
        assert last != "" by {
          assert stripped[|stripped| - 1] != Separator;
        }
        last
  }
}
