/**
 * The parts of Go's `strings` package the installer relies on, over `seq<char>`:
 * `HasPrefix`, `Split` and `Join` with a one-character separator, and `TrimSpace`.
 */
module GoStrings {

  predicate HasPrefix(s: string, prefix: string)
  {
    |prefix| <= |s| && s[..|prefix|] == prefix
  }

  /** `strings.Join(parts, string(sep))`. */
  function JoinWith(parts: seq<string>, sep: char): string
  {
    if |parts| == 0 then ""
    else if |parts| == 1 then parts[0]
    else parts[0] + [sep] + JoinWith(parts[1..], sep)
  }

  /**
   * `strings.Split(s, string(sep))`: the maximal separator-free pieces of `s`,
   * always at least one (the empty string splits into `[""]`). No piece contains
   * the separator; `SplitJoin` shows that joining the pieces with it gives back `s`.
   */
  function Split(s: string, sep: char): (parts: seq<string>)
    ensures |parts| >= 1
    ensures forall i :: 0 <= i < |parts| ==> sep !in parts[i]
    decreases |s|
  {
    if |s| == 0 then [""]
    else if s[0] == sep then [""] + Split(s[1..], sep)
    else
      var rest := Split(s[1..], sep);
      [[s[0]] + rest[0]] + rest[1..]
  }

  /** Joining the pieces of `Split(s, sep)` with `sep` gives back `s`. */
  lemma {:induction false} SplitJoin(s: string, sep: char)
    ensures JoinWith(Split(s, sep), sep) == s
    decreases |s|
  {
    if |s| > 0 {
      SplitJoin(s[1..], sep);
      var rest := Split(s[1..], sep);
      if s[0] == sep {
        assert Split(s, sep) == [""] + rest;
        assert ([""] + rest)[1..] == rest;
        assert s == [sep] + s[1..];
      } else {
        assert Split(s, sep) == [[s[0]] + rest[0]] + rest[1..];
        JoinWithHead(rest, s[0], sep);
        assert s == [s[0]] + s[1..];
      }
    }
  }

  /**
   * A string without the separator is its own single piece, and one with it has
   * at least two.
   */
  lemma {:induction false} SplitPieces(s: string, sep: char)
    ensures var parts := Split(s, sep);
      && (sep !in s ==> parts == [s])
      && (sep in s ==> |parts| >= 2)
    decreases |s|
  {
    if |s| > 0 {
      SplitPieces(s[1..], sep);
      assert s == [s[0]] + s[1..];
      assert sep in s && s[0] != sep ==> sep in s[1..];
    }
  }

  /** Prepending a character to the first piece prepends it to the joined string. */
  lemma {:induction false} JoinWithHead(parts: seq<string>, c: char, sep: char)
    requires |parts| >= 1
    ensures JoinWith([[c] + parts[0]] + parts[1..], sep) == [c] + JoinWith(parts, sep)
  {
    var p := [[c] + parts[0]] + parts[1..];
    if |parts| > 1 {
      assert p[1..] == parts[1..];
    }
  }

  /** How `Split` treats the first character of its input. */
  lemma SplitCons(s: string, sep: char)
    requires |s| > 0
    ensures var rest := Split(s[1..], sep);
      Split(s, sep) == if s[0] == sep then [""] + rest else [[s[0]] + rest[0]] + rest[1..]
  {
  }

  /** Splitting at a separator between `a` and `b` splits each side on its own. */
  lemma {:induction false} SplitConcat(a: string, b: string, sep: char)
    ensures Split(a + [sep] + b, sep) == Split(a, sep) + Split(b, sep)
    decreases |a|
  {
    var s := a + [sep] + b;
    SplitCons(s, sep);
    if |a| == 0 {
      assert s[1..] == b;
    } else {
      assert s[0] == a[0];
      assert s[1..] == a[1..] + [sep] + b;
      SplitConcat(a[1..], b, sep);
      SplitCons(a, sep);
      ConsedConcat(a[0], sep, Split(a[1..], sep), Split(b, sep));
    }
  }

  /**
   * The step `Split` takes for a first character `c` commutes with appending
   * more pieces.
   */
  lemma ConsedConcat(c: char, sep: char, front: seq<string>, back: seq<string>)
    requires |front| >= 1
    ensures var all := front + back;
      && (if c == sep then [""] + all else [[c] + all[0]] + all[1..])
      == (if c == sep then [""] + front else [[c] + front[0]] + front[1..]) + back
  {
    var all := front + back;
    assert all[0] == front[0];
    assert all[1..] == front[1..] + back;
  }

  /** Appending separator-free text to `a` extends only its last piece. */
  lemma {:induction false} SplitAppend(a: string, t: string, sep: char)
    requires sep !in t
    ensures var pa := Split(a, sep);
      Split(a + t, sep) == pa[..|pa| - 1] + [pa[|pa| - 1] + t]
    decreases |a|
  {
    var s := a + t;
    if |a| == 0 {
      assert s == t;
      SplitPieces(t, sep);
    } else {
      assert s[0] == a[0];
      assert s[1..] == a[1..] + t;
      SplitAppend(a[1..], t, sep);
      SplitCons(s, sep);
      SplitCons(a, sep);
      if a[0] == sep {
        ExtendLastAfterFirst([""], Split(a[1..], sep), t);
      } else {
        ExtendLastOfConsed(a[0], Split(a[1..], sep), t);
      }
    }
  }

  /** Extending the last piece commutes with putting pieces in front. */
  lemma ExtendLastAfterFirst(front: seq<string>, pieces: seq<string>, t: string)
    requires |pieces| >= 1
    ensures var extended := pieces[..|pieces| - 1] + [pieces[|pieces| - 1] + t];
      var all := front + pieces;
      front + extended == all[..|all| - 1] + [all[|all| - 1] + t]
  {
  }

  /** Extending the last piece commutes with prepending a character to the first piece. */
  lemma ExtendLastOfConsed(c: char, pieces: seq<string>, t: string)
    requires |pieces| >= 1
    ensures var extended := pieces[..|pieces| - 1] + [pieces[|pieces| - 1] + t];
      var consed := [[c] + pieces[0]] + pieces[1..];
      [[c] + extended[0]] + extended[1..] == consed[..|consed| - 1] + [consed[|consed| - 1] + t]
  {
    var extended := pieces[..|pieces| - 1] + [pieces[|pieces| - 1] + t];
    var consed := [[c] + pieces[0]] + pieces[1..];
    if |pieces| == 1 {
      assert [c] + (pieces[0] + t) == ([c] + pieces[0]) + t;
    } else {
      assert extended[0] == pieces[0];
      assert extended[1..] == pieces[1..|pieces| - 1] + [pieces[|pieces| - 1] + t];
      assert consed[..|consed| - 1] == [[c] + pieces[0]] + pieces[1..|pieces| - 1];
    }
  }

  /**
   * The text after the last `sep` in `s` (all of `s` when there is none): the
   * longest separator-free suffix.
   */
  function AfterLast(s: string, sep: char): (r: string)
    ensures sep !in r
    ensures |r| <= |s| && r == s[|s| - |r|..]
    ensures r == s || s[|s| - |r| - 1] == sep
  {
    if |s| == 0 then ""
    else if s[|s| - 1] == sep then ""
    else AfterLast(s[..|s| - 1], sep) + [s[|s| - 1]]
  }

  /** The last piece of `Split(s, sep)` is exactly the text after the last separator. */
  lemma {:induction false} LastOfSplit(s: string, sep: char)
    ensures var parts := Split(s, sep); parts[|parts| - 1] == AfterLast(s, sep)
    decreases |s|
  {
    if |s| > 0 {
      var a, c := s[..|s| - 1], s[|s| - 1];
      assert s == a + [c];
      if c == sep {
        SplitConcat(a, "", sep);
        assert a + [sep] + "" == s;
      } else {
        SplitAppend(a, [c], sep);
        LastOfSplit(a, sep);
      }
    }
  }

  /** `unicode.IsSpace`: the ASCII white space, NEL, NBSP and the Unicode White_Space characters. */
  predicate IsSpace(c: char)
  {
    var n := c as int;
    n == 0x09 || n == 0x0A || n == 0x0B || n == 0x0C || n == 0x0D || n == 0x20
    || n == 0x85 || n == 0xA0 || n == 0x1680 || (0x2000 <= n <= 0x200A)
    || n == 0x2028 || n == 0x2029 || n == 0x202F || n == 0x205F || n == 0x3000
  }

  /** Drops the leading white space. */
  function TrimLeft(s: string): (r: string)
    ensures |r| <= |s| && r == s[|s| - |r|..]
    ensures |r| > 0 ==> !IsSpace(r[0])
    ensures forall i :: 0 <= i < |s| - |r| ==> IsSpace(s[i])
  {
    if |s| > 0 && IsSpace(s[0]) then TrimLeft(s[1..]) else s
  }

  /** Drops the trailing white space. */
  function TrimRight(s: string): (r: string)
    ensures |r| <= |s| && r == s[..|r|]
    ensures |r| > 0 ==> !IsSpace(r[|r| - 1])
    ensures forall i :: |r| <= i < |s| ==> IsSpace(s[i])
  {
    if |s| > 0 && IsSpace(s[|s| - 1]) then TrimRight(s[..|s| - 1]) else s
  }

  /** Every character of `t` is white space. */
  predicate AllSpace(t: string)
  {
    forall k :: 0 <= k < |t| ==> IsSpace(t[k])
  }

  /** `r` is the part of `s` starting at `i`, with only white space before and after it. */
  predicate Surrounded(s: string, r: string, i: int)
  {
    && 0 <= i <= |s| - |r|
    && r == s[i..i + |r|]
    && (forall k :: 0 <= k < i ==> IsSpace(s[k]))
    && (forall k :: i + |r| <= k < |s| ==> IsSpace(s[k]))
  }

  /**
   * `strings.TrimSpace`: the middle part of `s` that neither starts nor ends with
   * white space, with only white space before and after it. It is `s` itself when
   * `s` has no white space at its ends, and empty when `s` is all white space.
   */
  function TrimSpace(s: string): (r: string)
    ensures |r| > 0 ==> !IsSpace(r[0]) && !IsSpace(r[|r| - 1])
    ensures exists i :: Surrounded(s, r, i)
    ensures |s| > 0 && !IsSpace(s[0]) && !IsSpace(s[|s| - 1]) ==> r == s
    ensures AllSpace(s) ==> r == ""
  {
    TrimmedEnds(s);
    TrimmedMiddle(s);
    TrimmedAllSpace(s);
    TrimRight(TrimLeft(s))
  }

  /** Both trims leave no white space at either end, and leave alone a string without any there. */
  lemma TrimmedEnds(s: string)
    ensures var r := TrimRight(TrimLeft(s));
      && (|r| > 0 ==> !IsSpace(r[0]) && !IsSpace(r[|r| - 1]))
      && (|s| > 0 && !IsSpace(s[0]) && !IsSpace(s[|s| - 1]) ==> r == s)
  {
    var left := TrimLeft(s);
    var r := TrimRight(left);
    assert |r| > 0 ==> r[0] == left[0];
  }

  /** What both trims leave is surrounded by white space. */
  lemma TrimmedMiddle(s: string)
    ensures var left := TrimLeft(s); Surrounded(s, TrimRight(left), |s| - |left|)
  {
    var left := TrimLeft(s);
    SurroundedPart(s, |s| - |left|, left, TrimRight(left));
  }

  /** Both trims leave nothing of an all-white-space string. */
  lemma TrimmedAllSpace(s: string)
    ensures AllSpace(s) ==> TrimRight(TrimLeft(s)) == ""
  {
  }

  /**
   * A part `r` of `s` at `i`, with white space before
   * it (the leading white space `TrimLeft` drops) and white space after it within
   * the rest `left` (the trailing white space `TrimRight` drops), is surrounded by
   * white space.
   */
  lemma SurroundedPart(s: string, i: int, left: string, r: string)
    requires 0 <= i <= |s| && left == s[i..]
    requires forall k :: 0 <= k < i ==> IsSpace(s[k])
    requires |r| <= |left| && r == left[..|r|]
    requires forall j :: |r| <= j < |left| ==> IsSpace(left[j])
    ensures Surrounded(s, r, i)
  {
    forall k | i + |r| <= k < |s|
      ensures IsSpace(s[k])
    {
      assert s[k] == left[k - i];
    }
  }
}
