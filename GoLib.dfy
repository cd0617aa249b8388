/** The few Go standard-library operations the wrapper relies on: `errors.New`,
    `strings.HasSuffix`, `strings.Contains`, `strings.TrimSuffix`, and
    `filepath.Base` / `filepath.Ext` for a system whose only path separator
    is '/'. */
module GoLib {

  /** A Go `error` as built by `errors.New(message)`. */
  datatype Error = Error(message: string)

  /** `strings.HasSuffix(s, suffix)`. */
  predicate HasSuffix(s: string, suffix: string)
  {
    |suffix| <= |s| && s[|s| - |suffix|..] == suffix
  }

  /** `sub` occurs in `s` starting at index `i`. */
  predicate OccursAt(s: string, sub: string, i: int)
  {
    0 <= i <= |s| - |sub| && s[i..i + |sub|] == sub
  }

  /** `strings.Contains(s, sub)`. */
  predicate Contains(s: string, sub: string)
  {
    exists i | 0 <= i <= |s| - |sub| :: OccursAt(s, sub, i)
  }

  /** `strings.TrimSuffix(s, suffix)`. */
  function TrimSuffix(s: string, suffix: string): (r: string)
    ensures HasSuffix(s, suffix) ==> r + suffix == s
    ensures !HasSuffix(s, suffix) ==> r == s
  {
    if HasSuffix(s, suffix) then s[..|s| - |suffix|] else s
  }

  /** Every character of `s` is a path separator. */
  predicate IsSlashes(s: string)
  {
    forall k | 0 <= k < |s| :: s[k] == '/'
  }

  /** The first step of `filepath.Base`: drop every trailing separator. */
  function TrimTrailingSlashes(s: string): (r: string)
    ensures r <= s
    ensures r == [] || r[|r| - 1] != '/'
    ensures IsSlashes(s[|r|..])
  {
    if |s| > 0 && s[|s| - 1] == '/' then
      var r := TrimTrailingSlashes(s[..|s| - 1]);
      assert s[|r|..] == s[..|s| - 1][|r|..] + ['/'];
      r
    else
      s
  }

  /** The text after the last separator of `s` (all of `s` when it has none). */
  function LastElement(s: string): (r: string)
    ensures '/' !in r
    ensures HasSuffix(s, r)
    ensures |r| < |s| ==> s[|s| - |r| - 1] == '/'
  {
    if |s| == 0 || s[|s| - 1] == '/' then []
    else
      var r := LastElement(s[..|s| - 1]);
      assert s[|s| - |r| - 1..] == s[..|s| - 1][|s| - 1 - |r|..] + [s[|s| - 1]];
      r + [s[|s| - 1]]
  }

  /** A last character other than a separator extends the last element. */
  lemma LastElementSnoc(path: string)
    requires path != [] && path[|path| - 1] != '/'
    ensures LastElement(path) == LastElement(path[..|path| - 1]) + [path[|path| - 1]]
  {
  }

  /** `filepath.Base(path)`: the last element of the path, trailing
      separators ignored; "." for the empty path and "/" for a path made of
      separators only. */
  function Base(path: string): (r: string)
    ensures r != []
    ensures r == "/" || '/' !in r
    ensures path == [] ==> r == "."
    ensures path != [] && IsSlashes(path) ==> r == "/"
  {
    if path == [] then "."
    else
      var e := LastElement(TrimTrailingSlashes(path));
      if e == [] then "/" else e
  }

  /** `filepath.Ext(path)`: the suffix of the last element that starts at its
      last '.', or "" when the last element has no '.'. With `ExtEmptyIff`
      the ensures pin the result down: a suffix without separator lies
      within the last element, and one that starts with its only '.' starts
      at the last '.' there. */
  function Ext(path: string): (r: string)
    ensures r == [] || (r[0] == '.' && '.' !in r[1..])
    ensures '/' !in r
    ensures HasSuffix(path, r)
  {
    if |path| == 0 || path[|path| - 1] == '/' then []
    else if path[|path| - 1] == '.' then "."
    else
      var e := Ext(path[..|path| - 1]);
      if e == [] then []
      else
        assert (e + [path[|path| - 1]])[1..] == e[1..] + [path[|path| - 1]];
        assert path[|path| - |e| - 1..] == path[..|path| - 1][|path| - 1 - |e|..] + [path[|path| - 1]];
        e + [path[|path| - 1]]
  }

  /** Appending a '.' to a path gives the extension ".". */
  lemma ExtAfterDot(s: string)
    ensures Ext(s + ['.']) == "."
  {
  }

  /** Appending a character other than '.' and '/' extends a non-empty
      extension by that character and leaves an empty one empty. */
  lemma ExtAppend(s: string, c: char)
    requires c != '.' && c != '/'
    ensures Ext(s + [c]) == if Ext(s) == [] then [] else Ext(s) + [c]
  {
    assert (s + [c])[..|s|] == s;
  }

  /** The extension is empty exactly when the last element has no '.'. */
  lemma {:induction false} ExtEmptyIff(path: string)
    ensures Ext(path) == [] <==> '.' !in LastElement(path)
    decreases |path|
  {
    if |path| == 0 || path[|path| - 1] == '/' {
      assert LastElement(path) == [];
    } else if path[|path| - 1] == '.' {
      LastElementSnoc(path);
      InSnoc(LastElement(path[..|path| - 1]), '.', '.');
    } else {
      var init := path[..|path| - 1];
      ExtEmptyIff(init);
      ExtStepEmpty(path);
      LastElementSnoc(path);
      InSnoc(LastElement(init), path[|path| - 1], '.');
    }
  }

  /** A last character other than '.' and '/' keeps the extension empty or
      non-empty. */
  lemma ExtStepEmpty(path: string)
    requires path != [] && path[|path| - 1] != '/' && path[|path| - 1] != '.'
    ensures Ext(path) == [] <==> Ext(path[..|path| - 1]) == []
  {
  }

  lemma InSnoc(s: string, c: char, x: char)
    ensures x in s + [c] <==> x in s || x == c
  {
    assert (s + [c])[|s|] == c;
    assert forall k | 0 <= k < |s| :: (s + [c])[k] == s[k];
  }

  // ---------------------------------------------------------------------
  // Sequence facts the proofs about paths use, stated apart from the
  // string functions so that the solver sees no function to unfold

  lemma DropLastOfConcat(a: string, b: string)
    requires b != []
    ensures (a + b)[..|a + b| - 1] == a + b[..|b| - 1]
  {
  }

  lemma InitLast(s: string)
    requires s != []
    ensures s[..|s| - 1] + [s[|s| - 1]] == s
  {
  }

  lemma SnocAssoc(a: string, b: string, c: char)
    ensures a + (b + [c]) == (a + b) + [c]
  {
  }

  lemma PrefixOfConcat(a: string, b: string)
    ensures (a + b)[..|a|] == a
  {
  }

  lemma HeadTail(s: seq<string>)
    requires s != []
    ensures [s[0]] + s[1..] == s
  {
  }

  lemma Regroup(dir: string, name: string, rest: string, slashes: string)
    ensures dir + name + ['.'] + rest + slashes == dir + (name + ['.'] + rest) + slashes
  {
  }
}
