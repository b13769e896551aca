/** The two rewriting primitives of Go's `strings` package that the recipe
    cleaner relies on, `strings.ReplaceAll` and `(*strings.Replacer).Replace`,
    stated as pure recursive functions over `string` (`seq<char>`).

    Go strings are byte strings. Every pattern used by the image client is
    ASCII, and an ASCII byte never occurs inside a multi-byte UTF-8 sequence,
    so matching characters here matches bytes there. */
module GoStrings {

  datatype Option<+T> = None | Some(value: T)

  /** `strings.HasPrefix(s, p)`. */
  predicate HasPrefix(s: string, p: string) {
    |p| <= |s| && s[..|p|] == p
  }

  /** `p` occurs in `s` starting at byte offset `i`. */
  predicate OccursAt(s: string, p: string, i: nat) {
    i + |p| <= |s| && s[i..i + |p|] == p
  }

  /** `strings.Contains(s, p)`. */
  predicate Contains(s: string, p: string) {
    exists i: nat :: i <= |s| && OccursAt(s, p, i)
  }

  /** `strings.Index(s, p)`: the first offset at which `p` occurs, or -1. */
  function Index(s: string, p: string): (r: int)
    ensures r == -1 <==> !Contains(s, p)
    ensures r != -1 ==> 0 <= r && OccursAt(s, p, r) && forall j: nat :: j < r ==> !OccursAt(s, p, j)
    decreases |s|
  {
    OccursAtZero(s, p);
    if HasPrefix(s, p) then 0
    else if s == [] then -1
    else
      var k := Index(s[1..], p);
      ContainsTail(s, p);
      if k == -1 then -1 else k + 1
  }

  /** An occurrence at offset 0 is a prefix. */
  lemma OccursAtZero(s: string, p: string)
    ensures OccursAt(s, p, 0) <==> HasPrefix(s, p)
  {
    if |p| <= |s| { assert s[0..0 + |p|] == s[..|p|]; }
  }

  /** Occurrences in `s[1..]` are the occurrences in `s` past offset 0. */
  lemma OccursAtTail(s: string, p: string)
    requires s != []
    ensures forall j: nat :: OccursAt(s[1..], p, j) <==> OccursAt(s, p, j + 1)
    ensures forall j: nat :: 0 < j ==> (OccursAt(s, p, j) <==> OccursAt(s[1..], p, j - 1))
  {
    forall j: nat ensures OccursAt(s[1..], p, j) <==> OccursAt(s, p, j + 1) {
      if j + |p| <= |s| - 1 {
        assert s[1..][j..j + |p|] == s[j + 1..j + 1 + |p|];
      }
    }
  }

  /** `p` occurs in a non-empty `s` exactly when it is a prefix of `s` or
      occurs in `s[1..]`. */
  lemma ContainsTail(s: string, p: string)
    requires s != []
    ensures Contains(s, p) <==> HasPrefix(s, p) || Contains(s[1..], p)
    ensures forall j: nat :: OccursAt(s[1..], p, j) <==> OccursAt(s, p, j + 1)
    ensures forall j: nat :: 0 < j ==> (OccursAt(s, p, j) <==> OccursAt(s[1..], p, j - 1))
  {
    OccursAtZero(s, p);
    OccursAtTail(s, p);
    if Contains(s, p) && !HasPrefix(s, p) {
      var j: nat :| j <= |s| && OccursAt(s, p, j);
      assert OccursAt(s[1..], p, j - 1);
    }
    if Contains(s[1..], p) {
      var j: nat :| j <= |s[1..]| && OccursAt(s[1..], p, j);
      assert OccursAt(s, p, j + 1);
    }
  }

  /** What `strings.ReplaceAll(s, "", repl)` does: `repl` before every
      character and once more at the end. */
  function InsertEverywhere(s: string, repl: string): string
  {
    if s == [] then repl else repl + [s[0]] + InsertEverywhere(s[1..], repl)
  }

  /** `strings.ReplaceAll(s, pat, repl)`: scanning left to right, every
      non-overlapping occurrence of `pat` is replaced by `repl`; text that
      has been replaced is not scanned again. */
  function ReplaceAll(s: string, pat: string, repl: string): string
    decreases |s|
  {
    if pat == [] then InsertEverywhere(s, repl)
    else if HasPrefix(s, pat) then repl + ReplaceAll(s[|pat|..], pat, repl)
    else if s == [] then []
    else [s[0]] + ReplaceAll(s[1..], pat, repl)
  }

  /** A string in which `pat` does not occur comes back unchanged. */
  lemma {:induction false} ReplaceAllAbsent(s: string, pat: string, repl: string)
    requires pat != [] && !Contains(s, pat)
    ensures ReplaceAll(s, pat, repl) == s
    decreases |s|
  {
    if s != [] {
      ContainsTail(s, pat);
      ReplaceAllAbsent(s[1..], pat, repl);
    }
  }

  /** `ReplaceAll` agrees with Go's own algorithm: copy up to the first
      occurrence `i` found by `Index`, emit `repl`, and continue after the
      match. */
  lemma {:induction false} ReplaceAllByIndex(s: string, pat: string, repl: string, i: int)
    requires pat != [] && i == Index(s, pat)
    ensures i == -1 ==> ReplaceAll(s, pat, repl) == s
    ensures i != -1 ==> ReplaceAll(s, pat, repl) == s[..i] + repl + ReplaceAll(s[i + |pat|..], pat, repl)
  {
    if i == -1 {
      ReplaceAllAbsent(s, pat, repl);
    } else {
      ReplaceAllFirstAt(s, pat, repl, i);
    }
  }

  /** Where the first occurrence of `pat` in `s` is at offset `i`, the text
      before it is copied and the occurrence replaced. */
  lemma {:induction false} ReplaceAllFirstAt(s: string, pat: string, repl: string, i: nat)
    requires pat != [] && OccursAt(s, pat, i)
    requires forall j: nat :: j < i ==> !OccursAt(s, pat, j)
    ensures ReplaceAll(s, pat, repl) == s[..i] + repl + ReplaceAll(s[i + |pat|..], pat, repl)
    decreases i
  {
    if i == 0 {
      OccursAtZero(s, pat);
      assert s[..0] == [];
    } else {
      var k: nat := i - 1;
      FirstOccurrenceTail(s, pat, k, i);
      ReplaceAllFirstAt(s[1..], pat, repl, k);
      ReplaceAllLaterMatch(s, pat, repl, k, i);
    }
  }

  /** A first occurrence at offset `i = k + 1` is a first occurrence at
      offset `k` of `s[1..]`, and `pat` is not a prefix of `s`. */
  lemma FirstOccurrenceTail(s: string, pat: string, k: nat, i: nat)
    requires i == k + 1
    requires pat != [] && OccursAt(s, pat, i)
    requires forall j: nat :: j < i ==> !OccursAt(s, pat, j)
    ensures !HasPrefix(s, pat) && OccursAt(s[1..], pat, k)
    ensures forall j: nat :: j < k ==> !OccursAt(s[1..], pat, j)
  {
    OccursAtZero(s, pat);
    OccursAtTail(s, pat);
  }

  /** The step where the first occurrence is past offset 0: the first
      character is copied in front of the tail's result. */
  lemma ReplaceAllLaterMatch(s: string, pat: string, repl: string, k: nat, i: nat)
    requires i == k + 1
    requires pat != [] && i + |pat| <= |s| && !HasPrefix(s, pat)
    requires ReplaceAll(s[1..], pat, repl) == s[1..][..k] + repl + ReplaceAll(s[1..][k + |pat|..], pat, repl)
    ensures ReplaceAll(s, pat, repl) == s[..i] + repl + ReplaceAll(s[i + |pat|..], pat, repl)
  {
    ReplaceAllSkip(s, pat, repl);
    assert s[1..][k + |pat|..] == s[i + |pat|..];
    ConsOntoSlice(s, k, repl, ReplaceAll(s[i + |pat|..], pat, repl));
  }

  /** An unmatched first character is copied. */
  lemma ReplaceAllSkip(s: string, pat: string, repl: string)
    requires pat != [] && s != [] && !HasPrefix(s, pat)
    ensures ReplaceAll(s, pat, repl) == [s[0]] + ReplaceAll(s[1..], pat, repl)
  {
  }

  /** Putting back the first character of `s` in front of a prefix of `s[1..]`. */
  lemma ConsOntoSlice(s: string, k: nat, mid: string, rest: string)
    requires k + 1 <= |s|
    ensures [s[0]] + (s[1..][..k] + mid + rest) == s[..k + 1] + mid + rest
  {
    assert [s[0]] + s[1..][..k] == s[..k + 1];
  }

  /** One old/new argument pair of `strings.NewReplacer`. */
  datatype Pair = Pair(pattern: string, replacement: string)

  /** A `strings.Replacer` built from its pairs in argument order. */
  datatype Replacer = Replacer(pairs: seq<Pair>)

  /** Replacers whose old strings are all non-empty. */
  predicate NonEmptyPatterns(r: Replacer) {
    forall k :: 0 <= k < |r.pairs| ==> r.pairs[k].pattern != []
  }

  /** The pair the replacer uses at the start of `s`: the earliest pair in
      argument order whose old string is a prefix of `s`. */
  function FirstMatch(pairs: seq<Pair>, s: string): (m: Option<nat>)
    ensures m.Some? ==>
              m.value < |pairs| && HasPrefix(s, pairs[m.value].pattern) &&
              forall k :: 0 <= k < m.value ==> !HasPrefix(s, pairs[k].pattern)
    ensures m.None? ==> forall k :: 0 <= k < |pairs| ==> !HasPrefix(s, pairs[k].pattern)
  {
    if pairs == [] then None
    else if HasPrefix(s, pairs[0].pattern) then Some(0)
    else match FirstMatch(pairs[1..], s)
      case None => None
      case Some(k) => Some(k + 1)
  }

  /** `(*strings.Replacer).Replace(s)`: one left-to-right pass; at each
      position the earliest-listed matching pair wins, its new string is
      emitted and the scan resumes after the matched text, so emitted text is
      never examined again. */
  function Replace(r: Replacer, s: string): string
    requires NonEmptyPatterns(r)
    decreases |s|
  {
    if s == [] then []
    else match FirstMatch(r.pairs, s)
      case Some(k) => r.pairs[k].replacement + Replace(r, s[|r.pairs[k].pattern|..])
      case None => [s[0]] + Replace(r, s[1..])
  }

  /** A string in which no old string occurs comes back unchanged. */
  lemma {:induction false} ReplaceAbsent(r: Replacer, s: string)
    requires NonEmptyPatterns(r)
    requires forall k :: 0 <= k < |r.pairs| ==> !Contains(s, r.pairs[k].pattern)
    ensures Replace(r, s) == s
    decreases |s|
  {
    if s != [] {
      forall k | 0 <= k < |r.pairs|
        ensures !HasPrefix(s, r.pairs[k].pattern) && !Contains(s[1..], r.pairs[k].pattern)
      {
        ContainsTail(s, r.pairs[k].pattern);
      }
      ReplaceAbsent(r, s[1..]);
    }
  }

  /** Where pair `k` is the one chosen at the start of `s`, its old string is
      consumed and its new string emitted unexamined. */
  lemma ReplaceAtMatch(r: Replacer, k: nat, t: string)
    requires NonEmptyPatterns(r) && k < |r.pairs|
    requires FirstMatch(r.pairs, r.pairs[k].pattern + t) == Some(k)
    ensures Replace(r, r.pairs[k].pattern + t) == r.pairs[k].replacement + Replace(r, t)
  {
    assert (r.pairs[k].pattern + t)[|r.pairs[k].pattern|..] == t;
  }

  /** Where no old string starts at the first character, it is copied. */
  lemma ReplaceCopies(r: Replacer, c: char, t: string)
    requires NonEmptyPatterns(r)
    requires FirstMatch(r.pairs, [c] + t) == None
    ensures Replace(r, [c] + t) == [c] + Replace(r, t)
  {
    assert ([c] + t)[1..] == t;
  }
}
