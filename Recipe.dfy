/** The text that `dockerFile` builds from an image history: the cleaner
    (a `strings.Replacer` with three rules), the pass over the reserved
    instruction keywords, and the assembled recipe. The method that builds
    the text step by step is `ImageClient.DockerImageClient.DockerFile`; the
    functions here are its specification. */
module Recipe {
  import opened GoStrings
  import opened Engine

  /** The marker Docker records for a layer made by a declarative instruction. */
  const NopMarker: string := "/bin/sh -c #(nop) "
  /** The shell prefix of a layer made by a `RUN` instruction. */
  const ShellPrefix: string := "/bin/sh -c"
  const RunShell: string := "RUN " + ShellPrefix
  const AndOperator: string := "&&"
  /** A backslash, a newline, four spaces and the operator. */
  const Continuation: string := "\\\n    " + AndOperator

  /** `cleaner` in `dockerFile`, its pairs in argument order. */
  const Cleaner: Replacer :=
    Replacer([Pair(NopMarker, ""), Pair(ShellPrefix, RunShell), Pair(AndOperator, Continuation)])

  /** `reservedInstructions` in `dockerFile`; `EXPOSE` is listed twice. */
  const ReservedInstructions: seq<string> :=
    ["ENV", "EXPOSE", "ARG", "LABEL", "USER", "EXPOSE", "CMD", "MAINTAINER",
     "ENTRYPOINT", "STOPSIGNAL", "COPY", "VOLUME", "WORKDIR", "ONBUILD",
     "HEALTHCHECK", "SHELL"]

  /** `cleaner.Replace(createdBy)`. */
  function Clean(createdBy: string): string {
    Replace(Cleaner, createdBy)
  }

  /** The keyword loop: for each keyword in list order,
      `steps = strings.ReplaceAll(steps, " " + kw, kw)`. */
  function StripSpaces(keywords: seq<string>, steps: string): string
    decreases |keywords|
  {
    if keywords == [] then steps
    else StripSpaces(keywords[1..], ReplaceAll(steps, " " + keywords[0], keywords[0]))
  }

  /** The text emitted for one non-empty `CreatedBy` string. */
  function CleanedStep(createdBy: string): string {
    StripSpaces(ReservedInstructions, Clean(createdBy))
  }

  /** The text a newest-first history emits, oldest record first: each
      record with a non-empty `CreatedBy` contributes `step(CreatedBy)` and a
      newline, the others nothing. `dockerFile` uses `CleanedStep`. */
  function Emitted(history: seq<HistoryRecord>, step: string -> string): string {
    if history == [] then ""
    else
      Emitted(history[1..], step) +
      (if history[0].createdBy == "" then "" else step(history[0].createdBy) + "\n")
  }

  /** The recipe `dockerFile` returns for anchor `base` and a history. */
  function Dockerfile(base: string, history: seq<HistoryRecord>): string {
    "FROM " + base + "\n" + Emitted(history, CleanedStep)
  }

  // ---------------------------------------------------------------------
  // The cleaner: one left-to-right pass with three rules.

  /** The cleaner's old strings are non-empty, as `Replace` requires. */
  lemma CleanerPatternsNonEmpty()
    ensures NonEmptyPatterns(Cleaner)
  {
  }

  /** The no-op marker is deleted. */
  lemma CleanDropsNopMarker(t: string)
    ensures Clean(NopMarker + t) == Clean(t)
  {
    assert HasPrefix(NopMarker + t, NopMarker) by { assert (NopMarker + t)[..|NopMarker|] == NopMarker; }
    ReplaceAtMatch(Cleaner, 0, t);
  }

  /** Where the marker does not match, the shell prefix becomes
      `RUN /bin/sh -c`, and the inserted `RUN` text is not looked at again. */
  lemma CleanRewritesShell(t: string)
    requires !HasPrefix(t, " #(nop) ")
    ensures Clean(ShellPrefix + t) == RunShell + Clean(t)
  {
    var s := ShellPrefix + t;
    if |t| >= 8 {
      assert s[10..18] == t[..8];
    }
    assert !HasPrefix(s, NopMarker);
    assert HasPrefix(s, ShellPrefix) by { assert s[..|ShellPrefix|] == ShellPrefix; }
    ReplaceAtMatch(Cleaner, 1, t);
  }

  /** Every `&&` gets a line continuation in front of it. */
  lemma CleanBreaksAnd(t: string)
    ensures Clean(AndOperator + t) == Continuation + Clean(t)
  {
    var s := AndOperator + t;
    assert s[0] == '&';
    assert !HasPrefix(s, NopMarker) && !HasPrefix(s, ShellPrefix);
    assert HasPrefix(s, AndOperator) by { assert s[..2] == AndOperator; }
    ReplaceAtMatch(Cleaner, 2, t);
  }

  /** Where none of the three patterns starts, the character is copied. */
  lemma CleanCopies(c: char, t: string)
    requires !HasPrefix([c] + t, NopMarker) && !HasPrefix([c] + t, ShellPrefix)
    requires !HasPrefix([c] + t, AndOperator)
    ensures Clean([c] + t) == [c] + Clean(t)
  {
    ReplaceCopies(Cleaner, c, t);
  }

  /** Text without `/` and `&` is left as it is. */
  lemma CleanInert(s: string)
    requires '/' !in s && '&' !in s
    ensures Clean(s) == s
  {
    CleanPlain(s, "");
    assert s + "" == s;
  }

  /** Text without `/` and `&` starts no pattern and is copied as it is. */
  lemma {:induction false} CleanPlain(u: string, v: string)
    requires '/' !in u && '&' !in u
    ensures Clean(u + v) == u + Clean(v)
    decreases |u|
  {
    if u != [] {
      var s := u + v;
      assert s[0] == u[0];
      assert !HasPrefix(s, NopMarker) && !HasPrefix(s, ShellPrefix) && !HasPrefix(s, AndOperator) by {
        assert u[0] != '/' && u[0] != '&';
      }
      assert s == [u[0]] + (u[1..] + v);
      CleanCopies(u[0], u[1..] + v);
      CleanPlain(u[1..], v);
      assert [u[0]] + (u[1..] + Clean(v)) == u + Clean(v);
    } else {
      assert u + v == v;
    }
  }

  /** Cleaning is not idempotent: the `/bin/sh -c` rule matches its own
      output. */
  lemma ShellRuleNotIdempotent()
    ensures Clean(ShellPrefix) == RunShell
    ensures Clean(Clean(ShellPrefix)) == "RUN " + RunShell != RunShell
  {
    CleanRewritesShell("");
    assert ShellPrefix + "" == ShellPrefix;
    CleanPlain("RUN ", ShellPrefix);
  }

  /** Nor for `&&`: a cleaned `&&` gets a second continuation. */
  lemma AndRuleNotIdempotent()
    ensures Clean(AndOperator) == Continuation
    ensures Clean(Clean(AndOperator)) == "\\\n    " + Continuation != Continuation
  {
    CleanBreaksAnd("");
    assert AndOperator + "" == AndOperator;
    CleanPlain("\\\n    ", AndOperator);
  }

  // ---------------------------------------------------------------------
  // The keyword pass.

  /** Keywords none of which occurs after a space leave the text unchanged. */
  lemma {:induction false} StripSpacesAbsent(keywords: seq<string>, steps: string)
    requires forall k :: 0 <= k < |keywords| ==> !Contains(steps, " " + keywords[k])
    ensures StripSpaces(keywords, steps) == steps
    decreases |keywords|
  {
    if keywords != [] {
      ReplaceAllAbsent(steps, " " + keywords[0], keywords[0]);
      StripSpacesAbsent(keywords[1..], steps);
    }
  }

  /** A keyword holding a character that the text lacks is skipped. */
  lemma SkipByChar(keywords: seq<string>, steps: string, c: char)
    requires keywords != [] && c in keywords[0] && c !in steps
    ensures StripSpaces(keywords, steps) == StripSpaces(keywords[1..], steps)
  {
    AbsentByChar(steps, " " + keywords[0], c);
    ReplaceAllAbsent(steps, " " + keywords[0], keywords[0]);
  }

  /** No space in the text is followed by an upper-case letter. */
  predicate NoSpaceBeforeUpper(s: string) {
    forall i :: 0 <= i < |s| - 1 && s[i] == ' ' ==> !('A' <= s[i + 1] <= 'Z')
  }

  /** Such text contains no space followed by a keyword. */
  lemma NoSpacedKeyword(s: string, kw: string)
    requires NoSpaceBeforeUpper(s) && kw != [] && 'A' <= kw[0] <= 'Z'
    ensures !Contains(s, " " + kw)
  {
    forall i: nat | i <= |s| ensures !OccursAt(s, " " + kw, i) {
      if i + 1 + |kw| <= |s| {
        var w := s[i..i + 1 + |kw|];
        assert w[0] == s[i] && w[1] == s[i + 1];
      }
    }
  }

  /** Every keyword begins with an upper-case letter. */
  predicate UpperKeywords(keywords: seq<string>) {
    forall k :: 0 <= k < |keywords| ==> keywords[k] != [] && 'A' <= keywords[k][0] <= 'Z'
  }

  /** Every reserved instruction begins with an upper-case letter. */
  lemma ReservedUpper()
    ensures UpperKeywords(ReservedInstructions)
  {
  }

  /** The entries of the list that the worked cases below go through. */
  lemma ReservedFacts()
    ensures UpperKeywords(ReservedInstructions) && |ReservedInstructions| == 16
    ensures 'E' in ReservedInstructions[0] && 'N' in ReservedInstructions[0]
    ensures ReservedInstructions[1] == "EXPOSE" && ReservedInstructions[2] == "ARG"
    ensures 'A' in ReservedInstructions[2] && 'L' in ReservedInstructions[3] && 'U' in ReservedInstructions[4]
    ensures ReservedInstructions[5] == "EXPOSE"
  {
    ReservedUpper();
  }

  /** Dropping the first keyword keeps the rest upper-case. */
  lemma UpperKeywordsTail(keywords: seq<string>)
    requires UpperKeywords(keywords) && keywords != []
    ensures UpperKeywords(keywords[1..])
  {
    forall k | 0 <= k < |keywords| - 1 ensures keywords[1..][k] == keywords[k + 1] { }
  }

  /** The keyword pass leaves text with no space before an upper-case letter
      unchanged. */
  lemma StripSpacesNoSpacedUpper(keywords: seq<string>, steps: string)
    requires UpperKeywords(keywords) && NoSpaceBeforeUpper(steps)
    ensures StripSpaces(keywords, steps) == steps
  {
    forall k | 0 <= k < |keywords| ensures !Contains(steps, " " + keywords[k]) {
      NoSpacedKeyword(steps, keywords[k]);
    }
    StripSpacesAbsent(keywords, steps);
  }

  /** The property survives concatenation when the seam is harmless. */
  lemma NoSpaceBeforeUpperConcat(a: string, b: string)
    requires NoSpaceBeforeUpper(a) && NoSpaceBeforeUpper(b)
    requires a != [] && b != [] && a[|a| - 1] == ' ' ==> !('A' <= b[0] <= 'Z')
    ensures NoSpaceBeforeUpper(a + b)
  {
    var s := a + b;
    forall i | 0 <= i < |s| - 1 && s[i] == ' ' ensures !('A' <= s[i + 1] <= 'Z') {
      if i < |a| - 1 {
        assert s[i] == a[i] && s[i + 1] == a[i + 1];
      } else if i == |a| - 1 {
        assert s[i + 1] == b[0];
      } else {
        assert s[i] == b[i - |a|] && s[i + 1] == b[i - |a| + 1];
      }
    }
  }

  /** A character absent from `s` rules out every pattern that holds it. */
  lemma AbsentByChar(s: string, p: string, c: char)
    requires c in p && c !in s
    ensures !Contains(s, p)
  {
    if Contains(s, p) {
      assert false;
    }
  }

  /** A `CreatedBy` string with none of the cleaner's patterns and no space
      followed by a reserved keyword is emitted unchanged. */
  lemma CleanedStepUnchanged(s: string)
    requires !Contains(s, NopMarker) && !Contains(s, ShellPrefix) && !Contains(s, AndOperator)
    requires forall k :: 0 <= k < |ReservedInstructions| ==> !Contains(s, " " + ReservedInstructions[k])
    ensures CleanedStep(s) == s
  {
    ReplaceAbsent(Cleaner, s);
    StripSpacesAbsent(ReservedInstructions, s);
  }

  /** `" " + kw` followed by text without the first letter of `kw` loses its
      space, and only that one. */
  lemma SpaceDropped(kw: string, t: string)
    requires kw != [] && kw[0] !in t
    ensures ReplaceAll(" " + kw + t, " " + kw, kw) == kw + t
  {
    var s := " " + kw + t;
    assert HasPrefix(s, " " + kw) by { assert s[..|kw| + 1] == " " + kw; }
    assert s[|kw| + 1..] == t;
    AbsentByChar(t, " " + kw, kw[0]);
    ReplaceAllAbsent(t, " " + kw, kw);
  }

  /** Text that none of the rules can touch: no upper-case letter (so no
      keyword) and none of `/`, `&`, `#` (so no cleaner pattern). */
  predicate Inert(t: string) {
    forall i :: 0 <= i < |t| ==> !('A' <= t[i] <= 'Z') && t[i] != '/' && t[i] != '&' && t[i] != '#'
  }

  /** What inert text lacks, spelled out. */
  lemma InertFacts(t: string)
    requires Inert(t)
    ensures NoSpaceBeforeUpper(t) && '/' !in t && '&' !in t && '#' !in t
    ensures forall c :: 'A' <= c <= 'Z' ==> c !in t
  {
  }

  /** Inert text concatenated is inert. */
  lemma InertConcat(a: string, b: string)
    requires Inert(a) && Inert(b)
    ensures Inert(a + b)
  {
    var s := a + b;
    forall i | 0 <= i < |s| ensures s[i] == if i < |a| then a[i] else b[i - |a|] { }
  }

  /** Keywords are matched as substrings: the space before `ARGS` goes too,
      although `ARGS` is no keyword. */
  lemma KeywordMatchIsSubstring(t: string)
    requires Inert(t)
    ensures CleanedStep(" ARGS" + t) == "ARGS" + t
  {
    InertFacts(t);
    CleanInert(" ARGS" + t);
    ReservedFacts();
    ArgsPass(ReservedInstructions, t);
  }

  /** The pass over a list that starts with two keywords holding `E` and
      then `ARG`. */
  lemma ArgsPass(keywords: seq<string>, t: string)
    requires |keywords| >= 3 && 'E' in keywords[0] && 'E' in keywords[1] && keywords[2] == "ARG"
    requires UpperKeywords(keywords) && Inert(t)
    ensures StripSpaces(keywords, " ARGS" + t) == "ARGS" + t
  {
    InertFacts(t);
    var s := " ARGS" + t;
    SkipByChar(keywords, s, 'E');
    var k1 := keywords[1..];
    SkipByChar(k1, s, 'E');
    UpperKeywordsTail(keywords);
    UpperKeywordsTail(k1);
    ArgsAt(k1[1..], t);
  }

  /** At an `ARG` entry, `" ARGS" + t` loses its space. */
  lemma ArgsAt(keywords: seq<string>, t: string)
    requires keywords != [] && keywords[0] == "ARG" && UpperKeywords(keywords) && Inert(t)
    ensures StripSpaces(keywords, " ARGS" + t) == "ARGS" + t
  {
    InertFacts(t);
    assert " ARGS" + t == " " + "ARG" + ("S" + t);
    SpaceDropped("ARG", "S" + t);
    assert "ARG" + ("S" + t) == "ARGS" + t;
    NoSpaceBeforeUpperConcat("ARGS", t);
    UpperKeywordsTail(keywords);
    StripSpacesNoSpacedUpper(keywords[1..], "ARGS" + t);
  }

  /** At an `EXPOSE` entry, `" EXPOSE " + t` loses its leading space and
      the entries after it change nothing. */
  lemma ExposeAt(keywords: seq<string>, t: string)
    requires keywords != [] && keywords[0] == "EXPOSE" && UpperKeywords(keywords) && Inert(t)
    ensures StripSpaces(keywords, " EXPOSE " + t) == "EXPOSE " + t
  {
    ExposeSpaceDropped(t);
    ExposeLineSpacing(t);
    UpperKeywordsTail(keywords);
    StripSpacesNoSpacedUpper(keywords[1..], "EXPOSE " + t);
    assert " " + keywords[0] == " EXPOSE";
  }

  /** The `EXPOSE` rewrite removes the one space before the keyword. */
  lemma ExposeSpaceDropped(t: string)
    requires Inert(t)
    ensures ReplaceAll(" EXPOSE " + t, " EXPOSE", "EXPOSE") == "EXPOSE " + t
  {
    InertFacts(t);
    assert " EXPOSE " + t == " " + "EXPOSE" + (" " + t);
    SpaceDropped("EXPOSE", " " + t);
    assert "EXPOSE" + (" " + t) == "EXPOSE " + t;
  }

  /** An `EXPOSE` line over inert text has no space before an upper-case letter. */
  lemma ExposeLineSpacing(t: string)
    requires Inert(t)
    ensures NoSpaceBeforeUpper("EXPOSE " + t)
  {
    InertFacts(t);
    NoSpaceBeforeUpperConcat("EXPOSE ", t);
  }

  /** `EXPOSE` is listed twice, so two spaces before it are both removed. */
  lemma ExposeListedTwice(t: string)
    requires Inert(t)
    ensures CleanedStep("  EXPOSE " + t) == "EXPOSE " + t
  {
    InertFacts(t);
    CleanInert("  EXPOSE " + t);
    ReservedFacts();
    DoubleExposePass(ReservedInstructions, t);
  }

  /** The pass over a list that starts `ENV`, `EXPOSE`, three keywords
      holding `A`, `L` and `U`, and `EXPOSE` again. */
  lemma DoubleExposePass(keywords: seq<string>, t: string)
    requires |keywords| >= 6 && 'N' in keywords[0] && keywords[1] == "EXPOSE"
    requires 'A' in keywords[2] && 'L' in keywords[3] && 'U' in keywords[4] && keywords[5] == "EXPOSE"
    requires UpperKeywords(keywords) && Inert(t)
    ensures StripSpaces(keywords, "  EXPOSE " + t) == "EXPOSE " + t
  {
    InertFacts(t);
    var s := "  EXPOSE " + t;
    SkipByChar(keywords, s, 'N');
    var k1 := keywords[1..];
    assert k1[0] == "EXPOSE" && " " + k1[0] == " EXPOSE";
    ExposeOnce(t);
    assert StripSpaces(k1, s) == StripSpaces(k1[1..], " EXPOSE " + t);
    UpperKeywordsTail(keywords);
    UpperKeywordsTail(k1);
    ExposeAgain(k1[1..], t);
  }

  /** The first `EXPOSE` entry takes one of the two spaces. */
  lemma ExposeOnce(t: string)
    requires Inert(t)
    ensures ReplaceAll("  EXPOSE " + t, " EXPOSE", "EXPOSE") == " EXPOSE " + t
  {
    InertFacts(t);
    assert "  EXPOSE " + t == " " + (" " + "EXPOSE" + (" " + t));
    assert " " + "EXPOSE" == " EXPOSE";
    OneOfTwoSpaces("EXPOSE", " " + t);
    assert " " + ("EXPOSE" + (" " + t)) == " EXPOSE " + t;
  }

  /** Past three keywords holding `A`, `L` and `U`, the second `EXPOSE`
      entry takes the other. */
  lemma ExposeAgain(keywords: seq<string>, t: string)
    requires |keywords| >= 4 && 'A' in keywords[0] && 'L' in keywords[1] && 'U' in keywords[2]
    requires keywords[3] == "EXPOSE" && UpperKeywords(keywords) && Inert(t)
    ensures StripSpaces(keywords, " EXPOSE " + t) == "EXPOSE " + t
  {
    InertFacts(t);
    var once := " EXPOSE " + t;
    SkipByChar(keywords, once, 'A');
    var k1 := keywords[1..];
    SkipByChar(k1, once, 'L');
    var k2 := k1[1..];
    SkipByChar(k2, once, 'U');
    UpperKeywordsTail(keywords);
    UpperKeywordsTail(k1);
    UpperKeywordsTail(k2);
    ExposeAt(k2[1..], t);
  }

  /** One pass of `ReplaceAll(" " + kw, kw)` over two spaces and `kw` takes
      only the second space: the first is copied, not matched. */
  lemma OneOfTwoSpaces(kw: string, t: string)
    requires kw != [] && kw[0] != ' ' && kw[0] !in t
    ensures ReplaceAll(" " + (" " + kw + t), " " + kw, kw) == " " + (kw + t)
  {
    var s := " " + (" " + kw + t);
    assert !HasPrefix(s, " " + kw) by { assert s[..|kw| + 1][1] == ' '; }
    ReplaceAllSkip(s, " " + kw, kw);
    assert s[1..] == " " + kw + t;
    SpaceDropped(kw, t);
  }

  // ---------------------------------------------------------------------
  // The assembled recipe.

  /** Later (older) records are emitted before earlier (newer) ones. */
  lemma {:induction false} EmittedAppend(newer: seq<HistoryRecord>, older: seq<HistoryRecord>, step: string -> string)
    ensures Emitted(newer + older, step) == Emitted(older, step) + Emitted(newer, step)
    decreases |newer|
  {
    if newer == [] {
      assert newer + older == older;
    } else {
      assert (newer + older)[1..] == newer[1..] + older;
      EmittedAppend(newer[1..], older, step);
    }
  }

  /** A record emits one newline-terminated segment exactly when its
      `CreatedBy` is non-empty. */
  lemma EmittedSingle(r: HistoryRecord, step: string -> string)
    ensures Emitted([r], step) == if r.createdBy == "" then "" else step(r.createdBy) + "\n"
  {
    assert [r][1..] == [];
  }

  /** A record with an empty `CreatedBy` contributes nothing, wherever it is. */
  lemma EmittedSkipsEmpty(newer: seq<HistoryRecord>, r: HistoryRecord, older: seq<HistoryRecord>, step: string -> string)
    requires r.createdBy == ""
    ensures Emitted(newer + [r] + older, step) == Emitted(newer + older, step)
  {
    EmittedAppend(newer + [r], older, step);
    EmittedAppend(newer, [r], step);
    EmittedSingle(r, step);
    EmittedAppend(newer, older, step);
  }

  /** Every recipe begins with the `FROM` line for its anchor. */
  lemma DockerfileBeginsWithFrom(base: string, history: seq<HistoryRecord>)
    ensures HasPrefix(Dockerfile(base, history), "FROM " + base + "\n")
  {
    var d := Dockerfile(base, history);
    assert d[..|"FROM " + base + "\n"|] == "FROM " + base + "\n";
  }

  /** A history whose records all have an empty `CreatedBy` yields the
      `FROM` line alone. */
  lemma {:induction false} EmittedAllEmpty(history: seq<HistoryRecord>, step: string -> string)
    requires forall k :: 0 <= k < |history| ==> history[k].createdBy == ""
    ensures Emitted(history, step) == ""
    decreases |history|
  {
    if history != [] {
      EmittedAllEmpty(history[1..], step);
    }
  }

  /** The recipe for a two-record history: a declarative `EXPOSE` layer
      (newest) over a tagged `RUN` layer with `&&` (oldest). With port `80`,
      `apt-get update` and `apt-get install -y curl` this is the recipe
      `FROM base:1`, `RUN /bin/sh -c apt-get update \`, `    && apt-get
      install -y curl`, `EXPOSE 80`. */
  lemma DockerfileExample(base: string, port: string, update: string, install: string)
    requires Inert(port) && Inert(update) && Inert(install)
    ensures Dockerfile(base, [
              HistoryRecord([], NopMarker + " EXPOSE " + port),
              HistoryRecord([base], ShellPrefix + " " + update + " " + AndOperator + " " + install)])
            == "FROM " + base + "\n" +
               (RunShell + " " + update + " " + Continuation + " " + install) + "\n" +
               ("EXPOSE " + port) + "\n"
  {
    var expose := HistoryRecord([], NopMarker + " EXPOSE " + port);
    var run := HistoryRecord([base], ShellPrefix + " " + update + " " + AndOperator + " " + install);
    EmittedPair(expose, run, CleanedStep);
    ExposeStep(port);
    RunStep(update, install);
    ConcatRegroup("FROM " + base + "\n", RunShell + " " + update + " " + Continuation + " " + install,
                  "EXPOSE " + port, "\n");
  }

  /** Two records with non-empty `CreatedBy`: the older one comes first. */
  lemma EmittedPair(newer: HistoryRecord, older: HistoryRecord, step: string -> string)
    requires newer.createdBy != "" && older.createdBy != ""
    ensures Emitted([newer, older], step) == (step(older.createdBy) + "\n") + (step(newer.createdBy) + "\n")
  {
    EmittedAppend([newer], [older], step);
    assert [newer] + [older] == [newer, older];
    EmittedSingle(newer, step);
    EmittedSingle(older, step);
  }

  /** Four pieces of text, regrouped. */
  lemma ConcatRegroup(a: string, b: string, c: string, d: string)
    ensures a + ((b + d) + (c + d)) == a + b + d + c + d
  {
  }

  /** The newer record: the marker goes, then the keyword pass removes the space. */
  lemma ExposeStep(t: string)
    requires Inert(t)
    ensures CleanedStep(NopMarker + " EXPOSE " + t) == "EXPOSE " + t
  {
    InertFacts(t);
    assert NopMarker + " EXPOSE " + t == NopMarker + (" EXPOSE " + t);
    CleanDropsNopMarker(" EXPOSE " + t);
    CleanInert(" EXPOSE " + t);
    ReservedFacts();
    ExposePass(ReservedInstructions, t);
  }

  /** The pass over a list that starts with a keyword holding `N`, then `EXPOSE`. */
  lemma ExposePass(keywords: seq<string>, t: string)
    requires |keywords| >= 2 && 'N' in keywords[0] && keywords[1] == "EXPOSE"
    requires UpperKeywords(keywords) && Inert(t)
    ensures StripSpaces(keywords, " EXPOSE " + t) == "EXPOSE " + t
  {
    InertFacts(t);
    SkipByChar(keywords, " EXPOSE " + t, 'N');
    UpperKeywordsTail(keywords);
    ExposeAt(keywords[1..], t);
  }

  /** The older record: `RUN` is prefixed and the `&&` is continued. */
  lemma RunStep(u: string, v: string)
    requires Inert(u) && Inert(v)
    ensures CleanedStep(ShellPrefix + " " + u + " " + AndOperator + " " + v)
            == RunShell + " " + u + " " + Continuation + " " + v
  {
    RunClean(u, v);
    ReservedUpper();
    StripSpacesNoSpacedUpper(ReservedInstructions, RunShell + " " + u + " " + Continuation + " " + v);
  }

  /** The cleaner on a `RUN` layer: `RUN` in front, a continuation before
      `&&`, and no space before an upper-case letter in the result. */
  lemma RunClean(u: string, v: string)
    requires Inert(u) && Inert(v)
    ensures Clean(ShellPrefix + " " + u + " " + AndOperator + " " + v) ==
            RunShell + " " + u + " " + Continuation + " " + v
    ensures NoSpaceBeforeUpper(RunShell + " " + u + " " + Continuation + " " + v)
  {
    InertFacts(u);
    InertFacts(v);
    var first := " " + u + " ";
    var second := " " + v;
    Regroup(ShellPrefix, " ", u, " ", AndOperator, " ", v);
    RunCleanPieces(first, second);
    RunLineSpacing(u, v);
    Regroup(RunShell, " ", u, " ", Continuation, " ", v);
  }

  /** Seven pieces of text, regrouped. */
  lemma Regroup(a: string, b: string, c: string, d: string, e: string, f: string, g: string)
    ensures a + b + c + d + e + f + g == a + ((b + c + d) + (e + (f + g)))
  {
  }

  /** The cleaner on the shell prefix, plain text, `&&` and plain text. */
  lemma RunCleanPieces(first: string, second: string)
    requires |first| >= 2 && first[1] != '#' && '/' !in first && '&' !in first
    requires '/' !in second && '&' !in second
    ensures Clean(ShellPrefix + (first + (AndOperator + second))) == RunShell + (first + (Continuation + second))
  {
    assert !HasPrefix(first + (AndOperator + second), " #(nop) ") by {
      assert (first + (AndOperator + second))[1] == first[1];
    }
    CleanRewritesShell(first + (AndOperator + second));
    CleanPlain(first, AndOperator + second);
    CleanBreaksAnd(second);
    CleanPlain(second, "");
    assert second + "" == second;
  }

  /** The cleaned `RUN` line has no space before an upper-case letter. */
  lemma RunLineSpacing(u: string, v: string)
    requires Inert(u) && Inert(v)
    ensures NoSpaceBeforeUpper(RunShell + ((" " + u + " ") + (Continuation + (" " + v))))
  {
    InertConcat(" ", u);
    InertConcat(" " + u, " ");
    InertConcat(" ", v);
    InertFacts(" " + u + " ");
    InertFacts(" " + v);
    NoSpaceBeforeUpperConcat(Continuation, " " + v);
    NoSpaceBeforeUpperConcat(" " + u + " ", Continuation + (" " + v));
    NoSpaceBeforeUpperConcat(RunShell, (" " + u + " ") + (Continuation + (" " + v)));
  }

  /** The port and commands of the example recipe are inert text. */
  lemma ExampleTextInert()
    ensures Inert("80") && Inert("apt-get update") && Inert("apt-get install -y curl")
  {
  }
}
