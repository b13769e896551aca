/** The image client: name-to-id resolution, anchor-tag selection, recipe
    assembly and the validation and name-building part of an image pull.
    The daemon is the client's `cli` value (see module `Engine`); each method
    reads it and the client's fields and changes nothing. */
module ImageClient {
  import opened GoStrings
  import opened Engine
  import opened Recipe

  // ---------------------------------------------------------------------
  // Name-to-id resolution.

  /** A tag names the image the client looks for: it is non-empty and equals
      either the qualified name `repo/imageName` or the bare `imageName`. */
  predicate TagMatches(tag: string, repo: string, imageName: string) {
    |tag| > 0 && (tag == repo + "/" + imageName || tag == imageName)
  }

  /** Some tag of the image names the image looked for. */
  predicate CarriesMatchingTag(image: Image, repo: string, imageName: string) {
    exists j :: 0 <= j < |image.repoTags| && TagMatches(image.repoTags[j], repo, imageName)
  }

  /** An empty tag never matches, not even an empty image name. */
  lemma EmptyTagNeverMatches(repo: string, imageName: string)
    ensures !TagMatches("", repo, imageName)
    ensures imageName == "" ==> forall tag :: TagMatches(tag, repo, imageName) <==> tag == repo + "/"
  {
    if imageName == "" {
      assert repo + "/" + imageName == repo + "/";
    }
  }

  // ---------------------------------------------------------------------
  // Anchor selection.

  /** A history record that carries at least one tag. */
  predicate Tagged(r: HistoryRecord) {
    r.tags != []
  }

  /** The anchor tag of a history, found from the far end: the first tag of
      the last tagged record, or `""` when no record is tagged. */
  function AnchorTag(history: seq<HistoryRecord>): (t: string)
    ensures (forall k :: 0 <= k < |history| ==> !Tagged(history[k])) ==> t == ""
    ensures (exists k :: 0 <= k < |history| && Tagged(history[k])) ==>
              exists i :: 0 <= i < |history| && Tagged(history[i]) && t == history[i].tags[0] &&
                forall k :: i < k < |history| ==> !Tagged(history[k])
    decreases |history|
  {
    if history == [] then ""
    else if Tagged(history[|history| - 1]) then history[|history| - 1].tags[0]
    else
      var t := AnchorTag(history[..|history| - 1]);
      AnchorPastUntagged(history, t);
      t
  }

  /** The anchor of a history's front is the anchor of the whole history
      when the last record is untagged. */
  lemma AnchorPastUntagged(history: seq<HistoryRecord>, t: string)
    requires history != [] && !Tagged(history[|history| - 1])
    requires var front := history[..|history| - 1];
      ((forall k :: 0 <= k < |front| ==> !Tagged(front[k])) ==> t == "") &&
      ((exists k :: 0 <= k < |front| && Tagged(front[k])) ==>
         exists i :: 0 <= i < |front| && Tagged(front[i]) && t == front[i].tags[0] &&
           forall k :: i < k < |front| ==> !Tagged(front[k]))
    ensures (forall k :: 0 <= k < |history| ==> !Tagged(history[k])) ==> t == ""
    ensures (exists k :: 0 <= k < |history| && Tagged(history[k])) ==>
              exists i :: 0 <= i < |history| && Tagged(history[i]) && t == history[i].tags[0] &&
                forall k :: i < k < |history| ==> !Tagged(history[k])
  {
    var front := history[..|history| - 1];
    assert forall k :: 0 <= k < |front| ==> front[k] == history[k];
    if exists k :: 0 <= k < |history| && Tagged(history[k]) {
      var k :| 0 <= k < |history| && Tagged(history[k]);
      assert k < |front| && Tagged(front[k]);
      var i :| 0 <= i < |front| && Tagged(front[i]) && t == front[i].tags[0] &&
        forall k :: i < k < |front| ==> !Tagged(front[k]);
      assert Tagged(history[i]) && t == history[i].tags[0];
    }
  }

  /** Adding a record at the end: a tagged one becomes the anchor, an
      untagged one changes nothing. */
  lemma AnchorTagSnoc(history: seq<HistoryRecord>, r: HistoryRecord)
    ensures AnchorTag(history + [r]) == if Tagged(r) then r.tags[0] else AnchorTag(history)
  {
    var h := history + [r];
    assert h[|h| - 1] == r;
    assert h[..|h| - 1] == history;
  }

  /** The anchor of one record more of a history. */
  lemma AnchorTagStep(history: seq<HistoryRecord>, n: nat)
    requires n < |history|
    ensures AnchorTag(history[..n + 1]) == if Tagged(history[n]) then history[n].tags[0] else AnchorTag(history[..n])
  {
    assert history[..n + 1] == history[..n] + [history[n]];
    AnchorTagSnoc(history[..n], history[n]);
  }

  // ---------------------------------------------------------------------
  // Pull-name composition.

  /** The reference `pullImage` builds after validating the stored fields,
      exactly as written: when both arguments are empty the stored repo and
      name are joined with no `/` between them. */
  function PullReferenceAsWritten(storedRepo: string, storedName: string, repo: string, imageName: string): Result<string>
  {
    if |storedRepo| == 0 then Err(InvalidRepo)
    else if |storedName| == 0 then Err(InvalidImageName)
    else if |repo| == 0 && |imageName| == 0 then Ok(storedRepo + storedName)
    else Ok(repo + "/" + imageName)
  }

  /** The reference as evidently intended: the stored repo and name stand in
      for two empty arguments, and repo and name are always joined by `/`. */
  function PullReference(storedRepo: string, storedName: string, repo: string, imageName: string): (r: Result<string>)
    ensures r.Err? <==> storedRepo == [] || storedName == []
    ensures storedRepo == [] ==> r == Err(InvalidRepo)
    ensures storedRepo != [] && storedName == [] ==> r == Err(InvalidImageName)
  {
    if |storedRepo| == 0 then Err(InvalidRepo)
    else if |storedName| == 0 then Err(InvalidImageName)
    else if |repo| == 0 && |imageName| == 0 then Ok(storedRepo + "/" + storedName)
    else Ok(repo + "/" + imageName)
  }

  /** The repo and name a pull stands for: the arguments, or the stored
      fields when both arguments are empty. */
  function EffectiveName(storedRepo: string, storedName: string, repo: string, imageName: string): (string, string)
  {
    if |repo| == 0 && |imageName| == 0 then (storedRepo, storedName) else (repo, imageName)
  }

  /** The corrected reference is what the name lookup recognises as the
      qualified name of the image pulled. */
  lemma PullReferenceIsQualifiedName(storedRepo: string, storedName: string, repo: string, imageName: string)
    requires storedRepo != [] && storedName != []
    ensures var (er, en) := EffectiveName(storedRepo, storedName, repo, imageName);
            PullReference(storedRepo, storedName, repo, imageName) == Ok(er + "/" + en) &&
            TagMatches(er + "/" + en, er, en)
  {
  }

  /** Whenever an argument is given, the code as written and the corrected
      definition agree. */
  lemma PullReferenceAgrees(storedRepo: string, storedName: string, repo: string, imageName: string)
    requires repo != [] || imageName != []
    ensures PullReferenceAsWritten(storedRepo, storedName, repo, imageName) ==
            PullReference(storedRepo, storedName, repo, imageName)
  {
  }

  /** With both arguments empty the code as written drops the `/`: for the
      default repo and `ubuntu:focal` it pulls `docker.io/libraryubuntu:focal`,
      a name the lookup does not recognise for that repo and image. */
  lemma PullReferenceMissingSlash()
    ensures PullReferenceAsWritten("docker.io/library", "ubuntu:focal", "", "") == Ok("docker.io/library" + "ubuntu:focal")
    ensures !TagMatches("docker.io/library" + "ubuntu:focal", "docker.io/library", "ubuntu:focal")
    ensures PullReference("docker.io/library", "ubuntu:focal", "", "") == Ok("docker.io/library" + "/" + "ubuntu:focal")
  {
    var joined := "docker.io/library" + "ubuntu:focal";
    assert |joined| == 29;
    assert |"docker.io/library" + "/" + "ubuntu:focal"| == 30;
  }

  // ---------------------------------------------------------------------
  // The client.

  /** `DockerImageClient`: the configured repo, the image name and id that
      the caller fills in, and the daemon client. */
  class DockerImageClient {
    const repo: string
    var imageName: string
    var imageId: string
    const cli: Client

    /** The struct literal of `newDockerImageClient`; name and id start as
        Go's zero value. */
    constructor (repo: string, cli: Client)
      ensures this.repo == repo && this.cli == cli
      ensures imageName == "" && imageId == ""
    {
      this.repo := repo;
      this.cli := cli;
      imageName := "";
      imageId := "";
    }

    /** `getImageIdByName`: the id of the first image in list order carrying
        a matching tag; `LocalImageNotFound` exactly when there is none; the
        listing's own error unchanged. */
    method GetImageIdByName() returns (r: Result<string>)
      ensures cli.imageList.Err? ==> r == Err(cli.imageList.error)
      ensures cli.imageList.Ok? ==>
                (r.Err? <==> forall i :: 0 <= i < |cli.imageList.value| ==>
                                !CarriesMatchingTag(cli.imageList.value[i], repo, imageName))
      ensures cli.imageList.Ok? && r.Err? ==> r.error == LocalImageNotFound
      ensures r.Ok? ==>
                cli.imageList.Ok? &&
                exists i :: 0 <= i < |cli.imageList.value| &&
                  CarriesMatchingTag(cli.imageList.value[i], repo, imageName) &&
                  r.value == cli.imageList.value[i].id &&
                  forall k :: 0 <= k < i ==> !CarriesMatchingTag(cli.imageList.value[k], repo, imageName)
    {
      if cli.imageList.Err? {
        return Err(cli.imageList.error);
      }
      var imageList := cli.imageList.value;
      var n := 0;
      while n < |imageList|
        invariant 0 <= n <= |imageList|
        invariant forall k :: 0 <= k < n ==> !CarriesMatchingTag(imageList[k], repo, imageName)
      {
        var image := imageList[n];
        var j := 0;
        while j < |image.repoTags|
          invariant 0 <= j <= |image.repoTags|
          invariant forall m :: 0 <= m < j ==> !TagMatches(image.repoTags[m], repo, imageName)
        {
          var i := image.repoTags[j];
          if |i| > 0 && (i == repo + "/" + imageName || i == imageName) {
            assert CarriesMatchingTag(image, repo, imageName);
            return Ok(image.id);
          }
          j := j + 1;
        }
        n := n + 1;
      }
      return Err(LocalImageNotFound);
    }

    /** `getBaseImageTagByImageId`: the history's anchor tag (`""` when no
        record is tagged), or the history call's error unchanged. */
    method GetBaseImageTagByImageId(imageId: string) returns (r: Result<string>)
      ensures cli.imageHistory(imageId).Err? ==> r == Err(cli.imageHistory(imageId).error)
      ensures cli.imageHistory(imageId).Ok? ==> r == Ok(AnchorTag(cli.imageHistory(imageId).value))
    {
      var answer := cli.imageHistory(imageId);
      if answer.Err? {
        return Err(answer.error);
      }
      var imageHistory := answer.value;
      var t := "";
      var n := 0;
      while n < |imageHistory|
        invariant 0 <= n <= |imageHistory|
        invariant t == AnchorTag(imageHistory[..n])
      {
        var ih := imageHistory[n];
        AnchorTagStep(imageHistory, n);
        if |ih.tags| != 0 {
          t := ih.tags[0];
        }
        n := n + 1;
      }
      assert imageHistory[..n] == imageHistory;
      return Ok(t);
    }

    /** `dockerFile`: the recipe for the history of the client's image id
        with anchor `base`, or the history call's error unchanged. */
    method DockerFile(base: string) returns (r: Result<string>)
      ensures cli.imageHistory(imageId).Err? ==> r == Err(cli.imageHistory(imageId).error)
      ensures cli.imageHistory(imageId).Ok? ==> r == Ok(Dockerfile(base, cli.imageHistory(imageId).value))
    {
      var answer := cli.imageHistory(imageId);
      if answer.Err? {
        return Err(answer.error);
      }
      var df := Assemble(base, answer.value);
      return Ok(df);
    }

    /** The validation and name-building prefix of `pullImage`, as corrected:
        the reference to pull, or the validation error. */
    method PullImageReference(repo: string, imageName: string) returns (r: Result<string>)
      ensures r == PullReference(this.repo, this.imageName, repo, imageName)
      ensures repo != [] || imageName != [] ==>
                r == PullReferenceAsWritten(this.repo, this.imageName, repo, imageName)
    {
      if |this.repo| == 0 {
        return Err(InvalidRepo);
      }
      if |this.imageName| == 0 {
        return Err(InvalidImageName);
      }
      var canonicalRepo: string;
      if |repo| == 0 && |imageName| == 0 {
        canonicalRepo := this.repo + "/" + this.imageName;
      } else {
        canonicalRepo := repo + "/" + imageName;
      }
      return Ok(canonicalRepo);
    }
  }

  /** One record more from the far end of the history. */
  lemma EmitOne(prefix: string, history: seq<HistoryRecord>, i: nat, step: string -> string)
    requires i < |history|
    ensures prefix + Emitted(history[i..], step) ==
              prefix + Emitted(history[i + 1..], step) +
              (if history[i].createdBy == "" then "" else step(history[i].createdBy) + "\n")
  {
    assert history[i..][0] == history[i];
    assert history[i..][1..] == history[i + 1..];
    var e := Emitted(history[i + 1..], step);
    var seg := if history[i].createdBy == "" then "" else step(history[i].createdBy) + "\n";
    assert prefix + (e + seg) == prefix + e + seg;
  }

  /** The loop of `dockerFile`: the `FROM` line, then the history walked
      backwards by index, each record with a non-empty `CreatedBy` cleaned
      and appended with a newline. */
  method Assemble(base: string, imageHistory: seq<HistoryRecord>) returns (df: string)
    ensures df == Dockerfile(base, imageHistory)
  {
    df := "FROM " + base + "\n";
    var i := |imageHistory| - 1;
    assert imageHistory[i + 1..] == [];
    // `Emitted` of an empty history, and of a record with an empty
    // `CreatedBy`, adds `""`; the solver needs `df + "" == df` spelled out
    // to match the invariant cheaply on entry and in the skipping branch.
    assert df == df + "";
    while i >= 0
      invariant -1 <= i < |imageHistory|
      invariant df == "FROM " + base + "\n" + Emitted(imageHistory[i + 1..], CleanedStep)
    {
      var history := imageHistory[i].createdBy;
      EmitOne("FROM " + base + "\n", imageHistory, i, CleanedStep);
      if |history| != 0 {
        var steps := CleanStep(history);
        df := df + (steps + "\n");
      } else {
        assert df + "" == df;
      }
      i := i - 1;
    }
    assert imageHistory[0..] == imageHistory;
  }

  /** The text `dockerFile` emits for one non-empty `CreatedBy` string:
      the cleaner, then the keyword loop. */
  method CleanStep(history: string) returns (steps: string)
    ensures steps == CleanedStep(history)
  {
    CleanerPatternsNonEmpty();
    steps := Replace(Cleaner, history);
    steps := KeywordPass(ReservedInstructions, steps);
  }

  /** The keyword loop of `dockerFile`: for each keyword in list order,
      `steps = strings.ReplaceAll(steps, " " + e, e)`. */
  method KeywordPass(keywords: seq<string>, steps: string) returns (out: string)
    ensures out == StripSpaces(keywords, steps)
  {
    out := steps;
    assert keywords[0..] == keywords;
    for j := 0 to |keywords|
      invariant StripSpaces(keywords[j..], out) == StripSpaces(keywords, steps)
    {
      StripSpacesStep(keywords, j, out);
      out := ReplaceAll(out, " " + keywords[j], keywords[j]);
    }
    assert keywords[|keywords|..] == [];
  }

  /** The keyword pass from entry `j` on rewrites with entry `j`, then goes on. */
  lemma StripSpacesStep(keywords: seq<string>, j: nat, steps: string)
    requires j < |keywords|
    ensures StripSpaces(keywords[j..], steps) ==
              StripSpaces(keywords[j + 1..], ReplaceAll(steps, " " + keywords[j], keywords[j]))
  {
    assert keywords[j..][0] == keywords[j];
    assert keywords[j..][1..] == keywords[j + 1..];
  }
}
