# Image history to build recipe: a Dafny model of the image client

This project models the core of `image_client.go`: the client that turns a
container image back into the recipe (a Dockerfile) that could have built it.

- **Name-to-id resolution** (`getImageIdByName`). The client searches the
  daemon's image list for the first image that has a tag equal to
  `repo/imageName` or to the bare `imageName`.
- **Anchor selection** (`getBaseImageTagByImageId`). The client scans the image
  history and keeps overwriting the candidate. The result is the first tag of
  the last tagged record, or `""` when no record is tagged.
- **Recipe assembly** (`dockerFile`). The client writes a `FROM` line. It then
  walks the newest-first history backwards, so the oldest record comes first.
  Each non-empty `CreatedBy` command is cleaned and written as one line:
  - The cleaner is a `strings.Replacer` with three rules: drop the no-op
    marker, prefix `RUN` to the shell prefix, and put a line continuation
    before `&&`.
  - Then `strings.ReplaceAll(steps, " "+kw, kw)` runs once for each entry of
    the reserved-instruction list. `EXPOSE` is listed twice.
- **Pull-name composition** (`pullImage`, lines 159-170). The client checks the
  stored repo and image name, then builds the reference to pull.

Modules:

- `GoStrings` states Go's `strings.ReplaceAll`, `strings.Index` and
  `(*strings.Replacer).Replace` as pure recursive functions over `string`
  (`seq<char>`). It proves `ReplaceAll` equal to Go's own index-driven
  algorithm.
- `Engine` holds what the client sees of the daemon: image and history records,
  the `Error` values and a `Result` type standing for Go's `(value, error)`
  pair. The daemon is a `Client` value: the answer to the image-list call, and
  a function from image id to the answer of the history call.
- `Recipe` holds the specification functions of the recipe and the lemmas about
  them:
  - `Clean`, the replacer;
  - `StripSpaces`, the keyword pass;
  - `CleanedStep`, both together;
  - `Emitted`, the history walked oldest first;
  - `Dockerfile`, the whole recipe.
- `ImageClient` holds the class `DockerImageClient`. Its methods follow the Go
  loops and are proved against the functions above. The module also has the
  predicates and functions for name matching, the anchor tag and the pull
  reference.

Three behaviours of the code are worth knowing:

- **Keyword matching.** Keywords are matched as substrings, not as whole
  tokens, so `" ARGS"` also loses its space (`Recipe.KeywordMatchIsSubstring`).
- **Spaces removed.** `EXPOSE` is listed twice, so up to two spaces before it
  are removed (`Recipe.ExposeListedTwice`). One pass of a keyword listed once
  removes only one of two spaces (`Recipe.OneOfTwoSpaces`).
- **Idempotence.** Cleaning is not idempotent: the shell-prefix rule matches
  its own output, and `&&` gets a second continuation
  (`Recipe.ShellRuleNotIdempotent`, `Recipe.AndRuleNotIdempotent`).

## Model

| member | source | states |
|---|---|---|
| `GoStrings.Index` | image_client.go:134 | `strings.Index`: -1 exactly when the pattern does not occur; otherwise an occurrence with none before it |
| `GoStrings.ReplaceAllAbsent` | image_client.go:134 | `ReplaceAll` returns a string in which the pattern does not occur unchanged |
| `GoStrings.ReplaceAllByIndex` | image_client.go:134 | `ReplaceAll` equals Go's algorithm: copy up to the first occurrence found by `Index`, emit the replacement, and continue after the match; with no occurrence the string is unchanged |
| `GoStrings.ReplaceAllFirstAt` | image_client.go:134 | where the first occurrence is at offset `i`, the first `i` characters are copied, the occurrence is replaced and the rest is rewritten on its own |
| `GoStrings.ReplaceAllSkip` | image_client.go:134 | rewriting step, one unfolding of the definition: a first character that starts no occurrence is copied |
| `GoStrings.FirstMatch` | image_client.go:114-118 | the rule the replacer applies at a position: the earliest-listed pair whose old string is a prefix there, or none |
| `GoStrings.ReplaceAbsent` | image_client.go:132 | a string holding none of the replacer's old strings comes back unchanged |
| `GoStrings.ReplaceAtMatch` | image_client.go:132 | rewriting step, one unfolding of the definition: the chosen old string is consumed, and its new string is emitted and not scanned again |
| `GoStrings.ReplaceCopies` | image_client.go:132 | rewriting step, one unfolding of the definition: where no old string starts, the character is copied |
| `Recipe.CleanerPatternsNonEmpty` | image_client.go:114-118 | fact about a constant: the cleaner's three old strings are non-empty |
| `Recipe.CleanDropsNopMarker` | image_client.go:115 | `/bin/sh -c #(nop) ` is deleted |
| `Recipe.CleanRewritesShell` | image_client.go:116 | where the marker does not match, `/bin/sh -c` becomes `RUN /bin/sh -c` and the inserted text is not rescanned |
| `Recipe.CleanBreaksAnd` | image_client.go:117 | every `&&` becomes a backslash, a newline, four spaces and `&&` |
| `Recipe.CleanCopies` | image_client.go:132 | rewriting step, one unfolding of the definition: a character that starts none of the three patterns is copied |
| `Recipe.CleanPlain` | image_client.go:132 | text without `/` and `&` is copied, whatever follows it |
| `Recipe.CleanInert` | image_client.go:132 | text without `/` and `&` is left as it is |
| `Recipe.ShellRuleNotIdempotent` | image_client.go:116 | cleaning `/bin/sh -c` twice gives `RUN RUN /bin/sh -c`, not the once-cleaned text |
| `Recipe.AndRuleNotIdempotent` | image_client.go:117 | cleaning `&&` twice gives two continuations, not one |
| `Recipe.StripSpacesAbsent` | image_client.go:133-135 | when no keyword occurs after a space, the keyword pass changes nothing |
| `Recipe.SkipByChar` | image_client.go:133-135 | a keyword holding a letter that the text lacks leaves the text unchanged |
| `Recipe.NoSpacedKeyword` | image_client.go:134 | text with no space before an upper-case letter contains no `" " + kw` |
| `Recipe.StripSpacesNoSpacedUpper` | image_client.go:96-113 | the pass over upper-case keywords changes nothing in text with no space before an upper-case letter |
| `Recipe.ReservedUpper` | image_client.go:96-113 | fact about a constant: every reserved instruction begins with an upper-case letter |
| `Recipe.ReservedFacts` | image_client.go:96-113 | fact about a constant: the list has 16 entries: `ENV` first, then `EXPOSE`, `ARG`, `LABEL`, `USER`, and `EXPOSE` again at entry 5 |
| `Recipe.CleanedStepUnchanged` | image_client.go:132-135 | a `CreatedBy` string with none of the cleaner's patterns and no `" " + kw` is emitted unchanged |
| `Recipe.SpaceDropped` | image_client.go:134 | `" " + kw` followed by text without the first letter of `kw` loses that one space |
| `Recipe.KeywordMatchIsSubstring` | image_client.go:133-135 | matching is by substring: `" ARGS…"` comes out as `"ARGS…"` |
| `Recipe.ArgsPass` | image_client.go:96-113 | `ENV` and `EXPOSE` skip `" ARGS…"`, and the `ARG` entry strips its space |
| `Recipe.ExposeListedTwice` | image_client.go:96-113 | with `EXPOSE` listed twice, both spaces of `"  EXPOSE …"` are removed |
| `Recipe.DoubleExposePass` | image_client.go:133-135 | over a list shaped like the reserved list, the first `EXPOSE` entry takes one space and the second takes the other |
| `Recipe.ExposeOnce` | image_client.go:134 | one `ReplaceAll` over two spaces and `EXPOSE` removes only the second space |
| `Recipe.ExposeAgain` | image_client.go:133-135 | past `ARG`, `LABEL` and `USER`, the second `EXPOSE` entry removes the remaining space |
| `Recipe.ExposeAt` | image_client.go:133-135 | at an `EXPOSE` entry, `" EXPOSE …"` loses its space and the later entries change nothing |
| `Recipe.ExposeSpaceDropped` | image_client.go:134 | the `EXPOSE` rewrite removes the one space before the keyword |
| `Recipe.ExposeLineSpacing` | image_client.go:133-135 | an `EXPOSE` line over inert text has no space before an upper-case letter |
| `Recipe.OneOfTwoSpaces` | image_client.go:134 | `ReplaceAll` copies the first of two spaces and matches the second |
| `Recipe.EmittedAppend` | image_client.go:127-137 | the segment of older records comes before that of newer ones |
| `Recipe.EmittedSingle` | image_client.go:128-136 | rewriting step, one unfolding of the definition: a record emits `step(CreatedBy)` and a newline exactly when its `CreatedBy` is non-empty |
| `Recipe.EmittedSkipsEmpty` | image_client.go:129-131 | a record with an empty `CreatedBy` contributes nothing wherever it stands |
| `Recipe.EmittedAllEmpty` | image_client.go:127-131 | a history of records with empty `CreatedBy` emits nothing |
| `Recipe.EmittedPair` | image_client.go:127-137 | for two records with commands, the older one's line comes first |
| `Recipe.DockerfileBeginsWithFrom` | image_client.go:125 | every recipe begins with `"FROM " + base + "\n"` |
| `Recipe.DockerfileExample` | image_client.go:125-137 | a no-op `EXPOSE` layer over a `RUN … && …` layer gives the `FROM` line, the `RUN` line with its continuation, then `EXPOSE` |
| `Recipe.ExposeStep` | image_client.go:132-135 | a no-op `EXPOSE` layer comes out as `EXPOSE …` |
| `Recipe.RunStep` | image_client.go:132-135 | a `RUN` layer comes out with `RUN` in front and a continuation before `&&` |
| `Recipe.RunClean` | image_client.go:132 | the cleaner's output for a `RUN` layer, which has no space before an upper-case letter |
| `Recipe.RunCleanPieces` | image_client.go:114-118 | the three cleaner rules applied along one `RUN` layer |
| `Recipe.ExampleTextInert` | image_client.go:125-137 | fact about a constant: the port and commands of the example recipe contain no upper-case letter, `/`, `&` or `#` |
| `ImageClient.EmptyTagNeverMatches` | image_client.go:70 | an empty tag never matches, and with an empty image name only `repo + "/"` matches |
| `ImageClient.AnchorTag` | image_client.go:84-91 | `""` when no record is tagged; otherwise the first tag of a tagged record with no tagged record after it |
| `ImageClient.AnchorTagSnoc` | image_client.go:85-90 | rewriting step, one unfolding of the definition: one more tagged record becomes the anchor; an untagged one changes nothing |
| `ImageClient.AnchorTagStep` | image_client.go:85-90 | the anchor of the first `n + 1` records, from that of the first `n` |
| `ImageClient.PullReference` | image_client.go:159-170 | an error exactly when a stored field is empty: `InvalidRepo` first, then `InvalidImageName` |
| `ImageClient.PullReferenceIsQualifiedName` | image_client.go:165-170 | the reference pulled is `repo/name` for the name it stands for, which the lookup recognises as that image's qualified tag |
| `ImageClient.PullReferenceAgrees` | image_client.go:168-170 | whenever an argument is given, the code as written and the corrected definition agree |
| `ImageClient.PullReferenceMissingSlash` | image_client.go:166-167 | with both arguments empty the code as written pulls `docker.io/libraryubuntu:focal`, a tag the lookup does not match |
| `ImageClient.DockerImageClient.constructor` | image_client.go:51-56 | the repo and daemon are those given; image name and id start empty |
| `ImageClient.DockerImageClient.GetImageIdByName` | image_client.go:59-77 | a listing error is returned unchanged; otherwise the id of the first image in list order with a matching tag, and `LocalImageNotFound` exactly when no image has one |
| `ImageClient.DockerImageClient.GetBaseImageTagByImageId` | image_client.go:79-92 | a history error is returned unchanged; otherwise `AnchorTag` of the history |
| `ImageClient.DockerImageClient.DockerFile` | image_client.go:121-138 | a history error is returned unchanged; otherwise `Dockerfile(base, history)` of the client's image id |
| `ImageClient.DockerImageClient.PullImageReference` | image_client.go:158-170 | the validation result and the reference to pull, by the corrected definition; whenever an argument is given, exactly what the code as written returns |
| `ImageClient.Assemble` | image_client.go:125-137 | the backwards loop builds exactly `Dockerfile(base, history)` |
| `ImageClient.CleanStep` | image_client.go:132-135 | the cleaner followed by the keyword loop gives `CleanedStep` |
| `ImageClient.KeywordPass` | image_client.go:133-135 | the loop reassigning `steps` computes `StripSpaces` over the list |

## Left out

- **Daemon calls.** `client.NewEnvClient`, `ImageList`, `ImageHistory`,
  `ImagePull` and the container calls are foreign network calls. The daemon is
  the `Engine.Client` value held by the client. It gives the answer to the list
  call and, for each id, the answer to the history call, so a call is a lookup
  and has no effects.
- **The `("", err)` pair.** A Go `("", err)` return is `Err(err)`. The zero
  value is implied.
- **Errors.** Errors are `Engine.Error` values. Error strings are not
  modelled, and a daemon error is the opaque `Daemon(message)`.
- **`updateImagePullOptions`.** It marshals JSON and encodes base64, and its
  guard `len(...) >= 0` always holds. It is not part of this model.
- **The rest of `pullImage`.** The logging, the pull stream, the decode loop
  and the progress bar are I/O. Only the validation and the building of the
  reference, lines 159-170, are modelled.
- **Other code.** `runContainer`, the log-level switch and logger setup in
  `newDockerImageClient`, and `main.go` are orchestration, logging and
  process control.
- **Bytes.** Go strings are bytes and the model's strings are characters. Every
  pattern used is ASCII, and ASCII bytes never occur inside a multi-byte UTF-8
  sequence, so the matches are the same.
- **Empty old strings.** `strings.NewReplacer` with an empty old string is not
  modelled: `Replace` requires non-empty old strings, which the cleaner has.
  `ReplaceAll` with an empty pattern is modelled but never used.
- **Whole-token keyword matching** is not modelled, because the code matches
  substrings.
- **Idempotence of cleaning** is not claimed, because it does not hold. Two
  lemmas show it failing.
- `Recipe.DockerfileExample`: the recipe for a no-op `EXPOSE 80` layer over
  a `RUN apt-get update && apt-get install -y curl` layer tagged `base:1` is
  stated for any base and any inert port and commands. `Recipe.ExampleTextInert` shows
  that the example's own text is inert. The instance with every string written
  out is not a lemma of its own, because unfolding the rewrite functions on
  literal text is too costly for the verifier.
- `ImageClient.DockerImageClient.PullImageReference` follows the corrected
  reference (see Findings) when both arguments are empty, and the code as
  written otherwise. The code as written is
  `ImageClient.PullReferenceAsWritten`.

## Findings

| source | as written | input that shows it | evidently intended | confidence | as-written member | corrected member |
|---|---|---|---|---|---|---|
| image_client.go:166-167 | with an empty `repo` and `imageName` argument the canonical name is `d.repo + d.imageName`, with no `/` | stored repo `docker.io/library`, stored name `ubuntu:focal`, both arguments `""`: the name pulled is `docker.io/libraryubuntu:focal`. The bug is latent: the only callers, main.go:52 (`dir.repo, dir.imageName`, both non-empty once validated) and main.go:87-88 (`"docker.io"`, `"nate/dockviz:latest"`), never pass two empty arguments | `d.repo + "/" + d.imageName`, the form line 169 builds and line 70 looks up. The intent is open: the comment at main.go:34 gives the default repo as `docker.io/library/`, with a trailing slash, under which line 167 would be right, while the flag default at main.go:22 is `docker.io/library`, without one | low, not executed | `ImageClient.PullReferenceAsWritten`, `ImageClient.PullReferenceMissingSlash` | `ImageClient.PullReference`, `ImageClient.PullReferenceIsQualifiedName` |
