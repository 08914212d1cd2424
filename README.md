# gogit, modelled in Dafny

gogit is a helper run from git's pre-commit and pre-push hooks in a Go repository. Each
action (`pre-commit`, `pre-push`, `gotests`, `mdtoc`, `gittag`, …) runs a fixed list of
checks in order and stops at the first one that fails. Along the way it collects error
lines and suggested shell commands. This project models the logic behind those checks and
proves properties of it:

- `tag` is a version tag `v<major>.<minor>.<detail>` (module `Tag`). It covers parsing with
  `strconv.Atoi`, the lexicographic `Less`/`Equal`/`Greater`, rendering, the successor
  `Next`, `IsZero`, and the text-level `Next` that falls back to `$TAG`.
- `tags` is an append-only tag collection (module `Tags`, class `Tags.Tags`). It has `Add`,
  `HasTags` and `Highest`, plus a text-level `Next` guarded by the tag regular expression.
- `errs` is the package-wide list of error lines (class `Errs.ErrorList`).
- `action` is the package-wide list of suggestions (class `Action.Suggestions`).
- `run` is the memo cache behind `run.Exec` (class `Run.Cache`). The command runner is a
  function from a command line to its output text and a failed flag.
- `testframe` holds test-file naming, package-name extraction and `Make` (module `TestFrame`).
  The file system is a map from path to contents.
- The command `gogit` (module `GoGit`) covers:
  - the check lists of each action and running them in order;
  - `make-test-frame`;
  - the push gate of `gitTag`;
  - the handling of local and remote tag lines;
  - the README table-of-contents markers;
  - the pairing of Go sources with tests;
  - the "working tree clean" test.

Supporting modules:

- `GoStrings` holds the parts of Go's `strings` package that the code uses. `Split` and
  `Join` are proved to be inverses.
- `StrConv` holds `strconv.Atoi` and `Itoa` over the 64-bit `int` of Go. It proves that
  `Atoi(Itoa(n)) == n` for every `n`, and that `Itoa(Atoi(s)) == s` for canonical numerals.
- `Wrappers` holds `Option` and `Result`.

A Go pointer that may be nil is an `Option`. A Go `error` is either an `Option` of an error
datatype or a `Result`. Go's package-level variables become objects.

The tag ordering is the numeric part of precedence in section 11 of Semantic Versioning
2.0.0. This is proved in `Tag.LessIsPrecedence`. The parser is not a Semantic Versioning
parser: `Atoi` accepts a sign and leading zeros.

## Where the code, its tests and its callers disagree

The model follows the code as written. Verifying it shows these discrepancies:

- **`tags.Add` splits on commas** (tags/tags.go:36). It needs exactly three comma-separated
  parts after the `v`.
  - So `v1,2,3` is accepted (`Tags.ParseCommaText`), and any text without a comma is
    refused (`Tags.ParseNeedsCommas`).
  - tags/tags_test.go:15 expects `Add("v1.0.0")` to succeed. That cannot hold
    (`Tags.TestAllFirstAddFails`).
- **`tags.Highest` is not the maximum** (tags/tags.go:70-72). The candidate is replaced when
  any single component of the new tag is larger.
  - For `[v1.1.0, v1.0.5]` it returns `v1.0.5` (`Tags.HighestIsNotTheMaximum`).
  - It still returns the last tag of a strictly ascending list (`Tags.AscendingPicksLast`).
  - A lexicographically greater later tag always takes over (`Tags.GreaterReplaces`).
  - The name `Highest` suggests a maximum. tags/tags_test.go:14-38 adds five tags in
    ascending order and expects `Highest` to give the last one after each. The adds
    themselves fail, as said above. On an ascending list the scan does pick the last tag,
    but only because the list ascends. The code does not promise a tag that is greater than
    or equal to every other.
- **`Highest` returns `(string, error)`** (tags/tags.go:64). Yet gogit.go:322,
  gogit.go:354 and tags/tags_test.go:52 use its result as a `*tag.Tag`.
  - The model returns what tags/tags.go computes: the text of the chosen tag, or an error
    for an empty list.
  - In `localGitTag` and `remoteGitTag`, the model reads that text back into a tag
    (`GoGit.TagOfHighest`).
- **Consequences in gogit.go.**
  - `localGitTag` refuses every line of `git tag` output that has no comma, which means
    every ordinary tag such as `v1.2.3` (`GoGit.LocalTagsNeedCommas`).
  - `remoteGitTag` never yields a tag. A candidate comes only from a `refs/tags/` line that
    also holds a match of `v\d+\.\d+\.\d+`, and only when the output has at least two
    lines. Each candidate is such a match and so holds no comma, which makes `tags.Add`
    refuse it (`GoGit.RemoteTagsNeverParse`).
  - So with at least two lines of output and at least one candidate, the check fails.
    Otherwise it finds no tag.
- **`tags.Next` and `tag.Next` disagree on negative components.** `tag.Next("v-1.0.0")` is
  `v-1.0.1`, but `tags.Next("v-1.0.0")` is `$TAG`, because the regular expression needs
  digits after the `v` (`Tags.NextDisagreesOnNegative`). On non-negative tags the two
  agree (`Tags.NextAgreesWithTagNext`).
- **`goTests` and `make-test-frame` name tests differently.** `goTests` replaces the first
  `.go` in the path (gogit.go:186). `testframe.Make` replaces a trailing `.go`
  (testframe/testframe.go:31-32).
  - For `a.go.d/b.go`, `goTests` wants `a_test.go.d/b.go`, while `make-test-frame` writes
    `a.go.d/b_test.go` (`GoGit.WantTestDiffersFromTestName`).
  - They agree when `.go` appears only at the end (`GoGit.WantTestIsTestName`).

## Model

| member | source | states |
|---|---|---|
| GoStrings.TrimPrefix | tag/tag.go:28 | with the prefix present, the prefix followed by the result is the text; without it the text is unchanged |
| GoStrings.TrimSuffix | testframe/testframe.go:32 | with the suffix present, the result followed by the suffix is the text; without it the text is unchanged |
| GoStrings.Split | tag/tag.go:28 | at least one piece, no piece holds the separator, and joining the pieces with it gives the text back |
| GoStrings.SplitJoin | tags/tags.go:83-92 | splitting a join of separator-free pieces gives back exactly those pieces |
| GoStrings.HasPrefix | testframe/testframe.go:45 | the text's first characters are the prefix |
| GoStrings.HasSuffix | gogit.go:175 | the text's last characters are the suffix |
| GoStrings.Contains | gogit.go:218 | the text has the other text at some position |
| GoStrings.Join | run/run.go:14 | the pieces with one separator between each two; GoStrings.SplitJoin reads them back |
| GoStrings.DropEmpty | run/run.go:22-27 | the result is non-empty strings only, and holds exactly the non-empty strings of the input |
| GoStrings.DropEmptyCounts | run/run.go:22-27 | every non-empty string is kept as many times as the input holds it, and "" not at all |
| GoStrings.DropEmptyAppend | errs/errs.go:11-15 | dropping empty strings from two lists joined is dropping from each and joining, so what is kept stays in the input's order |
| GoStrings.DropEmptySnoc | errs/errs.go:11-15 | one more string adds itself to the result exactly when it is not empty |
| GoStrings.DropEmptyNonEmpty | errs/errs.go:11-15 | a list holding a non-empty string keeps something |
| GoStrings.DropEmptyKeepsNonEmpty | errs/errs.go:11-15 | a list with no empty string is kept whole, in order |
| GoStrings.ReplaceFirst | gogit.go:186 | a text that does not contain the pattern comes back unchanged |
| StrConv.Inc | tags/tags.go:91 | n + 1 in 64-bit two's complement: (n - MinInt + 1) mod 2^64 + MinInt, so MaxInt wraps to MinInt; below MaxInt the result is larger |
| StrConv.Itoa | tag/tag.go:91 | the numeral starts with '-' exactly for negative numbers and is otherwise digits |
| StrConv.DigitRun | tag/tag.go:13 | a length within the text, after which comes no digit |
| StrConv.DigitRunAll | tag/tag.go:13 | the measured run is digits only, so DigitRun is the whole greedy run of digits |
| StrConv.DigitRunExact | tag/tag.go:13 | digits followed by a non-digit or the end are a run of exactly their length |
| StrConv.DigitRunOf | tag/tag.go:13 | a digit string between any text and a non-digit is a run of its own length |
| StrConv.DigitRunStart | tag/tag.go:34-45 | a digit string that starts a text, before a non-digit or the end, is its leading run |
| StrConv.DigitRunEnd | tag/tag.go:13 | a digit string that ends a text is a run of its own length |
| StrConv.Atoi | tag/tag.go:34-45 | after one optional sign: a range error whenever the leading digits exceed a uint64, whatever follows, with MaxInt (MinInt after '-'); otherwise a syntax error with value 0 exactly when the text is empty or not all digits |
| StrConv.RunValueAll | tag/tag.go:34-45 | for a text of digits only, the leading run's value is the whole text's value |
| StrConv.OverflowBeforeJunk | tag/tag.go:34-45 | digits above the uint64 range followed by a non-digit are a range error, MaxInt, or MinInt after '-', not a syntax error |
| StrConv.AtoiItoa | tag/tag.go:90-92 | every 64-bit int printed in decimal parses back to itself with no error |
| StrConv.ItoaCanonical | tag/tag.go:90-92 | printed numbers are canonical: an optional '-' and no leading zero |
| StrConv.ItoaAtoi | tag/tag.go:34-45 | a canonical numeral that parses prints back as the same text |
| Tag.Tag.Equal | tag/tag.go:76-81 | true exactly when the other tag is present and has the same three components; a nil tag equals nothing |
| Tag.Tag.String | tag/tag.go:90-92 | the rendering starts with 'v' (its round trip is Tag.NewString) |
| Tag.Tag.Next | tag/tag.go:94-102 | a new tag with the same major and minor and the detail plus one, which is Greater than the receiver; the detail wraps at the largest int |
| Tag.NewZero | tag/tag.go:49-55 | the zero tag is zero |
| Tag.IsZero | tag/tag.go:104-106 | true exactly for a nil tag and for v0.0.0 |
| Tag.New | tag/tag.go:23-47 | refuses text without a leading 'v', and text whose remainder does not split on '.' into three parts; succeeds exactly when all three parts parse |
| Tag.Next | tag/tag.go:108-114 | "$TAG" exactly when New refuses the text; otherwise a tag text that New parses into the successor of the parsed tag |
| Tag.NewKeepsParsedFields | tag/tag.go:34-45 | when a component fails to parse, the error names that component, and the components before it are already set in the returned tag |
| Tag.PartsOfString | tag/tag.go:28 | a rendered tag, its 'v' removed, splits on '.' into the three numerals |
| Tag.NewString | tag/tag.go:23-47 | every tag's rendering parses back to that tag with no error |
| Tag.StringNew | tag/tag.go:90-92 | rendering a parsed canonical tag text gives that text back |
| Tag.LessIsPrecedence | tag/tag.go:57-74 | Less is exactly lexicographic precedence on (major, minor, detail) |
| Tag.LessStrictOrder | tag/tag.go:57-74 | Less is irreflexive and transitive |
| Tag.Trichotomy | tag/tag.go:76-88 | exactly one of Less, Equal and Greater holds for two tags, and Greater is Less with the arguments swapped |
| Tag.NextOfString | tag/tag.go:108-114 | the text-level Next of a rendered tag renders the tag's successor |
| Tag.NextExamples | tag/tag_test.go:7-37 | v0.0.0 to v0.0.1, v0.0.1 to v0.0.2, v0.0.9 to v0.0.10, v12.34.99 to v12.34.100, and "" to $TAG |
| Tag.NewRejectsExamples | tag/tag.go:25-31 | "v1.2" is refused for having two parts and "1.2.3" for lacking the 'v' |
| Tag.CompareExamples | tag/tag_test.go:39-134 | the comparison and IsZero cases of the package's tests |
| Tag.Tag.Less | tag/tag.go:57-74 | the component-by-component comparison; Tag.LessIsPrecedence proves it is lexicographic order |
| Tag.Tag.Greater | tag/tag.go:83-88 | neither Less nor Equal; Tag.Trichotomy proves it is Less with the tags swapped |
| Tag.MatchAt | tag/tag.go:13 | a match of v\d+\.\d+\.\d+ starting at a position lies within the text, is at least six characters and starts with 'v' |
| Tag.MatchChars | tag/tag.go:13 | after its 'v' a match holds only digits and dots |
| Tag.MatchedText | tag/tag.go:13 | the matched text is a piece of the text, 'v' and at least five digits and dots, and holds no ',' |
| Tag.MatchOf | tag/tag.go:13 | "v" and three non-empty digit runs joined by dots match in full |
| Tag.MatchString | tags/tags.go:80 | the pattern matches somewhere in the text exactly when the leftmost-match search finds a position |
| Tag.NoDigitAfterV | tag/tag.go:13 | a text in which no 'v' is followed by a digit holds no match |
| Tag.FindFrom | tag/tag.go:17 | the first position from which the tag pattern matches, with no match before it |
| Tag.FindString | gogit.go:339 | empty exactly when the text holds no match; otherwise the text of the leftmost match, which never contains a comma |
| Tag.FoundAt | gogit.go:339 | the text at the position the search finds is a non-empty, comma-free leftmost match |
| Tag.LeftmostAt | gogit.go:339 | a match with no match starting before it is the leftmost match |
| Tag.FindStringShape | gogit.go:339 | a non-empty result is a piece of the text: 'v' and at least five digits and dots |
| Tag.MatchTagString | tag/tag.go:90-92 | a tag with non-negative components renders as text that the tag pattern matches from its first character |
| Tags.Parse | tags/tags.go:32-54 | refuses text without a leading 'v'; success needs exactly three comma-separated parts after it |
| Tags.Beats | tags/tags.go:70-72 | a tag lexicographically greater than the candidate beats it, and no tag beats itself |
| Tags.Scan | tags/tags.go:68-75 | the scan's candidate is one of the tags seen so far |
| Tags.Chosen | tags/tags.go:64-77 | Highest's choice is a position in the list |
| Tags.Tags.constructor | tags/tags.go:26-30 | a new collection is empty |
| Tags.Tags.Add | tags/tags.go:32-58 | on success exactly the parsed tag is appended and earlier tags are kept; on error the list is unchanged and the parse error is returned |
| Tags.Tags.HasTags | tags/tags.go:60-62 | true exactly when the list is not empty |
| Tags.Tags.Highest | tags/tags.go:64-77 | an error for an empty list; otherwise the rendering of the tag the scan picks, which is an element of the list |
| Tags.Next | tags/tags.go:79-93 | "$TAG" exactly when the text has no tag-shaped match, does not split on '.' into three parts, or its last part does not parse; otherwise the same first two parts and the last part's value plus one |
| Tags.ParseNeedsCommas | tags/tags.go:36-39 | text without a comma never parses |
| Tags.CommaPieces | tags/tags.go:33-37 | "v" and three comma-free texts joined by ',' start with 'v' and split back into those three texts |
| Tags.ParseOfPieces | tags/tags.go:36-57 | "v" and three comma-separated numerals parse into their values |
| Tags.ParseCommaText | tags/tags.go:36-57 | every tag written with commas parses back to itself |
| Tags.TestAllFirstAddFails | tags/tags_test.go:14-18 | Add("v1.0.0"), which the test expects to succeed, is refused |
| Tags.ScanNotBeatenLater | tags/tags.go:68-75 | no tag after the candidate beats it in any component |
| Tags.GreaterReplaces | tags/tags.go:70-72 | a later tag lexicographically greater than the candidate becomes the candidate |
| Tags.AscendingPicksLast | tags/tags.go:68-75 | on a strictly ascending list the candidate is always the latest tag |
| Tags.HighestIsNotTheMaximum | tags/tags.go:70-72 | for [v1.1.0, v1.0.5] the choice is v1.0.5, which is less than v1.1.0 |
| Tags.StringDots | tags/tags.go:83 | a rendered tag splits on '.' into "v" and the major, the minor, and the detail |
| Tags.NextOfPieces | tags/tags.go:83-92 | a matching text of three dot-separated parts gets its last part replaced by its value plus one |
| Tags.NextAgreesWithTagNext | tags/tags.go:79-93 | on a tag with non-negative components both text-level Next functions give the same text |
| Tags.NegativeTextUnmatched | tags/tags.go:80 | "v-1.0.0" holds no match of the tag pattern |
| Tags.NextDisagreesOnNegative | tags/tags.go:79-82 | tags.Next gives $TAG for "v-1.0.0" where tag.Next gives v-1.0.1 |
| Tags.RenderNegative | tag/tag.go:90-102 | v-1.0.0 renders with its sign and its successor is v-1.0.1 |
| Errs.ErrorList.constructor | errs/errs.go:8 | the list starts empty |
| Errs.ErrorList.Err | errs/errs.go:19-24 | nil exactly when the list is empty; otherwise a message whose lines are the list's lines |
| Errs.ErrorList.Add | errs/errs.go:10-17 | appends the non-empty arguments in order, keeps the earlier lines, returns what Err then returns, and that is non-nil after any non-empty argument |
| Action.Suggestions.constructor | action/action.go:10 | the list starts empty |
| Action.Suggestions.Suggest | action/action.go:12-16 | appends exactly one entry, two spaces and the text, keeps earlier entries, and returns the text without the indent |
| Action.Suggestions.Output | action/action.go:18-25 | nothing for no suggestions; otherwise a header line followed by every suggestion in order, each indented |
| Action.TenSuggestions | action/action_test.go:7-14 | ten suggestions make ten entries |
| Run.Key | run/run.go:14 | a command whose words hold no space splits back out of its key; Run.KeysCollide shows words with spaces colliding |
| Run.Lines | run/run.go:22-27 | the kept lines are non-empty and hold no newline |
| Run.Cache.constructor | run/run.go:10 | the cache starts empty |
| Run.Cache.Exec | run/run.go:13-36 | a hit returns the stored lines, no failure and leaves the cache alone; a miss runs the command, stores its lines under the joined key whether or not it failed, and returns them with the failure |
| Run.SplitText | run/run.go:23 | newline-free lines joined with a trailing newline split into those lines and an empty last piece |
| Run.DropTrailingEmpty | run/run.go:23-26 | dropping empty strings removes only that last piece |
| Run.LinesOfText | run/run.go:22-27 | output made of non-empty lines, each ended by a newline, yields exactly those lines |
| Run.KeysCollide | run/run.go:14 | ["a b"] and ["a", "b"] share one cache key |
| Run.FailureIsForgotten | run/run.go:28-35 | a failed command, run again, returns the same lines with no failure |
| Run.OneEntry | run/run_test.go:7-30 | one command run on a new cache leaves exactly one entry |
| TestFrame.TestName | testframe/testframe.go:31-32 | the name ends in "_test.go", with a trailing ".go" removed first if present |
| TestFrame.TestNameDiffers | testframe/testframe.go:31-36 | the test file is never the source file itself |
| TestFrame.FirstPackageLine | testframe/testframe.go:43-53 | the index of the first line that starts with "package" |
| TestFrame.PackageOf | testframe/testframe.go:43-56 | a package name found is one non-empty word without a newline |
| TestFrame.PackageName | testframe/testframe.go:43-56 | the loop that stops at the first package line concludes what PackageOf states |
| TestFrame.Frame | testframe/testframe.go:9-20 | the frame for a package; TestFrame.FramePackage proves it declares that package |
| TestFrame.MakeOf | testframe/testframe.go:22-62 | on success the source existed and its test file did not; the files gain exactly the test file, keep every other file, and the new file declares the source's package |
| TestFrame.Make | testframe/testframe.go:22-62 | refuses a "_test.go" source, a missing source and an existing test file; otherwise it succeeds exactly when a package name is found, and then adds only the test file, with the frame for that package; its result is MakeOf's |
| TestFrame.PackageLine | testframe/testframe.go:43-56 | a first line "package" plus one word names that word, whatever follows |
| TestFrame.FramePackage | testframe/testframe.go:9-20 | the test file written declares the package that was read |
| TestFrame.PackageNameFoo | testframe/testframe_test.go:14-18 | "package foo" names foo |
| TestFrame.PackageNameThreeWords | testframe/testframe_test.go:19-23 | "package foo bar" is refused for its package line |
| TestFrame.PackageNameMissing | testframe/testframe_test.go:24-28 | a text without a package line has no package name |
| GoGit.Checks | gogit.go:68-81 | every known action has a non-empty check list |
| GoGit.PrePushExtendsPreCommit | gogit.go:71-77 | the pre-push list is the pre-commit list followed by allCommitted, haveRemote and gitTag |
| GoGit.ActionsStartAtGitTop | gogit.go:68-81 | every action except mdtoc starts by going to the git top and checking the hooks |
| GoGit.PrePushRunsEveryCheck | gogit.go:68-81 | every check of any action is in the pre-push list |
| GoGit.FirstFailure | gogit.go:86-88 | the checks before it pass and the one at it fails |
| GoGit.RunChecks | gogit.go:86-88 | runs the checks in order up to and including the first failure and reports that failure |
| GoGit.FirstFailureAt | gogit.go:97-103 | a position before which every check passes and at which one fails is the first failure |
| GoGit.RunAction | gogit.go:82-103 | an unknown action exits with 1 and runs nothing; the exit code is 0 exactly when every check of the action passes; the checks run are a prefix of the list |
| GoGit.PrePushCleanMeansPreCommitClean | gogit.go:71-77 | a pre-push that passes means pre-commit passes too |
| GoGit.MakeAll | gogit.go:57-59 | testframe.Make on each name in turn, on the files the previous name left, stopping at the first error |
| GoGit.MakeAllGrows | gogit.go:57-59 | after success no existing file changed, every name has its test file, and every added file is the test file of a name |
| GoGit.TestFileAdded | gogit.go:57-59 | one more successful Make keeps those three facts with its name added |
| GoGit.MakeAllStops | gogit.go:57-59 | the first error is the outcome: the names after it change nothing |
| GoGit.MakeTestFrames | gogit.go:53-61 | no arguments exits with 1; exit 0 exactly when MakeAll succeeds, with MakeAll's files; on exit 1 the files are those the names before the first failing one made; no existing file changes; every new file is the test name of an argument |
| GoGit.PushBlocked | gogit.go:280 | the remote tag is not zero and the local tag is not Greater; GoGit.PushBlockedMeaning states it in terms of Less |
| GoGit.PushBlockedMeaning | gogit.go:280 | the push is blocked exactly when the remote tag exists, is not v0.0.0, and is not lexicographically before the local tag |
| GoGit.SuggestionUnblocks | gogit.go:281-289 | tagging locally with the suggested remote.Next() unblocks the push |
| GoGit.GitTagVerdict | gogit.go:269-298 | a local error comes first, then a remote error, then the gate; when blocked it suggests remote.Next() |
| GoGit.FirstUnparsed | gogit.go:313-321 | the position of the first line that does not parse, with all lines before it parsing |
| GoGit.ParsedAppend | gogit.go:313-320 | one more line that Add accepts extends the accepted lines, and appends exactly its tag |
| GoGit.TagOfHighest | gogit.go:322 | the tag that Highest's scan chooses |
| GoGit.LocalGitTag | gogit.go:300-323 | a failed command is an error; no lines is an error; the first line that does not parse is reported; otherwise the tag Highest chooses |
| GoGit.FirstUnparsedAt | gogit.go:313-321 | a line refused after lines that all parse is the one reported |
| GoGit.LocalTagsNeedCommas | gogit.go:312-321 | local tags are accepted only when every line holds a comma |
| GoGit.RemoteCandidate | gogit.go:335-340 | a candidate comes only from a line with "refs/tags/", is that line's first tag-pattern match, and holds no comma |
| GoGit.RemoteCandidates | gogit.go:335-350 | at most one non-empty, comma-free candidate per line |
| GoGit.CandidatesStep | gogit.go:335-349 | one more line adds its candidate, when it has one, after those of the earlier lines |
| GoGit.RemoteGitTag | gogit.go:325-355 | a failed command is an error; fewer than two lines is no tag; a refused candidate is an error; no candidates is no tag; otherwise the tag Highest chooses |
| GoGit.CandidateIn | gogit.go:335-339 | a line's candidate is among those collected |
| GoGit.RemoteRefused | gogit.go:340-348 | one refused candidate makes the remote scan fail |
| GoGit.RemoteTagsNeverParse | gogit.go:335-350 | whenever there is any candidate, the remote scan fails |
| GoGit.IsTocMarker | gogit.go:243 | the line starts with the start marker or the end marker |
| GoGit.MarkerCount | gogit.go:241-246 | at most one count per line |
| GoGit.MarkerCountAppend | gogit.go:241-246 | the count of two texts together is the sum of their counts |
| GoGit.NoMarkers | gogit.go:241-246 | lines without markers count zero |
| GoGit.TwoMarkers | gogit.go:241-257 | two marker lines among others count two, wherever they are |
| GoGit.TwoStartMarkers | gogit.go:243 | two start markers also count two |
| GoGit.CheckMdToc | gogit.go:236-267 | no README is an error; no markers is a non-fatal notice; two markers refresh the table of contents, and a failing refresh is an error; any other count is an error |
| GoGit.Classify | gogit.go:172-177 | tests are the paths ending "_test.go"; sources are the other paths ending ".go" |
| GoGit.PairTests | gogit.go:185-193 | the sources lacking their wanted test, and whether any source has one |
| GoGit.CheckGoTests | gogit.go:163-208 | names exactly the sources without a test; the tests run exactly when some source has one; it passes exactly when nothing lacks a test and no test run failed |
| GoGit.WantTest | gogit.go:186 | the first ".go" in the path replaced by "_test.go"; GoGit.WantTestFirstGo proves it |
| GoGit.NoGoAtStart | gogit.go:186 | a path whose head holds no ".go" does not start with it |
| GoGit.NoGoInTail | gogit.go:186 | dropping the head character of a ".go"-free text keeps it ".go"-free |
| GoGit.WantTestStep | gogit.go:186 | a path that does not start with ".go" keeps its first character and replaces in the rest |
| GoGit.WantTestFirstGo | gogit.go:186 | the wanted test replaces the first ".go" in the path |
| GoGit.WantTestIsTestName | gogit.go:186 | for a path with ".go" only at its end, the wanted test is the name make-test-frame writes |
| GoGit.WantTestDiffersFromTestName | gogit.go:186 | for every path with a ".go" before its final ".go", such as "a.go.d/b.go", the test goTests wants differs from the test make-test-frame writes |
| GoGit.CheckAllCommitted | gogit.go:210-228 | passes exactly when the command ran and some status line contains "working tree clean" |
| GoGit.CleanMessageAnywhere | gogit.go:217-221 | the message is recognised wherever it appears in the line |

## Left out

- Process execution is left out. `exec.Command`, and every `run.Exec` inside the gogit checks, becomes either a runner function given to `Run.Cache.Exec` or the output lines and failed flag passed to the check.
- The file system is a map or a given value. `os.Stat`, `ReadFile`, `WriteFile`, `Chdir` and `filepath.WalkDir` are not modelled as calls. Errors reported by `WalkDir` are not modelled.
- Console output is left out: the out package, and colorstring rendering in `action.Output`. `Action.Suggestions.Output` returns its lines. Its header is the text without colour markup.
- pkggodev is not part of this model. It is an HTTP request to pkg.go.dev.
- `hooksInstalled`, `gotoGitTop`, `stdFiles`, `goVets` and `haveRemote` are file-system or process checks. They appear only as named checks whose outcome `GoGit.RunAction` takes as input.
- `usage`, its text, and `os.Exit` are left out. They become the exit code of `GoGit.RunAction` and `GoGit.MakeTestFrames`.
- `Action.Suggestions.Suggest` takes the already-formatted text. `fmt.Sprintf`'s variadic formatting is not modelled.
- Error and suggestion texts are left out. Error messages are datatypes such as `Tag.TagError`, `Tags.TagsError`, `TestFrame.MakeError` and `GoGit.TagCheckError`. The error lines and suggestions that the gogit checks add to `errs` and `action` are not modelled.
- GoGit.CheckGoTests: it does not model that errors already in the global list make the check fail. Go's map iteration order is not modelled either: the sources lacking a test are a set.
- GoGit.GitTagVerdict: it takes the results of `localGitTag` and `remoteGitTag` as arguments. It does not model that `remoteGitTag` is not run after `localGitTag` fails.
- GoGit.RunAction: each check's outcome is a fixed function of the check. State that one check leaves for the next, such as the working directory or collected errors, is not modelled.
- GoGit.TagOfHighest: `Highest` returns text, not the `*tag.Tag` its callers expect. The model parses the chosen tag's text back, which gives the chosen tag.
- The regular expression `v\d+\.\d+\.\d+` is a hand-written matcher, `Tag.MatchAt` and `Tag.FindString`. It finds the leftmost match, and its digits are the ASCII digits, as in Go's RE2.
- TestFrame.Make: a failure to read the source or to write the test file is not modelled. Only a missing source is.
- `strconv.Atoi` is modelled for a 64-bit `int`. The digits are read from the left. Once they exceed a uint64 the result is a range error, even if a non-digit follows. Any other out-of-range numeral is also a range error. In both cases the value is clamped to MaxInt or MinInt. A 32-bit platform is not modelled.
- Run.Cache.Exec: the title printed before running is left out, and so is the kind of error a failed command gives. A failure is a flag. The precondition stands for Go's index panic on an empty command that is not cached.
